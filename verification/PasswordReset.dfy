/** One password-reset link under overlapping redemptions: at most one of them changes the password, and giving
the link back after a recoverable failure never prolongs it. Time is real. */
module PasswordReset {
  import opened Wrappers

  /** `exp` is the token's `exp` claim and `validUntil` the instant from which decoding rejects it: the JWT library
  may round the claim. `key` is the deadline of the link's Redis entry, until somebody takes the entry. `checked`
  holds the requests whose token was found valid, `winners` those that took the entry and have not finished. */
  datatype State = State(
    now: real, exp: real, validUntil: real, key: Option<real>, checked: set<nat>, winners: set<nat>, updates: nat)

  datatype Step =
    | Check(request: nat)
    | Take(request: nat)
    | GiveBack(request: nat)
    | Update(request: nat)
    | Crash(request: nat)
    | Tick(seconds: real)

  predicate KeyLive(s: State) { s.key.Some? && s.now < s.key.value }

  /** Whole seconds left to the link, as `int` cuts them. */
  function Remaining(s: State): int { (s.exp - s.now).Floor }

  function Next(s: State, step: Step): State {
    match step
    case Check(r) => if s.now < s.validUntil then s.(checked := s.checked + {r}) else s
    case Take(r) =>
      if r !in s.checked then s
      else if KeyLive(s) then s.(key := None, checked := s.checked - {r}, winners := s.winners + {r})
      else s.(checked := s.checked - {r})
    case GiveBack(r) =>
      if r !in s.winners then s
      else
        s.(winners := s.winners - {r},
           key := if Remaining(s) > 0 then Some(s.now + Remaining(s) as real) else s.key)
    case Update(r) => if r in s.winners then s.(winners := s.winners - {r}, updates := s.updates + 1) else s
    case Crash(r) => s.(checked := s.checked - {r}, winners := s.winners - {r})
    case Tick(seconds) => if seconds > 0.0 then s.(now := s.now + seconds) else s
  }

  function Run(s: State, steps: seq<Step>): State
    decreases |steps|
  {
    if steps == [] then s else Run(Next(s, steps[0]), steps[1..])
  }

  /** The chances a link still has of changing the password, plus those it has used. */
  function Stock(s: State): nat { (if s.key.Some? then 1 else 0) + |s.winners| + s.updates }

  lemma Without(xs: set<nat>, x: nat)
    ensures |xs - {x}| == if x in xs then |xs| - 1 else |xs|
  {
    if x !in xs { assert xs - {x} == xs; }
  }

  lemma AloneIsOnly(xs: set<nat>, x: nat)
    requires x in xs && |xs| <= 1
    ensures xs - {x} == {}
  {
    Without(xs, x);
  }

  lemma TakeKeepsStock(s: State, r: nat)
    requires Stock(s) <= 1
    ensures Stock(Next(s, Take(r))) <= 1
  {
    if r in s.checked && KeyLive(s) { assert s.winners + {r} == {r}; }
  }

  lemma GiveBackKeepsStock(s: State, r: nat)
    requires Stock(s) <= 1
    ensures Stock(Next(s, GiveBack(r))) <= 1
  {
    Without(s.winners, r);
  }

  lemma FinishKeepsStock(s: State, r: nat)
    requires Stock(s) <= 1
    ensures Stock(Next(s, Update(r))) <= 1 && Stock(Next(s, Crash(r))) <= 1
  {
    Without(s.winners, r);
  }

  lemma NextKeepsStock(s: State, step: Step)
    requires Stock(s) <= 1
    ensures Stock(Next(s, step)) <= 1 && Next(s, step).updates >= s.updates
  {
    match step
    case Take(r) => TakeKeepsStock(s, r);
    case GiveBack(r) => GiveBackKeepsStock(s, r);
    case Update(r) => FinishKeepsStock(s, r);
    case Crash(r) => FinishKeepsStock(s, r);
    case _ =>
  }

  /** Under every interleaving: entry present, requests that hold it and finished updates never exceed one in
  all, so a link changes the password at most once, and never more once it has. */
  lemma {:induction false} AtMostOneUpdate(s: State, steps: seq<Step>)
    requires Stock(s) <= 1
    ensures Stock(Run(s, steps)) <= 1 && s.updates <= Run(s, steps).updates <= 1
    ensures s.updates == 1 ==> Run(s, steps).key.None? && Run(s, steps).winners == {}
    decreases |steps|
  {
    if steps != [] {
      NextKeepsStock(s, steps[0]);
      AtMostOneUpdate(Next(s, steps[0]), steps[1..]);
    }
  }

  /** The entry never outlives the later of its first deadline and the link's expiry: giving a link back gains no
  time. */
  lemma {:induction false} GivingBackGainsNoTime(s: State, steps: seq<Step>, bound: real)
    requires s.exp <= bound && (s.key.Some? ==> s.key.value <= bound)
    ensures Run(s, steps).key.Some? ==> Run(s, steps).key.value <= bound
    decreases |steps|
  {
    if steps != [] {
      var remaining := Remaining(s);
      assert remaining as real <= s.exp - s.now;
      GivingBackGainsNoTime(Next(s, steps[0]), steps[1..], bound);
    }
  }

  /** A restored entry, in particular, is gone by the time the link expires. */
  lemma RestoredNeverOutlivesTheLink(s: State, r: nat, steps: seq<Step>)
    requires Stock(s) <= 1 && r in s.winners
    ensures var after := Run(Next(s, GiveBack(r)), steps);
      (after.key.Some? ==> after.key.value <= s.exp) && (KeyLive(after) ==> after.now < s.exp)
  {
    AloneIsOnly(s.winners, r);
    var back := Next(s, GiveBack(r));
    var remaining := Remaining(s);
    assert remaining as real <= s.exp - s.now;
    GivingBackGainsNoTime(back, steps, s.exp);
  }

  /** A link given back can be redeemed by a later request exactly while the whole seconds that were left last, and
  the token itself still decodes. */
  lemma GivenBackIsRedeemableExactlyWhileWholeSecondsRemain(s: State, r: nat, retry: nat, wait: real)
    requires Stock(s) <= 1 && r in s.winners && retry !in s.checked && wait > 0.0
    ensures retry in Next(Next(Next(Next(s, GiveBack(r)), Tick(wait)), Check(retry)), Take(retry)).winners
       <==> wait < Remaining(s) as real && s.now + wait < s.validUntil
  {
    AloneIsOnly(s.winners, r);
    var back := Next(s, GiveBack(r));
    assert Remaining(s) as real <= s.exp - s.now < Remaining(s) as real + 1.0;
    assert back.key == if Remaining(s) > 0 then Some(s.now + Remaining(s) as real) else None;
  }

  /** A request that breaks off while it holds the entry takes the link with it: no later redemption changes the
  password. */
  lemma CrashLosesTheLink(s: State, r: nat, steps: seq<Step>)
    requires Stock(s) <= 1 && r in s.winners
    ensures Run(Next(s, Crash(r)), steps).updates == s.updates
  {
    AloneIsOnly(s.winners, r);
    NothingLeftToUpdate(Next(s, Crash(r)), steps);
  }

  lemma {:induction false} NothingLeftToUpdate(s: State, steps: seq<Step>)
    requires s.key.None? && s.winners == {}
    ensures Run(s, steps).updates == s.updates
    decreases |steps|
  {
    if steps != [] { NothingLeftToUpdate(Next(s, steps[0]), steps[1..]); }
  }

  // ----- the service -----

  type Email = string

  /** The claims of a reset token. */
  datatype Link = Link(id: nat, email: Option<Email>, exp: real, validUntil: real)

  class Service {
    var now: real
    var issued: set<Link>
    var keys: map<Link, real>
    var passwords: map<Email, Option<string>>

    constructor (passwords: map<Email, Option<string>>, start: real)
      ensures now == start && issued == {} && keys == map[] && this.passwords == passwords
    {
      now, issued, keys, this.passwords := start, {}, map[], passwords;
    }

    /** What the interleaving machine sees of one link, with no redemption under way. */
    ghost function View(link: Link): State
      reads this
    {
      State(now, link.exp, link.validUntil, if link in keys then Some(keys[link]) else None, {}, {}, 0)
    }

    method GiveLinkBack(link: Link)
      modifies this`keys
      ensures var remaining := (link.exp - now).Floor;
        keys == if remaining > 0 then old(keys)[link := now + remaining as real] else old(keys)
    {
      var remaining := (link.exp - now).Floor;
      if remaining > 0 {
        keys := keys[link := now + remaining as real];
      }
    }

    /** Run on its own, a redemption is the three steps of the machine above: check, take, then update or give
    back. `strong` is the verdict on the new password. */
    method ResetPassword(link: Link, wanted: string, strong: bool) returns (ok: bool)
      modifies this`keys, this`passwords
      ensures ok <==>
        && link in issued && now < link.validUntil && old(KeyLive(View(link)))
        && link.email.Some? && strong && link.email.value in old(passwords)
        && old(passwords)[link.email.value] != Some(wanted)
      ensures ok ==> passwords == old(passwords)[link.email.value := Some(wanted)] && keys == old(keys) - {link}
      ensures !ok ==> passwords == old(passwords)
      ensures link in issued ==>
        var after := Next(Next(Next(old(View(link)), Check(0)), Take(0)), if ok then Update(0) else GiveBack(0));
        View(link) == after.(checked := {}, updates := 0) && (ok <==> after.updates == 1)
      ensures forall other :: other != link ==> View(other) == old(View(other))
    {
      if link !in issued || link.validUntil <= now { return false; }
      var held := link in keys && now < keys[link];
      if !held { return false; }
      keys := keys - {link};
      assert {} + {0} - {0} == {};
      if link.email.None? || !strong || link.email.value !in passwords {
        GiveLinkBack(link);
        return false;
      }
      var email := link.email.value;
      if passwords[email] == Some(wanted) {
        GiveLinkBack(link);
        return false;
      }
      passwords := passwords[email := Some(wanted)];
      ok := true;
    }
  }
}

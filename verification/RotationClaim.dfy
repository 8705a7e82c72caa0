/** The single-use marker of a refresh token on a real-valued clock, where its time to live is cut down to whole
seconds and so can run out before the token does. */
module RotationClaim {
  import opened Wrappers

  /** `int(exp - now)`, at least 1. */
  function MarkerTtl(exp: real, now: real): real {
    var whole := (exp - now).Floor as real;
    if whole > 1.0 then whole else 1.0
  }

  predicate Marked(marker: Option<real>, now: real) { marker.Some? && now < marker.value }

  /** One presentation of the token: the marker afterwards, and whether the claim succeeded. An expired token
  never gets as far as a claim. */
  function Present(marker: Option<real>, exp: real, now: real): (Option<real>, bool) {
    if exp <= now || Marked(marker, now) then (marker, false) else (Some(now + MarkerTtl(exp, now)), true)
  }

  function MarkerAfter(times: seq<real>, exp: real): Option<real> {
    if times == [] then None else Present(MarkerAfter(times[..|times| - 1], exp), exp, times[|times| - 1]).0
  }

  /** The instants at which the token was claimed. */
  function Claims(times: seq<real>, exp: real): seq<real> {
    if times == [] then []
    else
      var rest, last := times[..|times| - 1], times[|times| - 1];
      Claims(rest, exp) + if Present(MarkerAfter(rest, exp), exp, last).1 then [last] else []
  }

  predicate InOrder(times: seq<real>) { forall i, j :: 0 <= i < j < |times| ==> times[i] <= times[j] }

  lemma TtlBounds(exp: real, now: real)
    requires now < exp
    ensures MarkerTtl(exp, now) >= 1.0
    ensures exp - now - 1.0 < MarkerTtl(exp, now)
    ensures exp - now >= 1.0 ==> MarkerTtl(exp, now) <= exp - now
    ensures exp - now < 2.0 ==> MarkerTtl(exp, now) == 1.0
  {
    var left := exp - now;
    assert left.Floor as real <= left < left.Floor as real + 1.0;
  }

  /** After one claim the marker misses at most the last second; after a second claim nothing is left. */
  lemma {:induction false} ClaimsByMarker(times: seq<real>, exp: real)
    requires InOrder(times)
    ensures var claims, marker := Claims(times, exp), MarkerAfter(times, exp);
      && |claims| <= 2
      && (|claims| == 0 <==> marker.None?)
      && (forall c :: c in claims ==> c < exp && c in times)
      && (|claims| == 1 ==> marker == Some(claims[0] + MarkerTtl(exp, claims[0])))
      && (|claims| == 2 ==> exp - 1.0 < claims[1] && claims[0] + MarkerTtl(exp, claims[0]) <= claims[1]
                            && marker.value > exp)
  {
    if times != [] {
      var rest, last := times[..|times| - 1], times[|times| - 1];
      assert InOrder(rest);
      ClaimsByMarker(rest, exp);
      if Present(MarkerAfter(rest, exp), exp, last).1 {
        TtlBounds(exp, last);
        if |Claims(rest, exp)| == 1 { TtlBounds(exp, Claims(rest, exp)[0]); }
      }
    }
  }

  /** However often a token is presented it is claimed at most twice, the second time only within the last second
  before it expires. */
  lemma ClaimedAtMostTwice(times: seq<real>, exp: real)
    requires InOrder(times)
    ensures |Claims(times, exp)| <= 2
    ensures |Claims(times, exp)| == 2 ==> exp - 1.0 < Claims(times, exp)[1] < exp
  {
    ClaimsByMarker(times, exp);
    if |Claims(times, exp)| == 2 { assert Claims(times, exp)[1] in Claims(times, exp); }
  }

  predicate WholeSeconds(x: real) { x == x.Floor as real }

  lemma ClaimsOfTwo(first: real, second: real, exp: real)
    ensures Claims([first, second], exp) ==
      (if first < exp then [first] else [])
      + (if Present(Present(None, exp, first).0, exp, second).1 then [second] else [])
  {
    assert [first, second][..1] == [first] && [first][..0] == [];
    assert Claims([first], exp) == if first < exp then [first] else [];
    assert MarkerAfter([first], exp) == Present(None, exp, first).0;
  }

  /** A token first claimed at `first` can be claimed again exactly when more than a second was left and what was
  left was not a whole number of seconds. */
  lemma ReclaimableExactlyWhenTtlIsCut(first: real, exp: real)
    requires first < exp
    ensures (exists second :: first <= second && |Claims([first, second], exp)| == 2)
       <==> exp - first > 1.0 && !WholeSeconds(exp - first)
  {
    TtlBounds(exp, first);
    var ends := first + MarkerTtl(exp, first);
    forall second
      ensures |Claims([first, second], exp)| == 2 <==> ends <= second < exp
    {
      ClaimsOfTwo(first, second, exp);
    }
    if exp - first > 1.0 && !WholeSeconds(exp - first) {
      assert |Claims([first, ends], exp)| == 2;
    }
  }

  /** On a clock that ticks whole seconds a refresh token is claimed at most once. */
  lemma ClaimedOnceOnWholeSeconds(times: seq<real>, exp: real)
    requires InOrder(times) && WholeSeconds(exp) && forall t :: t in times ==> WholeSeconds(t)
    ensures |Claims(times, exp)| <= 1
  {
    ClaimsByMarker(times, exp);
    var claims := Claims(times, exp);
    if |claims| == 2 {
      assert claims[0] in claims && claims[1] in claims;
      WholeDifference(exp, claims[0]);
    }
  }

  lemma WholeDifference(a: real, b: real)
    requires WholeSeconds(a) && WholeSeconds(b)
    ensures WholeSeconds(a - b)
  {
    assert a - b == (a.Floor - b.Floor) as real;
  }

  // ----- what a second claim is worth -----

  datatype Refresh = Refresh(jti: nat, exp: real)

  /** The refresh tokens of one chain, oldest first, and their markers. */
  datatype Chain = Chain(tokens: seq<Refresh>, markers: map<nat, real>)

  function MarkerOf(c: Chain, jti: nat): Option<real> { if jti in c.markers then Some(c.markers[jti]) else None }

  /** Rotation of a current token: a claim that succeeds marks it and adds its successor. What reuse detection does
  after a failed claim is not part of this chain. */
  function Rotate(c: Chain, t: Refresh, now: real, lifetime: real): Chain {
    var (marker, claimed) := Present(MarkerOf(c, t.jti), t.exp, now);
    if claimed && marker.Some? then
      Chain(c.tokens + [Refresh(|c.tokens|, (now + lifetime).Floor as real)], c.markers[t.jti := marker.value])
    else c
  }

  predicate Redeemable(c: Chain, t: Refresh, now: real) {
    t in c.tokens && now < t.exp && !Marked(MarkerOf(c, t.jti), now)
  }

  /** A chain never has two redeemable refresh tokens after a token of it was presented twice, unless both claims
  succeeded; then it has. With `ReclaimableExactlyWhenTtlIsCut` this is exactly how far one redeemable token per chain
  holds on a clock finer than a second. */
  lemma TwoRedeemableExactlyWhenClaimedTwice(exp: real, first: real, second: real, lifetime: real)
    requires first < exp && first <= second < exp && lifetime >= 1.0 && exp <= (first + lifetime).Floor as real
    ensures
      var t := Refresh(0, exp);
      var c := Rotate(Rotate(Chain([t], map[]), t, first, lifetime), t, second, lifetime);
      (exists a, b :: a != b && Redeemable(c, a, second) && Redeemable(c, b, second))
      <==> |Claims([first, second], exp)| == 2
  {
    var t := Refresh(0, exp);
    var once := Rotate(Chain([t], map[]), t, first, lifetime);
    var c := Rotate(once, t, second, lifetime);
    var one, two := Refresh(1, (first + lifetime).Floor as real), Refresh(2, (second + lifetime).Floor as real);
    ClaimsOfTwo(first, second, exp);
    TtlBounds(exp, first);
    TtlBounds(exp, second);
    assert once.tokens == [t, one] && MarkerOf(once, 0) == Some(first + MarkerTtl(exp, first));
    if |Claims([first, second], exp)| == 2 {
      assert c.tokens == [t, one, two];
      assert two.exp > second + lifetime - 1.0;
      assert Redeemable(c, one, second) && Redeemable(c, two, second);
    } else {
      assert c == once;
      assert !Redeemable(c, t, second);
    }
  }

  class Markers {
    var deadlines: map<nat, real>

    constructor ()
      ensures deadlines == map[]
    {
      deadlines := map[];
    }

    ghost function Marker(jti: nat): Option<real>
      reads this
    {
      if jti in deadlines then Some(deadlines[jti]) else None
    }

    /** SET NX EX on the marker of a token that has just been decoded. */
    method ClaimJtiForRotation(jti: nat, exp: real, now: real) returns (claimed: bool)
      requires now < exp
      modifies this
      ensures (Marker(jti), claimed) == Present(old(Marker(jti)), exp, now)
      ensures forall other :: other != jti ==> Marker(other) == old(Marker(other))
    {
      var whole := (exp - now).Floor;
      var ttl := if whole > 1 then whole else 1;
      claimed := !(jti in deadlines && now < deadlines[jti]);
      if claimed {
        deadlines := deadlines[jti := now + ttl as real];
      }
    }
  }
}

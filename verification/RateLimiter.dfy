/** The fixed-window request counter, and what a fixed window does and does not promise about intervals that
straddle windows. The clock counts any fixed unit of time. */
module RateLimiter {
  import opened Wrappers
  import opened Redis

  datatype Limits = Limits(max: nat, window: nat)

  datatype Request = Request(at: nat, key: string)

  type Db = map<string, Entry>

  /** `record_request`: the counter store after one request, and whether it is let through. */
  function Record(limits: Limits, db: Db, r: Request): (Db, bool) {
    var counted := Incr(db, r.at, r.key);
    var count := Count(counted, r.at, r.key);
    (if count == 1 then Expire(counted, r.at, r.key, limits.window) else counted, count <= limits.max)
  }

  function After(limits: Limits, rs: seq<Request>): Db {
    if rs == [] then map[] else Record(limits, After(limits, rs[..|rs| - 1]), rs[|rs| - 1]).0
  }

  predicate InOrder(rs: seq<Request>) { forall i, j :: 0 <= i < j < |rs| ==> rs[i].at <= rs[j].at }

  /** How many requests on `key` were let through from instant `from` to instant `to`, both included. */
  function Admitted(limits: Limits, rs: seq<Request>, key: string, from: nat, to: nat): nat {
    if rs == [] then 0
    else
      var rest, last := rs[..|rs| - 1], rs[|rs| - 1];
      Admitted(limits, rest, key, from, to)
      + if last.key == key && from <= last.at <= to && Record(limits, After(limits, rest), last).1 then 1 else 0
  }

  function Min(a: nat, b: nat): nat { if a < b then a else b }

  /** The books of one key: the window last opened on it may have let Min(count, max) requests through, and each
  of the `full` windows before it at most max. Windows open at least one window length apart. */
  ghost predicate Balanced(limits: Limits, db: Db, key: string, from: nat, admitted: nat, full: nat) {
    if key !in db then admitted == 0
    else
      && db[key].deadline.Some? && db[key].value >= 1
      && (admitted == 0
          || (from + full * limits.window < db[key].deadline.value
              && admitted <= full * limits.max + Min(db[key].value, limits.max)))
  }

  lemma NextWindow(limits: Limits, full: nat)
    ensures (full + 1) * limits.window == full * limits.window + limits.window
    ensures (full + 1) * limits.max == full * limits.max + limits.max
  {
  }

  /** One more request keeps the books balanced, opening a new window exactly when the last one is over. */
  lemma RecordKeepsBalance(limits: Limits, db: Db, r: Request, from: nat, admitted: nat, full: nat) returns (more: nat)
    requires limits.window > 0 && Balanced(limits, db, r.key, from, admitted, full)
    ensures var (after, allowed) := Record(limits, db, r);
      Balanced(limits, after, r.key, from, admitted + (if from <= r.at && allowed then 1 else 0), more)
  {
    more := full;
    if !Live(db, r.at, r.key) {
      if admitted == 0 {
        more := 0;
      } else {
        more := full + 1;
        NextWindow(limits, full);
      }
    } else if admitted == 0 {
      more := 0;
    }
  }

  lemma {:induction false} RunKeepsBalance(limits: Limits, rs: seq<Request>, key: string, from: nat, to: nat)
    returns (full: nat)
    requires limits.window > 0 && InOrder(rs)
    requires forall i :: 0 <= i < |rs| ==> rs[i].at <= to
    ensures Balanced(limits, After(limits, rs), key, from, Admitted(limits, rs, key, from, to), full)
    ensures key in After(limits, rs) ==>
      After(limits, rs)[key].deadline.Some? && After(limits, rs)[key].deadline.value <= to + limits.window
  {
    full := 0;
    if rs != [] {
      var rest, last := rs[..|rs| - 1], rs[|rs| - 1];
      full := RunKeepsBalance(limits, rest, key, from, to);
      if last.key == key {
        var admitted := Admitted(limits, rest, key, from, to);
        full := RecordKeepsBalance(limits, After(limits, rest), last, from, admitted, full);
      }
    }
  }

  lemma TimesIsMonotone(a: nat, b: nat, c: nat)
    requires a <= b
    ensures a * c <= b * c
  {
  }

  lemma BooksBound(limits: Limits, e: Entry, from: nat, n: nat, admitted: nat, full: nat)
    requires limits.window > 0 && e.deadline.Some?
    requires from + full * limits.window < e.deadline.value <= from + n * limits.window + limits.window
    requires admitted <= full * limits.max + Min(e.value, limits.max)
    ensures admitted <= (n + 1) * limits.max
  {
    NextWindow(limits, n);
    if full >= n + 1 {
      TimesIsMonotone(n + 1, full, limits.window);
    } else {
      TimesIsMonotone(full, n, limits.max);
    }
  }

  /** Any interval of n window lengths, ends included, lets through at most (n + 1) times the maximum, whatever
  the timeline and whatever happens on other keys. */
  lemma FixedWindowBound(limits: Limits, rs: seq<Request>, key: string, from: nat, n: nat)
    requires limits.window > 0 && InOrder(rs)
    ensures Admitted(limits, rs, key, from, from + n * limits.window) <= (n + 1) * limits.max
  {
    var to := from + n * limits.window;
    var cut := Until(rs, to);
    LaterRequestsDoNotCount(limits, rs, cut, key, from, to);
    var full := RunKeepsBalance(limits, rs[..cut], key, from, to);
    var db, admitted := After(limits, rs[..cut]), Admitted(limits, rs[..cut], key, from, to);
    NextWindow(limits, n);
    TimesIsMonotone(0, n + 1, limits.max);
    if admitted != 0 {
      BooksBound(limits, db[key], from, n, admitted, full);
    }
  }

  /** The position of the first request after `to`. */
  function Until(rs: seq<Request>, to: nat): (cut: nat)
    requires InOrder(rs)
    ensures cut <= |rs|
    ensures forall i :: 0 <= i < cut ==> rs[i].at <= to
    ensures forall i :: cut <= i < |rs| ==> rs[i].at > to
  {
    if rs == [] || rs[|rs| - 1].at <= to then |rs| else Until(rs[..|rs| - 1], to)
  }

  lemma {:induction false} LaterRequestsDoNotCount(
    limits: Limits, rs: seq<Request>, cut: nat, key: string, from: nat, to: nat)
    requires cut <= |rs| && forall i :: cut <= i < |rs| ==> rs[i].at > to
    ensures Admitted(limits, rs, key, from, to) == Admitted(limits, rs[..cut], key, from, to)
  {
    if cut == |rs| {
      assert rs[..cut] == rs;
    } else {
      LaterRequestsDoNotCount(limits, rs[..|rs| - 1], cut, key, from, to);
      assert rs[..|rs| - 1][..cut] == rs[..cut];
    }
  }

  // ----- what a window lets through -----

  /** How many of the requests are on `key`. */
  function On(rs: seq<Request>, key: string): nat {
    if rs == [] then 0 else On(rs[..|rs| - 1], key) + if rs[|rs| - 1].key == key then 1 else 0
  }

  /** A request that finds no window open opens one; later requests are counted in it and do not move its end. */
  lemma {:induction false} WindowHolds(limits: Limits, before: seq<Request>, first: Request, during: seq<Request>)
    requires limits.window > 0 && !Live(After(limits, before), first.at, first.key)
    requires forall r :: r in during && r.key == first.key ==> r.at < first.at + limits.window
    ensures var db := After(limits, before + [first] + during);
      first.key in db && db[first.key] == Entry(1 + On(during, first.key), Some(first.at + limits.window))
  {
    var all := before + [first] + during;
    if during == [] {
      assert all[..|all| - 1] == before && all[|all| - 1] == first;
    } else {
      var rest := during[..|during| - 1];
      WindowHolds(limits, before, first, rest);
      assert all[..|all| - 1] == before + [first] + rest && all[|all| - 1] == during[|during| - 1];
    }
  }

  /** The n-th request on a key in a window is let through if and only if n is at most the maximum, and the window is
  over exactly one window length after its first request, whatever else was asked in between. */
  lemma LetThroughExactlyUpToTheMaximum(
    limits: Limits, before: seq<Request>, first: Request, during: seq<Request>, r: Request)
    requires limits.window > 0 && !Live(After(limits, before), first.at, first.key) && r.key == first.key
    requires forall d :: d in during && d.key == first.key ==> d.at < first.at + limits.window
    ensures Record(limits, After(limits, before), first).1 <==> 1 <= limits.max
    ensures Record(limits, After(limits, before + [first] + during), r).1 <==>
      (if r.at < first.at + limits.window then 2 + On(during, r.key) else 1) <= limits.max
  {
    WindowHolds(limits, before, first, during);
  }

  // ----- the bound is reached -----

  /** `count` requests on one key at one instant. */
  function Volley(key: string, at: nat, count: nat): seq<Request> {
    if count == 0 then [] else Volley(key, at, count - 1) + [Request(at, key)]
  }

  /** A full volley at the opening of each of n + 1 consecutive windows, the first at instant 0. */
  function Volleys(limits: Limits, key: string, n: nat): seq<Request> {
    (if n == 0 then [] else Volleys(limits, key, n - 1)) + Volley(key, n * limits.window, limits.max)
  }

  lemma {:induction false} VolleyIsAtOnce(key: string, at: nat, count: nat)
    ensures forall r :: r in Volley(key, at, count) ==> r.at == at
  {
    if count > 0 { VolleyIsAtOnce(key, at, count - 1); }
  }

  lemma {:induction false} VolleysAreInOrder(limits: Limits, key: string, n: nat)
    ensures InOrder(Volleys(limits, key, n))
    ensures forall r :: r in Volleys(limits, key, n) ==> r.at <= n * limits.window
  {
    VolleyIsAtOnce(key, n * limits.window, limits.max);
    if n > 0 {
      NextWindow(limits, n - 1);
      VolleysAreInOrder(limits, key, n - 1);
      OneAfterTheOther(Volleys(limits, key, n - 1), Volley(key, n * limits.window, limits.max), n * limits.window);
    }
  }

  lemma OneAfterTheOther(a: seq<Request>, b: seq<Request>, at: nat)
    requires InOrder(a) && (forall r :: r in a ==> r.at <= at) && (forall r :: r in b ==> r.at == at)
    ensures InOrder(a + b)
  {
    var all := a + b;
    forall i, j | 0 <= i < j < |all|
      ensures all[i].at <= all[j].at
    {
      if j < |a| {
        assert all[i] == a[i] && all[j] == a[j];
      } else {
        assert all[j] in b && (all[i] in a || all[i] in b);
      }
    }
  }

  /** The counter after `count` requests of a volley that opened a window at `at`. */
  ghost predicate Counting(limits: Limits, db: Db, key: string, at: nat, count: nat) {
    if count == 0 then key in db ==> db[key].deadline.Some? && db[key].deadline.value <= at
    else key in db && db[key] == Entry(count, Some(at + limits.window))
  }

  lemma RecordInVolley(limits: Limits, db: Db, key: string, at: nat, count: nat)
    requires limits.window > 0 && count < limits.max && Counting(limits, db, key, at, count)
    ensures var (after, allowed) := Record(limits, db, Request(at, key));
      allowed && Counting(limits, after, key, at, count + 1)
  {
  }

  lemma AdmittedLast(limits: Limits, rs: seq<Request>, last: Request, to: nat)
    requires last.at <= to && Record(limits, After(limits, rs), last).1
    ensures Admitted(limits, rs + [last], last.key, 0, to) == Admitted(limits, rs, last.key, 0, to) + 1
    ensures After(limits, rs + [last]) == Record(limits, After(limits, rs), last).0
  {
    assert (rs + [last])[..|rs|] == rs;
  }

  lemma VolleyGrowsAtItsEnd(rs: seq<Request>, key: string, at: nat, count: nat)
    requires count > 0
    ensures rs + Volley(key, at, count) == rs + Volley(key, at, count - 1) + [Request(at, key)]
  {
  }

  lemma {:induction false} VolleyIsAdmitted(limits: Limits, rs: seq<Request>, key: string, at: nat, count: nat, to: nat)
    requires limits.window > 0 && count <= limits.max && at <= to && Counting(limits, After(limits, rs), key, at, 0)
    ensures Admitted(limits, rs + Volley(key, at, count), key, 0, to) == Admitted(limits, rs, key, 0, to) + count
    ensures Counting(limits, After(limits, rs + Volley(key, at, count)), key, at, count)
  {
    if count == 0 {
      assert rs + Volley(key, at, count) == rs;
    } else {
      var before := rs + Volley(key, at, count - 1);
      VolleyIsAdmitted(limits, rs, key, at, count - 1, to);
      VolleyGrows(limits, before, key, at, count - 1, to);
      VolleyGrowsAtItsEnd(rs, key, at, count);
    }
  }

  lemma VolleyGrows(limits: Limits, before: seq<Request>, key: string, at: nat, count: nat, to: nat)
    requires limits.window > 0 && count < limits.max && at <= to
    requires Counting(limits, After(limits, before), key, at, count)
    ensures Admitted(limits, before + [Request(at, key)], key, 0, to) == Admitted(limits, before, key, 0, to) + 1
    ensures Counting(limits, After(limits, before + [Request(at, key)]), key, at, count + 1)
  {
    RecordInVolley(limits, After(limits, before), key, at, count);
    AdmittedLast(limits, before, Request(at, key), to);
  }

  /** A timeline on which exactly `total` requests on `key` got through and a new window can open at `at`. */
  ghost predicate Passed(limits: Limits, rs: seq<Request>, key: string, to: nat, total: nat, at: nat) {
    Admitted(limits, rs, key, 0, to) == total && Counting(limits, After(limits, rs), key, at, 0)
  }

  lemma PassedAreAdmitted(limits: Limits, rs: seq<Request>, key: string, to: nat, total: nat, at: nat)
    requires Passed(limits, rs, key, to, total, at)
    ensures Admitted(limits, rs, key, 0, to) == total
  {
  }

  lemma WholeVolleyPasses(limits: Limits, rs: seq<Request>, key: string, to: nat, total: nat, at: nat)
    requires limits.window > 0 && at <= to && Passed(limits, rs, key, to, total, at)
    ensures Passed(limits, rs + Volley(key, at, limits.max), key, to, total + limits.max, at + limits.window)
  {
    VolleyIsAdmitted(limits, rs, key, at, limits.max, to);
  }

  lemma {:induction false} VolleysPass(limits: Limits, key: string, n: nat, to: nat)
    requires limits.window > 0 && n * limits.window <= to
    ensures Passed(
      limits, Volleys(limits, key, n), key, to, n * limits.max + limits.max, n * limits.window + limits.window)
  {
    var rs := if n == 0 then [] else Volleys(limits, key, n - 1);
    if n > 0 {
      NextWindow(limits, n - 1);
      VolleysPass(limits, key, n - 1, to);
    }
    WholeVolleyPasses(limits, rs, key, to, n * limits.max, n * limits.window);
  }

  /** The bound is the best possible: this timeline gets (n + 1) times the maximum through in n window lengths. */
  lemma FixedWindowBoundIsReached(limits: Limits, key: string, n: nat)
    requires limits.window > 0
    ensures InOrder(Volleys(limits, key, n))
    ensures Admitted(limits, Volleys(limits, key, n), key, 0, n * limits.window) == (n + 1) * limits.max
  {
    VolleysAreInOrder(limits, key, n);
    NextWindow(limits, n);
    var to, total := n * limits.window, n * limits.max + limits.max;
    VolleysPass(limits, key, n, to);
    PassedAreAdmitted(limits, Volleys(limits, key, n), key, to, total, to + limits.window);
  }

  // ----- the service -----

  /** The store is the one the served requests lead to, so the bounds above hold of them. */
  ghost predicate Follows(limits: Limits, db: Db, served: seq<Request>) { db == After(limits, served) }

  lemma FollowsOneMore(limits: Limits, db: Db, served: seq<Request>, r: Request)
    requires Follows(limits, db, served)
    ensures Follows(limits, Record(limits, db, r).0, served + [r])
  {
    assert (served + [r])[..|served|] == served;
  }

  class Service {
    const limits: Limits
    var db: Db
    ghost var served: seq<Request>

    ghost predicate Valid()
      reads this
    {
      Follows(limits, db, served)
    }

    constructor (limits: Limits)
      ensures Valid() && this.limits == limits && served == []
    {
      this.limits, db, served := limits, map[], [];
    }

    method RecordRequest(key: string, now: nat) returns (allowed: bool)
      requires Valid()
      modifies this
      ensures Valid() && served == old(served) + [Request(now, key)]
      ensures (db, allowed) == Record(limits, old(db), Request(now, key))
      ensures forall other :: other != key ==> (other in db <==> other in old(db))
      ensures forall other :: other != key && other in db ==> db[other] == old(db[other])
    {
      FollowsOneMore(limits, db, served, Request(now, key));
      db := Incr(db, now, key);
      var count := Count(db, now, key);
      if count == 1 {
        db := Expire(db, now, key, limits.window);
      }
      allowed := count <= limits.max;
      served := served + [Request(now, key)];
    }

    /** The route guard: a request over its address limit does not count against the account. */
    method Guard(endpoint: string, address: string, account: Option<string>, now: nat) returns (allowed: bool)
      requires Valid()
      modifies this
      ensures Valid()
      ensures
        var (byAddress, passed) := Record(limits, old(db), Request(now, endpoint + ":ip:" + address));
        if !passed || account.None? || account.value == "" then db == byAddress && allowed == passed
        else (db, allowed) == Record(limits, byAddress, Request(now, endpoint + ":account:" + account.value))
    {
      allowed := RecordRequest(endpoint + ":ip:" + address, now);
      if !allowed { return; }
      if account.Some? && account.value != "" {
        allowed := RecordRequest(endpoint + ":account:" + account.value, now);
      }
    }
  }
}

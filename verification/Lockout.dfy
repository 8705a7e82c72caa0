/** The failed-attempt counter, against the log of what happened on the key. */
module Lockout {
  import opened Wrappers
  import opened Redis

  /** The threshold and the lockout time a key is used with. */
  datatype Limits = Limits(max: nat, lockout: nat)

  type Db = map<string, Entry>

  /** `Attempt` is `check_and_record_action`; `Failure` and `Success` are the two recorders called directly. */
  datatype Action = Attempt(success: bool) | Failure | Success

  datatype Call = Call(at: nat, key: string, action: Action, limits: Limits)

  // ----- the counter -----

  predicate IsLocked(db: Db, now: nat, key: string, max: nat) { Live(db, now, key) && db[key].value >= max }

  function RecordFailure(db: Db, now: nat, key: string, lockout: nat): Db {
    var counted := Incr(db, now, key);
    if Count(counted, now, key) == 1 then Expire(counted, now, key, lockout) else counted
  }

  function Reset(db: Db, key: string): Db { db - {key} }

  /** The store after a call, and whether it was accepted. */
  function Perform(db: Db, c: Call): (Db, bool) {
    match c.action
    case Failure => (RecordFailure(db, c.at, c.key, c.limits.lockout), true)
    case Success => (Reset(db, c.key), true)
    case Attempt(success) =>
      if IsLocked(db, c.at, c.key, c.limits.max) then (db, false)
      else if success then (Reset(db, c.key), true)
      else (RecordFailure(db, c.at, c.key, c.limits.lockout), true)
  }

  function After(calls: seq<Call>): Db {
    if calls == [] then map[] else Perform(After(calls[..|calls| - 1]), calls[|calls| - 1]).0
  }

  // ----- the log -----

  datatype Event = Failed(at: nat) | Cleared

  /** The events the accepted calls on `key` leave behind. */
  function Log(calls: seq<Call>, key: string): seq<Event> {
    if calls == [] then []
    else
      var rest, last := calls[..|calls| - 1], calls[|calls| - 1];
      var (_, accepted) := Perform(After(rest), last);
      if last.key != key || !accepted then Log(rest, key)
      else if last.action == Success || last.action == Attempt(true) then Log(rest, key) + [Cleared]
      else Log(rest, key) + [Failed(last.at)]
  }

  /** A run of failures is forgotten one lockout time after its first. */
  function Unexpired(failures: seq<nat>, now: nat, lockout: nat): seq<nat> {
    if failures != [] && now < failures[0] + lockout then failures else []
  }

  /** The failures recorded since the last clearing or expiry, as of the last event. */
  function Epoch(log: seq<Event>, lockout: nat): seq<nat> {
    if log == [] then []
    else
      match log[|log| - 1]
      case Cleared => []
      case Failed(at) => Unexpired(Epoch(log[..|log| - 1], lockout), at, lockout) + [at]
  }

  /** The same, as of `now`. */
  function Standing(log: seq<Event>, now: nat, lockout: nat): seq<nat> { Unexpired(Epoch(log, lockout), now, lockout) }

  /** The counter key is the standing epoch in two numbers: how many failures, and when the first runs out. */
  ghost predicate Mirrors(db: Db, key: string, epoch: seq<nat>, lockout: nat) {
    if key in db then
      |epoch| == db[key].value >= 1 && db[key].deadline == Some(epoch[0] + lockout)
    else epoch == []
  }

  /** The tracked key is always used with the same limits. */
  predicate Steady(calls: seq<Call>, key: string, limits: Limits) {
    forall k :: 0 <= k < |calls| && calls[k].key == key ==> calls[k].limits == limits
  }

  lemma EventIsCounted(log: seq<Event>, e: Event, lockout: nat)
    ensures Epoch(log + [e], lockout) ==
      match e case Cleared => [] case Failed(at) => Unexpired(Epoch(log, lockout), at, lockout) + [at]
  {
    assert (log + [e])[..|log|] == log;
  }

  /** What one accepted call makes of the epoch on its key. */
  function NextEpoch(epoch: seq<nat>, c: Call): seq<nat> {
    if c.action == Success || c.action == Attempt(true) then [] else Unexpired(epoch, c.at, c.limits.lockout) + [c.at]
  }

  lemma PerformMirrors(db: Db, c: Call, epoch: seq<nat>)
    requires Mirrors(db, c.key, epoch, c.limits.lockout)
    ensures var (after, accepted) := Perform(db, c);
      Mirrors(after, c.key, if accepted then NextEpoch(epoch, c) else epoch, c.limits.lockout)
  {
  }

  lemma AfterOne(rest: seq<Call>, last: Call)
    ensures After(rest + [last]) == Perform(After(rest), last).0
  {
    assert (rest + [last])[..|rest|] == rest;
  }

  lemma LogGrows(rest: seq<Call>, last: Call)
    ensures var accepted := Perform(After(rest), last).1;
      Epoch(Log(rest + [last], last.key), last.limits.lockout)
      == if accepted then NextEpoch(Epoch(Log(rest, last.key), last.limits.lockout), last)
         else Epoch(Log(rest, last.key), last.limits.lockout)
  {
    assert (rest + [last])[..|rest|] == rest;
    EventIsCounted(Log(rest, last.key), Cleared, last.limits.lockout);
    EventIsCounted(Log(rest, last.key), Failed(last.at), last.limits.lockout);
  }

  lemma OtherKeysDoNotCount(rest: seq<Call>, last: Call, key: string)
    requires last.key != key
    ensures Log(rest + [last], key) == Log(rest, key)
    ensures key in After(rest + [last]) <==> key in After(rest)
    ensures key in After(rest) ==> After(rest + [last])[key] == After(rest)[key]
  {
    assert (rest + [last])[..|rest|] == rest;
  }

  lemma OneMoreCallMirrors(rest: seq<Call>, last: Call, key: string, limits: Limits)
    requires last.key == key ==> last.limits == limits
    requires Mirrors(After(rest), key, Epoch(Log(rest, key), limits.lockout), limits.lockout)
    ensures Mirrors(After(rest + [last]), key, Epoch(Log(rest + [last], key), limits.lockout), limits.lockout)
  {
    if last.key == key {
      PerformMirrors(After(rest), last, Epoch(Log(rest, key), limits.lockout));
      LogGrows(rest, last);
      AfterOne(rest, last);
    } else {
      OtherKeysDoNotCount(rest, last, key);
    }
  }

  lemma {:induction false} CounterMirrorsTheLog(calls: seq<Call>, key: string, limits: Limits)
    requires Steady(calls, key, limits)
    ensures Mirrors(After(calls), key, Epoch(Log(calls, key), limits.lockout), limits.lockout)
  {
    if calls != [] {
      var rest, last := calls[..|calls| - 1], calls[|calls| - 1];
      CounterMirrorsTheLog(rest, key, limits);
      OneMoreCallMirrors(rest, last, key, limits);
      assert calls == rest + [last];
    }
  }

  /** Locked exactly when the failures recorded on the key since its last clearing or expiry reach the maximum. */
  lemma LockedExactlyWhenFailuresReachTheMaximum(calls: seq<Call>, key: string, limits: Limits, now: nat)
    requires Steady(calls, key, limits)
    ensures var failures := Standing(Log(calls, key), now, limits.lockout);
      IsLocked(After(calls), now, key, limits.max) <==> failures != [] && |failures| >= limits.max
  {
    CounterMirrorsTheLog(calls, key, limits);
  }

  /** While a key is locked an attempt is refused and changes nothing, even a successful one. */
  lemma LockedAttemptChangesNothing(db: Db, c: Call)
    requires c.action.Attempt? && IsLocked(db, c.at, c.key, c.limits.max)
    ensures Perform(db, c) == (db, false)
  {
  }

  predicate AttemptsBefore(calls: seq<Call>, ends: nat) {
    forall k :: 0 <= k < |calls| ==> calls[k].action.Attempt? && calls[k].at < ends
  }

  lemma {:induction false} LockHolds(before: seq<Call>, during: seq<Call>, key: string, limits: Limits, ends: nat)
    requires Steady(during, key, limits) && AttemptsBefore(during, ends)
    requires key in After(before) && After(before)[key].value >= limits.max && After(before)[key].deadline == Some(ends)
    ensures key in After(before + during) && After(before + during)[key] == After(before)[key]
  {
    if during == [] {
      assert before + during == before;
    } else {
      var rest := during[..|during| - 1];
      LockHolds(before, rest, key, limits, ends);
      assert (before + during)[..|before + during| - 1] == before + rest;
    }
  }

  /** A lock ends exactly one lockout time after the first failure of its epoch: whatever is attempted before
  then, successes included, the key is locked at every instant up to that one and unlocked from it on. */
  lemma LockEndsExactlyOnTime(before: seq<Call>, during: seq<Call>, key: string, limits: Limits, now: nat)
    requires Steady(before, key, limits) && Steady(during, key, limits)
    requires IsLocked(After(before), now, key, limits.max)
    ensures var failures := Standing(Log(before, key), now, limits.lockout);
      failures != []
      && var ends := failures[0] + limits.lockout;
         AttemptsBefore(during, ends) ==>
           forall later: nat :: IsLocked(After(before + during), later, key, limits.max) <==> later < ends
  {
    CounterMirrorsTheLog(before, key, limits);
    var ends := Epoch(Log(before, key), limits.lockout)[0] + limits.lockout;
    if AttemptsBefore(during, ends) {
      LockHolds(before, during, key, limits, ends);
    }
  }

  // ----- the service -----

  /** The store is the one the calls lead to, so what is proved of call sequences holds of it. */
  ghost predicate Follows(db: Db, calls: seq<Call>) { db == After(calls) }

  lemma FollowsOneMore(db: Db, calls: seq<Call>, call: Call)
    requires Follows(db, calls)
    ensures Follows(Perform(db, call).0, calls + [call])
  {
    AfterOne(calls, call);
  }

  class Service {
    var db: Db
    ghost var calls: seq<Call>

    ghost predicate Valid()
      reads this
    {
      Follows(db, calls)
    }

    constructor ()
      ensures Valid() && calls == []
    {
      db, calls := map[], [];
    }

    method CheckLocked(key: string, max: nat, now: nat) returns (locked: bool)
      ensures locked == IsLocked(db, now, key, max)
    {
      locked := Live(db, now, key) && db[key].value >= max;
    }

    method CountFailure(key: string, lockout: nat, now: nat)
      modifies this`db
      ensures db == RecordFailure(old(db), now, key, lockout)
    {
      db := Incr(db, now, key);
      if Count(db, now, key) == 1 {
        db := Expire(db, now, key, lockout);
      }
    }

    method RecordFailedAttempt(key: string, limits: Limits, now: nat)
      requires Valid()
      modifies this
      ensures Valid() && calls == old(calls) + [Call(now, key, Failure, limits)]
    {
      FollowsOneMore(db, calls, Call(now, key, Failure, limits));
      CountFailure(key, limits.lockout, now);
      calls := calls + [Call(now, key, Failure, limits)];
    }

    method ResetFailedAttempts(key: string, limits: Limits, now: nat)
      requires Valid()
      modifies this
      ensures Valid() && calls == old(calls) + [Call(now, key, Success, limits)]
    {
      FollowsOneMore(db, calls, Call(now, key, Success, limits));
      db := db - {key};
      calls := calls + [Call(now, key, Success, limits)];
    }

    method CheckAndRecordAction(key: string, success: bool, limits: Limits, now: nat) returns (allowed: bool)
      requires Valid()
      modifies this
      ensures Valid() && calls == old(calls) + [Call(now, key, Attempt(success), limits)]
      ensures allowed == !IsLocked(old(db), now, key, limits.max)
      ensures !allowed ==> db == old(db)
    {
      FollowsOneMore(db, calls, Call(now, key, Attempt(success), limits));
      var locked := CheckLocked(key, limits.max, now);
      if !locked {
        if success {
          db := db - {key};
        } else {
          CountFailure(key, limits.lockout, now);
        }
      }
      allowed := !locked;
      calls := calls + [Call(now, key, Attempt(success), limits)];
    }
  }
}

/** One cached policy list under overlapping requests. A read is a GET, on a miss a query, then a fill; a write
is a commit, then an invalidation. Any of these steps may fall between those of other requests. Time is real. */
module CacheRace {
  import opened Wrappers
  import opened Policies

  type PolicyList = set<Definition>

  const TTL := 60.0

  datatype Cached = Cached(list: PolicyList, deadline: real)

  /** A reader that missed, and one that has queried but not yet filled the cache. */
  datatype Progress = Missed | Queried(list: PolicyList, since: real)

  /** `db` is what the query would return now. */
  datatype State = State(now: real, db: PolicyList, cache: Option<Cached>, readers: map<nat, Progress>)

  datatype Step =
    | Commit(list: PolicyList)
    | Invalidate
    | Get(reader: nat)
    | Ask(reader: nat)
    | Fill(reader: nat)
    | Tick(seconds: real)

  predicate Live(s: State) { s.cache.Some? && s.now < s.cache.value.deadline }

  predicate Filling(s: State, reader: nat) { reader in s.readers && s.readers[reader].Queried? }

  function Next(s: State, step: Step): State {
    match step
    case Commit(list) => s.(db := list)
    case Invalidate => s.(cache := None)
    case Get(reader) => if Live(s) then s else s.(readers := s.readers[reader := Missed])
    case Ask(reader) =>
      if reader in s.readers && s.readers[reader].Missed? then s.(readers := s.readers[reader := Queried(s.db, s.now)])
      else s
    case Fill(reader) =>
      if Filling(s, reader) then
        s.(cache := Some(Cached(s.readers[reader].list, s.now + TTL)), readers := s.readers - {reader})
      else s
    case Tick(seconds) => if seconds > 0.0 then s.(now := s.now + seconds) else s
  }

  /** The list a step returns to its caller: a hit, or a read that finishes its fill. */
  function Returned(s: State, step: Step): Option<PolicyList> {
    match step
    case Get(_) => if Live(s) then Some(s.cache.value.list) else None
    case Fill(reader) => if Filling(s, reader) then Some(s.readers[reader].list) else None
    case _ => None
  }

  function Run(s: State, steps: seq<Step>): State {
    if steps == [] then s else Next(Run(s, steps[..|steps| - 1]), steps[|steps| - 1])
  }

  /** At some instant of the run, not before `from`, the query would have returned `list`. */
  ghost predicate Seen(s: State, steps: seq<Step>, list: PolicyList, from: real) {
    exists k :: 0 <= k <= |steps| && Run(s, steps[..k]).db == list && from <= Run(s, steps[..k]).now
  }

  /** A reader that fills now queried at most `delay` ago. */
  ghost predicate FillsInTime(before: State, step: Step, delay: real) {
    step.Fill? && Filling(before, step.reader) ==> before.now - before.readers[step.reader].since <= delay
  }

  /** No reader takes longer than `delay` from its query to its fill. */
  ghost predicate Prompt(s: State, steps: seq<Step>, delay: real) {
    forall k :: 0 <= k < |steps| ==> FillsInTime(Run(s, steps[..k]), steps[k], delay)
  }

  ghost predicate Accounted(s: State, steps: seq<Step>, delay: real) {
    var after := Run(s, steps);
    && (after.cache.Some? ==> Seen(s, steps, after.cache.value.list, after.cache.value.deadline - TTL - delay))
    && (forall r :: Filling(after, r) ==> Seen(s, steps, after.readers[r].list, after.readers[r].since))
  }

  lemma SeenLater(s: State, steps: seq<Step>, last: Step, list: PolicyList, from: real)
    requires Seen(s, steps, list, from)
    ensures Seen(s, steps + [last], list, from)
  {
    var k :| 0 <= k <= |steps| && Run(s, steps[..k]).db == list && from <= Run(s, steps[..k]).now;
    assert (steps + [last])[..k] == steps[..k];
  }

  lemma SeenNow(s: State, steps: seq<Step>)
    ensures Seen(s, steps, Run(s, steps).db, Run(s, steps).now)
  {
    assert steps[..|steps|] == steps;
  }

  lemma RunLast(s: State, steps: seq<Step>, last: Step)
    ensures Run(s, steps + [last]) == Next(Run(s, steps), last)
  {
    assert (steps + [last])[..|steps|] == steps;
  }

  lemma CacheIsAccounted(s: State, steps: seq<Step>, last: Step, delay: real)
    requires Accounted(s, steps, delay) && FillsInTime(Run(s, steps), last, delay)
    ensures var after := Run(s, steps + [last]);
      after.cache.Some? ==> Seen(s, steps + [last], after.cache.value.list, after.cache.value.deadline - TTL - delay)
  {
    var before := Run(s, steps);
    RunLast(s, steps, last);
    if last.Fill? && Filling(before, last.reader) {
      var read := before.readers[last.reader];
      SeenLater(s, steps, last, read.list, read.since);
    } else if before.cache.Some? {
      SeenLater(s, steps, last, before.cache.value.list, before.cache.value.deadline - TTL - delay);
    }
  }

  lemma ReaderIsAccounted(s: State, steps: seq<Step>, last: Step, delay: real, r: nat)
    requires Accounted(s, steps, delay) && Filling(Run(s, steps + [last]), r)
    ensures var after := Run(s, steps + [last]); Seen(s, steps + [last], after.readers[r].list, after.readers[r].since)
  {
    var before := Run(s, steps);
    RunLast(s, steps, last);
    if Filling(before, r) && before.readers[r] == Next(before, last).readers[r] {
      SeenLater(s, steps, last, before.readers[r].list, before.readers[r].since);
    } else {
      SeenNow(s, steps);
      SeenLater(s, steps, last, before.db, before.now);
    }
  }

  lemma StepIsAccounted(s: State, steps: seq<Step>, last: Step, delay: real)
    requires Accounted(s, steps, delay) && FillsInTime(Run(s, steps), last, delay)
    ensures Accounted(s, steps + [last], delay)
  {
    CacheIsAccounted(s, steps, last, delay);
    forall r | Filling(Run(s, steps + [last]), r)
      ensures var after := Run(s, steps + [last]);
        Seen(s, steps + [last], after.readers[r].list, after.readers[r].since)
    {
      ReaderIsAccounted(s, steps, last, delay, r);
    }
  }

  lemma PromptPrefix(s: State, steps: seq<Step>, last: Step, delay: real)
    requires Prompt(s, steps + [last], delay)
    ensures Prompt(s, steps, delay) && FillsInTime(Run(s, steps), last, delay)
  {
    var more := steps + [last];
    assert more[..|steps|] == steps && more[|steps|] == last;
    forall k | 0 <= k < |steps|
      ensures FillsInTime(Run(s, steps[..k]), steps[k], delay)
    {
      assert more[..k] == steps[..k] && more[k] == steps[k];
    }
  }

  lemma {:induction false} RunIsAccounted(s: State, steps: seq<Step>, delay: real)
    requires s.cache.None? && s.readers == map[] && Prompt(s, steps, delay)
    ensures Accounted(s, steps, delay)
  {
    if steps != [] {
      var rest, last := steps[..|steps| - 1], steps[|steps| - 1];
      assert steps == rest + [last];
      PromptPrefix(s, rest, last, delay);
      RunIsAccounted(s, rest, delay);
      StepIsAccounted(s, rest, last, delay);
    }
  }

  /** Whatever overlaps, a returned list is what the query would have returned at an instant of the run less than
  the time to live plus the longest fill delay ago. */
  lemma ReturnedListsAreBarelyStale(s: State, steps: seq<Step>, step: Step, delay: real)
    requires s.cache.None? && s.readers == map[] && Prompt(s, steps + [step], delay) && delay >= 0.0
    ensures Returned(Run(s, steps), step).Some? ==>
      exists from :: Run(s, steps).now - from < TTL + delay && Seen(s, steps, Returned(Run(s, steps), step).value, from)
  {
    PromptPrefix(s, steps, step, delay);
    RunIsAccounted(s, steps, delay);
    var now := Run(s, steps);
    if Returned(now, step).Some? {
      if step.Get? {
        assert Seen(s, steps, now.cache.value.list, now.cache.value.deadline - TTL - delay);
      } else {
        assert Seen(s, steps, now.readers[step.reader].list, now.readers[step.reader].since);
      }
    }
  }

  // ----- when nothing stale is served -----

  /** A live entry is what the query would return. */
  predicate Agrees(s: State) { Live(s) ==> s.cache.value.list == s.db }

  /** What keeps a step from opening a gap: no commit changes the list while an entry is live, and no fill writes a
  list that is out of date. */
  predicate OpensNoGap(s: State, step: Step) {
    match step
    case Commit(list) => Live(s) ==> list == s.db
    case Fill(reader) => Filling(s, reader) ==> s.readers[reader].list == s.db
    case _ => true
  }

  ghost predicate AgreesThroughout(s: State, steps: seq<Step>) {
    forall k :: 0 <= k <= |steps| ==> Agrees(Run(s, steps[..k]))
  }

  ghost predicate OpensNoGapThroughout(s: State, steps: seq<Step>) {
    forall k :: 0 <= k < |steps| ==> OpensNoGap(Run(s, steps[..k]), steps[k])
  }

  lemma NextAgreesExactlyWithoutGap(s: State, step: Step)
    requires Agrees(s)
    ensures Agrees(Next(s, step)) <==> OpensNoGap(s, step)
  {
  }

  lemma OneMoreState(s: State, steps: seq<Step>)
    requires steps != []
    ensures AgreesThroughout(s, steps) <==> AgreesThroughout(s, steps[..|steps| - 1]) && Agrees(Run(s, steps))
  {
    var rest := steps[..|steps| - 1];
    assert forall k :: 0 <= k <= |rest| ==> rest[..k] == steps[..k];
    assert steps[..|steps|] == steps;
    if AgreesThroughout(s, rest) && Agrees(Run(s, steps)) {
      forall k | 0 <= k <= |steps|
        ensures Agrees(Run(s, steps[..k]))
      {
        if k < |steps| { assert Agrees(Run(s, rest[..k])); }
      }
    }
  }

  lemma OneMoreStep(s: State, steps: seq<Step>)
    requires steps != []
    ensures var rest, last := steps[..|steps| - 1], steps[|steps| - 1];
      OpensNoGapThroughout(s, steps) <==> OpensNoGapThroughout(s, rest) && OpensNoGap(Run(s, rest), last)
  {
    var rest := steps[..|steps| - 1];
    assert forall k :: 0 <= k <= |rest| ==> rest[..k] == steps[..k];
    assert rest[..|rest|] == rest;
  }

  lemma EndAgrees(s: State, steps: seq<Step>)
    requires AgreesThroughout(s, steps)
    ensures Agrees(Run(s, steps))
  {
    assert steps[..|steps|] == steps;
  }

  lemma LastStepAgrees(s: State, steps: seq<Step>)
    requires steps != [] && AgreesThroughout(s, steps[..|steps| - 1])
    ensures Agrees(Run(s, steps)) <==> OpensNoGap(Run(s, steps[..|steps| - 1]), steps[|steps| - 1])
  {
    EndAgrees(s, steps[..|steps| - 1]);
    NextAgreesExactlyWithoutGap(Run(s, steps[..|steps| - 1]), steps[|steps| - 1]);
  }

  lemma NothingDoneAgrees(s: State)
    requires Agrees(s)
    ensures AgreesThroughout(s, []) && OpensNoGapThroughout(s, [])
  {
    var none: seq<Step> := [];
    assert none[..0] == none;
  }

  /** Over every run, the live entry is what the query would return at every instant if and only if no commit changes
  the list while an entry is live and no fill writes a list that is out of date. */
  lemma {:induction false} CoherentExactlyWithoutGaps(s: State, steps: seq<Step>)
    requires Agrees(s)
    ensures AgreesThroughout(s, steps) <==> OpensNoGapThroughout(s, steps)
  {
    if steps == [] {
      NothingDoneAgrees(s);
    } else {
      CoherentExactlyWithoutGaps(s, steps[..|steps| - 1]);
      OneMoreState(s, steps);
      OneMoreStep(s, steps);
      if AgreesThroughout(s, steps[..|steps| - 1]) { LastStepAgrees(s, steps); }
    }
  }

  // ----- the bound is reached -----

  /** A reader queries, a writer commits and invalidates, the reader fills `delay` later, and another hits just
  before the entry expires. */
  function SlowFill(newer: PolicyList, delay: real, slack: real): seq<Step> {
    [Get(0), Ask(0), Commit(newer), Invalidate, Tick(delay), Fill(0), Tick(TTL - slack)]
  }

  lemma {:induction false} CommittedStays(s: State, steps: seq<Step>, from: nat, list: PolicyList)
    requires from <= |steps| && Run(s, steps[..from]).db == list
    requires forall k :: from <= k < |steps| ==> !steps[k].Commit?
    ensures forall k :: from <= k <= |steps| ==> Run(s, steps[..k]).db == list
  {
    if |steps| == from {
      assert steps[..from] == steps;
    } else {
      var rest := steps[..|steps| - 1];
      assert rest[..from] == steps[..from];
      CommittedStays(s, rest, from, list);
      RunLast(s, rest, steps[|steps| - 1]);
      assert rest + [steps[|steps| - 1]] == steps && steps[..|steps|] == steps;
      forall k | from <= k <= |rest| ensures Run(s, steps[..k]).db == list {
        assert rest[..k] == steps[..k];
      }
    }
  }

  lemma SlowFillCommits(s: State, newer: PolicyList, delay: real, slack: real)
    requires s.cache.None? && s.readers == map[]
    ensures Run(s, SlowFill(newer, delay, slack)[..3]) == State(s.now, newer, None, map[0 := Queried(s.db, s.now)])
    ensures forall k :: 0 <= k < 3 ==> Run(s, SlowFill(newer, delay, slack)[..k]).now == s.now
  {
    var steps := SlowFill(newer, delay, slack);
    assert steps[..0] == [];
    SlowFillPrefix(s, steps, 0);
    SlowFillPrefix(s, steps, 1);
    SlowFillPrefix(s, steps, 2);
  }

  lemma SlowFillFills(s: State, newer: PolicyList, delay: real, slack: real)
    requires s.cache.None? && s.readers == map[] && delay > 0.0
    ensures var steps := SlowFill(newer, delay, slack);
      && Run(s, steps[..5]) == State(s.now + delay, newer, None, map[0 := Queried(s.db, s.now)])
      && Run(s, steps[..6]) == State(s.now + delay, newer, Some(Cached(s.db, s.now + delay + TTL)), map[])
  {
    var steps := SlowFill(newer, delay, slack);
    SlowFillCommits(s, newer, delay, slack);
    SlowFillPrefix(s, steps, 3);
    SlowFillPrefix(s, steps, 4);
    SlowFillPrefix(s, steps, 5);
    assert map[0 := Queried(s.db, s.now)] - {0} == map[];
  }

  /** Less than any `slack` below the bound a list can be served that the database has not held since: every
  instant at which the query returned it lies that far back. */
  lemma StalenessReachesTheBound(s: State, newer: PolicyList, delay: real, slack: real)
    requires s.cache.None? && s.readers == map[] && s.db != newer && delay > 0.0 && 0.0 < slack < TTL
    ensures var steps := SlowFill(newer, delay, slack);
      && Prompt(s, steps, delay)
      && Returned(Run(s, steps), Get(1)) == Some(s.db)
      && Run(s, steps).now == s.now + TTL + delay - slack
      && forall from :: Seen(s, steps, s.db, from) ==> from <= s.now
  {
    var steps := SlowFill(newer, delay, slack);
    SlowFillCommits(s, newer, delay, slack);
    SlowFillFills(s, newer, delay, slack);
    SlowFillPrefix(s, steps, 6);
    assert steps[..7] == steps;
    CommittedStays(s, steps, 3, newer);
    forall from | Seen(s, steps, s.db, from)
      ensures from <= s.now
    {
      var k :| 0 <= k <= |steps| && Run(s, steps[..k]).db == s.db && from <= Run(s, steps[..k]).now;
      assert k < 3;
    }
  }

  lemma SlowFillPrefix(s: State, steps: seq<Step>, k: nat)
    requires k < |steps|
    ensures Run(s, steps[..k + 1]) == Next(Run(s, steps[..k]), steps[k])
  {
    assert steps[..k + 1] == steps[..k] + [steps[k]];
    RunLast(s, steps[..k], steps[k]);
  }
}

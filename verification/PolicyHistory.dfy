/** The history log as the record from which the policy table can be rebuilt. */
module PolicyHistory {
  import opened Wrappers
  import opened Policies
  import opened PolicyStore
  import opened PolicyTables

  type Table = map<nat, Definition>

  function Replay(table: Table, e: Entry): Table {
    if e.next.Some? then table[e.policyId := e.next.value] else table - {e.policyId}
  }

  /** The policy table as the log tells it, from the table the log started on. */
  function Fold(base: Table, log: seq<Entry>): Table {
    if log == [] then base else Replay(Fold(base, log[..|log| - 1]), log[|log| - 1])
  }

  predicate Mentions(log: seq<Entry>, p: nat) { exists k :: 0 <= k < |log| && log[k].policyId == p }

  /** The snapshots of an entry against the table it was written on: what it calls previous was there, and what
  it lists as changed is exactly what differs. A created id is new to the table and to the whole log. */
  ghost predicate Fits(base: Table, before: seq<Entry>, e: Entry) {
    var table := Fold(base, before);
    && EntryNamed(e)
    && match e.kind
       case Created =>
         e.previous.None? && e.next.Some? && e.changed.None? && e.policyId !in base && !Mentions(before, e.policyId)
       case Deleted =>
         e.policyId in table && e.previous == Some(table[e.policyId]) && e.next.None? && e.changed.None?
       case _ =>
         e.policyId in table && e.previous == Some(table[e.policyId]) && e.next.Some? && e.changed.Some?
         && forall column :: column in e.changed.value <==> Differs(column, e.previous.value, e.next.value)
  }

  ghost predicate LogFits(base: Table, log: seq<Entry>) {
    forall k :: 0 <= k < |log| ==> Fits(base, log[..k], log[k])
  }

  ghost predicate IdsBelow(log: seq<Entry>, bound: nat) { forall k :: 0 <= k < |log| ==> log[k].policyId < bound }

  lemma OneMoreIdBelow(log: seq<Entry>, e: Entry, bound: nat, more: nat)
    requires IdsBelow(log, bound) && e.policyId < more && bound <= more
    ensures IdsBelow(log + [e], more)
  {
  }

  /** A store whose log began, empty, on the table `base`. */
  ghost predicate Recorded(base: Table, s: State) {
    && s.policies == Fold(base, s.history)
    && LogFits(base, s.history)
    && (forall p :: p in base ==> p < s.nextPolicy)
    && IdsBelow(s.history, s.nextPolicy)
  }

  lemma LogAppends(base: Table, log: seq<Entry>, e: Entry)
    requires LogFits(base, log) && Fits(base, log, e)
    ensures LogFits(base, log + [e])
    ensures Fold(base, log + [e]) == Replay(Fold(base, log), e)
  {
    var longer := log + [e];
    assert longer[..|log|] == log;
    forall k | 0 <= k < |longer|
      ensures Fits(base, longer[..k], longer[k])
    {
      if k < |log| { assert longer[..k] == log[..k]; }
    }
  }

  lemma RecordGrows(base: Table, s: State, after: State, e: Entry)
    requires Recorded(base, s) && Fits(base, s.history, e)
    requires after.history == s.history + [e] && after.policies == Replay(s.policies, e)
    requires s.nextPolicy <= after.nextPolicy && e.policyId < after.nextPolicy
    ensures Recorded(base, after)
  {
    LogAppends(base, s.history, e);
    OneMoreIdBelow(s.history, e, s.nextPolicy, after.nextPolicy);
  }

  lemma InsertKeepsRecord(base: Table, s: State, d: Definition, author: Email)
    requires Recorded(base, s)
    ensures Recorded(base, Inserted(s, d, author))
  {
    var after := Inserted(s, d, author);
    RecordGrows(base, s, after, after.history[|s.history|]);
  }

  lemma RewriteKeepsRecord(base: Table, s: State, p: nat, cs: seq<Change>, kind: Kind, author: Email)
    requires Recorded(base, s) && p in s.policies && p < s.nextPolicy && kind in {Updated, RolledBack}
    ensures Recorded(base, Rewritten(s, p, cs, kind, author))
  {
    var after := Rewritten(s, p, cs, kind, author);
    ChangedFieldsIsTheFullDiff(s.policies[p], cs);
    RecordGrows(base, s, after, after.history[|s.history|]);
  }

  lemma RemoveKeepsRecord(base: Table, s: State, p: nat, author: Email)
    requires Recorded(base, s) && p in s.policies && p < s.nextPolicy
    ensures Recorded(base, Removed(s, p, author))
  {
    var after := Removed(s, p, author);
    assert EntryNamed(after.history[|s.history|]);
    RecordGrows(base, s, after, after.history[|s.history|]);
  }

  lemma ApplyKeepsRecord(base: Table, s: State, call: Call)
    requires Recorded(base, s) && Possible(s, call) && forall p :: p in s.policies ==> p < s.nextPolicy
    ensures Recorded(base, Apply(s, call))
  {
    match call
    case Insert(d, author) => InsertKeepsRecord(base, s, d, author);
    case Rewrite(p, cs, kind, author) => RewriteKeepsRecord(base, s, p, cs, kind, author);
    case Remove(p, author) => RemoveKeepsRecord(base, s, p, author);
    case _ =>
  }

  /** Over every run from a seeded table with an empty log, folding the log gives the policy table, and each
  entry fits the table it was written on. */
  lemma {:induction false} HistoryReplaysToTheTable(base: Table, s: State, steps: seq<Step>)
    requires TablesOk(s) && Recorded(base, s)
    ensures TablesOk(Run(s, steps)) && Recorded(base, Run(s, steps))
    decreases |steps|
  {
    if steps != [] {
      NextKeepsRecord(base, s, steps[0]);
      NextKeepsTables(s, steps[0]);
      HistoryReplaysToTheTable(base, Next(s, steps[0]), steps[1..]);
    }
  }

  lemma NextKeepsRecord(base: Table, s: State, step: Step)
    requires TablesOk(s) && Recorded(base, s)
    ensures Recorded(base, Next(s, step))
  {
    var entered := Entered(s, step);
    assert Recorded(base, entered);
    DecidesPossibly(entered, step);
    ApplyKeepsRecord(base, entered, Decide(entered, step));
  }

  lemma FreshStoreIsRecorded(s: State)
    requires TablesOk(s) && s.history == []
    ensures Recorded(s.policies, s)
  {
  }

  /** In particular from any store whose log is empty: whatever is requested from then on, the log tells exactly how
  the table got to what it is. */
  lemma HistoryReplaysFromAFreshStore(s: State, steps: seq<Step>)
    requires TablesOk(s) && s.history == []
    ensures Run(s, steps).policies == Fold(s.policies, Run(s, steps).history)
    ensures LogFits(s.policies, Run(s, steps).history)
  {
    FreshStoreIsRecorded(s);
    HistoryReplaysToTheTable(s.policies, s, steps);
  }

  // ----- the entries of one policy form a chain -----

  /** Without an entry of its own in between, a policy looks the same at both ends. */
  lemma {:induction false} UnmentionedIsUnchanged(base: Table, log: seq<Entry>, i: nat, p: nat)
    requires i <= |log| && !Mentions(log[i..], p)
    ensures p in Fold(base, log) <==> p in Fold(base, log[..i])
    ensures p in Fold(base, log) ==> Fold(base, log)[p] == Fold(base, log[..i])[p]
  {
    if i == |log| {
      assert log[..i] == log;
    } else {
      var shorter := log[..|log| - 1];
      assert log[i..][|log| - 1 - i] == log[|log| - 1];
      assert forall k :: 0 <= k < |shorter[i..]| ==> shorter[i..][k] == log[i..][k];
      UnmentionedIsUnchanged(base, shorter, i, p);
      assert shorter[..i] == log[..i];
    }
  }

  /** Consecutive entries of one policy: nothing follows a deletion, only the first may be a creation, and each
  starts from the snapshot the one before it ended on. */
  lemma ConsecutiveEntriesChain(base: Table, log: seq<Entry>, i: nat, j: nat)
    requires LogFits(base, log) && i < j < |log| && log[i].policyId == log[j].policyId
    requires !Mentions(log[i + 1..j], log[i].policyId)
    ensures log[i].kind != Deleted && log[j].kind != Created
    ensures log[j].previous == log[i].next && log[i].next.Some?
  {
    var p := log[i].policyId;
    assert Fits(base, log[..i], log[i]) && Fits(base, log[..j], log[j]);
    assert log[..j][i].policyId == p;
    assert log[..j][i + 1..] == log[i + 1..j];
    UnmentionedIsUnchanged(base, log[..j], i + 1, p);
    assert log[..j][..i + 1] == log[..i + 1];
    assert log[..i + 1][..i] == log[..i];
  }

  /** The first entry of a policy creates it, unless the log began with it: then it starts from that row. */
  lemma FirstEntryStartsTheChain(base: Table, log: seq<Entry>, j: nat)
    requires LogFits(base, log) && j < |log| && !Mentions(log[..j], log[j].policyId)
    ensures log[j].policyId !in base <==> log[j].kind == Created
    ensures log[j].policyId in base ==> log[j].previous == Some(base[log[j].policyId])
  {
    var p := log[j].policyId;
    assert Fits(base, log[..j], log[j]);
    assert log[..j][0..] == log[..j];
    UnmentionedIsUnchanged(base, log[..j], 0, p);
    assert log[..j][..0] == [];
  }

  /** The last entry of a policy decides whether, and as what, it is in the table. */
  lemma LastEntryIsTheRow(base: Table, log: seq<Entry>, i: nat)
    requires LogFits(base, log) && i < |log| && !Mentions(log[i + 1..], log[i].policyId)
    ensures log[i].policyId in Fold(base, log) <==> log[i].kind != Deleted
    ensures log[i].policyId in Fold(base, log) ==> Some(Fold(base, log)[log[i].policyId]) == log[i].next
  {
    assert Fits(base, log[..i], log[i]);
    UnmentionedIsUnchanged(base, log, i + 1, log[i].policyId);
    assert log[..i + 1][..i] == log[..i];
  }

  // ----- comparing entries -----

  const COLUMNS: seq<Column> := [Name, Description, Actions, ResourceType, Conditions, Active]

  datatype Comparison =
    | Compared(before: Definition, after: Definition, changed: set<Column>)
    | NoSuchEntry
    | OtherPolicy

  /** The comparison route past its permission check: the entries are looked up before their names are held
  against the requested one, first the older, then the newer. */
  ghost predicate ComparesTo(history: seq<Entry>, name: string, from: nat, to: nat, c: Comparison) {
    if from >= |history| || to >= |history| then
      c == if from < |history| && history[from].policyName != name then OtherPolicy else NoSuchEntry
    else if history[from].policyName != name || history[to].policyName != name then c == OtherPolicy
    else
      && c.Compared?
      && Some(c.before) == DefinitionOf(history[from]) && Some(c.after) == DefinitionOf(history[to])
      && forall column :: column in c.changed <==> Differs(column, c.before, c.after)
  }

  lemma NoDifferenceIsEquality(a: Definition, b: Definition)
    requires forall column :: !Differs(column, a, b)
    ensures a == b
  {
    assert !Differs(Name, a, b) && !Differs(Description, a, b) && !Differs(Actions, a, b);
    assert !Differs(ResourceType, a, b) && !Differs(Conditions, a, b) && !Differs(Active, a, b);
  }

  /** Comparing an edit with the entry before it on the same policy reports exactly what the edit recorded as
  changed, and a comparison reports nothing only between equal definitions. */
  lemma ComparingNeighboursShowsTheEdit(base: Table, log: seq<Entry>, name: string, i: nat, j: nat, c: Comparison)
    requires LogFits(base, log) && i < j < |log| && log[i].policyId == log[j].policyId
    requires !Mentions(log[i + 1..j], log[i].policyId) && log[j].kind != Deleted
    requires log[i].policyName == name && log[j].policyName == name && ComparesTo(log, name, i, j, c)
    ensures forall column :: column in c.changed <==> column in log[j].changed.value
    ensures c.changed == {} <==> c.before == c.after
  {
    ConsecutiveEntriesChain(base, log, i, j);
    assert Fits(base, log[..j], log[j]);
    if c.changed == {} { NoDifferenceIsEquality(c.before, c.after); }
  }

  // ----- rollback -----

  /** An accepted rollback leaves the policy exactly as the chosen entry has it, under the name it already had,
  changes no other policy and no assignment, and only appends: one entry, from the current definition to the
  restored one. */
  lemma RollbackRestoresTheEntry(s: State, caller: Caller, wellFormed: bool, name: string, k: nat)
    requires TablesOk(s)
    ensures var (after, outcome) := Do(s, RollbackPolicy(caller, wellFormed, name, k));
      outcome == Ok ==>
        exists p :: Named(s.policies, p, name) && k < |s.history| && DefinitionOf(s.history[k]).Some? &&
          var target := DefinitionOf(s.history[k]).value;
          && target.name == name
          && after.policies == s.policies[p := target]
          && after.held == s.held && after.users == s.users && after.cache == map[]
          && |after.history| == |s.history| + 1 && after.history[..|s.history|] == s.history
          && after.history[|s.history|].kind == RolledBack
          && after.history[|s.history|].previous == Some(s.policies[p])
          && after.history[|s.history|].next == Some(target)
  {
    var step := RollbackPolicy(caller, wellFormed, name, k);
    var (after, outcome) := Do(s, step);
    var call := Decide(Entered(s, step), step);
    if outcome == Ok {
      var p := call.policy;
      var target := DefinitionOf(s.history[k]).value;
      assert EntryNamed(s.history[k]);
      RestoringRestores(s.policies[p], target);
      assert after.policies == s.policies[p := target];
      assert Named(s.policies, p, name);
    }
  }

  lemma UpdateWritesTheEdit(s: State, caller: Caller, wellFormed: bool, name: string, cs: seq<Change>)
    ensures var (after, outcome) := Do(s, UpdatePolicy(caller, wellFormed, name, cs));
      outcome == Ok ==>
        exists p :: Named(s.policies, p, name) && after.policies == s.policies[p := WriteAll(s.policies[p], cs)]
          && |after.history| == |s.history| + 1 && after.history[..|s.history|] == s.history
  {
    var step := UpdatePolicy(caller, wellFormed, name, cs);
    var call := Decide(Entered(s, step), step);
    if Do(s, step).1 == Ok {
      assert Named(s.policies, call.policy, name);
      assert Next(s, step).policies == s.policies[call.policy := WriteAll(s.policies[call.policy], cs)];
    }
  }

  /** Rolling back, after an accepted edit, to an entry that shows the policy as it was before undoes the edit:
  the whole policy table is what it was. */
  lemma RollbackUndoesUpdate(s: State, caller: Caller, wellFormed: bool, name: string, cs: seq<Change>, k: nat,
                             back: Caller, p: nat)
    requires TablesOk(s) && Named(s.policies, p, name)
    requires k < |s.history| && s.history[k].policyName == name && DefinitionOf(s.history[k]) == Some(s.policies[p])
    ensures
      var edit, undo := UpdatePolicy(caller, wellFormed, name, cs), RollbackPolicy(back, true, name, k);
      Do(s, edit).1 == Ok && Do(Next(s, edit), undo).1 == Ok ==> Next(Next(s, edit), undo).policies == s.policies
  {
    var edit, undo := UpdatePolicy(caller, wellFormed, name, cs), RollbackPolicy(back, true, name, k);
    var s1 := Next(s, edit);
    if Do(s, edit).1 == Ok && Do(s1, undo).1 == Ok {
      UpdateWritesTheEdit(s, caller, wellFormed, name, cs);
      assert s1.policies == s.policies[p := WriteAll(s.policies[p], cs)];
      assert s1.history[..|s.history|][k] == s.history[k];
      NextKeepsTables(s, edit);
      RollbackRestoresTheEntry(s1, back, true, name, k);
      EditThenRestore(s.policies, s1.policies, Next(s1, undo).policies, p, name);
    }
  }

  lemma EditThenRestore(before: Table, edited: Table, after: Table, p: nat, name: string)
    requires NamesUnique(before) && Named(before, p, name)
    requires p in edited && edited == before[p := edited[p]]
    requires exists q :: Named(edited, q, name) && after == edited[q := before[p]]
    ensures after == before
  {
    var q :| Named(edited, q, name) && after == edited[q := before[p]];
    if q != p { assert Named(before, q, name); }
  }
}

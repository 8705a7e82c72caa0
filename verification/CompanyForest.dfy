/** Every run of company operations keeps the table a forest whose group roots are the topmost ancestors. */
module CompanyForest {
  import opened Wrappers
  import opened CompanyModel

  /** Nobody climbs through a company without subsidiaries, except by starting there. */
  lemma {:induction false} ClimbAvoidsLeaf(rows: map<nat, Company>, p: seq<nat>, leaf: nat)
    requires Climb(rows, p) && p[0] != leaf && !HasChild(rows, leaf)
    ensures leaf !in p
  {
    forall k | 0 <= k < |p| ensures p[k] != leaf {
      if k > 0 { assert rows[p[k - 1]].parent == Some(p[k]); }
    }
  }

  /** `rows'` is `rows` with one leaf written, new or in place: below an existing company or as a root. */
  ghost predicate LeafWritten(rows: map<nat, Company>, rows': map<nat, Company>, leaf: nat) {
    && leaf in rows' && rows' == rows[leaf := rows'[leaf]]
    && !HasChild(rows, leaf)
    && rows'[leaf].parent != Some(leaf)
    && (rows'[leaf].parent.Some? ==> rows'[leaf].parent.value in rows)
    && rows'[leaf].groupRoot == RootUnder(rows, leaf, rows'[leaf].parent)
  }

  lemma LeafClimbs(rows: map<nat, Company>, rows': map<nat, Company>, leaf: nat, p: seq<nat>)
    requires LeafWritten(rows, rows', leaf) && |p| > 0
    ensures !HasChild(rows', leaf)
    ensures p[0] != leaf ==> (Climb(rows', p) <==> Climb(rows, p))
  {
    if Climb(rows, p) && p[0] != leaf { ClimbAvoidsLeaf(rows, p, leaf); }
    assert !HasChild(rows', leaf);
    if Climb(rows', p) && p[0] != leaf { ClimbAvoidsLeaf(rows', p, leaf); }
  }

  lemma LeafKeepsParents(rows: map<nat, Company>, rows': map<nat, Company>, leaf: nat)
    requires LeafWritten(rows, rows', leaf) && NoDanglingParent(rows)
    ensures NoDanglingParent(rows')
  {
  }

  lemma LeafKeepsAcyclic(rows: map<nat, Company>, rows': map<nat, Company>, leaf: nat)
    requires LeafWritten(rows, rows', leaf) && Acyclic(rows)
    ensures Acyclic(rows')
  {
    forall p | Climb(rows', p) && |p| > 1 ensures p[0] != p[|p| - 1] {
      LeafClimbs(rows, rows', leaf, p);
      if p[0] == leaf {
        assert rows'[p[|p| - 2]].parent == Some(p[|p| - 1]);
      }
    }
  }

  /** A climb that does not start at the leaf is the same before and after. */
  lemma ClimbSurvivesLeaf(rows: map<nat, Company>, rows': map<nat, Company>, leaf: nat, p: seq<nat>, id: nat, top: nat)
    requires LeafWritten(rows, rows', leaf) && ClimbsTo(rows, p, id, top) && id != leaf
    ensures ClimbsTo(rows', p, id, top) && top != leaf
  {
    LeafClimbs(rows, rows', leaf, p);
    ClimbAvoidsLeaf(rows, p, leaf);
  }

  lemma ClimbFrom(rows: map<nat, Company>, id: nat, p: seq<nat>)
    requires Climb(rows, p) && id in rows && rows[id].parent == Some(p[0])
    ensures Climb(rows, [id] + p)
  {
    var q := [id] + p;
    forall k | 0 <= k < |q| - 1 ensures rows[q[k]].parent == Some(q[k + 1]) {
      if k > 0 { assert q[k] == p[k - 1] && q[k + 1] == p[k]; }
    }
  }

  lemma LeafHasItsRoot(rows: map<nat, Company>, rows': map<nat, Company>, leaf: nat)
    requires LeafWritten(rows, rows', leaf) && RootsAreTopmost(rows)
    ensures Topmost(rows', leaf, rows'[leaf].groupRoot)
  {
    if rows'[leaf].parent.None? {
      assert ClimbsTo(rows', [leaf], leaf, leaf);
    } else {
      var up := rows'[leaf].parent.value;
      assert Topmost(rows, up, rows[up].groupRoot);
      var p :| ClimbsTo(rows, p, up, rows[up].groupRoot);
      ClimbSurvivesLeaf(rows, rows', leaf, p, up, rows[up].groupRoot);
      ClimbFrom(rows', leaf, p);
      assert ClimbsTo(rows', [leaf] + p, leaf, rows'[leaf].groupRoot);
    }
  }

  lemma LeafKeepsRoots(rows: map<nat, Company>, rows': map<nat, Company>, leaf: nat)
    requires LeafWritten(rows, rows', leaf) && RootsAreTopmost(rows)
    ensures RootsAreTopmost(rows')
  {
    LeafHasItsRoot(rows, rows', leaf);
    forall id | id in rows' && id != leaf ensures Topmost(rows', id, rows'[id].groupRoot) {
      assert Topmost(rows, id, rows[id].groupRoot);
      var p :| ClimbsTo(rows, p, id, rows[id].groupRoot);
      ClimbSurvivesLeaf(rows, rows', leaf, p, id, rows[id].groupRoot);
    }
  }

  /** Renaming keeps every climb. */
  lemma RenameKeeps(rows: map<nat, Company>, rows': map<nat, Company>)
    requires rows'.Keys == rows.Keys && NoDanglingParent(rows) && Acyclic(rows) && RootsAreTopmost(rows)
    requires forall id :: id in rows ==>
      rows'[id].parent == rows[id].parent && rows'[id].groupRoot == rows[id].groupRoot
    ensures NoDanglingParent(rows') && Acyclic(rows') && RootsAreTopmost(rows')
  {
    forall p | Climb(rows', p) && |p| > 1 ensures p[0] != p[|p| - 1] { assert Climb(rows, p); }
    forall id | id in rows' ensures Topmost(rows', id, rows'[id].groupRoot) {
      assert Topmost(rows, id, rows[id].groupRoot);
      var p :| ClimbsTo(rows, p, id, rows[id].groupRoot);
      assert ClimbsTo(rows', p, id, rows'[id].groupRoot);
    }
  }

  lemma RemovalKeeps(rows: map<nat, Company>, leaf: nat)
    requires NoDanglingParent(rows) && Acyclic(rows) && RootsAreTopmost(rows) && !HasChild(rows, leaf)
    ensures NoDanglingParent(rows - {leaf}) && Acyclic(rows - {leaf}) && RootsAreTopmost(rows - {leaf})
  {
    var rows' := rows - {leaf};
    forall p | Climb(rows', p) && |p| > 1 ensures p[0] != p[|p| - 1] { assert Climb(rows, p); }
    forall id | id in rows' ensures Topmost(rows', id, rows'[id].groupRoot) {
      assert Topmost(rows, id, rows[id].groupRoot);
      var p :| ClimbsTo(rows, p, id, rows[id].groupRoot);
      ClimbAvoidsLeaf(rows, p, leaf);
      assert ClimbsTo(rows', p, id, rows'[id].groupRoot);
    }
  }

  lemma CreateKeeps(t: Table, name: string, ticker: string, parent: Option<nat>)
    requires Forest(t)
    ensures Forest(Create(t, name, ticker, parent).0)
  {
    var (t', outcome) := Create(t, name, ticker, parent);
    if outcome == Saved {
      LeafKeepsAcyclic(t.rows, t'.rows, t.nextId);
      LeafKeepsRoots(t.rows, t'.rows, t.nextId);
    }
  }

  lemma UpdateWritesOneRow(t: Table, id: nat, edit: Edit)
    requires Update(t, id, edit).1 == Saved
    ensures var t' := Update(t, id, edit).0;
      && id in t.rows && id in t'.rows && t'.rows == t.rows[id := t'.rows[id]] && t'.nextId == t.nextId
      && (t'.rows[id].ticker == t.rows[id].ticker || !TickerTaken(t.rows, t'.rows[id].ticker, id))
      && (if Moves(t.rows[id], edit)
          then t'.rows[id].parent == edit.parent.value && MoveRefused(t.rows, id, edit.parent.value).None?
            && t'.rows[id].groupRoot == RootUnder(t.rows, id, edit.parent.value)
          else t'.rows[id].parent == t.rows[id].parent && t'.rows[id].groupRoot == t.rows[id].groupRoot)
  {
  }

  lemma UpdateKeeps(t: Table, id: nat, edit: Edit)
    requires Forest(t)
    ensures Forest(Update(t, id, edit).0)
  {
    var (t', outcome) := Update(t, id, edit);
    if outcome == Saved {
      UpdateWritesOneRow(t, id, edit);
      WrittenRowKeeps(t, t', id);
    }
  }

  lemma WrittenRowKeepsTickers(rows: map<nat, Company>, rows': map<nat, Company>, id: nat)
    requires TickersUnique(rows) && id in rows' && rows' == rows[id := rows'[id]]
    requires (id in rows && rows'[id].ticker == rows[id].ticker) || !TickerTaken(rows, rows'[id].ticker, id)
    ensures TickersUnique(rows')
  {
  }

  lemma WrittenRowKeeps(t: Table, t': Table, id: nat)
    requires Forest(t) && id in t.rows && id in t'.rows && t'.rows == t.rows[id := t'.rows[id]] && t'.nextId == t.nextId
    requires t'.rows[id].ticker == t.rows[id].ticker || !TickerTaken(t.rows, t'.rows[id].ticker, id)
    requires
      || LeafWritten(t.rows, t'.rows, id)
      || (t'.rows[id].parent == t.rows[id].parent && t'.rows[id].groupRoot == t.rows[id].groupRoot)
    ensures Forest(t')
  {
    WrittenRowKeepsTickers(t.rows, t'.rows, id);
    if LeafWritten(t.rows, t'.rows, id) {
      LeafKeepsParents(t.rows, t'.rows, id);
      LeafKeepsAcyclic(t.rows, t'.rows, id);
      LeafKeepsRoots(t.rows, t'.rows, id);
    } else {
      RenameKeeps(t.rows, t'.rows);
    }
  }

  lemma DoKeeps(t: Table, step: Step)
    requires Forest(t)
    ensures Forest(Do(t, step).0)
  {
    match step
    case CreateCompany(name, ticker, parent) => CreateKeeps(t, name, ticker, parent);
    case UpdateCompany(id, edit) => UpdateKeeps(t, id, edit);
    case DeleteCompany(id) => if !HasChild(t.rows, id) { RemovalKeeps(t.rows, id); }
  }

  /** Over every run: parents exist and never loop, every row's group root (not only the touched one's) is
  its topmost ancestor, and tickers stay unique. */
  lemma {:induction false} RunKeepsForest(t: Table, steps: seq<Step>)
    requires Forest(t)
    ensures Forest(Run(t, steps))
    decreases |steps|
  {
    if steps != [] {
      DoKeeps(t, steps[0]);
      RunKeepsForest(Do(t, steps[0]).0, steps[1..]);
    }
  }

  /** A refused call leaves every row as it was. */
  lemma RefusedChangesNothing(t: Table, step: Step)
    ensures Do(t, step).1 != Saved ==> Do(t, step).0.rows == t.rows
  {
  }

  // ----- what the group root means -----

  lemma {:induction false} ClimbIsDetermined(rows: map<nat, Company>, p: seq<nat>, q: seq<nat>)
    requires Climb(rows, p) && Climb(rows, q) && p[0] == q[0] && |p| <= |q|
    ensures p == q[..|p|]
    decreases |p|
  {
    if |p| > 1 {
      var shorter := p[..|p| - 1];
      ClimbIsDetermined(rows, shorter, q);
      assert rows[shorter[|p| - 2]].parent == Some(p[|p| - 1]);
    }
  }

  lemma ClimbGoesOn(rows: map<nat, Company>, p: seq<nat>, k: nat)
    requires Climb(rows, p) && k < |p| - 1
    ensures rows[p[k]].parent == Some(p[k + 1])
  {
  }

  lemma TopmostIsUnique(rows: map<nat, Company>, id: nat, a: nat, b: nat)
    requires Topmost(rows, id, a) && Topmost(rows, id, b)
    ensures a == b
  {
    var p :| ClimbsTo(rows, p, id, a);
    var q :| ClimbsTo(rows, q, id, b);
    var short, long := if |p| <= |q| then p else q, if |p| <= |q| then q else p;
    ClimbIsDetermined(rows, short, long);
    assert long[|short| - 1] == short[|short| - 1];
    if |short| < |long| { ClimbGoesOn(rows, long, |short| - 1); }
  }

  /** The flat equality on `group_root_id` selects exactly the companies below that top company. */
  lemma GroupRootSelectsOneTree(t: Table, id: nat, root: nat)
    requires Forest(t) && id in t.rows
    ensures t.rows[id].groupRoot == root <==> Topmost(t.rows, id, root)
  {
    assert Topmost(t.rows, id, t.rows[id].groupRoot);
    if Topmost(t.rows, id, root) { TopmostIsUnique(t.rows, id, root, t.rows[id].groupRoot); }
  }

  lemma ClimbHasNoRepeats(rows: map<nat, Company>, p: seq<nat>)
    requires Acyclic(rows) && Climb(rows, p)
    ensures forall j, k :: 0 <= j < k < |p| ==> p[j] != p[k]
  {
    forall j, k | 0 <= j < k < |p| ensures p[j] != p[k] {
      assert Climb(rows, p[j..k + 1]);
    }
  }

  lemma {:induction false} DistinctFit(p: seq<nat>, ids: set<nat>)
    requires forall j, k :: 0 <= j < k < |p| ==> p[j] != p[k]
    requires forall j :: 0 <= j < |p| ==> p[j] in ids
    ensures |p| <= |ids|
    decreases |p|
  {
    if p != [] { DistinctFit(p[1..], ids - {p[0]}); }
  }

  /** Walking up the parents visits each company at most once, so it ends. */
  lemma ClimbIsShort(t: Table, p: seq<nat>)
    requires Forest(t) && Climb(t.rows, p)
    ensures |p| <= |t.rows|
  {
    ClimbHasNoRepeats(t.rows, p);
    DistinctFit(p, t.rows.Keys);
  }

  // ----- the ticker-already-exists answer -----

  /** The table a deployment starts with. */
  lemma EmptyTableIsForest(nextId: nat)
    ensures Forest(Table(map[], nextId))
  {
  }

  /** The ticker the edit asks for is really another company's. */
  predicate TickerClashes(rows: map<nat, Company>, id: nat, edit: Edit) {
    edit.ticker.Sent? && edit.ticker.value.Some? && TickerTaken(rows, edit.ticker.value.value, id)
  }

  predicate SendsNull(edit: Edit) { edit.name == Sent(None) || edit.ticker == Sent(None) }

  /** On every forest, a conflict answer to this edit means what it says. */
  ghost predicate ConflictIsTrue(edit: Edit) {
    forall t, id :: Forest(t) && Update(t, id, edit).1 == Conflict ==> TickerClashes(t.rows, id, edit)
  }

  /** A root `p` and a company `p + 1` below it, with tickers the edit does not ask for. */
  function TwoCompanies(p: nat, other: string): Table {
    Run(Table(map[], p), [CreateCompany("Parent", other + "A", None), CreateCompany("Child", other + "B", Some(p))])
  }

  lemma TwoCompaniesAreMade(p: nat, other: string)
    ensures TwoCompanies(p, other) == Table(
      map[p := Company("Parent", other + "A", None, p), p + 1 := Company("Child", other + "B", Some(p), p)], p + 2)
    ensures Forest(TwoCompanies(p, other))
  {
    var first, second := CreateCompany("Parent", other + "A", None), CreateCompany("Child", other + "B", Some(p));
    assert [first, second][1..] == [second] && [second][1..] == [];
    var t1 := Do(Table(map[], p), first).0;
    assert t1 == Table(map[p := Company("Parent", other + "A", None, p)], p + 1);
    assert (other + "B")[|other|] != (other + "A")[|other|];
    assert Run(t1, [second]) == Run(Do(t1, second).0, []);
    EmptyTableIsForest(p);
    RunKeepsForest(Table(map[], p), [first, second]);
  }

  /** The id of a company of that table which the edit does not move. */
  function Unmoved(p: nat, edit: Edit): nat { if edit.parent == Sent(Some(p)) then p + 1 else p }

  lemma NullIsMistakenForATicker(edit: Edit)
    requires SendsNull(edit)
    ensures !ConflictIsTrue(edit)
  {
    var p := if edit.parent.Sent? && edit.parent.value.Some? then edit.parent.value.value else 1;
    var other := if edit.ticker.Sent? && edit.ticker.value.Some? then edit.ticker.value.value else "";
    var t, id := TwoCompanies(p, other), Unmoved(p, edit);
    TwoCompaniesAreMade(p, other);
    assert |other + "A"| == |other + "B"| == |other| + 1;
    assert !Moves(t.rows[id], edit) && CommitFails(t.rows, id, edit);
    assert !TickerClashes(t.rows, id, edit);
  }

  /** The update answers "a company with this ticker already exists" only when one does, if and only if the edit
  sends neither a null name nor a null ticker. */
  lemma ConflictIsTrueExactlyWithoutNulls(edit: Edit)
    ensures ConflictIsTrue(edit) <==> !SendsNull(edit)
  {
    if SendsNull(edit) {
      NullIsMistakenForATicker(edit);
    }
  }

  /** The plainest case: the only company there is, renamed to null. */
  lemma NullNameBlamesTheTicker(name: string, ticker: string)
    ensures var t := Create(Table(map[], 1), name, ticker, None).0;
      && Forest(t) && t.rows.Keys == {1}
      && Update(t, 1, Edit(Sent(None), Unset, Unset)).1 == Conflict && !TickerTaken(t.rows, ticker, 1)
  {
    EmptyTableIsForest(1);
    CreateKeeps(Table(map[], 1), name, ticker, None);
  }

  /** Create, whose request cannot carry nulls, never gives the answer without cause. */
  lemma CreateConflictIsTrue(t: Table, name: string, ticker: string, parent: Option<nat>)
    requires forall id :: id in t.rows ==> id < t.nextId
    ensures Create(t, name, ticker, parent).1 == Conflict <==>
      (parent.Some? ==> parent.value in t.rows) && exists id :: id in t.rows && t.rows[id].ticker == ticker
  {
  }
}

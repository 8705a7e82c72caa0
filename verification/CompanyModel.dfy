/** The company hierarchy: the `companies` table, its create/update/delete operations, and what makes it a
forest. */
module CompanyModel {
  import opened Wrappers

  datatype Company = Company(name: string, ticker: string, parent: Option<nat>, groupRoot: nat)

  datatype Table = Table(rows: map<nat, Company>, nextId: nat)

  /** A request field: absent, or sent (possibly as null). */
  datatype Field<+T> = Unset | Sent(value: T)

  datatype Edit = Edit(name: Field<Option<string>>, ticker: Field<Option<string>>, parent: Field<Option<nat>>)

  datatype Outcome = Saved | NotFound | NoSuchParent | OwnParent | HasSubsidiaries | Conflict

  predicate HasChild(rows: map<nat, Company>, id: nat) {
    exists j :: j in rows && rows[j].parent == Some(id)
  }

  predicate TickerTaken(rows: map<nat, Company>, ticker: string, id: nat) {
    exists j :: j in rows && j != id && rows[j].ticker == ticker
  }

  function RootUnder(rows: map<nat, Company>, id: nat, parent: Option<nat>): nat
    requires parent.Some? ==> parent.value in rows
  {
    if parent.Some? then rows[parent.value].groupRoot else id
  }

  /** The id drawn by a failing INSERT is gone: a sequence is not rolled back. */
  function Create(t: Table, name: string, ticker: string, parent: Option<nat>): (Table, Outcome) {
    if parent.Some? && parent.value !in t.rows then (t, NoSuchParent)
    else if TickerTaken(t.rows, ticker, t.nextId) then (t.(nextId := t.nextId + 1), Conflict)
    else
      var row := Company(name, ticker, parent, RootUnder(t.rows, t.nextId, parent));
      (Table(t.rows[t.nextId := row], t.nextId + 1), Saved)
  }

  predicate Moves(c: Company, edit: Edit) { edit.parent.Sent? && edit.parent.value != c.parent }

  function MoveRefused(rows: map<nat, Company>, id: nat, parent: Option<nat>): Option<Outcome> {
    if parent == Some(id) then Some(OwnParent)
    else if HasChild(rows, id) then Some(HasSubsidiaries)
    else if parent.Some? && parent.value !in rows then Some(NoSuchParent)
    else None
  }

  /** A null name or ticker breaks NOT NULL at commit, a taken ticker breaks the unique index; both come back
  as the same error. */
  predicate CommitFails(rows: map<nat, Company>, id: nat, edit: Edit) {
    || edit.name == Sent(None)
    || edit.ticker == Sent(None)
    || (edit.ticker.Sent? && edit.ticker.value.Some? && TickerTaken(rows, edit.ticker.value.value, id))
  }

  function Update(t: Table, id: nat, edit: Edit): (Table, Outcome) {
    if id !in t.rows then (t, NotFound)
    else
      var c := t.rows[id];
      var refused := if Moves(c, edit) then MoveRefused(t.rows, id, edit.parent.value) else None;
      if refused.Some? then (t, refused.value)
      else if CommitFails(t.rows, id, edit) then (t, Conflict)
      else
        var moved := if Moves(c, edit) then
            c.(parent := edit.parent.value, groupRoot := RootUnder(t.rows, id, edit.parent.value))
          else c;
        var named := if edit.name.Sent? then moved.(name := edit.name.value.value) else moved;
        var done := if edit.ticker.Sent? then named.(ticker := edit.ticker.value.value) else named;
        (t.(rows := t.rows[id := done]), Saved)
  }

  function Delete(t: Table, id: nat): (Table, Outcome) {
    if id !in t.rows then (t, NotFound)
    else if HasChild(t.rows, id) then (t, HasSubsidiaries)
    else (t.(rows := t.rows - {id}), Saved)
  }

  datatype Step =
    | CreateCompany(name: string, ticker: string, parent: Option<nat>)
    | UpdateCompany(id: nat, edit: Edit)
    | DeleteCompany(id: nat)

  function Do(t: Table, step: Step): (Table, Outcome) {
    match step
    case CreateCompany(name, ticker, parent) => Create(t, name, ticker, parent)
    case UpdateCompany(id, edit) => Update(t, id, edit)
    case DeleteCompany(id) => Delete(t, id)
  }

  function Run(t: Table, steps: seq<Step>): Table
    decreases |steps|
  {
    if steps == [] then t else Run(Do(t, steps[0]).0, steps[1..])
  }

  // ----- the forest -----

  /** p climbs from p[0], each company followed by its parent. */
  ghost predicate Climb(rows: map<nat, Company>, p: seq<nat>) {
    && |p| > 0
    && (forall k :: 0 <= k < |p| ==> p[k] in rows)
    && (forall k :: 0 <= k < |p| - 1 ==> rows[p[k]].parent == Some(p[k + 1]))
  }

  ghost predicate ClimbsTo(rows: map<nat, Company>, p: seq<nat>, id: nat, top: nat) {
    Climb(rows, p) && p[0] == id && p[|p| - 1] == top && rows[top].parent.None?
  }

  /** `top` is the topmost ancestor of `id`. */
  ghost predicate Topmost(rows: map<nat, Company>, id: nat, top: nat) { exists p :: ClimbsTo(rows, p, id, top) }

  ghost predicate NoDanglingParent(rows: map<nat, Company>) {
    forall id {:trigger rows[id].parent} :: id in rows && rows[id].parent.Some? ==> rows[id].parent.value in rows
  }

  ghost predicate Acyclic(rows: map<nat, Company>) {
    forall p :: Climb(rows, p) && |p| > 1 ==> p[0] != p[|p| - 1]
  }

  ghost predicate RootsAreTopmost(rows: map<nat, Company>) {
    forall id {:trigger Topmost(rows, id, rows[id].groupRoot)} :: id in rows ==> Topmost(rows, id, rows[id].groupRoot)
  }

  ghost predicate TickersUnique(rows: map<nat, Company>) {
    forall i, j :: i in rows && j in rows && rows[i].ticker == rows[j].ticker ==> i == j
  }

  ghost predicate Forest(t: Table) {
    && NoDanglingParent(t.rows) && Acyclic(t.rows) && RootsAreTopmost(t.rows) && TickersUnique(t.rows)
    && forall id :: id in t.rows ==> id < t.nextId
  }
}

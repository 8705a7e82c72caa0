/** What each company operation answers and what it writes, told from the request and the table before it; and what the
filters and sort columns of the list mean. */
module CompanyOperations {
  import opened Wrappers
  import opened CompanyModel
  import opened CompanyScope
  import opened CompanyListing

  // ----- create -----

  /** An accepted create adds one row, under an id not in use, with what was sent; nothing else changes. A refused one
  changes no row, but one refused by the database has used up an id. */
  lemma CreateWritesWhatIsSent(t: Table, name: string, ticker: string, parent: Option<nat>)
    requires forall id :: id in t.rows ==> id < t.nextId
    ensures var (after, outcome) := Create(t, name, ticker, parent);
      && (outcome == Saved ==>
            && after.rows.Keys == t.rows.Keys + {t.nextId} && t.nextId !in t.rows
            && after.rows[t.nextId].name == name && after.rows[t.nextId].ticker == ticker
            && after.rows[t.nextId].parent == parent
            && forall id :: id in t.rows ==> after.rows[id] == t.rows[id])
      && (outcome != Saved ==> after.rows == t.rows)
      && after.nextId == t.nextId + if outcome == NoSuchParent then 0 else 1
  {
  }

  lemma CreateAnswers(t: Table, name: string, ticker: string, parent: Option<nat>)
    requires forall id :: id in t.rows ==> id < t.nextId
    ensures Create(t, name, ticker, parent).1 ==
      if parent.Some? && parent.value !in t.rows.Keys then NoSuchParent
      else if exists id :: id in t.rows && t.rows[id].ticker == ticker then Conflict
      else Saved
  {
  }

  // ----- update -----

  /** The value a field ends up with: the one sent, or the one it had. */
  function SentOr<T>(field: Field<Option<T>>, held: T): T {
    if field.Sent? && field.value.Some? then field.value.value else held
  }

  /** An accepted update leaves the row with the sent name, ticker and parent where they were sent and the old ones
  where they were not; every other row is as before. A refused one changes nothing. */
  lemma UpdateWritesWhatIsSent(t: Table, id: nat, edit: Edit)
    ensures var (after, outcome) := Update(t, id, edit);
      && (outcome == Saved ==>
            && id in t.rows && after.rows.Keys == t.rows.Keys && after.nextId == t.nextId
            && after.rows[id].name == SentOr(edit.name, t.rows[id].name)
            && after.rows[id].ticker == SentOr(edit.ticker, t.rows[id].ticker)
            && after.rows[id].parent == (if edit.parent.Sent? then edit.parent.value else t.rows[id].parent)
            && forall other :: other in t.rows && other != id ==> after.rows[other] == t.rows[other])
      && (outcome != Saved ==> after == t)
  {
  }

  ghost predicate HasSubsidiary(rows: map<nat, Company>, id: nat) {
    exists child :: child in rows && rows[child].parent == Some(id)
  }

  /** The edit sends a parent other than the one the company has. */
  predicate Moves(edit: Edit, row: Company) { edit.parent.Sent? && edit.parent.value != row.parent }

  /** The reasons an update is refused for, in the order they are looked at. */
  lemma UpdateAnswers(t: Table, id: nat, edit: Edit)
    ensures Update(t, id, edit).1 ==
      if id !in t.rows.Keys then NotFound
      else if Moves(edit, t.rows[id]) && edit.parent.value == Some(id) then OwnParent
      else if Moves(edit, t.rows[id]) && HasSubsidiary(t.rows, id) then HasSubsidiaries
      else if Moves(edit, t.rows[id]) && edit.parent.value.Some? && edit.parent.value.value !in t.rows then NoSuchParent
      else if edit.name == Sent(None) || edit.ticker == Sent(None) || TakesATicker(t.rows, id, edit) then Conflict
      else Saved
  {
    if id in t.rows && edit.ticker.Sent? && edit.ticker.value.Some? {
      assert TickerTaken(t.rows, edit.ticker.value.value, id) <==> TakesATicker(t.rows, id, edit);
    }
    assert HasChild(t.rows, id) <==> HasSubsidiary(t.rows, id);
  }

  /** The edit sends a ticker some other company has. */
  ghost predicate TakesATicker(rows: map<nat, Company>, id: nat, edit: Edit) {
    edit.ticker.Sent? && exists other :: other in rows && other != id && Some(rows[other].ticker) == edit.ticker.value
  }

  // ----- delete -----

  /** Exactly a company without subsidiaries can be deleted; then its row is gone and no other is touched. */
  lemma DeleteRemovesTheRow(t: Table, id: nat)
    ensures var (after, outcome) := Delete(t, id);
      && (outcome == NotFound <==> id !in t.rows)
      && (outcome == HasSubsidiaries <==> id in t.rows && HasSubsidiary(t.rows, id))
      && (outcome == Saved <==> id in t.rows && !HasSubsidiary(t.rows, id))
      && after.rows.Keys == (if outcome == Saved then t.rows.Keys - {id} else t.rows.Keys)
      && (forall other :: other in after.rows ==> after.rows[other] == t.rows[other])
      && after.nextId == t.nextId
  {
    assert HasChild(t.rows, id) <==> HasSubsidiary(t.rows, id);
  }

  /** Deleting what was just created leaves the rows as they were. */
  lemma DeleteUndoesCreate(t: Table, name: string, ticker: string, parent: Option<nat>)
    requires Forest(t) && Create(t, name, ticker, parent).1 == Saved && parent != Some(t.nextId)
    ensures var after := Delete(Create(t, name, ticker, parent).0, t.nextId); after.1 == Saved && after.0.rows == t.rows
  {
    var made := Create(t, name, ticker, parent).0;
    assert NoDanglingParent(t.rows);
    forall child | child in made.rows
      ensures made.rows[child].parent != Some(t.nextId)
    {
      if child != t.nextId { assert t.rows[child].parent == made.rows[child].parent; }
    }
    assert made.rows - {t.nextId} == t.rows;
  }

  // ----- the list -----

  /** The companies listed are those the scope names, that the search finds, and that have the asked-for place in the
  hierarchy: a root has no parent, a subsidiary has one. */
  lemma SelectedMeans(q: Query, rows: Rows, id: nat)
    ensures id in Selected(q, rows) <==>
      && id in rows.Keys && Listed(q.scope, id, rows[id].groupRoot) && q.search(rows[id])
      && (q.hierarchy == Root ==> rows[id].parent == None)
      && (q.hierarchy == Subsidiary ==> rows[id].parent != None)
  {
  }

  /** Whether the earlier of two listed companies may stand where it does, going by a column every row has. */
  predicate Ordered(ascending: bool, x: int, y: int, a: nat, b: nat) {
    if ascending then x < y || (x == y && a < b) else y < x || (x == y && b < a)
  }

  /** The list is in the order of the column it was asked to be sorted by, with the id deciding between equals. */
  lemma ListIsInTheOrderAskedFor(q: Query, rows: Rows, p: seq<nat>, j: nat, k: nat)
    requires Arrangement(q, rows, p) && j < k < |p|
    ensures p[j] in rows && p[k] in rows
    ensures q.sortBy == ById ==> Ordered(q.ascending, p[j], p[k], p[j], p[k])
    ensures q.sortBy == ByName ==>
      Ordered(q.ascending, q.rank(rows[p[j]].name), q.rank(rows[p[k]].name), p[j], p[k])
    ensures q.sortBy == ByTicker ==>
      Ordered(q.ascending, q.rank(rows[p[j]].ticker), q.rank(rows[p[k]].ticker), p[j], p[k])
    ensures q.sortBy == ByCreatedAt ==> Ordered(q.ascending, q.createdAt(p[j]), q.createdAt(p[k]), p[j], p[k])
  {
    assert p[j] in Selected(q, rows) && p[k] in Selected(q, rows);
    AheadIsTotalOrder(q, rows, p[j], p[k], p[k]);
  }

  /** Sorted by parent, the companies go by the names of their parents; those without one come last in ascending order
  and first in descending order. */
  lemma ParentlessComeLast(q: Query, rows: Rows, p: seq<nat>, j: nat, k: nat)
    requires Arrangement(q, rows, p) && j < k < |p| && q.sortBy == ByParent && NoDanglingParent(rows)
    ensures p[j] in rows && p[k] in rows
    ensures q.ascending && rows[p[j]].parent == None ==> rows[p[k]].parent == None
    ensures !q.ascending && rows[p[k]].parent == None ==> rows[p[j]].parent == None
    ensures rows[p[j]].parent == None && rows[p[k]].parent == None ==> if q.ascending then p[j] < p[k] else p[k] < p[j]
    ensures rows[p[j]].parent.Some? && rows[p[k]].parent.Some? ==>
      var x, y := rows[p[j]].parent.value, rows[p[k]].parent.value;
      x in rows && y in rows && Ordered(q.ascending, q.rank(rows[x].name), q.rank(rows[y].name), p[j], p[k])
  {
    assert p[j] in Selected(q, rows) && p[k] in Selected(q, rows);
    AheadIsTotalOrder(q, rows, p[j], p[k], p[k]);
    assert rows[p[j]].parent.Some? ==> rows[p[j]].parent.value in rows;
    assert rows[p[k]].parent.Some? ==> rows[p[k]].parent.value in rows;
  }
}

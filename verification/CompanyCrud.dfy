/** The company operations as the code runs them against one table, proved to be the steps of CompanyModel. */
module CompanyCrud {
  import opened Wrappers
  import CompanyForest
  import opened CompanyModel

  class Companies {
    var rows: map<nat, Company>
    var nextId: nat

    ghost function Now(): Table
      reads this
    {
      Table(rows, nextId)
    }

    constructor ()
      ensures Now() == Table(map[], 1) && Forest(Now())
    {
      rows, nextId := map[], 1;
      new;
      CompanyForest.EmptyTableIsForest(1);
    }

    method CreateCompany(name: string, ticker: string, parent: Option<nat>) returns (outcome: Outcome)
      modifies this
      ensures (Now(), outcome) == Do(old(Now()), Step.CreateCompany(name, ticker, parent))
    {
      if parent.Some? && parent.value !in rows { return NoSuchParent; }
      // flush: the sequence hands out the id, then the unique index is checked
      var id := nextId;
      nextId := nextId + 1;
      if TickerTaken(rows, ticker, id) { return Conflict; }
      var groupRoot := if parent.Some? then rows[parent.value].groupRoot else id;
      rows := rows[id := Company(name, ticker, parent, groupRoot)];
      outcome := Saved;
    }

    method CountSubsidiaries(id: nat) returns (count: nat)
      ensures count > 0 <==> HasChild(rows, id)
    {
      var children := set j | j in rows && rows[j].parent == Some(id);
      count := |children|;
      assert forall j :: j in children <==> j in rows && rows[j].parent == Some(id);
      assert children != {} ==> exists j :: j in children;
    }

    method UpdateCompany(id: nat, edit: Edit) returns (outcome: Outcome)
      modifies this
      ensures (Now(), outcome) == Do(old(Now()), Step.UpdateCompany(id, edit))
    {
      if id !in rows { return NotFound; }
      // `company` is the session's copy: nothing is stored until the commit below
      var company := rows[id];
      if edit.parent.Sent? && edit.parent.value != company.parent {
        var newParent := edit.parent.value;
        if newParent == Some(id) { return OwnParent; }
        var count := CountSubsidiaries(id);
        if count > 0 { return HasSubsidiaries; }
        if newParent.None? {
          company := company.(groupRoot := id);
        } else {
          if newParent.value !in rows { return NoSuchParent; }
          company := company.(groupRoot := rows[newParent.value].groupRoot);
        }
        company := company.(parent := newParent);
      }
      if CommitFails(rows, id, edit) { return Conflict; }
      if edit.name.Sent? { company := company.(name := edit.name.value.value); }
      if edit.ticker.Sent? { company := company.(ticker := edit.ticker.value.value); }
      rows := rows[id := company];
      outcome := Saved;
    }

    method DeleteCompany(id: nat) returns (outcome: Outcome)
      modifies this
      ensures (Now(), outcome) == Do(old(Now()), Step.DeleteCompany(id))
    {
      if id !in rows { return NotFound; }
      var count := CountSubsidiaries(id);
      if count > 0 { return HasSubsidiaries; }
      rows := rows - {id};
      outcome := Saved;
    }
  }
}

/** The contact table updated in place, loop by loop, inside a transaction. */
module ContactStore {
  import opened Results
  import opened Sums
  import opened Contacts

  lemma {:induction false} FaultOfPrefix(t: Table, partner: Id, inputs: seq<Input>, n: nat)
    requires n <= |inputs| && ListFault(t, partner, inputs[..n]).Some?
    ensures ListFault(t, partner, inputs) == ListFault(t, partner, inputs[..n])
    decreases |inputs|
  {
    if n == |inputs| {
      assert inputs[..n] == inputs;
    } else {
      assert inputs[..|inputs| - 1][..n] == inputs[..n];
      FaultOfPrefix(t, partner, inputs[..|inputs| - 1], n);
    }
  }

  lemma {:induction false} RefusalOfPrefix(
    t0: Table, t: Table, partner: Id, inputs: seq<Input>, newIds: seq<Id>, perms: Perms, n: nat)
    requires Known(t0, inputs) && n <= |inputs| == |newIds|
    requires RowSteps(t0, t, partner, inputs[..n], newIds[..n], perms).Err?
    ensures RowSteps(t0, t, partner, inputs, newIds, perms) == RowSteps(t0, t, partner, inputs[..n], newIds[..n], perms)
    decreases |inputs|
  {
    if n == |inputs| {
      assert inputs[..n] == inputs && newIds[..n] == newIds;
    } else {
      var m := |inputs| - 1;
      assert inputs[..m][..n] == inputs[..n] && newIds[..m][..n] == newIds[..n];
      RefusalOfPrefix(t0, t, partner, inputs[..m], newIds[..m], perms, n);
    }
  }

  ghost predicate KeepsExactly(keep: set<Id>, inputs: seq<Input>) {
    forall id :: id in keep <==> Keeps(inputs, id)
  }

  /** The keep map is built while the ids are checked. */
  method CheckList(t: Table, partner: Id, inputs: seq<Input>) returns (fault: Option<Refusal>, keep: set<Id>)
    ensures fault == ListFault(t, partner, inputs)
    ensures fault.None? ==> KeepsExactly(keep, inputs)
  {
    keep := {};
    for i := 0 to |inputs|
      invariant ListFault(t, partner, inputs[..i]).None?
      invariant KeepsExactly(keep, inputs[..i])
    {
      assert inputs[..i + 1][..i] == inputs[..i];
      assert inputs[..i + 1] == inputs[..i] + [inputs[i]];
      if inputs[i].id.Some? {
        var id := inputs[i].id.value;
        if !ActiveOf(t, partner, id) {
          FaultOfPrefix(t, partner, inputs, i + 1);
          return Some(NoLongerExists), keep;
        }
        if id in keep {
          FaultOfPrefix(t, partner, inputs, i + 1);
          return Some(SentTwice), keep;
        }
        keep := keep + {id};
        assert inputs[..i + 1][i].id == Some(id);
      }
    }
    assert inputs[..|inputs|] == inputs;
    fault := None;
  }

  /** The rows of `done` that are not kept are deleted, the rest is as it was. */
  ghost predicate SweptSoFar(t: Table, t0: Table, done: set<Id>, keep: set<Id>) {
    && t.Keys == t0.Keys
    && forall id :: id in t0 ==> t[id] == if id in done && id !in keep then t0[id].(deleted := true) else t0[id]
  }

  function ActiveIds(t: Table, partner: Id): set<Id> {
    set id | id in t && ActiveOf(t, partner, id)
  }

  lemma SweepOne(t: Table, t0: Table, done: set<Id>, keep: set<Id>, id: Id)
    requires SweptSoFar(t, t0, done, keep) && id in t0 && id !in done
    ensures SweptSoFar(if id in keep then t else t[id := t[id].(deleted := true)], t0, done + {id}, keep)
  {
  }

  lemma SweepIsDone(t: Table, t0: Table, partner: Id, inputs: seq<Input>, keep: set<Id>)
    requires SweptSoFar(t, t0, ActiveIds(t0, partner), keep)
    requires KeepsExactly(keep, inputs)
    ensures t == Swept(t0, partner, inputs)
    ensures ActiveIds(t0, partner) <= keep ==> !NeedsDelete(t0, partner, inputs)
  {
  }

  lemma LeftOutOfList(t0: Table, partner: Id, inputs: seq<Input>, keep: set<Id>, id: Id)
    requires id in ActiveIds(t0, partner) && id !in keep
    requires KeepsExactly(keep, inputs)
    ensures NeedsDelete(t0, partner, inputs)
  {
  }

  class Store {
    var rows: Table

    constructor ()
      ensures rows == map[]
    {
      rows := map[];
    }

    /** Soft-deletes the active contacts that are not kept, in whatever order they were loaded. */
    method DeleteMissing(partner: Id, inputs: seq<Input>, keep: set<Id>, perms: Perms) returns (refusal: Option<Refusal>)
      requires KeepsExactly(keep, inputs)
      modifies this
      ensures refusal == if NeedsDelete(old(rows), partner, inputs) && !perms.delete then Some(Forbidden(Remove)) else None
      ensures refusal.None? ==> rows == Swept(old(rows), partner, inputs)
    {
      ghost var t0 := rows;
      ghost var existing := ActiveIds(t0, partner);
      var todo := ActiveIds(rows, partner);
      while todo != {}
        invariant todo <= existing
        invariant SweptSoFar(rows, t0, existing - todo, keep)
        invariant perms.delete || existing - todo <= keep
        decreases |todo|
      {
        var id :| id in todo;
        SweepOne(rows, t0, existing - todo, keep, id);
        todo := todo - {id};
        assert existing - todo == existing - (todo + {id}) + {id};
        if id !in keep {
          if !perms.delete {
            LeftOutOfList(t0, partner, inputs, keep, id);
            return Some(Forbidden(Remove));
          }
          rows := rows[id := rows[id].(deleted := true)];
        }
      }
      assert existing - todo == existing;
      SweepIsDone(rows, t0, partner, inputs, keep);
      refusal := None;
    }

    /** One submitted row: update it if it changed, or create it. */
    method SaveRow(ghost t0: Table, loaded: Option<Contact>, partner: Id, input: Input, newId: Id, perms: Perms)
      returns (refusal: Option<Refusal>)
      requires input.id.Some? ==> input.id.value in t0 && loaded == Some(t0[input.id.value])
      modifies this
      ensures var outcome := RowStep(t0, old(rows), partner, input, newId, perms);
              && rows == After(old(rows), outcome)
              && refusal == if outcome.Ok? then None else Some(outcome.error)
    {
      refusal := None;
      if input.id.Some? {
        var row := loaded.value;
        var before := row;
        row := row.(details := Applied(input));
        if row.details.name == "" { return Some(NameRequired); }
        if row.details == before.details { return None; }
        if !perms.update { return Some(Forbidden(Change)); }
        if Clashes(rows, partner, input.id.value, row.details) { return Some(Duplicate); }
        rows := rows[input.id.value := row];
        return None;
      }
      if !perms.create { return Some(Forbidden(Add)); }
      var row := Contact(partner, Applied(input), false);
      if row.details.name == "" { return Some(NameRequired); }
      if Clashes(rows, partner, newId, row.details) { return Some(Duplicate); }
      rows := rows[newId := row];
    }

    /** syncContacts. After a refusal the table may be half-written; the caller's transaction undoes that. */
    method SyncContacts(partner: Id, inputs: seq<Input>, newIds: seq<Id>, perms: Perms) returns (refusal: Option<Refusal>)
      requires |newIds| == |inputs|
      modifies this
      ensures var outcome := Sync(old(rows), partner, inputs, newIds, perms);
              && refusal == (if outcome.Ok? then None else Some(outcome.error))
              && (outcome.Ok? ==> rows == outcome.value)
    {
      var byId := rows;
      var fault, keep := CheckList(byId, partner, inputs);
      if fault.Some? {
        return fault;
      }
      FaultlessIdsAreActive(byId, partner, inputs);
      refusal := DeleteMissing(partner, inputs, keep, perms);
      if refusal.Some? {
        return;
      }
      refusal := SaveRows(byId, partner, inputs, newIds, perms);
    }

    /** The row loop: updates of the kept contacts and creations, in list order. */
    method SaveRows(byId: Table, partner: Id, inputs: seq<Input>, newIds: seq<Id>, perms: Perms)
      returns (refusal: Option<Refusal>)
      requires Known(byId, inputs) && |newIds| == |inputs|
      modifies this
      ensures var outcome := RowSteps(byId, old(rows), partner, inputs, newIds, perms);
              && refusal == (if outcome.Ok? then None else Some(outcome.error))
              && (outcome.Ok? ==> rows == outcome.value)
    {
      ghost var swept := rows;
      for i := 0 to |inputs|
        invariant RowSteps(byId, swept, partner, inputs[..i], newIds[..i], perms) == Ok(rows)
      {
        RowStepsSnoc(byId, swept, partner, inputs, newIds, perms, i);
        var loaded := if inputs[i].id.Some? then Some(byId[inputs[i].id.value]) else None;
        refusal := SaveRow(byId, loaded, partner, inputs[i], newIds[i], perms);
        if refusal.Some? {
          RefusalOfPrefix(byId, swept, partner, inputs, newIds, perms, i + 1);
          return;
        }
      }
      assert inputs[..|inputs|] == inputs && newIds[..|newIds|] == newIds;
      refusal := None;
    }

    /** The partner's save: contacts and partner are written together or not at all. */
    method SavePartner(partner: Id, inputs: seq<Input>, newIds: seq<Id>, perms: Perms) returns (refusal: Option<Refusal>)
      requires |newIds| == |inputs| && FreshIds(rows, newIds)
      modifies this
      ensures rows == After(old(rows), Sync(old(rows), partner, inputs, newIds, perms))
      ensures refusal.None? <==> Sync(old(rows), partner, inputs, newIds, perms).Ok?
      ensures refusal.None? ==>
                forall k :: 0 <= k < |inputs| ==> StoredAs(rows, Slot(inputs, newIds, k), partner, inputs[k])
      ensures refusal.Some? ==> rows == old(rows)
      ensures old(NoDuplicates(rows)) ==> NoDuplicates(rows)
    {
      var snapshot := rows;
      refusal := SyncContacts(partner, inputs, newIds, perms);
      if refusal.Some? {
        rows := snapshot;
        return;
      }
      ActiveContactsAreTheList(snapshot, partner, inputs, newIds, perms);
      if NoDuplicates(snapshot) {
        SyncKeepsNoDuplicates(snapshot, partner, inputs, newIds, perms);
      }
    }
  }
}

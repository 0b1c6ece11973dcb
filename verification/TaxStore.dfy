/** The tax repository: the same calls on a table that is updated in place. */
module TaxStore {
  import opened Results
  import opened Text
  import opened Taxes
  import opened TaxEdits

  /** The loop over the rows the component query found, whatever their order. */
  method ResolveComponents(t: Table, c1: string, c2: string) returns (r: Result<Pair, Refusal>)
    ensures r == Resolve(t, c1, c2)
  {
    var a, b := Trim(c1), Trim(c2);
    if a == "" || b == "" {
      return Err(NeedsTwoSingles);
    }
    if a == b {
      return Err(SinglesMustDiffer);
    }
    TrimIsIdempotent(c1);
    TrimIsIdempotent(c2);
    var found := (if Live(t, a) then [t[a]] else []) + if Live(t, b) then [t[b]] else [];
    if |found| != 2 {
      return Err(SingleNotFound);
    }
    var rate := 0;
    for i := 0 to |found|
      invariant forall k :: 0 <= k < i ==> !found[k].isCompound
      invariant rate == if i == 0 then 0 else if i == 1 then found[0].rate else found[0].rate + found[1].rate
    {
      if found[i].isCompound {
        return Err(ComponentIsCompound);
      }
      rate := rate + found[i].rate;
    }
    r := Ok(Pair(a, b, rate));
  }

  /** The single-tax half of Update: each submitted field in turn. */
  method EditSingleRow(existing: Tax, common: Tax, e: Edit, accounts: set<string>) returns (r: Result<Tax, Refusal>)
    requires common == CommonEdit(existing, e)
    ensures r == EditedSingle(existing, e, accounts)
  {
    var row := common;
    if e.kind != "" {
      row := row.(kind := e.kind);
    }
    if e.calcMethod != "" {
      row := row.(calcMethod := e.calcMethod);
    }
    if e.rate.Some? {
      row := row.(rate := StoredRate(e.rate.value));
    }
    if e.salesAccount.Some? {
      var fault := AccountFault(e.salesAccount, accounts);
      if fault.Some? { return Err(fault.value); }
      row := row.(salesAccount := Some(Trim(e.salesAccount.value)));
    }
    if e.purchaseAccount.Some? {
      var fault := AccountFault(e.purchaseAccount, accounts);
      if fault.Some? { return Err(fault.value); }
      row := row.(purchaseAccount := Some(Trim(e.purchaseAccount.value)));
    }
    r := Ok(row);
  }

  class Store {
    var rows: Table

    constructor ()
      ensures rows == map[]
    {
      rows := map[];
    }

    /** Any call, as the service dispatches it. The table keeps its invariant whatever is asked. */
    method Apply(c: Command) returns (refusal: Option<Refusal>)
      modifies this
      ensures rows == After(old(rows), Step(old(rows), c))
      ensures refusal == if Step(old(rows), c).Ok? then None else Some(Step(old(rows), c).error)
      ensures old(Inv(rows)) ==> Inv(rows)
    {
      if Inv(rows) {
        StepKeepsInv(rows, c);
      }
      match c
      case CreateSingle(_, _, _, _, _, _, _, _, _) => refusal := CreateSingle(c);
      case CreateCompound(id, name, c1, c2, isActive) => refusal := CreateCompound(id, name, c1, c2, isActive);
      case Update(id, edit, accounts) => refusal := Update(id, edit, accounts);
      case Delete(id, lineUses) => refusal := Delete(id, lineUses);
      case SeedDefaults(seeds) => refusal := SeedDefaults(seeds);
    }

    method CreateSingle(c: Command) returns (refusal: Option<Refusal>)
      requires c.CreateSingle?
      modifies this
      ensures rows == After(old(rows), DoCreateSingle(old(rows), c))
      ensures refusal == if DoCreateSingle(old(rows), c).Ok? then None else Some(DoCreateSingle(old(rows), c).error)
    {
      if c.kind != "" && !ValidKind(c.kind) { return Some(InvalidKind); }
      if c.calcMethod != "" && !ValidMethod(c.calcMethod) { return Some(InvalidMethod); }
      var sales, purchase := Trim(c.salesAccount), Trim(c.purchaseAccount);
      if sales == "" || purchase == "" { return Some(AccountRequired); }
      if sales !in c.accounts { return Some(AccountNotFound); }
      if purchase !in c.accounts { return Some(AccountNotFound); }
      if c.id in rows { return Some(DuplicateId); }
      var kind := if c.kind == "" then "other" else c.kind;
      var calcMethod := if c.calcMethod == "" then "exclusive" else c.calcMethod;
      rows := rows[c.id := Tax(Trim(c.name), kind, StoredRate(c.rate), calcMethod, false, IsOn(c.isActive),
                               Some(sales), Some(purchase), false, None, None, false)];
      refusal := None;
    }

    method CreateCompound(id: TaxId, name: string, c1: string, c2: string, isActive: Option<bool>)
      returns (refusal: Option<Refusal>)
      modifies this
      ensures rows == After(old(rows), DoCreateCompound(old(rows), id, name, c1, c2, isActive))
      ensures refusal == if DoCreateCompound(old(rows), id, name, c1, c2, isActive).Ok? then None
                         else Some(DoCreateCompound(old(rows), id, name, c1, c2, isActive).error)
    {
      var pair := ResolveComponents(rows, c1, c2);
      if pair.Err? { return Some(pair.error); }
      if id in rows { return Some(DuplicateId); }
      rows := rows[id := Tax(Trim(name), "other", pair.value.rate, "exclusive", false, IsOn(isActive), None, None,
                             true, Some(pair.value.first), Some(pair.value.second), false)];
      refusal := None;
    }

    /**
     One statement over all compounds that refer to the single. It changes nothing but
     their rates, and when those were all that was out of order every live compound is the
     sum of two live single taxes afterwards.
     */
    method RefreshCompoundRates(single: TaxId)
      modifies this
      ensures rows == Refreshed(old(rows), single)
      ensures OnlyRatesOf(old(rows), rows, single)
      ensures old(InvBut(rows, single)) ==> Inv(rows)
    {
      RefreshOnlySetsRates(rows, single);
      rows := map id | id in rows :: RefreshedRow(rows, rows[id], single);
    }

    method Update(id: TaxId, e: Edit, accounts: set<string>) returns (refusal: Option<Refusal>)
      modifies this
      ensures rows == After(old(rows), DoUpdate(old(rows), id, e, accounts))
      ensures refusal == if DoUpdate(old(rows), id, e, accounts).Ok? then None
                         else Some(DoUpdate(old(rows), id, e, accounts).error)
      ensures refusal.None? && old(Inv(rows)) && !old(rows)[id].isCompound
              ==> id in rows && TakesSingle(old(rows)[id], rows[id], e)
    {
      if Inv(rows) {
        UpdateTakesEffect(rows, id, e, accounts);
      }
      if e.kind != "" && !ValidKind(e.kind) { return Some(InvalidKind); }
      if e.calcMethod != "" && !ValidMethod(e.calcMethod) { return Some(InvalidMethod); }
      if !Live(rows, id) { return Some(NotFound); }
      var existing := rows[id];
      if existing.isSystem && Renames(existing, e) { return Some(SystemLocked); }
      var row := existing;
      if Trim(e.name) != "" {
        row := row.(name := Trim(e.name));
      }
      if e.isActive.Some? {
        row := row.(isActive := e.isActive.value);
      }
      if existing.isCompound {
        refusal := UpdateCompound(id, existing, row, e);
      } else {
        refusal := UpdateSingle(id, existing, row, e, accounts);
      }
    }

    method UpdateCompound(id: TaxId, existing: Tax, common: Tax, e: Edit) returns (refusal: Option<Refusal>)
      requires Live(rows, id) && rows[id] == existing && common == CommonEdit(existing, e)
      modifies this
      ensures var edited := EditedCompound(old(rows), existing, e);
              && rows == (if edited.Ok? then old(rows)[id := edited.value] else old(rows))
              && refusal == if edited.Ok? then None else Some(edited.error)
    {
      var row := common;
      if e.component1.Some? || e.component2.Some? {
        var pair := ResolveComponents(rows, Given(e.component1, existing.component1), Given(e.component2, existing.component2));
        if pair.Err? { return Some(pair.error); }
        row := row.(component1 := Some(pair.value.first), component2 := Some(pair.value.second), rate := pair.value.rate);
      }
      rows := rows[id := row];
      refusal := None;
    }

    method UpdateSingle(id: TaxId, existing: Tax, common: Tax, e: Edit, accounts: set<string>)
      returns (refusal: Option<Refusal>)
      requires Live(rows, id) && rows[id] == existing && common == CommonEdit(existing, e)
      modifies this
      ensures var edited := EditedSingle(existing, e, accounts);
              && rows == (if edited.Err? then old(rows)
                          else if e.rate.Some? then Refreshed(old(rows)[id := edited.value], id)
                          else old(rows)[id := edited.value])
              && refusal == if edited.Ok? then None else Some(edited.error)
    {
      var row := EditSingleRow(existing, common, e, accounts);
      if row.Err? { return Some(row.error); }
      rows := rows[id := row.value];
      if e.rate.Some? {
        RefreshCompoundRates(id);
      }
      refusal := None;
    }

    method Delete(id: TaxId, lineUses: nat) returns (refusal: Option<Refusal>)
      modifies this
      ensures rows == After(old(rows), DoDelete(old(rows), id, lineUses))
      ensures refusal == if DoDelete(old(rows), id, lineUses).Ok? then None else Some(DoDelete(old(rows), id, lineUses).error)
    {
      if !Live(rows, id) { return Some(NotFound); }
      if rows[id].isSystem { return Some(SystemUndeletable); }
      if !rows[id].isCompound {
        if IsComponent(rows, id) { return Some(ComponentInUse); }
      }
      if lineUses > 0 { return Some(InUse); }
      rows := rows[id := rows[id].(deleted := true)];
      refusal := None;
    }

    method SeedDefaults(seeds: map<TaxId, Seed>) returns (refusal: Option<Refusal>)
      modifies this
      ensures rows == After(old(rows), DoSeedDefaults(old(rows), seeds))
      ensures refusal == if DoSeedDefaults(old(rows), seeds).Ok? then None else Some(DoSeedDefaults(old(rows), seeds).error)
    {
      if exists id :: id in rows && !rows[id].deleted { return None; }
      if exists id :: id in seeds && id in rows { return Some(DuplicateId); }
      rows := rows + map id | id in seeds :: SeedRow(seeds[id]);
      refusal := None;
    }
  }
}

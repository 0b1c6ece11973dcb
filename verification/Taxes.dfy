/**
 The tax table of one company. A single tax carries its own rate; a compound tax is a
 named pair of single taxes whose rate column is kept equal to the sum of theirs.
 Rates are stored with four decimals, so a stored rate is a whole number of
 ten-thousandths of a percent.
 */
module Taxes {
  import opened Results
  import opened Money
  import opened Text
  import opened LineCalc

  /** Row ids are generated, so they are never blank and carry no outer white space. */
  type TaxId = id: string | id != "" && Trim(id) == id witness "0"

  /** Request validation: gte=0, lte=100. */
  type GivenRate = r: real | 0.0 <= r <= 100.0 witness 0.0

  datatype Tax = Tax(
    name: string, kind: string, rate: nat, calcMethod: string, isSystem: bool, isActive: bool,
    salesAccount: Option<string>, purchaseAccount: Option<string>,
    isCompound: bool, component1: Option<TaxId>, component2: Option<TaxId>, deleted: bool)

  type Table = map<TaxId, Tax>

  datatype Refusal =
    | DuplicateId
    | NotFound
    | InvalidKind
    | InvalidMethod
    | AccountRequired
    | AccountNotFound
    | NeedsTwoSingles
    | SinglesMustDiffer
    | SingleNotFound
    | ComponentIsCompound
    | SystemLocked
    | SystemUndeletable
    | ComponentInUse
    | InUse

  datatype Edit = Edit(
    name: string, kind: string, calcMethod: string, rate: Option<GivenRate>, salesAccount: Option<string>,
    purchaseAccount: Option<string>, component1: Option<string>, component2: Option<string>, isActive: Option<bool>)

  datatype Seed = Seed(name: string, kind: string, calcMethod: string, rate: GivenRate)

  /** `accounts` is the set of live account ids; `lineUses` counts live document lines that carry the tax. */
  datatype Command =
    | CreateSingle(id: TaxId, name: string, kind: string, calcMethod: string, rate: GivenRate,
                   salesAccount: string, purchaseAccount: string, isActive: Option<bool>, accounts: set<string>)
    | CreateCompound(id: TaxId, name: string, c1: string, c2: string, isActive: Option<bool>)
    | Update(id: TaxId, edit: Edit, accounts: set<string>)
    | Delete(id: TaxId, lineUses: nat)
    | SeedDefaults(seeds: map<TaxId, Seed>)

  predicate Live(t: Table, id: string) {
    id in t && !t[id].deleted
  }

  predicate ValidKind(kind: string) {
    kind in {"ppn", "pph", "other"}
  }

  predicate ValidMethod(m: string) {
    m in {"exclusive", "inclusive"}
  }

  /** What the numeric(7,4) column keeps of a rate: the nearest ten-thousandth. */
  function StoredRate(r: GivenRate): (ticks: nat)
    ensures ticks <= 1000000
    ensures -0.5 <= ticks as real - r * 10000.0 <= 0.5
  {
    RoundIsNearest(r * 10000.0);
    Round(r * 10000.0)
  }

  function AsPercent(ticks: nat): Percent {
    ticks as real / 10000.0
  }

  // --- the calls -------------------------------------------------------------------

  datatype Pair = Pair(first: TaxId, second: TaxId, rate: nat)

  /** Two different live single taxes, and the sum of their rates. */
  function Resolve(t: Table, c1: string, c2: string): Result<Pair, Refusal> {
    var a, b := Trim(c1), Trim(c2);
    if a == "" || b == "" then Err(NeedsTwoSingles)
    else if a == b then Err(SinglesMustDiffer)
    else if !Live(t, a) || !Live(t, b) then Err(SingleNotFound)
    else if t[a].isCompound || t[b].isCompound then Err(ComponentIsCompound)
    else Ok(Pair(a, b, t[a].rate + t[b].rate))
  }

  function RateOf(t: Table, id: Option<TaxId>): nat {
    if id.Some? && Live(t, id.value) then t[id.value].rate else 0
  }

  predicate RefersTo(x: Tax, id: TaxId) {
    x.component1 == Some(id) || x.component2 == Some(id)
  }

  function RefreshedRow(t: Table, x: Tax, single: TaxId): Tax {
    if x.isCompound && !x.deleted && RefersTo(x, single)
    then x.(rate := RateOf(t, x.component1) + RateOf(t, x.component2))
    else x
  }

  /** refreshCompoundRates: one set-based statement over every compound that refers to the single. */
  function Refreshed(t: Table, single: TaxId): Table {
    map id | id in t :: RefreshedRow(t, t[id], single)
  }

  function IsOn(flag: Option<bool>): bool {
    flag.None? || flag.value
  }

  function Or(given: string, fallback: string): string {
    if given == "" then fallback else given
  }

  function SingleRow(c: Command): Tax
    requires c.CreateSingle?
  {
    Tax(Trim(c.name), Or(c.kind, "other"), StoredRate(c.rate), Or(c.calcMethod, "exclusive"), false, IsOn(c.isActive),
        Some(Trim(c.salesAccount)), Some(Trim(c.purchaseAccount)), false, None, None, false)
  }

  function DoCreateSingle(t: Table, c: Command): Result<Table, Refusal>
    requires c.CreateSingle?
  {
    if c.kind != "" && !ValidKind(c.kind) then Err(InvalidKind)
    else if c.calcMethod != "" && !ValidMethod(c.calcMethod) then Err(InvalidMethod)
    else if Blank(c.salesAccount) || Blank(c.purchaseAccount) then Err(AccountRequired)
    else if Trim(c.salesAccount) !in c.accounts || Trim(c.purchaseAccount) !in c.accounts then Err(AccountNotFound)
    else if c.id in t then Err(DuplicateId)
    else Ok(t[c.id := SingleRow(c)])
  }

  function CompoundRow(name: string, p: Pair, isActive: Option<bool>): Tax {
    Tax(Trim(name), "other", p.rate, "exclusive", false, IsOn(isActive), None, None,
        true, Some(p.first), Some(p.second), false)
  }

  function DoCreateCompound(t: Table, id: TaxId, name: string, c1: string, c2: string, isActive: Option<bool>): Result<Table, Refusal> {
    match Resolve(t, c1, c2)
    case Err(refusal) => Err(refusal)
    case Ok(p) => if id in t then Err(DuplicateId) else Ok(t[id := CompoundRow(name, p, isActive)])
  }

  /** The name and the active flag can be edited on either kind of tax. */
  function CommonEdit(x: Tax, e: Edit): Tax {
    x.(name := if Blank(e.name) then x.name else Trim(e.name),
       isActive := if e.isActive.Some? then e.isActive.value else x.isActive)
  }

  function EditedCompound(t: Table, x: Tax, e: Edit): Result<Tax, Refusal> {
    var y := CommonEdit(x, e);
    if e.component1.None? && e.component2.None? then Ok(y)
    else
      match Resolve(t, Given(e.component1, x.component1), Given(e.component2, x.component2))
      case Err(refusal) => Err(refusal)
      case Ok(p) => Ok(y.(component1 := Some(p.first), component2 := Some(p.second), rate := p.rate))
  }

  /** ptrOr: the submitted id, or the one on record. */
  function Given(submitted: Option<string>, onRecord: Option<TaxId>): string {
    if submitted.Some? then Trim(submitted.value)
    else if onRecord.Some? then onRecord.value
    else ""
  }

  function AccountFault(account: Option<string>, accounts: set<string>): Option<Refusal> {
    if account.None? then None
    else if Blank(account.value) then Some(AccountRequired)
    else if Trim(account.value) !in accounts then Some(AccountNotFound)
    else None
  }

  function EditedSingle(x: Tax, e: Edit, accounts: set<string>): Result<Tax, Refusal> {
    if AccountFault(e.salesAccount, accounts).Some? then Err(AccountFault(e.salesAccount, accounts).value)
    else if AccountFault(e.purchaseAccount, accounts).Some? then Err(AccountFault(e.purchaseAccount, accounts).value)
    else
      Ok(CommonEdit(x, e).(
         kind := Or(e.kind, x.kind), calcMethod := Or(e.calcMethod, x.calcMethod),
         rate := if e.rate.Some? then StoredRate(e.rate.value) else x.rate,
         salesAccount := if e.salesAccount.Some? then Some(Trim(e.salesAccount.value)) else x.salesAccount,
         purchaseAccount := if e.purchaseAccount.Some? then Some(Trim(e.purchaseAccount.value)) else x.purchaseAccount))
  }

  predicate Renames(x: Tax, e: Edit) {
    (e.name != "" && e.name != x.name) || (e.kind != "" && e.kind != x.kind)
  }

  function DoUpdate(t: Table, id: TaxId, e: Edit, accounts: set<string>): Result<Table, Refusal> {
    if e.kind != "" && !ValidKind(e.kind) then Err(InvalidKind)
    else if e.calcMethod != "" && !ValidMethod(e.calcMethod) then Err(InvalidMethod)
    else if !Live(t, id) then Err(NotFound)
    else if t[id].isSystem && Renames(t[id], e) then Err(SystemLocked)
    else if t[id].isCompound then
      match EditedCompound(t, t[id], e)
      case Err(refusal) => Err(refusal)
      case Ok(x) => Ok(t[id := x])
    else
      match EditedSingle(t[id], e, accounts)
      case Err(refusal) => Err(refusal)
      case Ok(x) => Ok(if e.rate.Some? then Refreshed(t[id := x], id) else t[id := x])
  }

  predicate IsComponent(t: Table, id: TaxId) {
    exists c :: c in t && !t[c].deleted && RefersTo(t[c], id)
  }

  function DoDelete(t: Table, id: TaxId, lineUses: nat): Result<Table, Refusal> {
    if !Live(t, id) then Err(NotFound)
    else if t[id].isSystem then Err(SystemUndeletable)
    else if !t[id].isCompound && IsComponent(t, id) then Err(ComponentInUse)
    else if lineUses > 0 then Err(InUse)
    else Ok(t[id := t[id].(deleted := true)])
  }

  function SeedRow(s: Seed): Tax {
    Tax(s.name, s.kind, StoredRate(s.rate), s.calcMethod, true, true, None, None, false, None, None, false)
  }

  /** The default taxes go in only when the company has no live tax. */
  function DoSeedDefaults(t: Table, seeds: map<TaxId, Seed>): Result<Table, Refusal> {
    if exists id :: id in t && !t[id].deleted then Ok(t)
    else if exists id :: id in seeds && id in t then Err(DuplicateId)
    else Ok(t + map id | id in seeds :: SeedRow(seeds[id]))
  }

  function Step(t: Table, c: Command): Result<Table, Refusal> {
    match c
    case CreateSingle(_, _, _, _, _, _, _, _, _) => DoCreateSingle(t, c)
    case CreateCompound(id, name, c1, c2, isActive) => DoCreateCompound(t, id, name, c1, c2, isActive)
    case Update(id, edit, accounts) => DoUpdate(t, id, edit, accounts)
    case Delete(id, lineUses) => DoDelete(t, id, lineUses)
    case SeedDefaults(seeds) => DoSeedDefaults(t, seeds)
  }

  function After(t: Table, outcome: Result<Table, Refusal>): Table {
    if outcome.Ok? then outcome.value else t
  }

  function Run(commands: seq<Command>): Table {
    if commands == [] then map[]
    else
      var t := Run(commands[..|commands| - 1]);
      After(t, Step(t, commands[|commands| - 1]))
  }

  // --- what every run keeps ------------------------------------------------------------

  predicate LiveSingle(t: Table, id: Option<TaxId>) {
    id.Some? && Live(t, id.value) && !t[id.value].isCompound
  }

  /** A live compound names two different live single taxes and carries the sum of their rates. */
  predicate RowOk(t: Table, x: Tax) {
    && (x.isCompound && !x.deleted ==>
          && LiveSingle(t, x.component1) && LiveSingle(t, x.component2) && x.component1 != x.component2
          && x.rate == t[x.component1.value].rate + t[x.component2.value].rate
          && x.calcMethod == "exclusive")
    && (!x.isCompound ==> x.component1.None? && x.component2.None? && x.rate <= 1000000)
  }

  predicate Inv(t: Table) {
    forall id :: id in t ==> RowOk(t, t[id])
  }

  /** A change that keeps every live single live, single and at its rate leaves the other rows in order. */
  lemma OtherRowsStayOk(t: Table, t': Table, x: Tax)
    requires RowOk(t, x)
    requires forall id :: Live(t, id) && !t[id].isCompound ==>
                            Live(t', id) && !t'[id].isCompound && t'[id].rate == t[id].rate
    ensures RowOk(t', x)
  {
  }

  lemma ResolvedPairIsOk(t: Table, c1: string, c2: string)
    requires Resolve(t, c1, c2).Ok?
    ensures var p := Resolve(t, c1, c2).value;
            LiveSingle(t, Some(p.first)) && LiveSingle(t, Some(p.second)) && p.first != p.second
            && p.rate == t[p.first].rate + t[p.second].rate
  {
  }

  lemma OneRowChanged(t: Table, id: TaxId, x: Tax)
    requires Inv(t)
    requires RowOk(t[id := x], x)
    requires Live(t, id) && !t[id].isCompound ==> !x.deleted && !x.isCompound && x.rate == t[id].rate
    ensures Inv(t[id := x])
  {
    var t' := t[id := x];
    forall k | k in t'
      ensures RowOk(t', t'[k])
    {
      if k != id {
        OtherRowsStayOk(t, t', t[k]);
      }
    }
  }

  /** In order, except that a compound referring to the single may carry an outdated rate. */
  predicate RowOkBut(t: Table, x: Tax, single: TaxId) {
    if x.isCompound && !x.deleted && RefersTo(x, single)
    then LiveSingle(t, x.component1) && LiveSingle(t, x.component2) && x.component1 != x.component2 && x.calcMethod == "exclusive"
    else RowOk(t, x)
  }

  predicate InvBut(t: Table, single: TaxId) {
    forall id :: id in t ==> RowOkBut(t, t[id], single)
  }

  /** The refresh brings every outdated compound back to the sum of its components. */
  lemma RefreshRepairs(t: Table, single: TaxId)
    requires InvBut(t, single)
    ensures Inv(Refreshed(t, single))
  {
    var t' := Refreshed(t, single);
    forall k | k in t'
      ensures RowOk(t', t'[k])
    {
      assert t'[k] == RefreshedRow(t, t[k], single) && RowOkBut(t, t[k], single);
      if t[k].isCompound && !t[k].deleted {
        SinglesStay(t, single, t[k].component1.value);
        SinglesStay(t, single, t[k].component2.value);
      }
    }
  }

  /** Nothing but rates is new. */
  predicate OnlyRatesOf(t: Table, t': Table, single: TaxId) {
    && t'.Keys == t.Keys
    && (forall id :: id in t ==> t'[id] == t[id].(rate := t'[id].rate))
    && (forall id :: id in t && !(t[id].isCompound && RefersTo(t[id], single)) ==> t'[id] == t[id])
  }

  lemma RefreshOnlySetsRates(t: Table, single: TaxId)
    ensures OnlyRatesOf(t, Refreshed(t, single), single)
    ensures InvBut(t, single) ==> Inv(Refreshed(t, single))
  {
    if InvBut(t, single) {
      RefreshRepairs(t, single);
    }
  }

  lemma SinglesStay(t: Table, single: TaxId, k: TaxId)
    requires LiveSingle(t, Some(k))
    ensures k in Refreshed(t, single) && Refreshed(t, single)[k] == t[k] && RateOf(t, Some(k)) == t[k].rate
  {
  }

  /** Changing a single's rate and then refreshing its compounds leaves every rate a sum again. */
  lemma RefreshRestoresSums(t: Table, id: TaxId, x: Tax)
    requires Inv(t) && Live(t, id) && !t[id].isCompound
    requires !x.deleted && !x.isCompound && RowOk(t, x)
    ensures Inv(Refreshed(t[id := x], id))
  {
    var t1 := t[id := x];
    forall k | k in t1
      ensures RowOkBut(t1, t1[k], id)
    {
      assert RowOk(t, t1[k]);
    }
    RefreshRepairs(t1, id);
  }

  lemma CompoundEditKeepsInv(t: Table, id: TaxId, e: Edit)
    requires Inv(t) && Live(t, id) && t[id].isCompound && EditedCompound(t, t[id], e).Ok?
    ensures Inv(t[id := EditedCompound(t, t[id], e).value])
  {
    var x := EditedCompound(t, t[id], e).value;
    assert RowOk(t, t[id]);
    if e.component1.Some? || e.component2.Some? {
      ResolvedPairIsOk(t, Given(e.component1, t[id].component1), Given(e.component2, t[id].component2));
    }
    assert RowOk(t, x);
    OtherRowsStayOk(t, t[id := x], x);
    OneRowChanged(t, id, x);
  }

  lemma SingleEditKeepsInv(t: Table, id: TaxId, e: Edit, accounts: set<string>)
    requires Inv(t) && Live(t, id) && !t[id].isCompound && EditedSingle(t[id], e, accounts).Ok?
    ensures var x := EditedSingle(t[id], e, accounts).value;
            Inv(if e.rate.Some? then Refreshed(t[id := x], id) else t[id := x])
  {
    var x := EditedSingle(t[id], e, accounts).value;
    assert RowOk(t, t[id]);
    if e.rate.Some? {
      RefreshRestoresSums(t, id, x);
    } else {
      OneRowChanged(t, id, x);
    }
  }

  lemma DeleteKeepsInv(t: Table, id: TaxId, lineUses: nat)
    requires Inv(t) && DoDelete(t, id, lineUses).Ok?
    ensures Inv(DoDelete(t, id, lineUses).value)
  {
    var t' := t[id := t[id].(deleted := true)];
    forall k | k in t'
      ensures RowOk(t', t'[k])
    {
      assert RowOk(t, t[k]);
      if k != id && t[k].isCompound && !t[k].deleted {
        assert LiveSingle(t, t[k].component1) && LiveSingle(t, t[k].component2);
        assert !t[id].isCompound ==> !RefersTo(t[k], id);
      }
    }
  }

  lemma SeedKeepsInv(t: Table, seeds: map<TaxId, Seed>)
    requires Inv(t) && DoSeedDefaults(t, seeds).Ok?
    ensures Inv(DoSeedDefaults(t, seeds).value)
  {
    var t' := DoSeedDefaults(t, seeds).value;
    forall k | k in t'
      ensures RowOk(t', t'[k])
    {
      if k in t {
        assert RowOk(t, t[k]) && t'[k] == t[k];
      }
    }
  }

  lemma StepKeepsInv(t: Table, c: Command)
    requires Inv(t)
    ensures Inv(After(t, Step(t, c)))
  {
    if Step(t, c).Ok? {
      match c
      case CreateSingle(id, _, _, _, _, _, _, _, _) => OneRowChanged(t, id, SingleRow(c));
      case CreateCompound(id, name, c1, c2, isActive) =>
        ResolvedPairIsOk(t, c1, c2);
        var x := CompoundRow(name, Resolve(t, c1, c2).value, isActive);
        OtherRowsStayOk(t, t[id := x], x);
        OneRowChanged(t, id, x);
      case Update(id, e, accounts) =>
        if t[id].isCompound {
          CompoundEditKeepsInv(t, id, e);
        } else {
          SingleEditKeepsInv(t, id, e, accounts);
        }
      case Delete(id, lineUses) => DeleteKeepsInv(t, id, lineUses);
      case SeedDefaults(seeds) => SeedKeepsInv(t, seeds);
    }
  }

  /** Whatever is created, edited, seeded or deleted, every live compound stays the sum of two live single taxes. */
  lemma {:induction false} RunKeepsInv(commands: seq<Command>)
    ensures Inv(Run(commands))
  {
    if commands != [] {
      var n := |commands| - 1;
      RunKeepsInv(commands[..n]);
      StepKeepsInv(Run(commands[..n]), commands[n]);
    }
  }
}

/**
 What the calls on a tax leave in the table: the submitted fields of the tax itself, the
 rates of the compounds that name it, and nothing else.
 */
module TaxEdits {
  import opened Results
  import opened Text
  import opened Taxes

  /** The stored rate, in ten-thousandths, is the one nearest to the submitted percentage. */
  predicate NearestTick(ticks: nat, r: real) {
    -0.5 <= ticks as real - r * 10000.0 <= 0.5
  }

  predicate TakesText(after: string, before: string, given: string) {
    after == if given == "" then before else given
  }

  predicate TakesAccount(after: Option<string>, before: Option<string>, given: Option<string>) {
    if given.Some? then after == Some(Trim(given.value)) else after == before
  }

  /** The name and the active flag, on either kind of tax. */
  predicate TakesCommon(x: Tax, y: Tax, e: Edit) {
    && y.name == (if Trim(e.name) == "" then x.name else Trim(e.name))
    && (if e.isActive.Some? then y.isActive == e.isActive.value else y.isActive == x.isActive)
    && y.isSystem == x.isSystem && y.isCompound == x.isCompound && y.deleted == x.deleted
  }

  /** y is the single tax x with every submitted field taken over and every other one kept. */
  predicate TakesSingle(x: Tax, y: Tax, e: Edit) {
    && TakesCommon(x, y, e)
    && TakesText(y.kind, x.kind, e.kind) && TakesText(y.calcMethod, x.calcMethod, e.calcMethod)
    && (if e.rate.Some? then NearestTick(y.rate, e.rate.value) else y.rate == x.rate)
    && TakesAccount(y.salesAccount, x.salesAccount, e.salesAccount)
    && TakesAccount(y.purchaseAccount, x.purchaseAccount, e.purchaseAccount)
    && y.component1 == x.component1 && y.component2 == x.component2
  }

  /** A live compound made of the tax `id` and the tax `other`. */
  predicate MadeOf(x: Tax, id: TaxId, other: TaxId) {
    && x.isCompound && !x.deleted
    && ((x.component1 == Some(id) && x.component2 == Some(other)) || (x.component1 == Some(other) && x.component2 == Some(id)))
  }

  lemma BlankIsEmptyTrim(s: string)
    ensures Blank(s) <==> Trim(s) == ""
  {
  }

  /** An accepted update of a single tax takes over the submitted fields. */
  lemma UpdatedSingleTakesEffect(t: Table, id: TaxId, e: Edit, accounts: set<string>)
    requires Inv(t) && Step(t, Update(id, e, accounts)).Ok? && !t[id].isCompound
    ensures var t' := Step(t, Update(id, e, accounts)).value; id in t' && TakesSingle(t[id], t'[id], e)
  {
    BlankIsEmptyTrim(e.name);
  }

  /** The same fact without asking first whether the update is accepted. */
  lemma UpdateTakesEffect(t: Table, id: TaxId, e: Edit, accounts: set<string>)
    requires Inv(t)
    ensures Step(t, Update(id, e, accounts)) == DoUpdate(t, id, e, accounts)
    ensures DoUpdate(t, id, e, accounts).Ok? ==>
      Live(t, id) && (!t[id].isCompound ==> id in DoUpdate(t, id, e, accounts).value
                                             && TakesSingle(t[id], DoUpdate(t, id, e, accounts).value[id], e))
  {
    if DoUpdate(t, id, e, accounts).Ok? && !t[id].isCompound {
      UpdatedSingleTakesEffect(t, id, e, accounts);
    }
  }

  /** Every live compound made of that tax then carries its new rate plus the rate of the other one, and keeps all else. */
  lemma CompoundsFollow(t: Table, id: TaxId, e: Edit, accounts: set<string>, c: TaxId, other: TaxId)
    requires Inv(t) && Step(t, Update(id, e, accounts)).Ok? && !t[id].isCompound && c in t && MadeOf(t[c], id, other)
    ensures var t' := Step(t, Update(id, e, accounts)).value;
            && id in t' && c in t' && other in t && other in t' && t'[other] == t[other]
            && t'[c] == t[c].(rate := t'[id].rate + t[other].rate)
  {
    assert RowOk(t, t[c]);
  }

  /** No other row changes. */
  lemma OtherTaxesStay(t: Table, id: TaxId, e: Edit, accounts: set<string>, c: TaxId)
    requires Inv(t) && Step(t, Update(id, e, accounts)).Ok? && c in t && c != id
    requires !(t[c].isCompound && !t[c].deleted && (t[c].component1 == Some(id) || t[c].component2 == Some(id)))
    ensures var t' := Step(t, Update(id, e, accounts)).value; t'.Keys == t.Keys && t'[c] == t[c]
  {
  }

  /** The component an update of a compound asks for, or the one it has. */
  predicate TakesComponent(after: Option<TaxId>, before: Option<TaxId>, given: Option<string>) {
    after.Some? && if given.Some? then after.value == Trim(given.value) else after == before
  }

  /** y is the compound x with every submitted field taken over: two different live single taxes and the sum of their rates. */
  predicate TakesCompound(t: Table, x: Tax, y: Tax, e: Edit) {
    && TakesCommon(x, y, e)
    && TakesComponent(y.component1, x.component1, e.component1) && TakesComponent(y.component2, x.component2, e.component2)
    && LiveSingle(t, y.component1) && LiveSingle(t, y.component2) && y.component1 != y.component2
    && y.rate == t[y.component1.value].rate + t[y.component2.value].rate
    && y.kind == x.kind && y.calcMethod == x.calcMethod
    && y.salesAccount == x.salesAccount && y.purchaseAccount == x.purchaseAccount
  }

  lemma GivenComponent(given: Option<string>, onRecord: Option<TaxId>)
    requires onRecord.Some?
    ensures Trim(Given(given, onRecord)) == if given.Some? then Trim(given.value) else onRecord.value
  {
    if given.Some? {
      TrimIsIdempotent(given.value);
    }
  }

  lemma EditedCompoundTakes(t: Table, x: Tax, e: Edit)
    requires RowOk(t, x) && x.isCompound && !x.deleted && EditedCompound(t, x, e).Ok?
    ensures TakesCompound(t, x, EditedCompound(t, x, e).value, e)
  {
    BlankIsEmptyTrim(e.name);
    GivenComponent(e.component1, x.component1);
    GivenComponent(e.component2, x.component2);
  }

  /** An accepted update of a compound takes over the submitted fields; no other row changes. */
  lemma UpdatedCompoundTakesEffect(t: Table, id: TaxId, e: Edit, accounts: set<string>)
    requires Inv(t) && Step(t, Update(id, e, accounts)).Ok? && t[id].isCompound
    ensures var t' := Step(t, Update(id, e, accounts)).value;
            && id in t' && TakesCompound(t, t[id], t'[id], e)
            && forall c :: c in t && c != id ==> c in t' && t'[c] == t[c]
  {
    assert RowOk(t, t[id]);
    EditedCompoundTakes(t, t[id], e);
  }

  /** A new single tax carries what was submitted, with the defaults for what was left out; no other row changes. */
  lemma CreatedSingleCarries(t: Table, c: Command)
    requires c.CreateSingle? && Step(t, c).Ok?
    ensures var t' := Step(t, c).value;
            && c.id !in t && t'.Keys == t.Keys + {c.id} && (forall k :: k in t ==> t'[k] == t[k])
            && var x := t'[c.id];
               && x.name == Trim(c.name) && NearestTick(x.rate, c.rate)
               && TakesText(x.kind, "other", c.kind) && TakesText(x.calcMethod, "exclusive", c.calcMethod)
               && x.salesAccount == Some(Trim(c.salesAccount)) && x.purchaseAccount == Some(Trim(c.purchaseAccount))
               && Trim(c.salesAccount) in c.accounts && Trim(c.purchaseAccount) in c.accounts
               && x.isActive == (c.isActive.None? || c.isActive.value)
               && !x.isSystem && !x.isCompound && !x.deleted
  {
  }

  /** A new compound names the two submitted live single taxes, carries the sum of their rates, and is charged on top. */
  lemma CreatedCompoundCarries(t: Table, id: TaxId, name: string, c1: string, c2: string, isActive: Option<bool>)
    requires Step(t, CreateCompound(id, name, c1, c2, isActive)).Ok?
    ensures var t' := Step(t, CreateCompound(id, name, c1, c2, isActive)).value;
            && id !in t && t'.Keys == t.Keys + {id} && (forall k :: k in t ==> t'[k] == t[k])
            && var x := t'[id];
               && x.component1.Some? && x.component1.value == Trim(c1) && LiveSingle(t, x.component1)
               && x.component2.Some? && x.component2.value == Trim(c2) && LiveSingle(t, x.component2)
               && Trim(c1) != Trim(c2) && x.rate == t[x.component1.value].rate + t[x.component2.value].rate
               && x.name == Trim(name) && x.calcMethod == "exclusive" && x.isActive == (isActive.None? || isActive.value)
               && x.isCompound && !x.isSystem && !x.deleted
  {
  }

  predicate NoLiveTax(t: Table) {
    forall id :: id in t ==> t[id].deleted
  }

  predicate CarriesSeed(x: Tax, s: Seed) {
    && x.name == s.name && x.kind == s.kind && x.calcMethod == s.calcMethod && NearestTick(x.rate, s.rate)
    && x.isSystem && x.isActive && !x.isCompound && !x.deleted
  }

  /** Seeding a table without live taxes adds one live, active system tax per template row, and does nothing to any other. */
  lemma SeedingFollowsTheTemplate(t: Table, seeds: map<TaxId, Seed>)
    requires Step(t, SeedDefaults(seeds)).Ok?
    ensures var t' := Step(t, SeedDefaults(seeds)).value;
            if NoLiveTax(t) then
              && t'.Keys == t.Keys + seeds.Keys && (forall k :: k in t ==> t'[k] == t[k])
              && (forall k :: k in seeds ==> CarriesSeed(t'[k], seeds[k]))
            else t' == t
  {
    if NoLiveTax(t) {
      var t' := Step(t, SeedDefaults(seeds)).value;
      var rows: Table := map id | id in seeds :: SeedRow(seeds[id]);
      assert t' == t + rows && rows.Keys == seeds.Keys;
      forall k | k in seeds
        ensures k in t' && CarriesSeed(t'[k], seeds[k])
      {
        assert t'[k] == rows[k] == SeedRow(seeds[k]);
      }
    }
  }

  // --- what is final ---------------------------------------------------------------------

  predicate TaxGone(t: Table, id: TaxId) {
    id in t && t[id].deleted
  }

  lemma GoneStays(t: Table, c: Command, id: TaxId)
    requires TaxGone(t, id)
    ensures TaxGone(After(t, Step(t, c)), id)
  {
  }

  function RunFrom(t: Table, commands: seq<Command>): Table {
    if commands == [] then t
    else
      var before := RunFrom(t, commands[..|commands| - 1]);
      After(before, Step(before, commands[|commands| - 1]))
  }

  lemma {:induction false} TaxStaysGone(t: Table, commands: seq<Command>, id: TaxId)
    requires TaxGone(t, id)
    ensures TaxGone(RunFrom(t, commands), id)
  {
    if commands != [] {
      TaxStaysGone(t, commands[..|commands| - 1], id);
      GoneStays(RunFrom(t, commands[..|commands| - 1]), commands[|commands| - 1], id);
    }
  }

  /** A deleted tax stays deleted, whatever is called, and can't become part of a compound. */
  lemma DeletedTaxIsGone(t: Table, id: TaxId, uses: nat, later: seq<Command>, new_: TaxId, name: string, other: string)
    requires Step(t, Delete(id, uses)).Ok?
    ensures var t' := RunFrom(Step(t, Delete(id, uses)).value, later);
            && TaxGone(t', id)
            && Step(t', CreateCompound(new_, name, id, other, None)).Err?
            && Step(t', CreateCompound(new_, name, other, id, None)).Err?
  {
    TaxStaysGone(Step(t, Delete(id, uses)).value, later, id);
  }

  /**
   A built-in tax stays live and keeps its kind and, up to outer white space, its name; a tax
   on a document line is not deleted.
   */
  lemma BuiltInTaxStays(t: Table, c: Command, id: TaxId)
    requires Live(t, id) && (t[id].isSystem || (c.Delete? && c.id == id && c.lineUses > 0))
    ensures Live(After(t, Step(t, c)), id)
    ensures t[id].isSystem ==> SameBuiltIn(t[id], After(t, Step(t, c))[id])
  {
    if Step(t, c).Ok? {
      match c
      case Update(_, e, accounts) => UpdateKeepsBuiltIn(t, c.id, e, accounts, id);
      case SeedDefaults(seeds) => assert !NoLiveTax(t);
      case _ =>
    }
  }

  predicate SameBuiltIn(x: Tax, y: Tax) {
    y.isSystem && y.name in {x.name, Trim(x.name)} && y.kind == x.kind
  }

  lemma UpdateKeepsBuiltIn(t: Table, k: TaxId, e: Edit, accounts: set<string>, id: TaxId)
    requires Step(t, Update(k, e, accounts)).Ok? && Live(t, id)
    ensures var t' := Step(t, Update(k, e, accounts)).value; Live(t', id) && (t[id].isSystem ==> SameBuiltIn(t[id], t'[id]))
  {
    BlankIsEmptyTrim(e.name);
  }

  // --- which calls are accepted -------------------------------------------------------------

  predicate KindAndMethodFit(kind: string, calcMethod: string) {
    kind in {"", "ppn", "pph", "other"} && calcMethod in {"", "exclusive", "inclusive"}
  }

  /** A non-blank account on record. */
  predicate AccountFits(account: string, accounts: set<string>) {
    Trim(account) != "" && Trim(account) in accounts
  }

  /** Two different live single taxes. */
  predicate PairFits(t: Table, c1: string, c2: string) {
    && c1 in t && !t[c1].deleted && !t[c1].isCompound
    && c2 in t && !t[c2].deleted && !t[c2].isCompound
    && c1 != c2
  }

  /** The component that an update leaves: the submitted one, or the one on record. */
  function Wanted(given: Option<string>, onRecord: Option<TaxId>): string {
    if given.Some? then Trim(given.value) else if onRecord.Some? then onRecord.value else ""
  }

  /** What each call needs. */
  predicate Admissible(t: Table, c: Command) {
    match c
    case CreateSingle(id, _, kind, calcMethod, _, sales, purchase, _, accounts) =>
      id !in t && KindAndMethodFit(kind, calcMethod) && AccountFits(sales, accounts) && AccountFits(purchase, accounts)
    case CreateCompound(id, _, c1, c2, _) => id !in t && PairFits(t, Trim(c1), Trim(c2))
    case Update(id, e, accounts) =>
      && KindAndMethodFit(e.kind, e.calcMethod) && id in t && !t[id].deleted
      && (t[id].isSystem ==> e.name in {"", t[id].name} && e.kind in {"", t[id].kind})
      && (if t[id].isCompound then
            e.component1.Some? || e.component2.Some? ==>
              PairFits(t, Wanted(e.component1, t[id].component1), Wanted(e.component2, t[id].component2))
          else
            && (e.salesAccount.Some? ==> AccountFits(e.salesAccount.value, accounts))
            && (e.purchaseAccount.Some? ==> AccountFits(e.purchaseAccount.value, accounts)))
    case Delete(id, lineUses) =>
      && id in t && !t[id].deleted && !t[id].isSystem && lineUses == 0
      && (forall k :: k in t && t[k].isCompound && !t[k].deleted ==>
            t[k].component1 != Some(id) && t[k].component2 != Some(id))
    case SeedDefaults(seeds) => NoLiveTax(t) ==> forall k :: k in seeds ==> k !in t
  }

  lemma ResolveFits(t: Table, c1: string, c2: string)
    ensures Resolve(t, c1, c2).Ok? <==> PairFits(t, Trim(c1), Trim(c2))
  {
  }

  lemma UpdateAcceptedExactlyWhen(t: Table, id: TaxId, e: Edit, accounts: set<string>)
    requires Inv(t)
    ensures Step(t, Update(id, e, accounts)).Ok? <==> Admissible(t, Update(id, e, accounts))
  {
    if id in t && !t[id].deleted {
      assert RowOk(t, t[id]);
      if t[id].isCompound {
        GivenComponent(e.component1, t[id].component1);
        GivenComponent(e.component2, t[id].component2);
        ResolveFits(t, Given(e.component1, t[id].component1), Given(e.component2, t[id].component2));
      }
    }
  }

  lemma DeleteAcceptedExactlyWhen(t: Table, id: TaxId, lineUses: nat)
    requires Inv(t)
    ensures Step(t, Delete(id, lineUses)).Ok? <==> Admissible(t, Delete(id, lineUses))
  {
    forall k | k in t && !t[k].deleted && RefersTo(t[k], id)
      ensures t[k].isCompound && Live(t, id) && !t[id].isCompound
    {
      assert RowOk(t, t[k]);
    }
  }

  /** A call on the tax table is accepted exactly when its needs are met. */
  lemma AcceptedExactlyWhen(t: Table, c: Command)
    requires Inv(t)
    ensures Step(t, c).Ok? <==> Admissible(t, c)
  {
    match c
    case CreateSingle(_, _, _, _, _, sales, purchase, _, _) =>
      BlankIsEmptyTrim(sales);
      BlankIsEmptyTrim(purchase);
    case CreateCompound(_, _, c1, c2, _) => ResolveFits(t, c1, c2);
    case Update(id, e, accounts) => UpdateAcceptedExactlyWhen(t, id, e, accounts);
    case Delete(id, lineUses) => DeleteAcceptedExactlyWhen(t, id, lineUses);
    case SeedDefaults(_) =>
  }

  /** The percentage that is charged for a stored rate is within half a ten-thousandth of the submitted one. */
  lemma ChargedRateIsNear(ticks: nat, r: GivenRate)
    requires NearestTick(ticks, r)
    ensures -0.00005 <= AsPercent(ticks) - r <= 0.00005
  {
  }

  // --- what a refusal says --------------------------------------------------------------

  /** The two components a call leads to. */
  function PairOf(t: Table, c: Command): (string, string) {
    match c
    case CreateCompound(_, _, c1, c2, _) => (Trim(c1), Trim(c2))
    case Update(id, e, _) =>
      if id in t then (Wanted(e.component1, t[id].component1), Wanted(e.component2, t[id].component2)) else ("", "")
    case _ => ("", "")
  }

  /** The accounts a call submits. */
  function AccountsOf(c: Command): set<string> {
    match c
    case CreateSingle(_, _, _, _, _, sales, purchase, _, _) => {sales, purchase}
    case Update(_, e, _) =>
      (if e.salesAccount.Some? then {e.salesAccount.value} else {})
      + (if e.purchaseAccount.Some? then {e.purchaseAccount.value} else {})
    case _ => {}
  }

  function KindOf(c: Command): string {
    if c.CreateSingle? then c.kind else if c.Update? then c.edit.kind else ""
  }

  function MethodOf(c: Command): string {
    if c.CreateSingle? then c.calcMethod else if c.Update? then c.edit.calcMethod else ""
  }

  predicate IsSoOfPair(t: Table, first: string, second: string, why: Refusal) {
    match why
    case NeedsTwoSingles => first == "" || second == ""
    case SinglesMustDiffer => first == second
    case SingleNotFound => !Live(t, first) || !Live(t, second)
    case ComponentIsCompound => (Live(t, first) && t[first].isCompound) || (Live(t, second) && t[second].isCompound)
    case _ => false
  }

  lemma PairRefusalIsSo(t: Table, c1: string, c2: string)
    requires Resolve(t, c1, c2).Err?
    ensures IsSoOfPair(t, Trim(c1), Trim(c2), Resolve(t, c1, c2).error)
  {
  }

  lemma AccountFaultIsSo(account: Option<string>, accounts: set<string>)
    requires AccountFault(account, accounts).Some?
    ensures account.Some?
    ensures match AccountFault(account, accounts).value
            case AccountRequired => Trim(account.value) == ""
            case AccountNotFound => Trim(account.value) !in accounts
            case _ => false
  {
    BlankIsEmptyTrim(account.value);
  }

  /** What the refusal says is so. */
  predicate IsSo(t: Table, c: Command, why: Refusal) {
    var (first, second) := PairOf(t, c);
    match why
    case DuplicateId =>
      ((c.CreateSingle? || c.CreateCompound?) && c.id in t) || (c.SeedDefaults? && exists k :: k in c.seeds && k in t)
    case NotFound => (c.Update? || c.Delete?) && !Live(t, c.id)
    case InvalidKind => KindOf(c) !in {"", "ppn", "pph", "other"}
    case InvalidMethod => MethodOf(c) !in {"", "exclusive", "inclusive"}
    case AccountRequired => exists a :: a in AccountsOf(c) && Trim(a) == ""
    case AccountNotFound => (c.CreateSingle? || c.Update?) && exists a :: a in AccountsOf(c) && Trim(a) !in c.accounts
    case NeedsTwoSingles => IsSoOfPair(t, first, second, why)
    case SinglesMustDiffer => IsSoOfPair(t, first, second, why)
    case SingleNotFound => IsSoOfPair(t, first, second, why)
    case ComponentIsCompound => IsSoOfPair(t, first, second, why)
    case SystemLocked =>
      && c.Update? && Live(t, c.id) && t[c.id].isSystem
      && (c.edit.name !in {"", t[c.id].name} || c.edit.kind !in {"", t[c.id].kind})
    case SystemUndeletable => c.Delete? && Live(t, c.id) && t[c.id].isSystem
    case ComponentInUse =>
      c.Delete? && exists k :: k in t && !t[k].deleted && (t[k].component1 == Some(c.id) || t[k].component2 == Some(c.id))
    case InUse => c.Delete? && 0 < c.lineUses
  }

  /** Every refusal tells the caller something that is so. */
  lemma RefusalsAreSo(t: Table, c: Command)
    requires Inv(t) && Step(t, c).Err?
    ensures IsSo(t, c, Step(t, c).error)
  {
    match c
    case CreateSingle(_, _, _, _, _, sales, purchase, _, _) =>
      BlankIsEmptyTrim(sales);
      BlankIsEmptyTrim(purchase);
    case Update(id, e, accounts) => UpdateRefusalIsSo(t, id, e, accounts);
    case _ =>
  }

  lemma UpdateRefusalIsSo(t: Table, id: TaxId, e: Edit, accounts: set<string>)
    requires Inv(t) && Step(t, Update(id, e, accounts)).Err?
    ensures IsSo(t, Update(id, e, accounts), Step(t, Update(id, e, accounts)).error)
  {
    if Live(t, id) && t[id].isCompound {
      assert RowOk(t, t[id]);
      if EditedCompound(t, t[id], e).Err? {
        GivenComponent(e.component1, t[id].component1);
        GivenComponent(e.component2, t[id].component2);
        PairRefusalIsSo(t, Given(e.component1, t[id].component1), Given(e.component2, t[id].component2));
      }
    } else if AccountFault(e.salesAccount, accounts).Some? {
      AccountFaultIsSo(e.salesAccount, accounts);
    } else if AccountFault(e.purchaseAccount, accounts).Some? {
      AccountFaultIsSo(e.purchaseAccount, accounts);
    }
  }
}

/**
 The double-entry books of one company: the chart of accounts and the journal. Rows
 are never removed, so an account or entry id is its position in creation order.
 */
module Books {
  import opened Results
  import opened Money

  type Date = int

  /** Go's zero time, 1 January of year 1; entry dates may lie before it. */
  const ZERO_DATE: Date := 0

  datatype Group = Asset | Liability | Equity | Income | Expense

  datatype Account = Account(group: Group, parent: Option<nat>, isSystem: bool, isActive: bool, deleted: bool)

  datatype Line = Line(account: nat, debit: Cents, credit: Cents)

  /** The totals are the cached header columns; reports never read them. */
  datatype Entry = Entry(
    date: Date, posted: bool, lines: seq<Line>, totalDebit: Cents, totalCredit: Cents, deleted: bool)

  datatype Book = Book(accounts: seq<Account>, entries: seq<Entry>)

  const NO_BOOK: Book := Book([], [])

  datatype LineInput = LineInput(account: Option<nat>, debit: real, credit: real)

  datatype Seed = Seed(group: Group, parent: Option<nat>)

  datatype Refusal =
    | NotFound
    | NegativeAmount
    | TooFewLines
    | NoAccount(line: nat)
    | BothSides(line: nat)
    | NeitherSide(line: nat)
    | ZeroTotal
    | Unbalanced(debit: real, credit: real)
    | AccountInactive
    | PostedImmutable
    | NotDraft
    | NotPosted
    | SystemLocked
    | OwnParent
    | NoParent
    | HasChildren
    | InUse

  /** `otherUses` counts the live taxes and journal books that point at an account. */
  datatype Command =
    | CreateAccount(group: Group, parent: Option<nat>, isActive: bool)
    | EditAccount(id: nat, newGroup: Option<Group>, newParent: Option<Option<nat>>, newActive: Option<bool>)
    | DeleteAccount(id: nat, otherUses: nat)
    | SeedAccounts(seeds: seq<Seed>)
    | CreateEntry(date: Date, lines: seq<LineInput>)
    | EditEntry(id: nat, date: Date, lines: seq<LineInput>)
    | DeleteEntry(id: nat)
    | PostEntry(id: nat)
    | BackToDraft(id: nat)

  // --- validating lines -----------------------------------------------------------

  datatype Side = Debit | Credit

  function Given(l: LineInput, side: Side): real {
    if side == Debit then l.debit else l.credit
  }

  function SumGiven(lines: seq<LineInput>, side: Side): real {
    if lines == [] then 0.0
    else SumGiven(lines[..|lines| - 1], side) + Given(lines[|lines| - 1], side)
  }

  function LineFault(l: LineInput, i: nat): Option<Refusal> {
    if l.account.None? then Some(NoAccount(i))
    else if l.debit > 0.0 && l.credit > 0.0 then Some(BothSides(i))
    else if l.debit <= 0.0 && l.credit <= 0.0 then Some(NeitherSide(i))
    else None
  }

  function FirstLineFault(lines: seq<LineInput>): Option<Refusal> {
    if lines == [] then None
    else
      var earlier := FirstLineFault(lines[..|lines| - 1]);
      if earlier.Some? then earlier else LineFault(lines[|lines| - 1], |lines| - 1)
  }

  const BALANCE_EPSILON: real := 0.0001

  function Abs(x: real): real {
    if x < 0.0 then -x else x
  }

  /** validateLines: two lines, one side each, a positive total, and a balance within the epsilon. */
  function LinesFault(lines: seq<LineInput>): Option<Refusal> {
    var debit, credit := SumGiven(lines, Debit), SumGiven(lines, Credit);
    if |lines| < 2 then Some(TooFewLines)
    else if FirstLineFault(lines).Some? then FirstLineFault(lines)
    else if debit <= 0.0 then Some(ZeroTotal)
    else if Abs(debit - credit) > BALANCE_EPSILON then Some(Unbalanced(debit, credit))
    else None
  }

  predicate Usable(accounts: seq<Account>, id: nat) {
    id < |accounts| && !accounts[id].deleted && accounts[id].isActive
  }

  predicate AllUsable(accounts: seq<Account>, lines: seq<LineInput>) {
    forall l :: l in lines && l.account.Some? ==> Usable(accounts, l.account.value)
  }

  predicate AnyNegative(lines: seq<LineInput>) {
    exists l :: l in lines && (l.debit < 0.0 || l.credit < 0.0)
  }

  function EntryFault(accounts: seq<Account>, lines: seq<LineInput>): Option<Refusal> {
    if LinesFault(lines).Some? then LinesFault(lines)
    else if !AllUsable(accounts, lines) then Some(AccountInactive)
    else None
  }

  // --- stored lines -----------------------------------------------------------------

  function StoredLine(l: LineInput): Line
    requires l.account.Some?
  {
    Line(l.account.value, ToCents(l.debit), ToCents(l.credit))
  }

  predicate HaveAccounts(lines: seq<LineInput>) {
    forall k :: 0 <= k < |lines| ==> lines[k].account.Some?
  }

  function StoredLines(lines: seq<LineInput>): seq<Line>
    requires HaveAccounts(lines)
  {
    seq(|lines|, k requires 0 <= k < |lines| => StoredLine(lines[k]))
  }

  /** The stored lines as Post hands them to validateLines again. */
  function AsInputs(lines: seq<Line>): seq<LineInput> {
    seq(|lines|, k requires 0 <= k < |lines| => LineInput(Some(lines[k].account), Units(lines[k].debit), Units(lines[k].credit)))
  }

  function NewEntry(date: Date, lines: seq<LineInput>): Entry
    requires HaveAccounts(lines)
  {
    Entry(date, false, StoredLines(lines), ToCents(SumGiven(lines, Debit)), ToCents(SumGiven(lines, Credit)), false)
  }

  lemma {:induction false} ValidLinesHaveAccounts(lines: seq<LineInput>)
    requires FirstLineFault(lines).None?
    ensures HaveAccounts(lines)
  {
    if lines != [] {
      ValidLinesHaveAccounts(lines[..|lines| - 1]);
      assert forall k :: 0 <= k < |lines| - 1 ==> lines[k] == lines[..|lines| - 1][k];
    }
  }

  // --- the calls ----------------------------------------------------------------------

  predicate LiveAccount(b: Book, id: nat) {
    id < |b.accounts| && !b.accounts[id].deleted
  }

  predicate LiveEntry(b: Book, id: nat) {
    id < |b.entries| && !b.entries[id].deleted
  }

  predicate ParentOk(b: Book, parent: Option<nat>) {
    parent.Some? ==> LiveAccount(b, parent.value)
  }

  /** Lines of live entries, draft or posted, that use the account. */
  predicate UsedByJournal(entries: seq<Entry>, id: nat) {
    exists e :: e in entries && !e.deleted && exists l :: l in e.lines && l.account == id
  }

  predicate HasChild(accounts: seq<Account>, id: nat) {
    exists a :: a in accounts && !a.deleted && a.parent == Some(id)
  }

  function DoCreateAccount(b: Book, group: Group, parent: Option<nat>, isActive: bool): Result<Book, Refusal> {
    if !ParentOk(b, parent) then Err(NoParent)
    else Ok(b.(accounts := b.accounts + [Account(group, parent, false, isActive, false)]))
  }

  function DoEditAccount(
    b: Book, id: nat, group: Option<Group>, parent: Option<Option<nat>>, isActive: Option<bool>): Result<Book, Refusal>
  {
    if !LiveAccount(b, id) then Err(NotFound)
    else
      var a := b.accounts[id];
      if group.Some? && group.value != a.group && a.isSystem then Err(SystemLocked)
      else if parent.Some? && parent.value == Some(id) then Err(OwnParent)
      else if parent.Some? && !ParentOk(b, parent.value) then Err(NoParent)
      else
        Ok(b.(accounts := b.accounts[id := a.(
          group := if group.Some? then group.value else a.group,
          parent := if parent.Some? then parent.value else a.parent,
          isActive := if isActive.Some? then isActive.value else a.isActive)]))
  }

  function DoDeleteAccount(b: Book, id: nat, otherUses: nat): Result<Book, Refusal> {
    if !LiveAccount(b, id) then Err(NotFound)
    else if b.accounts[id].isSystem then Err(SystemLocked)
    else if HasChild(b.accounts, id) then Err(HasChildren)
    else if UsedByJournal(b.entries, id) || otherUses > 0 then Err(InUse)
    else Ok(b.(accounts := b.accounts[id := b.accounts[id].(deleted := true)]))
  }

  /** The template goes in only when the company has no live account; parents are earlier seeds. */
  function DoSeedAccounts(b: Book, seeds: seq<Seed>): Book {
    if exists a :: a in b.accounts && !a.deleted then b
    else
      var base := |b.accounts|;
      b.(accounts := b.accounts + seq(|seeds|, i requires 0 <= i < |seeds| =>
        Account(seeds[i].group,
                if seeds[i].parent.Some? && seeds[i].parent.value < i then Some(base + seeds[i].parent.value) else None,
                true, true, false)))
  }

  function DoCreateEntry(b: Book, date: Date, lines: seq<LineInput>): Result<Book, Refusal> {
    if AnyNegative(lines) then Err(NegativeAmount)
    else if EntryFault(b.accounts, lines).Some? then Err(EntryFault(b.accounts, lines).value)
    else
      ValidLinesHaveAccounts(lines);
      Ok(b.(entries := b.entries + [NewEntry(date, lines)]))
  }

  function DoEditEntry(b: Book, id: nat, date: Date, lines: seq<LineInput>): Result<Book, Refusal> {
    if AnyNegative(lines) then Err(NegativeAmount)
    else if !LiveEntry(b, id) then Err(NotFound)
    else if b.entries[id].posted then Err(PostedImmutable)
    else if EntryFault(b.accounts, lines).Some? then Err(EntryFault(b.accounts, lines).value)
    else
      ValidLinesHaveAccounts(lines);
      Ok(b.(entries := b.entries[id := NewEntry(date, lines)]))
  }

  function DoDeleteEntry(b: Book, id: nat): Result<Book, Refusal> {
    if !LiveEntry(b, id) then Err(NotFound)
    else if b.entries[id].posted then Err(PostedImmutable)
    else Ok(b.(entries := b.entries[id := b.entries[id].(deleted := true)]))
  }

  /** Posting validates the stored lines, in cents, once more. */
  function DoPostEntry(b: Book, id: nat): Result<Book, Refusal> {
    if !LiveEntry(b, id) then Err(NotFound)
    else
      var e := b.entries[id];
      if e.posted then Err(NotDraft)
      else if EntryFault(b.accounts, AsInputs(e.lines)).Some? then Err(EntryFault(b.accounts, AsInputs(e.lines)).value)
      else Ok(b.(entries := b.entries[id := e.(posted := true)]))
  }

  function DoBackToDraft(b: Book, id: nat): Result<Book, Refusal> {
    if !LiveEntry(b, id) then Err(NotFound)
    else if !b.entries[id].posted then Err(NotPosted)
    else Ok(b.(entries := b.entries[id := b.entries[id].(posted := false)]))
  }

  function Step(b: Book, c: Command): Result<Book, Refusal> {
    match c
    case CreateAccount(group, parent, isActive) => DoCreateAccount(b, group, parent, isActive)
    case EditAccount(id, group, parent, isActive) => DoEditAccount(b, id, group, parent, isActive)
    case DeleteAccount(id, otherUses) => DoDeleteAccount(b, id, otherUses)
    case SeedAccounts(seeds) => Ok(DoSeedAccounts(b, seeds))
    case CreateEntry(date, lines) => DoCreateEntry(b, date, lines)
    case EditEntry(id, date, lines) => DoEditEntry(b, id, date, lines)
    case DeleteEntry(id) => DoDeleteEntry(b, id)
    case PostEntry(id) => DoPostEntry(b, id)
    case BackToDraft(id) => DoBackToDraft(b, id)
  }

  function After(b: Book, outcome: Result<Book, Refusal>): Book {
    if outcome.Ok? then outcome.value else b
  }

  function Run(commands: seq<Command>): Book {
    if commands == [] then NO_BOOK
    else
      var b := Run(commands[..|commands| - 1]);
      After(b, Step(b, commands[|commands| - 1]))
  }

  // --- what every run keeps -----------------------------------------------------------

  function Amount(l: Line, side: Side): Cents {
    if side == Debit then l.debit else l.credit
  }

  function SumLines(lines: seq<Line>, side: Side): Cents {
    if lines == [] then 0
    else SumLines(lines[..|lines| - 1], side) + Amount(lines[|lines| - 1], side)
  }

  /** The lines of a live entry only use live accounts. */
  predicate UsesLiveAccounts(e: Entry, accounts: seq<Account>) {
    forall l :: l in e.lines ==> l.account < |accounts| && !accounts[l.account].deleted
  }

  predicate EntryOk(e: Entry, accounts: seq<Account>) {
    && (!e.deleted ==> UsesLiveAccounts(e, accounts))
    && (e.posted ==> !e.deleted && SumLines(e.lines, Debit) == SumLines(e.lines, Credit))
  }

  predicate Inv(b: Book) {
    forall e :: e in b.entries ==> EntryOk(e, b.accounts)
  }

  lemma {:induction false} StoredSums(lines: seq<Line>, side: Side)
    ensures SumGiven(AsInputs(lines), side) == Units(SumLines(lines, side))
  {
    if lines != [] {
      StoredSums(lines[..|lines| - 1], side);
      assert AsInputs(lines)[..|lines| - 1] == AsInputs(lines[..|lines| - 1]);
    }
  }

  /** On stored cents, balancing within the epsilon is balancing exactly. */
  lemma PostedLinesBalance(lines: seq<Line>)
    requires LinesFault(AsInputs(lines)).None?
    ensures SumLines(lines, Debit) == SumLines(lines, Credit) && 0 < SumLines(lines, Debit)
  {
    StoredSums(lines, Debit);
    StoredSums(lines, Credit);
  }

  lemma NewEntryOk(b: Book, date: Date, lines: seq<LineInput>)
    requires EntryFault(b.accounts, lines).None? && HaveAccounts(lines)
    ensures EntryOk(NewEntry(date, lines), b.accounts)
  {
    forall l | l in StoredLines(lines)
      ensures Usable(b.accounts, l.account)
    {
      var k :| 0 <= k < |lines| && StoredLine(lines[k]) == l;
      assert lines[k] in lines;
    }
  }

  lemma AccountCallKeepsInv(b: Book, c: Command)
    requires Inv(b) && Step(b, c).Ok?
    requires c.CreateAccount? || c.EditAccount? || c.DeleteAccount? || c.SeedAccounts?
    ensures Inv(Step(b, c).value)
  {
    var b' := Step(b, c).value;
    forall e | e in b'.entries
      ensures EntryOk(e, b'.accounts)
    {
      assert EntryOk(e, b.accounts);
      forall l | !e.deleted && l in e.lines
        ensures l.account < |b'.accounts| && !b'.accounts[l.account].deleted
      {
        assert l.account < |b.accounts| && !b.accounts[l.account].deleted;
      }
    }
  }

  lemma OneEntryChanged(b: Book, id: nat, e: Entry)
    requires Inv(b) && id < |b.entries| && EntryOk(e, b.accounts)
    ensures Inv(b.(entries := b.entries[id := e]))
  {
    forall x | x in b.entries[id := e]
      ensures EntryOk(x, b.accounts)
    {
      assert x == e || x in b.entries;
    }
  }

  lemma StepKeepsInv(b: Book, c: Command)
    requires Inv(b)
    ensures Inv(After(b, Step(b, c)))
  {
    if Step(b, c).Ok? {
      match c
      case CreateEntry(date, lines) =>
        ValidLinesHaveAccounts(lines);
        NewEntryOk(b, date, lines);
      case EditEntry(id, date, lines) =>
        ValidLinesHaveAccounts(lines);
        NewEntryOk(b, date, lines);
        OneEntryChanged(b, id, NewEntry(date, lines));
      case DeleteEntry(id) =>
        assert EntryOk(b.entries[id], b.accounts);
        OneEntryChanged(b, id, b.entries[id].(deleted := true));
      case PostEntry(id) =>
        assert EntryOk(b.entries[id], b.accounts);
        PostedLinesBalance(b.entries[id].lines);
        OneEntryChanged(b, id, b.entries[id].(posted := true));
      case BackToDraft(id) =>
        assert EntryOk(b.entries[id], b.accounts);
        OneEntryChanged(b, id, b.entries[id].(posted := false));
      case _ => AccountCallKeepsInv(b, c);
    }
  }

  /**
   In every reachable book, posted entries balance to the cent and every line of a
   live entry uses a live account.
   */
  lemma {:induction false} RunKeepsInv(commands: seq<Command>)
    ensures Inv(Run(commands))
  {
    if commands != [] {
      var n := |commands| - 1;
      RunKeepsInv(commands[..n]);
      StepKeepsInv(Run(commands[..n]), commands[n]);
    }
  }

  /** A posted entry is frozen: the only thing any call can do to it is move it back to draft. */
  lemma PostedIsFrozen(b: Book, c: Command, id: nat)
    requires id < |b.entries| && b.entries[id].posted && !b.entries[id].deleted
    ensures var b' := After(b, Step(b, c));
            && id < |b'.entries|
            && b'.entries[id] == b.entries[id].(posted := c != BackToDraft(id))
  {
  }

  // --- the header totals ----------------------------------------------------------------

  /**
   The cached header totals are rounded from the exact input sums, so they can differ
   from the stored lines even on an entry that was posted: two debits and two credits
   of 10.004 leave 20.00 on the lines and 20.01 in the header.
   */
  lemma HeaderTotalsCanDrift() returns (b: Book, commands: seq<Command>)
    ensures b == Run(commands) && |b.entries| == 1
    ensures b.entries[0].posted && SumLines(b.entries[0].lines, Debit) == 2000 && b.entries[0].totalDebit == 2001
  {
    var debit, credit := LineInput(Some(0), 10.004, 0.0), LineInput(Some(0), 0.0, 10.004);
    var lines := [debit, debit, credit, credit];
    commands := [CreateAccount(Asset, None, true), CreateEntry(1, lines), PostEntry(0)];
    var cash := Account(Asset, None, false, true, false);
    assert commands[..2] == [CreateAccount(Asset, None, true), CreateEntry(1, lines)];
    assert commands[..2][..1] == [CreateAccount(Asset, None, true)];
    assert Run(commands[..2][..1][..0]) == NO_BOOK;
    assert Run(commands[..2][..1]) == Book([cash], []);
    DriftingSums(lines);
    var e := NewEntry(1, lines);
    assert Run(commands[..2]) == Book([cash], [e]);
    PostedDrift(e.lines);
    b := Run(commands);
  }

  /** How far the submitted amounts of one side are above the stored ones, in fractions of a cent. */
  function FractionsLost(lines: seq<LineInput>, side: Side): real {
    if lines == [] then 0.0
    else
      var given := Given(lines[|lines| - 1], side);
      FractionsLost(lines[..|lines| - 1], side) + (given * 100.0 - ToCents(given) as real)
  }

  function Header(e: Entry, side: Side): Cents {
    if side == Debit then e.totalDebit else e.totalCredit
  }

  lemma {:induction false} GivenIsStoredPlusLost(lines: seq<LineInput>, side: Side)
    requires HaveAccounts(lines) && !AnyNegative(lines)
    ensures SumGiven(lines, side) * 100.0 == SumLines(StoredLines(lines), side) as real + FractionsLost(lines, side)
    ensures 0.0 <= SumGiven(lines, side)
  {
    if lines != [] {
      var n := |lines| - 1;
      assert lines[n] in lines && forall l :: l in lines[..n] ==> l in lines;
      GivenIsStoredPlusLost(lines[..n], side);
      assert StoredLines(lines)[..n] == StoredLines(lines[..n]);
    }
  }

  lemma RoundsTo(k: int, x: real)
    requires 0.0 <= x
    ensures Round(x) == k <==> k as real - 0.5 <= x < k as real + 0.5
  {
    if k as real - 0.5 <= x < k as real + 0.5 {
      FloorOf(x + 0.5, k);
    }
  }

  /**
   A header total agrees with the stored lines exactly when the fractions of a cent that
   the lines lose add up to at least minus half a cent and to less than half a cent.
   */
  lemma HeaderAgreesExactlyWhen(date: Date, lines: seq<LineInput>, side: Side)
    requires HaveAccounts(lines) && !AnyNegative(lines)
    ensures Header(NewEntry(date, lines), side) == SumLines(NewEntry(date, lines).lines, side)
            <==> -0.5 <= FractionsLost(lines, side) < 0.5
  {
    GivenIsStoredPlusLost(lines, side);
    RoundsTo(SumLines(StoredLines(lines), side), SumGiven(lines, side) * 100.0);
  }

  lemma DriftingSums(lines: seq<LineInput>)
    requires lines == [LineInput(Some(0), 10.004, 0.0), LineInput(Some(0), 10.004, 0.0),
                       LineInput(Some(0), 0.0, 10.004), LineInput(Some(0), 0.0, 10.004)]
    ensures HaveAccounts(lines) && LinesFault(lines).None?
    ensures SumGiven(lines, Debit) == SumGiven(lines, Credit) == 20.008 && ToCents(20.008) == 2001
    ensures StoredLines(lines) == [Line(0, 1000, 0), Line(0, 1000, 0), Line(0, 0, 1000), Line(0, 0, 1000)]
  {
    for i := 0 to 4
      invariant SumGiven(lines[..i], Debit) == if i == 0 then 0.0 else if i == 1 then 10.004 else 20.008
      invariant SumGiven(lines[..i], Credit) == if i <= 2 then 0.0 else if i == 3 then 10.004 else 20.008
      invariant FirstLineFault(lines[..i]).None?
    {
      assert lines[..i + 1][..i] == lines[..i];
    }
    assert lines[..4] == lines;
    FloorOf(2000.8 + 0.5, 2001);
    FloorOf(1000.4 + 0.5, 1000);
    FloorOf(0.0 + 0.5, 0);
    assert ToCents(10.004) == 1000 && ToCents(0.0) == 0;
  }

  lemma PostedDrift(lines: seq<Line>)
    requires lines == [Line(0, 1000, 0), Line(0, 1000, 0), Line(0, 0, 1000), Line(0, 0, 1000)]
    ensures LinesFault(AsInputs(lines)).None?
    ensures SumLines(lines, Debit) == 2000
  {
    var inputs := AsInputs(lines);
    for i := 0 to 4
      invariant SumLines(lines[..i], Debit) == if i == 0 then 0 else if i == 1 then 1000 else 2000
      invariant SumLines(lines[..i], Credit) == if i <= 2 then 0 else if i == 3 then 1000 else 2000
      invariant FirstLineFault(inputs[..i]).None?
    {
      assert lines[..i + 1][..i] == lines[..i];
      assert inputs[..i + 1][..i] == inputs[..i];
    }
    assert lines[..4] == lines && inputs[..4] == inputs;
    StoredSums(lines, Debit);
    StoredSums(lines, Credit);
  }
}

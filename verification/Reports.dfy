/**
 The four financial reports: the date-windowed queries as functions over the book, and
 the service loops that turn their rows into totals. Amounts are exact cents.
 */
module Reports {
  import opened Results
  import opened Money
  import opened Books

  /** Dates from `from` (or from the beginning of time) up to and including `to`. */
  datatype Window = Window(from: Option<Date>, to: Date)

  predicate InWindow(d: Date, w: Window) {
    (w.from.Some? ==> w.from.value <= d) && d <= w.to
  }

  /** Only posted, live entries count. */
  predicate Counts(e: Entry, w: Window) {
    e.posted && !e.deleted && InWindow(e.date, w)
  }

  function OnAccount(lines: seq<Line>, a: nat, side: Side): Cents {
    if lines == [] then 0
    else
      var l := lines[|lines| - 1];
      OnAccount(lines[..|lines| - 1], a, side) + if l.account == a then Amount(l, side) else 0
  }

  /** The sum of one side of an account over the entries of a window. */
  function Activity(entries: seq<Entry>, a: nat, side: Side, w: Window): Cents {
    if entries == [] then 0
    else
      var e := entries[|entries| - 1];
      Activity(entries[..|entries| - 1], a, side, w) + if Counts(e, w) then OnAccount(e.lines, a, side) else 0
  }

  function Before(start: Date): Window {
    Window(None, start - 1)
  }

  function Between(start: Date, end: Date): Window {
    Window(Some(start), end)
  }

  /** Everything the balance sheet sees: from Go's zero time on. */
  function SinceZero(asOf: Date): Window {
    Between(ZERO_DATE, asOf)
  }

  function IsDebitNormal(g: Group): bool {
    g == Asset || g == Expense
  }

  /** A positive number always means more of this account. */
  function Signed(g: Group, debit: Cents, credit: Cents): Cents {
    if IsDebitNormal(g) then debit - credit else credit - debit
  }

  function SignedActivity(b: Book, a: nat, w: Window): Cents
    requires a < |b.accounts|
  {
    Signed(b.accounts[a].group, Activity(b.entries, a, Debit, w), Activity(b.entries, a, Credit, w))
  }

  /** math.Abs(x - y) < balanceEpsilon on currency units. */
  predicate Balanced(x: Cents, y: Cents) {
    Abs(Units(x) - Units(y)) < BALANCE_EPSILON
  }

  /** math.Abs(x) < 1e-9 on currency units. */
  predicate Negligible(x: Cents) {
    Abs(Units(x)) < 0.000000001
  }

  lemma BalancedIsEqual(x: Cents, y: Cents)
    ensures Balanced(x, y) <==> x == y
  {
    assert Units(x) - Units(y) == Units(x - y);
  }

  // --- trial balance --------------------------------------------------------------

  datatype TrialRow = TrialRow(
    account: nat, beginDebit: Cents, beginCredit: Cents, periodDebit: Cents, periodCredit: Cents,
    endDebit: Cents, endCredit: Cents)

  datatype TrialBalanceReport = TrialBalanceReport(
    rows: seq<TrialRow>, beginDebit: Cents, beginCredit: Cents, periodDebit: Cents, periodCredit: Cents,
    endDebit: Cents, endCredit: Cents, isBalanced: bool)

  /** date < start and date <= end, as the query asks. */
  function Beginning(start: Date, end: Date): Window {
    Window(None, if end < start then end else start - 1)
  }

  function TrialRowOf(b: Book, a: nat, start: Date, end: Date): TrialRow {
    TrialRow(a,
             Activity(b.entries, a, Debit, Beginning(start, end)), Activity(b.entries, a, Credit, Beginning(start, end)),
             Activity(b.entries, a, Debit, Between(start, end)), Activity(b.entries, a, Credit, Between(start, end)), 0, 0)
  }

  predicate HasFigures(r: TrialRow) {
    r.beginDebit != 0 || r.beginCredit != 0 || r.periodDebit != 0 || r.periodCredit != 0
  }

  /** TrialBalanceRows: live accounts with any non-zero column, among the first n accounts. */
  function TrialRows(b: Book, n: nat, start: Date, end: Date): seq<TrialRow>
    requires n <= |b.accounts|
  {
    if n == 0 then []
    else
      var row := TrialRowOf(b, n - 1, start, end);
      TrialRows(b, n - 1, start, end) + if !b.accounts[n - 1].deleted && HasFigures(row) then [row] else []
  }

  function WithEnding(r: TrialRow): TrialRow {
    r.(endDebit := r.beginDebit + r.periodDebit, endCredit := r.beginCredit + r.periodCredit)
  }

  datatype Column = BeginDebit | BeginCredit | PeriodDebit | PeriodCredit | EndDebit | EndCredit

  function Cell(r: TrialRow, c: Column): Cents {
    match c
    case BeginDebit => r.beginDebit
    case BeginCredit => r.beginCredit
    case PeriodDebit => r.periodDebit
    case PeriodCredit => r.periodCredit
    case EndDebit => r.endDebit
    case EndCredit => r.endCredit
  }

  function SumColumn(rows: seq<TrialRow>, c: Column): Cents {
    if rows == [] then 0 else SumColumn(rows[..|rows| - 1], c) + Cell(rows[|rows| - 1], c)
  }

  function Ended(rows: seq<TrialRow>): seq<TrialRow> {
    seq(|rows|, i requires 0 <= i < |rows| => WithEnding(rows[i]))
  }

  // --- general ledger ---------------------------------------------------------------

  datatype Posting = Posting(date: Date, debit: Cents, credit: Cents)

  datatype LedgerLine = LedgerLine(posting: Posting, running: Cents)

  datatype LedgerReport = LedgerReport(opening: Cents, lines: seq<LedgerLine>, closing: Cents)

  function LinePostings(date: Date, lines: seq<Line>, a: nat): seq<Posting> {
    if lines == [] then []
    else
      var l := lines[|lines| - 1];
      LinePostings(date, lines[..|lines| - 1], a) + if l.account == a then [Posting(date, l.debit, l.credit)] else []
  }

  /** The account's posted lines of a window, in creation order. */
  function Postings(entries: seq<Entry>, a: nat, w: Window): seq<Posting> {
    if entries == [] then []
    else
      var e := entries[|entries| - 1];
      Postings(entries[..|entries| - 1], a, w) + if Counts(e, w) then LinePostings(e.date, e.lines, a) else []
  }

  function InsertByDate(s: seq<Posting>, p: Posting): seq<Posting> {
    if s == [] || s[|s| - 1].date <= p.date then s + [p]
    else InsertByDate(s[..|s| - 1], p) + [s[|s| - 1]]
  }

  /** ORDER BY date, created_at. */
  function SortByDate(s: seq<Posting>): seq<Posting> {
    if s == [] then [] else InsertByDate(SortByDate(s[..|s| - 1]), s[|s| - 1])
  }

  function LedgerPostings(b: Book, a: nat, start: Date, end: Date): seq<Posting> {
    SortByDate(Postings(b.entries, a, Between(start, end)))
  }

  function SumSigned(g: Group, s: seq<Posting>): Cents {
    if s == [] then 0
    else SumSigned(g, s[..|s| - 1]) + Signed(g, s[|s| - 1].debit, s[|s| - 1].credit)
  }

  // --- balance sheet and profit and loss ----------------------------------------------

  datatype BalanceRow = BalanceRow(account: nat, group: Group, debit: Cents, credit: Cents)

  /** The row of a computed profit carries no account. */
  datatype SheetRow = SheetRow(account: Option<nat>, balance: Cents)

  predicate IsProfitGroup(g: Group) {
    g == Income || g == Expense
  }

  /** groupedBalanceRows over the first n accounts: income and expense accounts, or the other three groups. */
  function GroupedRows(b: Book, n: nat, w: Window, profit: bool): seq<BalanceRow>
    requires n <= |b.accounts|
  {
    if n == 0 then []
    else
      var acc := b.accounts[n - 1];
      GroupedRows(b, n - 1, w, profit) +
      if !acc.deleted && IsProfitGroup(acc.group) == profit
      then [BalanceRow(n - 1, acc.group, Activity(b.entries, n - 1, Debit, w), Activity(b.entries, n - 1, Credit, w))]
      else []
  }

  function BalanceOf(r: BalanceRow): Cents {
    Signed(r.group, r.debit, r.credit)
  }

  function SumGroup(rows: seq<BalanceRow>, g: Group): Cents {
    if rows == [] then 0
    else SumGroup(rows[..|rows| - 1], g) + if rows[|rows| - 1].group == g then BalanceOf(rows[|rows| - 1]) else 0
  }

  /** The printed rows of one group: those with a balance. */
  function Printed(rows: seq<BalanceRow>, g: Group): seq<SheetRow> {
    if rows == [] then []
    else
      var r := rows[|rows| - 1];
      Printed(rows[..|rows| - 1], g) + if r.group == g && BalanceOf(r) != 0 then [SheetRow(Some(r.account), BalanceOf(r))] else []
  }

  /** Income minus expense over a window. */
  function NetProfit(b: Book, w: Window): Cents {
    SumGroup(GroupedRows(b, |b.accounts|, w, true), Income) - SumGroup(GroupedRows(b, |b.accounts|, w, true), Expense)
  }
}

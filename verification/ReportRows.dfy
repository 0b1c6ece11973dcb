/**
 Which rows the reports print and what each row shows: one row per account with figures,
 carrying that account's activity, and for the ledger one line per posted journal line.
 */
module ReportRows {
  import opened Results
  import opened Books
  import opened Reports
  import opened ReportLaws

  // --- the trial balance --------------------------------------------------------------

  function Smaller(x: Date, y: Date): Date {
    if x < y then x else y
  }

  /** The dates of a column: before the start (and not after the end), from start to end, or all up to the end. */
  function Dates(c: Column, start: Date, end: Date): Window {
    match c
    case BeginDebit => Window(None, Smaller(start - 1, end))
    case BeginCredit => Window(None, Smaller(start - 1, end))
    case PeriodDebit => Window(Some(start), end)
    case PeriodCredit => Window(Some(start), end)
    case EndDebit => Window(None, end)
    case EndCredit => Window(None, end)
  }

  predicate IsDebitColumn(c: Column) {
    c == BeginDebit || c == PeriodDebit || c == EndDebit
  }

  /** What an account has to show in a column. */
  function Due(b: Book, a: nat, c: Column, start: Date, end: Date): int {
    Activity(b.entries, a, if IsDebitColumn(c) then Debit else Credit, Dates(c, start, end))
  }

  /** The row names a live account and shows its activity in every column. */
  ghost predicate ShowsAccount(b: Book, r: TrialRow, start: Date, end: Date) {
    && LiveAccount(b, r.account)
    && forall c :: Cell(r, c) == Due(b, r.account, c, start, end)
  }

  /** A live account with something to show before or within the period. */
  predicate HasSomething(b: Book, a: nat, start: Date, end: Date) {
    && LiveAccount(b, a)
    && (Due(b, a, BeginDebit, start, end) != 0 || Due(b, a, BeginCredit, start, end) != 0
        || Due(b, a, PeriodDebit, start, end) != 0 || Due(b, a, PeriodCredit, start, end) != 0)
  }

  predicate Ascending(accounts: seq<nat>) {
    forall i, j :: 0 <= i < j < |accounts| ==> accounts[i] < accounts[j]
  }

  function TrialAccounts(rows: seq<TrialRow>): seq<nat> {
    seq(|rows|, i requires 0 <= i < |rows| => rows[i].account)
  }

  /** One row for each account that has something to show, in account order, and no others. */
  ghost predicate ListsAccounts(b: Book, rows: seq<TrialRow>, start: Date, end: Date) {
    && Ascending(TrialAccounts(rows))
    && (forall r :: r in rows ==> ShowsAccount(b, r, start, end))
    && (forall a: nat :: a in TrialAccounts(rows) <==> HasSomething(b, a, start, end))
  }

  lemma EndIsBeginPlusPeriod(b: Book, a: nat, start: Date, end: Date)
    ensures Due(b, a, EndDebit, start, end) == Due(b, a, BeginDebit, start, end) + Due(b, a, PeriodDebit, start, end)
    ensures Due(b, a, EndCredit, start, end) == Due(b, a, BeginCredit, start, end) + Due(b, a, PeriodCredit, start, end)
  {
    var all, begin, period := Window(None, end), Window(None, Smaller(start - 1, end)), Window(Some(start), end);
    ActivitySplits(b.entries, a, Debit, all, begin, period);
    ActivitySplits(b.entries, a, Credit, all, begin, period);
  }

  lemma RowShowsAccount(b: Book, a: nat, start: Date, end: Date)
    requires LiveAccount(b, a)
    ensures var r := WithEnding(TrialRowOf(b, a, start, end));
            r.account == a && ShowsAccount(b, r, start, end)
  {
    EndIsBeginPlusPeriod(b, a, start, end);
    var r := WithEnding(TrialRowOf(b, a, start, end));
    forall c
      ensures Cell(r, c) == Due(b, a, c, start, end)
    {
      match c
      case BeginDebit =>
      case BeginCredit =>
      case PeriodDebit =>
      case PeriodCredit =>
      case EndDebit =>
      case EndCredit =>
    }
  }

  /** The first n accounts, listed. */
  ghost predicate ListsFirst(b: Book, n: nat, rows: seq<TrialRow>, start: Date, end: Date) {
    && Ascending(TrialAccounts(rows))
    && (forall r :: r in rows ==> r == TrialRowOf(b, r.account, start, end) && LiveAccount(b, r.account))
    && (forall a: nat :: a in TrialAccounts(rows) <==> a < n && HasSomething(b, a, start, end))
  }

  lemma {:induction false} TrialListsFirst(b: Book, n: nat, start: Date, end: Date)
    requires n <= |b.accounts|
    ensures ListsFirst(b, n, TrialRows(b, n, start, end), start, end)
  {
    if n > 0 {
      TrialListsFirst(b, n - 1, start, end);
      OneMoreTrialRow(b, n, TrialRows(b, n - 1, start, end), start, end);
    }
  }

  lemma AscendingPush(s: seq<nat>, x: nat)
    requires Ascending(s) && forall y :: y in s ==> y < x
    ensures Ascending(s + [x])
    ensures forall y :: y in s + [x] <==> y in s || y == x
  {
    forall i, j | 0 <= i < j < |s + [x]|
      ensures (s + [x])[i] < (s + [x])[j]
    {
      assert (s + [x])[i] == s[i] && s[i] in s;
    }
  }

  lemma OneMoreTrialRow(b: Book, n: nat, rows: seq<TrialRow>, start: Date, end: Date)
    requires 0 < n <= |b.accounts| && ListsFirst(b, n - 1, rows, start, end)
    ensures var row := TrialRowOf(b, n - 1, start, end);
            ListsFirst(b, n, rows + if !b.accounts[n - 1].deleted && HasFigures(row) then [row] else [], start, end)
  {
    var row := TrialRowOf(b, n - 1, start, end);
    assert HasFigures(row) && LiveAccount(b, n - 1) <==> HasSomething(b, n - 1, start, end);
    if HasSomething(b, n - 1, start, end) {
      assert TrialAccounts(rows + [row]) == TrialAccounts(rows) + [n - 1];
      AscendingPush(TrialAccounts(rows), n - 1);
      assert forall r :: r in rows + [row] <==> r in rows || r == row;
    } else {
      assert rows + [] == rows;
    }
  }

  /**
   The trial balance lists the live accounts that have something to show, each once and in
   order; every row shows, column by column, what that account was debited and credited.
   */
  lemma TrialBalanceListsAccounts(b: Book, start: Date, end: Date)
    ensures ListsAccounts(b, Ended(TrialRows(b, |b.accounts|, start, end)), start, end)
  {
    var rows := TrialRows(b, |b.accounts|, start, end);
    TrialListsFirst(b, |b.accounts|, start, end);
    assert TrialAccounts(Ended(rows)) == TrialAccounts(rows);
    forall r | r in Ended(rows)
      ensures ShowsAccount(b, r, start, end)
    {
      var k :| 0 <= k < |rows| && r == WithEnding(rows[k]);
      assert rows[k] in rows;
      RowShowsAccount(b, rows[k].account, start, end);
    }
  }

  // --- the balance sheet and the profit and loss statement -------------------------------

  /** What an account of the group has to show: debit less credit, or the reverse. */
  function Balance(b: Book, a: nat, g: Group, w: Window): int {
    var debit, credit := Activity(b.entries, a, Debit, w), Activity(b.entries, a, Credit, w);
    if g == Asset || g == Expense then debit - credit else credit - debit
  }

  predicate InSection(b: Book, a: nat, g: Group, w: Window) {
    LiveAccount(b, a) && b.accounts[a].group == g && Balance(b, a, g, w) != 0
  }

  predicate AllNamed(rows: seq<SheetRow>) {
    forall r :: r in rows ==> r.account.Some?
  }

  function SheetAccounts(rows: seq<SheetRow>): seq<nat>
    requires AllNamed(rows)
  {
    seq(|rows|, i requires 0 <= i < |rows| => assert rows[i] in rows; rows[i].account.value)
  }

  function SumBalances(rows: seq<SheetRow>): int {
    if rows == [] then 0 else SumBalances(rows[..|rows| - 1]) + rows[|rows| - 1].balance
  }

  /** The accounts of one group with a balance, each once and in order, with that balance. */
  ghost predicate ListsGroup(b: Book, n: nat, rows: seq<SheetRow>, g: Group, w: Window) {
    && AllNamed(rows)
    && Ascending(SheetAccounts(rows))
    && (forall r :: r in rows ==> r.balance == Balance(b, r.account.value, g, w))
    && (forall a: nat :: a in SheetAccounts(rows) <==> a < n && InSection(b, a, g, w))
  }

  /** What account n - 1 adds to the rows of the accounts before it. */
  predicate NextRow(b: Book, n: nat, rows: seq<SheetRow>, next: seq<SheetRow>, g: Group, w: Window)
    requires 0 < n <= |b.accounts|
  {
    next == if InSection(b, n - 1, g, w) then rows + [SheetRow(Some(n - 1), Balance(b, n - 1, g, w))] else rows
  }

  lemma OneMoreSheetRow(b: Book, n: nat, rows: seq<SheetRow>, next: seq<SheetRow>, g: Group, w: Window)
    requires 0 < n <= |b.accounts| && ListsGroup(b, n - 1, rows, g, w) && NextRow(b, n, rows, next, g, w)
    ensures ListsGroup(b, n, next, g, w)
  {
    if InSection(b, n - 1, g, w) {
      var row := SheetRow(Some(n - 1), Balance(b, n - 1, g, w));
      assert forall r :: r in rows + [row] <==> r in rows || r == row;
      assert SheetAccounts(rows + [row]) == SheetAccounts(rows) + [n - 1];
      AscendingPush(SheetAccounts(rows), n - 1);
    }
  }

  lemma LastPrinted(b: Book, n: nat, g: Group, w: Window)
    requires 0 < n <= |b.accounts|
    ensures NextRow(b, n, Printed(GroupedRows(b, n - 1, w, IsProfitGroup(g)), g),
                    Printed(GroupedRows(b, n, w, IsProfitGroup(g)), g), g, w)
  {
    var rows, acc := GroupedRows(b, n - 1, w, IsProfitGroup(g)), b.accounts[n - 1];
    var row := BalanceRow(n - 1, acc.group, Activity(b.entries, n - 1, Debit, w), Activity(b.entries, n - 1, Credit, w));
    assert (rows + [row])[..|rows|] == rows;
    assert rows + [] == rows;
    assert Printed(rows, g) + [] == Printed(rows, g);
  }

  lemma {:induction false} FirstSheetRows(b: Book, n: nat, g: Group, w: Window)
    requires n <= |b.accounts|
    ensures ListsGroup(b, n, Printed(GroupedRows(b, n, w, IsProfitGroup(g)), g), g, w)
  {
    if n > 0 {
      FirstSheetRows(b, n - 1, g, w);
      LastPrinted(b, n, g, w);
      OneMoreSheetRow(b, n, Printed(GroupedRows(b, n - 1, w, IsProfitGroup(g)), g),
                      Printed(GroupedRows(b, n, w, IsProfitGroup(g)), g), g, w);
    }
  }

  lemma {:induction false} PrintedAddUp(rows: seq<BalanceRow>, g: Group)
    ensures SumBalances(Printed(rows, g)) == SumGroup(rows, g)
  {
    if rows != [] {
      var r, before := rows[|rows| - 1], Printed(rows[..|rows| - 1], g);
      PrintedAddUp(rows[..|rows| - 1], g);
      assert (before + [SheetRow(Some(r.account), BalanceOf(r))])[..|before|] == before;
      assert before + [] == before;
    }
  }

  /**
   A section of a statement lists the live accounts of its group that have a balance, each
   once and in order, with that balance; its total is the sum of the printed balances.
   */
  lemma SectionListsItsGroup(b: Book, g: Group, w: Window)
    ensures var rows := GroupedRows(b, |b.accounts|, w, IsProfitGroup(g));
            && ListsGroup(b, |b.accounts|, Printed(rows, g), g, w)
            && SumGroup(rows, g) == SumBalances(Printed(rows, g))
  {
    FirstSheetRows(b, |b.accounts|, g, w);
    PrintedAddUp(GroupedRows(b, |b.accounts|, w, IsProfitGroup(g)), g);
  }

  // --- the general ledger ------------------------------------------------------------------

  /** Line k of entry e, if it is on the account and the entry is posted, live and dated within the period. */
  predicate Shown(b: Book, a: nat, start: Date, end: Date, e: nat, k: nat) {
    && e < |b.entries| && k < |b.entries[e].lines| && b.entries[e].lines[k].account == a
    && b.entries[e].posted && !b.entries[e].deleted && start <= b.entries[e].date <= end
  }

  function ShownAs(b: Book, e: nat, k: nat): Posting
    requires e < |b.entries| && k < |b.entries[e].lines|
  {
    Posting(b.entries[e].date, b.entries[e].lines[k].debit, b.entries[e].lines[k].credit)
  }

  predicate PlacesExist(b: Book, places: seq<(nat, nat)>) {
    forall q :: 0 <= q < |places| ==> places[q].0 < |b.entries| && places[q].1 < |b.entries[places[q].0].lines|
  }

  function AllShownAs(b: Book, places: seq<(nat, nat)>): seq<Posting>
    requires PlacesExist(b, places)
  {
    seq(|places|, q requires 0 <= q < |places| => ShownAs(b, places[q].0, places[q].1))
  }

  /** The shown lines up to, and without, line k of entry n, each once. */
  ghost predicate AllPlaces(b: Book, a: nat, start: Date, end: Date, n: nat, k: nat, places: seq<(nat, nat)>) {
    && PlacesExist(b, places)
    && (forall p, q :: 0 <= p < q < |places| ==> places[p] != places[q])
    && (forall e: nat, j: nat :: (e, j) in places <==> Shown(b, a, start, end, e, j) && (e < n || (e == n && j < k)))
  }

  lemma {:induction false} LinePlaces(b: Book, a: nat, start: Date, end: Date, n: nat, k: nat, before: seq<(nat, nat)>)
    returns (places: seq<(nat, nat)>)
    requires n < |b.entries| && k <= |b.entries[n].lines| && AllPlaces(b, a, start, end, n, 0, before)
    requires Counts(b.entries[n], Between(start, end))
    ensures AllPlaces(b, a, start, end, n, k, places)
    ensures AllShownAs(b, places) == AllShownAs(b, before) + LinePostings(b.entries[n].date, b.entries[n].lines[..k], a)
  {
    var e := b.entries[n];
    places := before;
    if k > 0 {
      places := LinePlaces(b, a, start, end, n, k - 1, before);
      assert e.lines[..k][..k - 1] == e.lines[..k - 1];
      if e.lines[k - 1].account == a {
        places := PlacePush(b, a, start, end, n, k, places);
      }
    }
  }

  lemma PlacePush(b: Book, a: nat, start: Date, end: Date, n: nat, k: nat, before: seq<(nat, nat)>)
    returns (places: seq<(nat, nat)>)
    requires k > 0 && Shown(b, a, start, end, n, k - 1) && AllPlaces(b, a, start, end, n, k - 1, before)
    ensures AllPlaces(b, a, start, end, n, k, places)
    ensures AllShownAs(b, places) == AllShownAs(b, before) + [ShownAs(b, n, k - 1)]
  {
    places := before + [(n, k - 1)];
    assert (n, k - 1) !in before;
    assert forall x :: x in places <==> x in before || x == (n, k - 1);
  }

  lemma {:induction false} EntryPlaces(b: Book, a: nat, start: Date, end: Date, n: nat) returns (places: seq<(nat, nat)>)
    requires n <= |b.entries|
    ensures AllPlaces(b, a, start, end, n, 0, places)
    ensures AllShownAs(b, places) == Postings(b.entries[..n], a, Between(start, end))
  {
    places := [];
    if n > 0 {
      var e := b.entries[n - 1];
      places := EntryPlaces(b, a, start, end, n - 1);
      assert b.entries[..n][..n - 1] == b.entries[..n - 1];
      if Counts(e, Between(start, end)) {
        places := LinePlaces(b, a, start, end, n - 1, |e.lines|, places);
        assert e.lines[..|e.lines|] == e.lines;
      }
    }
  }

  /** Every shown line is at one of the places, no place comes twice, and no other line is there. */
  ghost predicate EachShownOnce(b: Book, a: nat, start: Date, end: Date, places: seq<(nat, nat)>) {
    && PlacesExist(b, places)
    && (forall p, q :: 0 <= p < q < |places| ==> places[p] != places[q])
    && (forall e: nat, k: nat :: (e, k) in places <==> Shown(b, a, start, end, e, k))
  }

  /**
   The ledger of an account shows every line that posted, live entries have on it within
   the period, each exactly once with its date and amounts, in date order.
   */
  lemma LedgerShowsEachLine(b: Book, a: nat, start: Date, end: Date) returns (places: seq<(nat, nat)>)
    ensures EachShownOnce(b, a, start, end, places)
    ensures multiset(LedgerPostings(b, a, start, end)) == multiset(AllShownAs(b, places))
    ensures InDateOrder(LedgerPostings(b, a, start, end))
  {
    places := EntryPlaces(b, a, start, end, |b.entries|);
    assert b.entries[..|b.entries|] == b.entries;
    SortSorts(Postings(b.entries, a, Between(start, end)));
  }
}

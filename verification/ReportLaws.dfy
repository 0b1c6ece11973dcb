/**
 What the reports have in common: the double count behind every balancing total, and
 how figures of neighbouring windows and of different reports fit together.
 */
module ReportLaws {
  import opened Results
  import opened Money
  import opened Books
  import opened Reports

  // --- counting every line once, by account or by entry --------------------------------

  /** One side of some lines, counted over the live ones among the first n accounts. */
  function LiveOnAccounts(accounts: seq<Account>, n: nat, lines: seq<Line>, side: Side): Cents
    requires n <= |accounts|
  {
    if n == 0 then 0
    else
      LiveOnAccounts(accounts, n - 1, lines, side) +
      if accounts[n - 1].deleted then 0 else OnAccount(lines, n - 1, side)
  }

  /** One side of all activity in a window, counted over the live ones among the first n accounts. */
  function LiveActivity(accounts: seq<Account>, n: nat, entries: seq<Entry>, side: Side, w: Window): Cents
    requires n <= |accounts|
  {
    if n == 0 then 0
    else
      LiveActivity(accounts, n - 1, entries, side, w) +
      if accounts[n - 1].deleted then 0 else Activity(entries, n - 1, side, w)
  }

  lemma {:induction false} LastLineCounts(accounts: seq<Account>, n: nat, lines: seq<Line>, side: Side)
    requires n <= |accounts| && lines != []
    ensures var l := lines[|lines| - 1];
            LiveOnAccounts(accounts, n, lines, side) == LiveOnAccounts(accounts, n, lines[..|lines| - 1], side) +
            if l.account < n && !accounts[l.account].deleted then Amount(l, side) else 0
  {
    if n > 0 {
      LastLineCounts(accounts, n - 1, lines, side);
    }
  }

  lemma {:induction false} EveryLineIsOnOneAccount(accounts: seq<Account>, lines: seq<Line>, side: Side)
    requires forall l :: l in lines ==> l.account < |accounts| && !accounts[l.account].deleted
    ensures LiveOnAccounts(accounts, |accounts|, lines, side) == SumLines(lines, side)
  {
    if lines == [] {
      NothingOnAccounts(accounts, |accounts|, side);
    } else {
      LastLineCounts(accounts, |accounts|, lines, side);
      EveryLineIsOnOneAccount(accounts, lines[..|lines| - 1], side);
      assert lines[|lines| - 1] in lines;
    }
  }

  lemma {:induction false} NothingOnAccounts(accounts: seq<Account>, n: nat, side: Side)
    requires n <= |accounts|
    ensures LiveOnAccounts(accounts, n, [], side) == 0
  {
    if n > 0 {
      NothingOnAccounts(accounts, n - 1, side);
    }
  }

  lemma {:induction false} LastEntryCounts(accounts: seq<Account>, n: nat, entries: seq<Entry>, side: Side, w: Window)
    requires n <= |accounts| && entries != []
    ensures var e := entries[|entries| - 1];
            LiveActivity(accounts, n, entries, side, w) ==
            LiveActivity(accounts, n, entries[..|entries| - 1], side, w) +
            if Counts(e, w) then LiveOnAccounts(accounts, n, e.lines, side) else 0
  {
    if n > 0 {
      LastEntryCounts(accounts, n - 1, entries, side, w);
    }
  }

  lemma {:induction false} NoEntriesNoActivity(accounts: seq<Account>, n: nat, side: Side, w: Window)
    requires n <= |accounts|
    ensures LiveActivity(accounts, n, [], side, w) == 0
  {
    if n > 0 {
      NoEntriesNoActivity(accounts, n - 1, side, w);
    }
  }

  /** In every window, what the live accounts were debited is what they were credited. */
  lemma {:induction false} DebitsAreCredits(accounts: seq<Account>, entries: seq<Entry>, w: Window)
    requires forall e :: e in entries ==> EntryOk(e, accounts)
    ensures LiveActivity(accounts, |accounts|, entries, Debit, w) == LiveActivity(accounts, |accounts|, entries, Credit, w)
  {
    if entries == [] {
      NoEntriesNoActivity(accounts, |accounts|, Debit, w);
      NoEntriesNoActivity(accounts, |accounts|, Credit, w);
    } else {
      var e := entries[|entries| - 1];
      assert EntryOk(e, accounts);
      DebitsAreCredits(accounts, entries[..|entries| - 1], w);
      LastEntryCounts(accounts, |accounts|, entries, Debit, w);
      LastEntryCounts(accounts, |accounts|, entries, Credit, w);
      if Counts(e, w) {
        EveryLineIsOnOneAccount(accounts, e.lines, Debit);
        EveryLineIsOnOneAccount(accounts, e.lines, Credit);
      }
    }
  }

  // --- the trial balance ----------------------------------------------------------------

  lemma ColumnSums(rows: seq<TrialRow>, row: TrialRow)
    ensures forall c :: SumColumn(rows + [row], c) == SumColumn(rows, c) + Cell(row, c)
  {
    assert (rows + [row])[..|rows|] == rows;
  }

  /** A row left out because all its columns are zero does not change a total. */
  lemma LastTrialRow(b: Book, n: nat, start: Date, end: Date, c: Column)
    requires 0 < n <= |b.accounts| && c != EndDebit && c != EndCredit
    ensures SumColumn(TrialRows(b, n, start, end), c) ==
            SumColumn(TrialRows(b, n - 1, start, end), c) +
            if b.accounts[n - 1].deleted then 0 else Cell(TrialRowOf(b, n - 1, start, end), c)
  {
    var rows, row := TrialRows(b, n - 1, start, end), TrialRowOf(b, n - 1, start, end);
    if !b.accounts[n - 1].deleted && HasFigures(row) {
      ColumnSums(rows, row);
      assert TrialRows(b, n, start, end) == rows + [row];
    } else {
      assert TrialRows(b, n, start, end) == rows;
    }
  }

  function SideOf(c: Column): Side {
    if c == BeginDebit || c == PeriodDebit then Debit else Credit
  }

  function WindowOf(c: Column, start: Date, end: Date): Window {
    if c == BeginDebit || c == BeginCredit then Beginning(start, end) else Between(start, end)
  }

  lemma {:induction false} TrialTotals(b: Book, n: nat, start: Date, end: Date, c: Column)
    requires n <= |b.accounts| && c != EndDebit && c != EndCredit
    ensures SumColumn(TrialRows(b, n, start, end), c) ==
            LiveActivity(b.accounts, n, b.entries, SideOf(c), WindowOf(c, start, end))
  {
    if n > 0 {
      TrialTotals(b, n - 1, start, end, c);
      LastTrialRow(b, n, start, end, c);
    }
  }

  lemma {:induction false} EndedTotals(rows: seq<TrialRow>)
    ensures forall c :: c != EndDebit && c != EndCredit ==> SumColumn(Ended(rows), c) == SumColumn(rows, c)
    ensures SumColumn(Ended(rows), EndDebit) == SumColumn(rows, BeginDebit) + SumColumn(rows, PeriodDebit)
    ensures SumColumn(Ended(rows), EndCredit) == SumColumn(rows, BeginCredit) + SumColumn(rows, PeriodCredit)
  {
    if rows != [] {
      var n := |rows| - 1;
      EndedTotals(rows[..n]);
      assert Ended(rows) == Ended(rows[..n]) + [WithEnding(rows[n])];
      ColumnSums(Ended(rows[..n]), WithEnding(rows[n]));
    }
  }

  /** Each pair of columns of a trial balance has equal totals, over any dates. */
  lemma TrialBalanceBalances(b: Book, start: Date, end: Date)
    requires Inv(b)
    ensures var rows := Ended(TrialRows(b, |b.accounts|, start, end));
            && SumColumn(rows, BeginDebit) == SumColumn(rows, BeginCredit)
            && SumColumn(rows, PeriodDebit) == SumColumn(rows, PeriodCredit)
            && SumColumn(rows, EndDebit) == SumColumn(rows, EndCredit)
  {
    TrialTotals(b, |b.accounts|, start, end, BeginDebit);
    TrialTotals(b, |b.accounts|, start, end, BeginCredit);
    TrialTotals(b, |b.accounts|, start, end, PeriodDebit);
    TrialTotals(b, |b.accounts|, start, end, PeriodCredit);
    EndedTotals(TrialRows(b, |b.accounts|, start, end));
    DebitsAreCredits(b.accounts, b.entries, Beginning(start, end));
    DebitsAreCredits(b.accounts, b.entries, Between(start, end));
  }

  // --- the balance sheet ------------------------------------------------------------------

  lemma GroupSums(rows: seq<BalanceRow>, row: BalanceRow)
    ensures forall g :: SumGroup(rows + [row], g) == SumGroup(rows, g) + if row.group == g then BalanceOf(row) else 0
  {
    assert (rows + [row])[..|rows|] == rows;
  }

  lemma LastRow(b: Book, n: nat, g: Group, w: Window, profit: bool)
    requires 0 < n <= |b.accounts|
    ensures SumGroup(GroupedRows(b, n, w, profit), g) == SumGroup(GroupedRows(b, n - 1, w, profit), g) +
            var acc := b.accounts[n - 1];
            if !acc.deleted && IsProfitGroup(acc.group) == profit && acc.group == g then SignedActivity(b, n - 1, w) else 0
  {
    var rows := GroupedRows(b, n - 1, w, profit);
    GroupSums(rows, BalanceRow(n - 1, b.accounts[n - 1].group, Activity(b.entries, n - 1, Debit, w),
                               Activity(b.entries, n - 1, Credit, w)));
    assert rows + [] == rows;
  }

  /** The signed activity of a group's first n accounts. */
  function GroupActivity(b: Book, n: nat, g: Group, w: Window, profit: bool): Cents
    requires n <= |b.accounts|
  {
    if n == 0 then 0
    else
      var acc := b.accounts[n - 1];
      GroupActivity(b, n - 1, g, w, profit) +
      if !acc.deleted && IsProfitGroup(acc.group) == profit && acc.group == g then SignedActivity(b, n - 1, w) else 0
  }

  lemma {:induction false} RowsAreActivity(b: Book, n: nat, g: Group, w: Window, profit: bool)
    requires n <= |b.accounts|
    ensures SumGroup(GroupedRows(b, n, w, profit), g) == GroupActivity(b, n, g, w, profit)
  {
    if n > 0 {
      RowsAreActivity(b, n - 1, g, w, profit);
      LastRow(b, n, g, w, profit);
    }
  }

  /** The balances of one account, debit-normal groups counted positively. */
  function NetOf(b: Book, a: nat, w: Window): Cents
    requires a < |b.accounts|
  {
    if b.accounts[a].deleted then 0
    else Activity(b.entries, a, Debit, w) - Activity(b.entries, a, Credit, w)
  }

  /** Assets and expenses minus the other groups. */
  function NetOfGroups(b: Book, n: nat, w: Window): Cents
    requires n <= |b.accounts|
  {
    GroupActivity(b, n, Asset, w, false) - GroupActivity(b, n, Liability, w, false) - GroupActivity(b, n, Equity, w, false)
    - GroupActivity(b, n, Income, w, true) + GroupActivity(b, n, Expense, w, true)
  }

  lemma LastAccountNetsOut(b: Book, n: nat, w: Window)
    requires 0 < n <= |b.accounts|
    ensures NetOfGroups(b, n, w) == NetOfGroups(b, n - 1, w) + NetOf(b, n - 1, w)
  {
  }

  /** Assets and expenses minus the other groups is what was debited minus what was credited. */
  lemma {:induction false} GroupsNetOut(b: Book, n: nat, w: Window)
    requires n <= |b.accounts|
    ensures NetOfGroups(b, n, w) ==
            LiveActivity(b.accounts, n, b.entries, Debit, w) - LiveActivity(b.accounts, n, b.entries, Credit, w)
  {
    if n > 0 {
      GroupsNetOut(b, n - 1, w);
      LastAccountNetsOut(b, n, w);
    }
  }

  /** The accounting equation, in every reachable book and for every window. */
  lemma AssetsAreClaims(b: Book, w: Window)
    requires Inv(b)
    ensures var sheet := GroupedRows(b, |b.accounts|, w, false);
            SumGroup(sheet, Asset) == SumGroup(sheet, Liability) + SumGroup(sheet, Equity) + NetProfit(b, w)
  {
    GroupsNetOut(b, |b.accounts|, w);
    DebitsAreCredits(b.accounts, b.entries, w);
    RowsAreActivity(b, |b.accounts|, Asset, w, false);
    RowsAreActivity(b, |b.accounts|, Liability, w, false);
    RowsAreActivity(b, |b.accounts|, Equity, w, false);
    RowsAreActivity(b, |b.accounts|, Income, w, true);
    RowsAreActivity(b, |b.accounts|, Expense, w, true);
  }

  /** Every run of the books and every as-of date: the balance sheet's two totals are equal. */
  lemma {:induction false} EveryRunBalances(commands: seq<Command>, asOf: Date)
    ensures var b := Run(commands);
            var sheet := GroupedRows(b, |b.accounts|, SinceZero(asOf), false);
            SumGroup(sheet, Asset) ==
            SumGroup(sheet, Liability) + (SumGroup(sheet, Equity) + NetProfit(b, SinceZero(asOf)))
  {
    RunKeepsInv(commands);
    AssetsAreClaims(Run(commands), SinceZero(asOf));
  }

  /** A live account has one row, in the sheet or in the profit rows, with its signed activity. */
  lemma {:induction false} AccountHasItsRow(b: Book, n: nat, w: Window, a: nat)
    requires a < n <= |b.accounts| && !b.accounts[a].deleted
    ensures var rows := GroupedRows(b, n, w, IsProfitGroup(b.accounts[a].group));
            exists r :: r in rows && r.account == a && r.group == b.accounts[a].group && BalanceOf(r) == SignedActivity(b, a, w)
  {
    var rows := GroupedRows(b, n, w, IsProfitGroup(b.accounts[a].group));
    if a == n - 1 {
      var r := rows[|rows| - 1];
      assert r in rows;
    } else {
      AccountHasItsRow(b, n - 1, w, a);
      var r :| r in GroupedRows(b, n - 1, w, IsProfitGroup(b.accounts[a].group)) && r.account == a &&
               r.group == b.accounts[a].group && BalanceOf(r) == SignedActivity(b, a, w);
      assert r in rows;
    }
  }

  // --- neighbouring windows ---------------------------------------------------------------

  /** Every date of w lies in exactly one of the two parts, and no other date in either. */
  ghost predicate Splits(w: Window, first: Window, second: Window) {
    forall d ::
      && InWindow(d, w) == (InWindow(d, first) || InWindow(d, second))
      && !(InWindow(d, first) && InWindow(d, second))
  }

  lemma {:induction false} ActivitySplits(entries: seq<Entry>, a: nat, side: Side, w: Window, first: Window, second: Window)
    requires Splits(w, first, second)
    ensures Activity(entries, a, side, w) == Activity(entries, a, side, first) + Activity(entries, a, side, second)
  {
    if entries != [] {
      ActivitySplits(entries[..|entries| - 1], a, side, w, first, second);
      var d := entries[|entries| - 1].date;
      assert InWindow(d, w) == (InWindow(d, first) || InWindow(d, second));
    }
  }

  lemma SignedActivitySplits(b: Book, a: nat, w: Window, first: Window, second: Window)
    requires a < |b.accounts| && Splits(w, first, second)
    ensures SignedActivity(b, a, w) == SignedActivity(b, a, first) + SignedActivity(b, a, second)
  {
    ActivitySplits(b.entries, a, Debit, w, first, second);
    ActivitySplits(b.entries, a, Credit, w, first, second);
  }

  lemma {:induction false} ActivitySplitsByGroup(b: Book, n: nat, g: Group, w: Window, first: Window, second: Window, profit: bool)
    requires n <= |b.accounts| && Splits(w, first, second)
    ensures GroupActivity(b, n, g, w, profit) == GroupActivity(b, n, g, first, profit) + GroupActivity(b, n, g, second, profit)
  {
    if n > 0 {
      ActivitySplitsByGroup(b, n - 1, g, w, first, second, profit);
      SignedActivitySplits(b, n - 1, w, first, second);
    }
  }

  lemma GroupSplits(b: Book, g: Group, w: Window, first: Window, second: Window, profit: bool)
    requires Splits(w, first, second)
    ensures SumGroup(GroupedRows(b, |b.accounts|, w, profit), g) ==
            SumGroup(GroupedRows(b, |b.accounts|, first, profit), g) + SumGroup(GroupedRows(b, |b.accounts|, second, profit), g)
  {
    RowsAreActivity(b, |b.accounts|, g, w, profit);
    RowsAreActivity(b, |b.accounts|, g, first, profit);
    RowsAreActivity(b, |b.accounts|, g, second, profit);
    ActivitySplitsByGroup(b, |b.accounts|, g, w, first, second, profit);
  }

  lemma NetProfitSplits(b: Book, w: Window, first: Window, second: Window)
    requires Splits(w, first, second)
    ensures NetProfit(b, w) == NetProfit(b, first) + NetProfit(b, second)
  {
    GroupSplits(b, Income, w, first, second, true);
    GroupSplits(b, Expense, w, first, second, true);
  }

  /** The profit of two adjacent periods adds up to the profit of both. */
  lemma NetProfitAddsUp(b: Book, start: Date, middle: Date, end: Date)
    requires start - 1 <= middle <= end
    ensures NetProfit(b, Between(start, middle)) + NetProfit(b, Between(middle + 1, end)) == NetProfit(b, Between(start, end))
  {
    NetProfitSplits(b, Between(start, end), Between(start, middle), Between(middle + 1, end));
  }

  // --- the ledger ---------------------------------------------------------------------------

  /** The signed sum of the postings up to and including day d. */
  function SignedUpTo(g: Group, s: seq<Posting>, d: Date): Cents {
    if s == [] then 0
    else
      var p := s[|s| - 1];
      SignedUpTo(g, s[..|s| - 1], d) + if p.date <= d then Signed(g, p.debit, p.credit) else 0
  }

  lemma SignedUpToPush(g: Group, s: seq<Posting>, p: Posting, d: Date)
    ensures SignedUpTo(g, s + [p], d) == SignedUpTo(g, s, d) + if p.date <= d then Signed(g, p.debit, p.credit) else 0
  {
    assert (s + [p])[..|s|] == s;
  }

  lemma {:induction false} InsertKeepsSum(g: Group, s: seq<Posting>, p: Posting, d: Date)
    ensures SignedUpTo(g, InsertByDate(s, p), d) == SignedUpTo(g, s + [p], d)
  {
    SignedUpToPush(g, s, p, d);
    if !(s == [] || s[|s| - 1].date <= p.date) {
      InsertKeepsSum(g, s[..|s| - 1], p, d);
      SignedUpToPush(g, s[..|s| - 1], p, d);
      SignedUpToPush(g, InsertByDate(s[..|s| - 1], p), s[|s| - 1], d);
    }
  }

  lemma {:induction false} SortKeepsSum(g: Group, s: seq<Posting>, d: Date)
    ensures SignedUpTo(g, SortByDate(s), d) == SignedUpTo(g, s, d)
  {
    if s != [] {
      SortKeepsSum(g, s[..|s| - 1], d);
      InsertKeepsSum(g, SortByDate(s[..|s| - 1]), s[|s| - 1], d);
      SignedUpToPush(g, SortByDate(s[..|s| - 1]), s[|s| - 1], d);
    }
  }

  predicate InDateOrder(s: seq<Posting>) {
    forall i, j :: 0 <= i < j < |s| ==> s[i].date <= s[j].date
  }

  lemma {:induction false} InsertKeepsLines(s: seq<Posting>, p: Posting)
    ensures multiset(InsertByDate(s, p)) == multiset(s) + multiset{p}
  {
    if !(s == [] || s[|s| - 1].date <= p.date) {
      InsertKeepsLines(s[..|s| - 1], p);
      assert s == s[..|s| - 1] + [s[|s| - 1]];
    }
  }

  predicate NoLaterThan(s: seq<Posting>, d: Date) {
    forall x :: x in s ==> x.date <= d
  }

  lemma InsertStaysBelow(s: seq<Posting>, p: Posting, d: Date)
    requires NoLaterThan(s, d) && p.date <= d
    ensures NoLaterThan(InsertByDate(s, p), d)
  {
    InsertKeepsLines(s, p);
    forall x | x in InsertByDate(s, p)
      ensures x.date <= d
    {
      assert x in multiset(InsertByDate(s, p));
      assert x in s || x == p;
    }
  }

  lemma PushKeepsOrder(s: seq<Posting>, p: Posting)
    requires InDateOrder(s) && NoLaterThan(s, p.date)
    ensures InDateOrder(s + [p])
  {
  }

  lemma {:induction false} InsertKeepsOrder(s: seq<Posting>, p: Posting)
    requires InDateOrder(s)
    ensures InDateOrder(InsertByDate(s, p))
  {
    if s == [] || s[|s| - 1].date <= p.date {
      PushKeepsOrder(s, p);
    } else {
      var rest, last := s[..|s| - 1], s[|s| - 1];
      InsertKeepsOrder(rest, p);
      InsertStaysBelow(rest, p, last.date);
      PushKeepsOrder(InsertByDate(rest, p), last);
    }
  }

  lemma {:induction false} SortKeepsLines(s: seq<Posting>)
    ensures multiset(SortByDate(s)) == multiset(s)
  {
    if s != [] {
      var n := |s| - 1;
      SortKeepsLines(s[..n]);
      InsertKeepsLines(SortByDate(s[..n]), s[n]);
      assert s == s[..n] + [s[n]];
    }
  }

  /** The ledger's lines are the account's postings in the window, ordered by date. */
  lemma {:induction false} SortSorts(s: seq<Posting>)
    ensures InDateOrder(SortByDate(s)) && multiset(SortByDate(s)) == multiset(s)
  {
    SortKeepsLines(s);
    if s != [] {
      SortSorts(s[..|s| - 1]);
      InsertKeepsOrder(SortByDate(s[..|s| - 1]), s[|s| - 1]);
    }
  }

  lemma {:induction false} SignedUpToConcat(g: Group, s: seq<Posting>, t: seq<Posting>, d: Date)
    ensures SignedUpTo(g, s + t, d) == SignedUpTo(g, s, d) + SignedUpTo(g, t, d)
  {
    if t == [] {
      assert s + t == s;
    } else {
      SignedUpToConcat(g, s, t[..|t| - 1], d);
      assert s + t == s + t[..|t| - 1] + [t[|t| - 1]];
      SignedUpToPush(g, s + t[..|t| - 1], t[|t| - 1], d);
    }
  }

  lemma {:induction false} LinePostingsSum(g: Group, date: Date, lines: seq<Line>, a: nat, d: Date)
    ensures SignedUpTo(g, LinePostings(date, lines, a), d) ==
            if date <= d then Signed(g, OnAccount(lines, a, Debit), OnAccount(lines, a, Credit)) else 0
  {
    if lines != [] {
      var rest, l := LinePostings(date, lines[..|lines| - 1], a), lines[|lines| - 1];
      LinePostingsSum(g, date, lines[..|lines| - 1], a, d);
      if l.account == a {
        SignedUpToPush(g, rest, Posting(date, l.debit, l.credit), d);
        assert LinePostings(date, lines, a) == rest + [Posting(date, l.debit, l.credit)];
      } else {
        assert LinePostings(date, lines, a) == rest;
      }
    }
  }

  /** Summing the postings up to a day gives the account's activity up to that day. */
  lemma {:induction false} PostingsSum(g: Group, entries: seq<Entry>, a: nat, start: Date, end: Date, d: Date)
    requires d <= end
    ensures SignedUpTo(g, Postings(entries, a, Between(start, end)), d) ==
            Signed(g, Activity(entries, a, Debit, Between(start, d)), Activity(entries, a, Credit, Between(start, d)))
  {
    if entries != [] {
      var rest, e := entries[..|entries| - 1], entries[|entries| - 1];
      PostingsSum(g, rest, a, start, end, d);
      LinePostingsSum(g, e.date, e.lines, a, d);
      SignedUpToConcat(g, Postings(rest, a, Between(start, end)),
                       if Counts(e, Between(start, end)) then LinePostings(e.date, e.lines, a) else [], d);
    }
  }

  lemma {:induction false} FirstsAreUpTo(g: Group, s: seq<Posting>, k: nat, d: Date)
    requires k <= |s|
    requires forall i :: 0 <= i < |s| ==> (s[i].date <= d <==> i < k)
    ensures SumSigned(g, s[..k]) == SignedUpTo(g, s, d)
  {
    if s != [] {
      var n := |s| - 1;
      if k <= n {
        FirstsAreUpTo(g, s[..n], k, d);
        assert s[..n][..k] == s[..k];
      } else {
        FirstsAreUpTo(g, s[..n], n, d);
        assert s[..n][..n] == s[..n] && s[..k] == s;
      }
    }
  }

  /** The ledger line at position k is the last one of its day. */
  predicate LastOfDay(s: seq<Posting>, k: nat)
    requires k < |s|
  {
    k + 1 < |s| ==> s[k].date < s[k + 1].date
  }

  lemma {:induction false} PostingsInWindow(entries: seq<Entry>, a: nat, w: Window)
    ensures forall p :: p in Postings(entries, a, w) ==> InWindow(p.date, w)
  {
    if entries != [] {
      PostingsInWindow(entries[..|entries| - 1], a, w);
      var e := entries[|entries| - 1];
      LinePostingDates(e.date, e.lines, a);
    }
  }

  lemma {:induction false} LinePostingDates(date: Date, lines: seq<Line>, a: nat)
    ensures forall p :: p in LinePostings(date, lines, a) ==> p.date == date
  {
    if lines != [] {
      LinePostingDates(date, lines[..|lines| - 1], a);
    }
  }

  lemma LedgerPostingsInWindow(b: Book, a: nat, start: Date, end: Date)
    ensures InDateOrder(LedgerPostings(b, a, start, end))
    ensures forall p :: p in LedgerPostings(b, a, start, end) ==> start <= p.date <= end
  {
    var raw := Postings(b.entries, a, Between(start, end));
    SortSorts(raw);
    PostingsInWindow(b.entries, a, Between(start, end));
    forall p | p in LedgerPostings(b, a, start, end)
      ensures InWindow(p.date, Between(start, end))
    {
      assert p in multiset(SortByDate(raw));
      assert p in raw;
    }
  }

  lemma DayIsAPrefix(s: seq<Posting>, k: nat)
    requires k < |s| && InDateOrder(s) && LastOfDay(s, k)
    ensures forall i :: 0 <= i < |s| ==> (s[i].date <= s[k].date <==> i < k + 1)
  {
    forall i | 0 <= i < |s|
      ensures s[i].date <= s[k].date <==> i < k + 1
    {
      if i > k {
        assert i == k + 1 || s[k + 1].date <= s[i].date;
      }
    }
  }

  lemma UpToIsActivity(b: Book, a: nat, start: Date, end: Date, d: Date)
    requires a < |b.accounts| && d <= end
    ensures SignedUpTo(b.accounts[a].group, LedgerPostings(b, a, start, end), d) == SignedActivity(b, a, Between(start, d))
  {
    SortKeepsSum(b.accounts[a].group, Postings(b.entries, a, Between(start, end)), d);
    PostingsSum(b.accounts[a].group, b.entries, a, start, end, d);
  }

  /** What the ledger has added to its opening balance after the last line of a day. */
  lemma RunningIsActivity(b: Book, a: nat, start: Date, end: Date, k: nat)
    requires a < |b.accounts| && k < |LedgerPostings(b, a, start, end)|
    requires LastOfDay(LedgerPostings(b, a, start, end), k)
    ensures var s := LedgerPostings(b, a, start, end);
            SumSigned(b.accounts[a].group, s[..k + 1]) == SignedActivity(b, a, Between(start, s[k].date))
  {
    var s := LedgerPostings(b, a, start, end);
    LedgerPostingsInWindow(b, a, start, end);
    assert s[k] in s;
    DayIsAPrefix(s, k);
    FirstsAreUpTo(b.accounts[a].group, s, k + 1, s[k].date);
    UpToIsActivity(b, a, start, end, s[k].date);
  }

  lemma AllPostingsAreActivity(b: Book, a: nat, start: Date, end: Date)
    requires a < |b.accounts|
    ensures SumSigned(b.accounts[a].group, LedgerPostings(b, a, start, end)) == SignedActivity(b, a, Between(start, end))
  {
    var s, g := LedgerPostings(b, a, start, end), b.accounts[a].group;
    LedgerPostingsInWindow(b, a, start, end);
    forall i | 0 <= i < |s|
      ensures s[i].date <= end
    {
      assert s[i] in s;
    }
    FirstsAreUpTo(g, s, |s|, end);
    assert s[..|s|] == s;
    UpToIsActivity(b, a, start, end, end);
  }

  // --- the reports agree ----------------------------------------------------------------------

  function Opening(b: Book, a: nat, start: Date): Cents
    requires a < |b.accounts|
  {
    SignedActivity(b, a, Before(start))
  }

  function Closing(b: Book, a: nat, start: Date, end: Date): Cents
    requires a < |b.accounts|
  {
    Opening(b, a, start) + SumSigned(b.accounts[a].group, LedgerPostings(b, a, start, end))
  }

  /** The signed ending columns of the account's trial balance row. */
  function TrialEnding(b: Book, a: nat, start: Date, end: Date): Cents
    requires a < |b.accounts|
  {
    var r := WithEnding(TrialRowOf(b, a, start, end));
    Signed(b.accounts[a].group, r.endDebit, r.endCredit)
  }

  /** Up to the end date, whatever the start date. */
  lemma TrialEndingIsActivity(b: Book, a: nat, start: Date, end: Date)
    requires a < |b.accounts|
    ensures TrialEnding(b, a, start, end) == SignedActivity(b, a, Window(None, end))
  {
    SignedActivitySplits(b, a, Window(None, end), Beginning(start, end), Between(start, end));
  }

  /** When start lies past end + 1 the ledger also counts the days in between; otherwise that window is empty. */
  lemma ClosingIsActivity(b: Book, a: nat, start: Date, end: Date)
    requires a < |b.accounts|
    ensures Closing(b, a, start, end) == SignedActivity(b, a, Window(None, end)) + SignedActivity(b, a, Between(end + 1, start - 1))
  {
    AllPostingsAreActivity(b, a, start, end);
    if start <= end + 1 {
      SignedActivitySplits(b, a, Window(None, end), Before(start), Between(start, end));
      EmptyWindow(b.entries, a, Debit, Between(end + 1, start - 1));
      EmptyWindow(b.entries, a, Credit, Between(end + 1, start - 1));
    } else {
      SignedActivitySplits(b, a, Before(start), Window(None, end), Between(end + 1, start - 1));
      EmptyWindow(b.entries, a, Debit, Between(start, end));
      EmptyWindow(b.entries, a, Credit, Between(start, end));
    }
  }

  lemma {:induction false} EmptyWindow(entries: seq<Entry>, a: nat, side: Side, w: Window)
    requires w.from.Some? && w.to < w.from.value
    ensures Activity(entries, a, side, w) == 0
  {
    if entries != [] {
      EmptyWindow(entries[..|entries| - 1], a, side, w);
    }
  }

  /** The next period opens where the last one closed, also when a period is empty. */
  lemma LedgerContinues(b: Book, a: nat, start: Date, end: Date)
    requires a < |b.accounts| && start <= end + 1
    ensures Closing(b, a, start, end) == Opening(b, a, end + 1)
  {
    ClosingIsActivity(b, a, start, end);
    EmptyWindow(b.entries, a, Debit, Between(end + 1, start - 1));
    EmptyWindow(b.entries, a, Credit, Between(end + 1, start - 1));
  }

  /** Ledger and trial balance agree, except over an inverted range with activity strictly inside it. */
  lemma LedgerMatchesTrialExactlyWhen(b: Book, a: nat, start: Date, end: Date)
    requires a < |b.accounts|
    ensures Closing(b, a, start, end) == TrialEnding(b, a, start, end) <==> SignedActivity(b, a, Between(end + 1, start - 1)) == 0
    ensures start <= end + 1 ==> Closing(b, a, start, end) == TrialEnding(b, a, start, end)
  {
    ClosingIsActivity(b, a, start, end);
    TrialEndingIsActivity(b, a, start, end);
    if start <= end + 1 {
      EmptyWindow(b.entries, a, Debit, Between(end + 1, start - 1));
      EmptyWindow(b.entries, a, Credit, Between(end + 1, start - 1));
    }
  }

  /** The balance sheet starts at the zero time, so it agrees exactly when nothing before that moved the account. */
  lemma SheetMatchesTrialExactlyWhen(b: Book, a: nat, start: Date, end: Date)
    requires a < |b.accounts|
    ensures SignedActivity(b, a, SinceZero(end)) == TrialEnding(b, a, start, end)
       <==> SignedActivity(b, a, Window(None, if end < ZERO_DATE then end else ZERO_DATE - 1)) == 0
  {
    TrialEndingIsActivity(b, a, start, end);
    if end < ZERO_DATE {
      EmptyWindow(b.entries, a, Debit, SinceZero(end));
      EmptyWindow(b.entries, a, Credit, SinceZero(end));
    } else {
      SignedActivitySplits(b, a, Window(None, end), Before(ZERO_DATE), SinceZero(end));
    }
  }
}

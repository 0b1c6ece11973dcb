/**
 The report service: the loops that turn the query rows into the four reports, proved
 against the functions of Reports and, for any reachable book, against the laws.
 */
module ReportService {
  import opened Results
  import opened Money
  import opened Books
  import opened Reports
  import opened ReportLaws
  import opened ReportRows

  // --- trial balance --------------------------------------------------------------

  lemma PrefixSums(rows: seq<TrialRow>, i: nat)
    requires i < |rows|
    ensures forall c :: SumColumn(rows[..i + 1], c) == SumColumn(rows[..i], c) + Cell(rows[i], c)
  {
    assert rows[..i + 1][..i] == rows[..i];
  }

  method TrialBalance(b: Book, start: Date, end: Date) returns (r: TrialBalanceReport)
    ensures r.rows == Ended(TrialRows(b, |b.accounts|, start, end)) && ListsAccounts(b, r.rows, start, end)
    ensures r.beginDebit == SumColumn(r.rows, BeginDebit) && r.beginCredit == SumColumn(r.rows, BeginCredit)
    ensures r.periodDebit == SumColumn(r.rows, PeriodDebit) && r.periodCredit == SumColumn(r.rows, PeriodCredit)
    ensures r.endDebit == SumColumn(r.rows, EndDebit) && r.endCredit == SumColumn(r.rows, EndCredit)
    ensures r.isBalanced <==> r.endDebit == r.endCredit
    ensures Inv(b) ==> r.isBalanced && r.beginDebit == r.beginCredit && r.periodDebit == r.periodCredit
  {
    if Inv(b) {
      TrialBalanceBalances(b, start, end);
    }
    TrialBalanceListsAccounts(b, start, end);
    var rows := TrialRows(b, |b.accounts|, start, end);
    ghost var before := rows;
    var bd, bc, pd, pc, ed, ec := 0, 0, 0, 0, 0, 0;
    var i := 0;
    while i < |rows|
      invariant 0 <= i <= |rows| == |before|
      invariant forall k :: 0 <= k < |rows| ==> rows[k] == if k < i then WithEnding(before[k]) else before[k]
      invariant bd == SumColumn(rows[..i], BeginDebit) && bc == SumColumn(rows[..i], BeginCredit)
      invariant pd == SumColumn(rows[..i], PeriodDebit) && pc == SumColumn(rows[..i], PeriodCredit)
      invariant ed == SumColumn(rows[..i], EndDebit) && ec == SumColumn(rows[..i], EndCredit)
    {
      var row := rows[i];
      row := row.(endDebit := row.beginDebit + row.periodDebit, endCredit := row.beginCredit + row.periodCredit);
      ghost var was := rows;
      rows := rows[i := row];
      assert rows[..i] == was[..i];
      PrefixSums(rows, i);
      bd, bc := bd + row.beginDebit, bc + row.beginCredit;
      pd, pc := pd + row.periodDebit, pc + row.periodCredit;
      ed, ec := ed + row.endDebit, ec + row.endCredit;
      i := i + 1;
    }
    assert rows[..i] == rows;
    BalancedIsEqual(ed, ec);
    r := TrialBalanceReport(rows, bd, bc, pd, pc, ed, ec, Balanced(ed, ec));
  }

  // --- general ledger ---------------------------------------------------------------

  /** None when no live account is named. */
  method GeneralLedger(b: Book, a: nat, start: Date, end: Date) returns (r: Option<LedgerReport>)
    ensures r.Some? <==> LiveAccount(b, a)
    ensures r.Some? ==>
              var postings, g := LedgerPostings(b, a, start, end), b.accounts[a].group;
              && r.value.opening == SignedActivity(b, a, Before(start))
              && |r.value.lines| == |postings|
              && (forall k :: 0 <= k < |postings| ==>
                    r.value.lines[k] == LedgerLine(postings[k], r.value.opening + SumSigned(g, postings[..k + 1])))
              && r.value.closing == Closing(b, a, start, end)
  {
    if !LiveAccount(b, a) {
      return None;
    }
    var g := b.accounts[a].group;
    var opening := Signed(g, Activity(b.entries, a, Debit, Before(start)), Activity(b.entries, a, Credit, Before(start)));
    var postings := LedgerPostings(b, a, start, end);
    var running := opening;
    var lines := [];
    var i := 0;
    while i < |postings|
      invariant 0 <= i <= |postings| && |lines| == i
      invariant running == opening + SumSigned(g, postings[..i])
      invariant forall k :: 0 <= k < i ==> lines[k] == LedgerLine(postings[k], opening + SumSigned(g, postings[..k + 1]))
    {
      assert postings[..i + 1][..i] == postings[..i];
      running := running + Signed(g, postings[i].debit, postings[i].credit);
      lines := lines + [LedgerLine(postings[i], running)];
      i := i + 1;
    }
    assert postings[..i] == postings;
    r := Some(LedgerReport(opening, lines, running));
  }

  // --- balance sheet and profit and loss ----------------------------------------------

  lemma GroupPrefix(rows: seq<BalanceRow>, i: nat, g: Group)
    requires i < |rows|
    ensures SumGroup(rows[..i + 1], g) == SumGroup(rows[..i], g) + if rows[i].group == g then BalanceOf(rows[i]) else 0
    ensures Printed(rows[..i + 1], g) ==
            Printed(rows[..i], g) + if rows[i].group == g && BalanceOf(rows[i]) != 0
                                    then [SheetRow(Some(rows[i].account), BalanceOf(rows[i]))] else []
  {
    assert rows[..i + 1][..i] == rows[..i];
  }

  lemma NegligibleIsZero(x: Cents)
    ensures Negligible(x) <==> x == 0
  {
  }

  datatype Section = Section(rows: seq<SheetRow>, total: Cents)

  /** Sorts the rows into their sections, skipping zero balances. */
  method FillSections(rows: seq<BalanceRow>, first: Group, second: Group, third: Group)
    returns (a: Section, b: Section, c: Section)
    requires first != second && second != third && first != third
    ensures a == Section(Printed(rows, first), SumGroup(rows, first))
    ensures b == Section(Printed(rows, second), SumGroup(rows, second))
    ensures c == Section(Printed(rows, third), SumGroup(rows, third))
  {
    a, b, c := Section([], 0), Section([], 0), Section([], 0);
    var i := 0;
    while i < |rows|
      invariant 0 <= i <= |rows|
      invariant a == Section(Printed(rows[..i], first), SumGroup(rows[..i], first))
      invariant b == Section(Printed(rows[..i], second), SumGroup(rows[..i], second))
      invariant c == Section(Printed(rows[..i], third), SumGroup(rows[..i], third))
    {
      GroupPrefix(rows, i, first);
      GroupPrefix(rows, i, second);
      GroupPrefix(rows, i, third);
      var row := rows[i];
      var balance := BalanceOf(row);
      NegligibleIsZero(balance);
      if !Negligible(balance) {
        var line := SheetRow(Some(row.account), balance);
        if row.group == first {
          a := Section(a.rows + [line], a.total + balance);
        } else if row.group == second {
          b := Section(b.rows + [line], b.total + balance);
        } else if row.group == third {
          c := Section(c.rows + [line], c.total + balance);
        }
      }
      i := i + 1;
    }
    assert rows[..i] == rows;
  }

  method CumulativeNetProfit(b: Book, asOf: Date) returns (total: Cents)
    ensures total == NetProfit(b, SinceZero(asOf))
  {
    var rows := GroupedRows(b, |b.accounts|, SinceZero(asOf), true);
    total := 0;
    var i := 0;
    while i < |rows|
      invariant 0 <= i <= |rows|
      invariant total == SumGroup(rows[..i], Income) - SumGroup(rows[..i], Expense)
    {
      GroupPrefix(rows, i, Income);
      GroupPrefix(rows, i, Expense);
      if rows[i].group == Income {
        total := total + BalanceOf(rows[i]);
      } else if rows[i].group == Expense {
        total := total - BalanceOf(rows[i]);
      }
      i := i + 1;
    }
    assert rows[..i] == rows;
  }

  /** The section lists the live accounts of the group that have a balance, and adds these up. */
  ghost predicate ListsSection(b: Book, s: Section, g: Group, w: Window) {
    ListsGroup(b, |b.accounts|, s.rows, g, w) && s.total == SumBalances(s.rows)
  }

  datatype BalanceSheetReport = BalanceSheetReport(
    assets: Section, liabilities: Section, equity: Section, totalLiabilitiesAndEquity: Cents, isBalanced: bool)

  method BalanceSheet(b: Book, asOf: Date) returns (r: BalanceSheetReport)
    ensures var rows := GroupedRows(b, |b.accounts|, SinceZero(asOf), false);
            && r.assets == Section(Printed(rows, Asset), SumGroup(rows, Asset))
            && r.liabilities == Section(Printed(rows, Liability), SumGroup(rows, Liability))
            && r.equity.rows == Printed(rows, Equity) + [SheetRow(None, NetProfit(b, SinceZero(asOf)))]
            && r.equity.total == SumGroup(rows, Equity) + NetProfit(b, SinceZero(asOf))
    ensures ListsSection(b, r.assets, Asset, SinceZero(asOf)) && ListsSection(b, r.liabilities, Liability, SinceZero(asOf))
    ensures r.totalLiabilitiesAndEquity == r.liabilities.total + r.equity.total
    ensures r.isBalanced <==> r.assets.total == r.totalLiabilitiesAndEquity
    ensures Inv(b) ==> r.isBalanced
  {
    if Inv(b) {
      AssetsAreClaims(b, SinceZero(asOf));
    }
    SectionListsItsGroup(b, Asset, SinceZero(asOf));
    SectionListsItsGroup(b, Liability, SinceZero(asOf));
    var rows := GroupedRows(b, |b.accounts|, SinceZero(asOf), false);
    var assets, liabilities, equity := FillSections(rows, Asset, Liability, Equity);
    var netProfit := CumulativeNetProfit(b, asOf);
    equity := Section(equity.rows + [SheetRow(None, netProfit)], equity.total + netProfit);
    var total := liabilities.total + equity.total;
    BalancedIsEqual(assets.total, total);
    r := BalanceSheetReport(assets, liabilities, equity, total, Balanced(assets.total, total));
  }

  datatype ProfitLossReport = ProfitLossReport(income: Section, expense: Section, netProfit: Cents)

  method ProfitLoss(b: Book, start: Date, end: Date) returns (r: ProfitLossReport)
    ensures var rows := GroupedRows(b, |b.accounts|, Between(start, end), true);
            && r.income == Section(Printed(rows, Income), SumGroup(rows, Income))
            && r.expense == Section(Printed(rows, Expense), SumGroup(rows, Expense))
    ensures ListsSection(b, r.income, Income, Between(start, end)) && ListsSection(b, r.expense, Expense, Between(start, end))
    ensures r.netProfit == NetProfit(b, Between(start, end)) == r.income.total - r.expense.total
  {
    SectionListsItsGroup(b, Income, Between(start, end));
    SectionListsItsGroup(b, Expense, Between(start, end));
    var rows := GroupedRows(b, |b.accounts|, Between(start, end), true);
    var income, expense, _ := FillSections(rows, Income, Expense, Asset);
    r := ProfitLossReport(income, expense, income.total - expense.total);
  }
}

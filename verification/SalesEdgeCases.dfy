/** Concrete runs on which two natural-looking laws of the sales ledger fail. */
module SalesEdgeCases {
  import opened Results
  import opened Money
  import opened Text
  import opened Sums
  import opened LineCalc
  import opened Documents
  import opened InvoiceBalance
  import opened SalesLedger

  /** One unit of work at the given price, with a line discount in percent and no tax. */
  function Sample(price: Cents, percent: real): Document {
    Document([LineInput("Work", "", 1.0, Units(price), "", percent, [])], Discount("", 0.0), 0.0)
  }

  lemma SampleLine(price: Cents, percent: real)
    requires 0 <= price && (percent == 0.0 || percent == 100.0)
    ensures var l := Sample(price, percent).lines[0];
            && LineFault(l, 0, map[]).None?
            && Net(l) == MeasureOf(l, map[], LineTotal) == if percent == 0.0 then Units(price) else 0.0
  {
    assert !Blank("Work") by {
      assert TrimLeft("Work") == "Work";
    }
    var l := Sample(price, percent).lines[0];
    assert Gross(l) == Units(price);
    assert PercentOf(Units(price), percent) == if percent == 0.0 then 0.0 else Units(price);
    assert RateSum([], map[], false) == 0.0;
    assert PercentOf(Net(l), 0.0) == 0.0;
  }

  /** One accepted line: its sums are its own measures. */
  lemma OneLine(l: LineInput, net: real, total: real)
    requires LineFault(l, 0, map[]).None? && MeasureOf(l, map[], NetAmount) == net && MeasureOf(l, map[], LineTotal) == total
    ensures FirstFault([l], map[]).None?
    ensures SumOf([l], map[], NetAmount) == net && SumOf([l], map[], LineTotal) == total
  {
    PrefixStep([l], 0, map[]);
    assert [l][..0] == [] && [l][..1] == [l];
    assert SumOf([], map[], NetAmount) == 0.0 && SumOf([], map[], LineTotal) == 0.0;
  }

  lemma SampleFits(price: Cents, percent: real)
    requires 0 <= price && (percent == 0.0 || percent == 100.0)
    ensures FitsColumns(Sample(price, percent))
  {
    StoredAmountsAreExact(price);
    StoredAmountsAreExact(0);
    assert Round(10000.0) == 10000 by { RoundOfWhole(10000); }
    if percent == 100.0 { StoredAmountsAreExact(10000); }
  }

  lemma SampleTotal(price: Cents, percent: real)
    requires 0 <= price && (percent == 0.0 || percent == 100.0)
    ensures DocumentCalc(Sample(price, percent), map[]).Ok?
    ensures DocumentCalc(Sample(price, percent), map[]).value.grandTotal == if percent == 0.0 then price else 0
    ensures FitsColumns(Sample(price, percent))
  {
    var doc := Sample(price, percent);
    var due := if percent == 0.0 then price else 0;
    SampleLine(price, percent);
    OneLine(doc.lines[0], Units(due), Units(due));
    assert doc.lines == [doc.lines[0]];
    SampleCalc(doc, due);
    SampleFits(price, percent);
  }

  lemma SampleCalc(doc: Document, due: Cents)
    requires 0 <= due && doc.lines != [] && doc.shipping == 0.0 && doc.discount == Discount("", 0.0)
    requires FirstFault(doc.lines, map[]).None?
    requires SumOf(doc.lines, map[], NetAmount) == SumOf(doc.lines, map[], LineTotal) == Units(due)
    ensures DocumentCalc(doc, map[]).Ok? && DocumentCalc(doc, map[]).value.grandTotal == due
  {
    StoredAmountsAreExact(due);
    assert PercentOf(Units(due), 0.0) == 0.0;
    StoredAmountsAreExact(0);
    AddingToStored(due, 0.0);
  }

  lemma RunOneMore(commands: seq<Command>, c: Command)
    ensures Run(commands + [c]) == After(Run(commands), Step(Run(commands), c))
  {
    assert (commands + [c])[..|commands|] == commands;
  }

  /** The ledger with one confirmed invoice of the given price, reached by two accepted calls. */
  lemma OneConfirmedInvoice(price: Cents) returns (commands: seq<Command>)
    requires 0 <= price
    ensures |commands| == 2 && Step(EMPTY, commands[0]).Ok? && Step(Run(commands[..1]), commands[1]).Ok?
    ensures Run(commands) ==
            Ledger(map[1 := Invoice(7, false, Stored(Sample(price, 0.0)), price, Confirmed, 0, Unpaid, false)], map[], map[])
  {
    var doc := Sample(price, 0.0);
    SampleTotal(price, 0.0);
    RecomputingAStoredDocument(doc, Stored(doc), map[]);
    var create, confirm := CreateInvoice(1, 7, false, doc, map[]), ConfirmInvoice(1, map[]);
    RunOneMore([], create);
    RunOneMore([create], confirm);
    assert [] + [create] == [create];
    commands := [create] + [confirm];
    assert commands[..1] == [create];
  }

  /** Edits invoice 1 down to nothing by a full line discount. */
  lemma EditDown(commands: seq<Command>, price: Cents) returns (more: seq<Command>)
    requires 0 <= price && Live(Run(commands).invoices, 1) && Run(commands).invoices[1].mitra == 7
    ensures Run(more) == PutInvoice(Run(commands), 1,
                                    Refreshed(Run(commands).invoices[1].(document := Stored(Sample(price, 100.0)), grandTotal := 0)))
  {
    SampleTotal(price, 100.0);
    var edit := EditInvoice(1, 7, Sample(price, 100.0), map[]);
    RunOneMore(commands, edit);
    more := commands + [edit];
  }

  /** Equal balances on equal totals, one shown as paid and the other as unpaid. */
  predicate PaidAndUnpaid(a: Invoice, b: Invoice) {
    && a.grandTotal == b.grandTotal == 0 && a.paid == b.paid == 0
    && a.paymentStatus == Paid && b.paymentStatus == Unpaid
  }

  /**
   The payment status is not a function of (paid, total) on a zero total: a payment of
   0.004 is stored as nothing, and verifying it after the invoice was edited down to
   zero marks as paid what an untouched zero invoice shows as unpaid.
   */
  lemma ZeroInvoicesDisagreeOnStatus() returns (verified: seq<Command>, untouched: seq<Command>)
    ensures 1 in Run(verified).invoices && 1 in Run(untouched).invoices
    ensures PaidAndUnpaid(Run(verified).invoices[1], Run(untouched).invoices[1])
  {
    var confirmed := OneConfirmedInvoice(1000);
    untouched := EditDown(confirmed, 1000);
    var pay, verify := CreatePayment(1, 1, 0.004), VerifyPayment(1);
    FloorOf(0.004 * 100.0 + 0.5, 0);
    assert ToCents(0.004) == 0;
    RunOneMore(confirmed, pay);
    var edited := EditDown(confirmed + [pay], 1000);
    assert Run(edited).payments[1] == Payment(1, 7, 0, false);
    FloorOf(0.0 * 100.0 + 0.5, 0);
    RunOneMore(edited, verify);
    verified := edited + [verify];
  }

  /** Overpaid by an edit: -1000 in the dashboard, nothing outstanding on the invoice itself. */
  lemma OverpaidFigures(l: Ledger)
    requires l.invoices.Keys == {1} && Billed(l.invoices[1])
    requires l.invoices[1].grandTotal == 0 && l.invoices[1].paid == 1000 && l.invoices[1].paymentStatus == PartiallyPaid
    ensures SummaryOutstanding(l) == -1000 && SumOfOutstanding(l) == 0
  {
    OutstandingIsWhatIsOwed(0, 1000);
    assert Summed(l) == map[][1 := -1000] && Owed(l) == map[][1 := 0];
    TotalSet(map[], 1, -1000);
    TotalSet(map[], 1, 0);
  }

  lemma PayInFull(inv: Invoice)
    requires inv.mitra == 7 && Billed(inv) && inv.grandTotal == 1000 && inv.paid == 0
    ensures var l := Ledger(map[1 := inv], map[], map[]);
            var paid := l.(payments := map[1 := Payment(1, 7, 1000, false)]);
            && Step(l, CreatePayment(1, 1, Units(1000))) == Ok(paid)
            && Step(paid, VerifyPayment(1)).Ok?
            && Step(paid, VerifyPayment(1)).value.invoices == map[1 := inv.(paid := 1000, paymentStatus := Paid)]
  {
    StoredAmountsAreExact(1000);
    AddingToStored(0, Units(1000));
    assert Credited(inv, Units(1000)) == inv.(paid := 1000, paymentStatus := Paid);
  }

  lemma OnePaidInvoice() returns (commands: seq<Command>)
    ensures Run(commands).invoices.Keys == {1}
    ensures var inv := Run(commands).invoices[1]; inv.mitra == 7 && Billed(inv) && inv.paid == 1000
  {
    var confirmed := OneConfirmedInvoice(1000);
    PayInFull(Run(confirmed).invoices[1]);
    RunOneMore(confirmed, CreatePayment(1, 1, Units(1000)));
    RunOneMore(confirmed + [CreatePayment(1, 1, Units(1000))], VerifyPayment(1));
    commands := confirmed + [CreatePayment(1, 1, Units(1000))] + [VerifyPayment(1)];
  }

  /** An invoice paid in full and then edited down to zero drags the dashboard below zero. */
  lemma DashboardCanGoNegative() returns (commands: seq<Command>)
    ensures SummaryOutstanding(Run(commands)) == -1000
    ensures SumOfOutstanding(Run(commands)) == 0
  {
    var paid := OnePaidInvoice();
    commands := EditDown(paid, 1000);
    OverpaidFigures(Run(commands));
  }
}

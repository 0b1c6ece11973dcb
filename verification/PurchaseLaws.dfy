/**
 The incremental bill balance refines the recompute: over every run, a bill's paid
 amount is the sum of its live receipts and the backfill finds nothing to do.
 */
module PurchaseLaws {
  import opened Results
  import opened Money
  import opened Sums
  import opened Documents
  import opened InvoiceBalance
  import opened PurchaseLedger

  ghost predicate RowsOk(receipts: map<Id, BillReceipt>, bills: map<Id, Bill>) {
    forall r :: r in receipts ==> 0 <= receipts[r].amount && (receipts[r].bill.Some? ==> receipts[r].bill.value in bills)
  }

  ghost predicate BillOk(b: Bill, id: Id, receipts: map<Id, BillReceipt>) {
    && 0 <= b.grandTotal && b.paymentStatus == StatusOf(b.paid, b.grandTotal)
    && b.paid == PaidByReceipts(receipts, id)
    && (b.status != Confirmed ==> NoReceipts(receipts, id))
  }

  ghost predicate BillsOk(bills: map<Id, Bill>, receipts: map<Id, BillReceipt>) {
    forall id :: id in bills ==> BillOk(bills[id], id, receipts)
  }

  ghost predicate Inv(l: Payables) {
    RowsOk(l.receipts, l.bills) && BillsOk(l.bills, l.receipts)
  }

  lemma PartsOnRecord(receipts: map<Id, BillReceipt>, bills: map<Id, Bill>, id: Id)
    requires RowsOk(receipts, bills)
    ensures 0 <= PaidByReceipts(receipts, id)
    ensures forall r :: r in receipts ==> PartOf(receipts[r], id) <= PaidByReceipts(receipts, id)
    ensures NoReceipts(receipts, id) ==> PaidByReceipts(receipts, id) == 0
  {
    TotalAtLeast(Parts(receipts, id), 0);
    forall r | r in receipts
      ensures PartOf(receipts[r], id) <= PaidByReceipts(receipts, id)
    {
      TotalAtLeast(Parts(receipts, id), r);
    }
    if NoReceipts(receipts, id) {
      TotalOfZeros(Parts(receipts, id));
    }
  }

  lemma PaidAfterWrite(receipts: map<Id, BillReceipt>, r: Id, row: BillReceipt, id: Id)
    ensures PaidByReceipts(receipts[r := row], id) ==
            PaidByReceipts(receipts, id) - (if r in receipts then PartOf(receipts[r], id) else 0) + PartOf(row, id)
  {
    assert Parts(receipts[r := row], id) == Parts(receipts, id)[r := PartOf(row, id)];
    TotalSet(Parts(receipts, id), r, PartOf(row, id));
  }

  // --- bills ----------------------------------------------------------------------

  lemma BillCallKeepsInv(l: Payables, c: Command)
    requires Inv(l) && Step(l, c).Ok?
    requires c.CreateBill? || c.EditBill? || c.ConfirmBill? || c.RevertBill? || c.CancelBill? || c.DeleteBill?
    ensures Inv(Step(l, c).value)
  {
    var l' := Step(l, c).value;
    assert l' == PutBill(l, c.id, l'.bills[c.id]);
    PartsOnRecord(l.receipts, l.bills, c.id);
    if c.CreateBill? {
      AcceptedGrandTotal(c.document, c.active);
      assert NoReceipts(l.receipts, c.id);
    } else {
      assert BillOk(l.bills[c.id], c.id, l.receipts);
      if c.EditBill? {
        AcceptedGrandTotal(c.document, c.active);
      }
    }
    assert BillOk(l'.bills[c.id], c.id, l.receipts);
  }

  // --- receipts -------------------------------------------------------------------

  lemma PaidRowKeepsBill(b: Bill, b': Bill, id: Id, receipts: map<Id, BillReceipt>, r: Id, row: BillReceipt)
    requires BillOk(b, id, receipts) && (r in receipts ==> receipts[r].deleted) && !row.deleted
    requires if row.bill == Some(id) then b.status == Confirmed && b' == Settled(b, b.paid + row.amount) else b' == b
    ensures BillOk(b', id, receipts[r := row])
  {
    PaidAfterWrite(receipts, r, row, id);
  }

  lemma PutRowKeepsBill(l: Payables, id: Id, mitra: Id, bill: Option<Id>, amount: real, b: Id)
    requires Inv(l) && 0.0 < amount && !LiveRow(l, id) && PutRow(l, id, mitra, bill, amount).Ok? && b in l.bills
    ensures var l' := PutRow(l, id, mitra, bill, amount).value; b in l'.bills && BillOk(l'.bills[b], b, l'.receipts)
  {
    var l' := PutRow(l, id, mitra, bill, amount).value;
    assert BillOk(l.bills[b], b, l.receipts);
    if bill == Some(b) {
      PaidIsNonNegative(l, b);
      AddingToStored(l.bills[b].paid, amount);
    }
    PaidRowKeepsBill(l.bills[b], l'.bills[b], b, l.receipts, id, l'.receipts[id]);
  }

  lemma PaidIsNonNegative(l: Payables, b: Id)
    requires Inv(l) && b in l.bills
    ensures 0 <= l.bills[b].paid && l.bills[b].paymentStatus == StatusOf(l.bills[b].paid, l.bills[b].grandTotal)
  {
    assert BillOk(l.bills[b], b, l.receipts);
    PartsOnRecord(l.receipts, l.bills, b);
  }

  lemma PutRowKeepsInv(l: Payables, id: Id, mitra: Id, bill: Option<Id>, amount: real)
    requires Inv(l) && 0.0 < amount && !LiveRow(l, id) && PutRow(l, id, mitra, bill, amount).Ok?
    ensures Inv(PutRow(l, id, mitra, bill, amount).value)
  {
    var l' := PutRow(l, id, mitra, bill, amount).value;
    NonNegativeCents(amount);
    forall b | b in l'.bills
      ensures BillOk(l'.bills[b], b, l'.receipts)
    {
      PutRowKeepsBill(l, id, mitra, bill, amount, b);
    }
  }

  lemma RefundedRowKeepsBill(l: Payables, id: Id, b: Id)
    requires Inv(l) && LiveRow(l, id) && b in l.bills
    ensures var l' := TakeRowBack(l, id);
            && BillOk(l'.bills[b], b, l'.receipts)
            && l'.bills[b].paid == l.bills[b].paid - PartOf(l.receipts[id], b)
  {
    var row := l.receipts[id];
    assert BillOk(l.bills[b], b, l.receipts);
    PartsOnRecord(l.receipts, l.bills, b);
    PaidAfterWrite(l.receipts, id, row.(deleted := true), b);
  }

  /** Giving a live receipt back lowers its bill by exactly its amount: the clamp never fires. */
  lemma TakeRowBackKeepsInv(l: Payables, id: Id)
    requires Inv(l) && LiveRow(l, id)
    ensures Inv(TakeRowBack(l, id))
    ensures forall b :: b in l.bills ==>
                          TakeRowBack(l, id).bills[b].paid == l.bills[b].paid - PartOf(l.receipts[id], b)
  {
    forall b | b in l.bills
      ensures BillOk(TakeRowBack(l, id).bills[b], b, TakeRowBack(l, id).receipts)
      ensures TakeRowBack(l, id).bills[b].paid == l.bills[b].paid - PartOf(l.receipts[id], b)
    {
      RefundedRowKeepsBill(l, id, b);
    }
  }

  // --- the backfill -----------------------------------------------------------------

  /** On a consistent state the recompute changes nothing. */
  lemma BackfillIsIdle(l: Payables)
    requires Inv(l)
    ensures DoBackfill(l) == l
  {
    forall id | id in l.bills
      ensures Recomputed(l.bills[id], id, l.receipts) == l.bills[id]
    {
      assert BillOk(l.bills[id], id, l.receipts);
    }
    assert DoBackfill(l).bills == l.bills;
  }

  lemma StepKeepsInv(l: Payables, c: Command)
    requires Inv(l)
    ensures Inv(After(l, Step(l, c)))
  {
    if Step(l, c).Ok? {
      match c
      case CreateReceipt(id, mitra, bill, amount) => PutRowKeepsInv(l, id, mitra, bill, amount);
      case UpdateReceipt(id, mitra, bill, amount) =>
        TakeRowBackKeepsInv(l, id);
        PutRowKeepsInv(TakeRowBack(l, id), id, mitra, bill, amount);
      case DeleteReceipt(id) => TakeRowBackKeepsInv(l, id);
      case Backfill => BackfillIsIdle(l);
      case _ => BillCallKeepsInv(l, c);
    }
  }

  lemma {:induction false} RunKeepsInv(commands: seq<Command>)
    ensures Inv(Run(commands))
  {
    if commands != [] {
      var n := |commands| - 1;
      RunKeepsInv(commands[..n]);
      StepKeepsInv(Run(commands[..n]), commands[n]);
    }
  }

  /**
   The incremental updates refine the recompute: after any run every bill, deleted or
   not, shows as paid exactly the sum of its live receipts, and running the backfill
   changes no row.
   */
  lemma {:induction false} IncrementalIsTheRecompute(commands: seq<Command>)
    ensures var l := Run(commands);
            && DoBackfill(l) == l
            && forall id :: id in l.bills ==> l.bills[id].paid == PaidByReceipts(l.receipts, id)
  {
    RunKeepsInv(commands);
    BackfillIsIdle(Run(commands));
    assert forall id :: id in Run(commands).bills ==> BillOk(Run(commands).bills[id], id, Run(commands).receipts);
  }

  /** After any run, a bill that is not confirmed has no live receipts and nothing paid. */
  lemma {:induction false} UnconfirmedBillsAreUnpaid(commands: seq<Command>, id: Id)
    requires id in Run(commands).bills && Run(commands).bills[id].status != Confirmed
    ensures NoReceipts(Run(commands).receipts, id) && Run(commands).bills[id].paid == 0
  {
    var l := Run(commands);
    RunKeepsInv(commands);
    assert BillOk(l.bills[id], id, l.receipts);
    PartsOnRecord(l.receipts, l.bills, id);
  }

  /** After any run, a bill's payment status is one function of what is paid and what is due. */
  lemma {:induction false} BillStatusFollowsTheBalance(commands: seq<Command>, id: Id)
    requires id in Run(commands).bills
    ensures var b := Run(commands).bills[id]; b.paymentStatus == StatusOf(b.paid, b.grandTotal)
  {
    RunKeepsInv(commands);
    assert BillOk(Run(commands).bills[id], id, Run(commands).receipts);
  }

  // --- legacy rows --------------------------------------------------------------------

  /** On any state at all, a second backfill finds nothing left to do. */
  lemma BackfillIsIdempotent(l: Payables)
    ensures DoBackfill(DoBackfill(l)) == DoBackfill(l)
  {
    assert DoBackfill(DoBackfill(l)).bills == DoBackfill(l).bills;
  }

  /**
   On any state at all (receipts recorded before balances were tracked), one backfill
   makes every bill's balance the sum of its live receipts exactly when the bills
   without a live receipt had nothing paid: those rows the statement does not touch.
   */
  lemma BackfillRepairsExactlyWhen(l: Payables)
    ensures (forall id :: id in l.bills ==> DoBackfill(l).bills[id].paid == PaidByReceipts(l.receipts, id)) <==>
            (forall id :: id in l.bills && NoReceipts(l.receipts, id) ==> l.bills[id].paid == 0)
  {
    forall id | id in l.bills && NoReceipts(l.receipts, id)
      ensures PaidByReceipts(l.receipts, id) == 0
      ensures DoBackfill(l).bills[id] == l.bills[id]
    {
      TotalOfZeros(Parts(l.receipts, id));
    }
  }

  /** Balance and payment status both follow the live receipts. */
  ghost predicate SettledBill(b: Bill, receipts: map<Id, BillReceipt>, id: Id) {
    b.paid == PaidByReceipts(receipts, id) && b.paymentStatus == StatusOf(b.paid, b.grandTotal)
  }

  /** A bill with live receipts that do not add up to its balance. */
  ghost predicate Drifted(b: Bill, receipts: map<Id, BillReceipt>, id: Id) {
    !NoReceipts(receipts, id) && b.paid != PaidByReceipts(receipts, id)
  }

  /** The statement settles exactly the bills it touches: a wrong status on a right balance stays wrong. */
  lemma BackfillSettlesExactlyWhen(l: Payables, id: Id)
    requires id in l.bills
    ensures SettledBill(DoBackfill(l).bills[id], l.receipts, id)
            <==> Drifted(l.bills[id], l.receipts, id) || SettledBill(l.bills[id], l.receipts, id)
    ensures !Drifted(l.bills[id], l.receipts, id) ==> DoBackfill(l).bills[id] == l.bills[id]
  {
    if NoReceipts(l.receipts, id) {
      TotalOfZeros(Parts(l.receipts, id));
    }
  }

  // --- undoing, and the dashboard -------------------------------------------------------

  lemma RefundingUndoesPaying(b: Bill, amount: real)
    requires 0 <= b.paid && 0.0 < amount && b.paymentStatus == StatusOf(b.paid, b.grandTotal)
    ensures Refunding(Paying(b, amount), ToCents(amount)) == b
  {
    AddingToStored(b.paid, amount);
  }

  /** Deleting a purchase receipt right after creating it restores every bill row exactly. */
  lemma DeletingUndoesCreating(l: Payables, id: Id, mitra: Id, bill: Option<Id>, amount: real)
    requires Inv(l) && DoCreateReceipt(l, id, mitra, bill, amount).Ok?
    ensures var l' := DoCreateReceipt(l, id, mitra, bill, amount).value;
            DoDeleteReceipt(l', id).Ok? && DoDeleteReceipt(l', id).value.bills == l.bills
  {
    if bill.Some? {
      PaidIsNonNegative(l, bill.value);
      RefundingUndoesPaying(l.bills[bill.value], amount);
    }
    assert TakeRowBack(DoCreateReceipt(l, id, mitra, bill, amount).value, id).bills == l.bills;
  }

  /**
   After any run, the dashboard's outstanding figure, which filters on the payment
   status, is the sum of what every live confirmed bill shows as outstanding.
   */
  lemma {:induction false} DashboardIsTheSumOfOutstanding(commands: seq<Command>)
    ensures SummaryOutstanding(Run(commands)) == SumOfOutstanding(Run(commands))
  {
    var l := Run(commands);
    RunKeepsInv(commands);
    forall id | id in l.bills
      ensures SummedBy(l.bills[id]) == OwedBy(l.bills[id])
    {
      assert BillOk(l.bills[id], id, l.receipts);
      PartsOnRecord(l.receipts, l.bills, id);
      OutstandingIsWhatIsOwed(l.bills[id].grandTotal, l.bills[id].paid);
    }
    assert (map id | id in l.bills :: SummedBy(l.bills[id])) == (map id | id in l.bills :: OwedBy(l.bills[id]));
  }
}

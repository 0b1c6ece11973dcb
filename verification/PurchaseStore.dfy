/**
 The purchase tables as they are updated in place, each call proved to do what
 PurchaseLedger says. The backfill adds up the live receipts and rewrites the bills
 whose stored balance differs.
 */
module PurchaseStore {
  import opened Results
  import opened Money
  import opened Sums
  import opened LineCalc
  import opened Documents
  import opened InvoiceBalance
  import opened PurchaseLedger
  import opened PurchaseLaws
  import opened BillLifecycle

  function Why(outcome: Result<Payables, Refusal>): Option<Refusal> {
    if outcome.Ok? then None else Some(outcome.error)
  }

  /** purchasePaymentStatus, as its switch is written. */
  method PurchasePaymentStatus(paid: Cents, total: Cents) returns (status: PaymentStatus)
    ensures status == StatusOf(paid, total)
    ensures status == Paid <==> total > 0 && paid >= total
    ensures status == Unpaid <==> paid <= 0 && !(total > 0 && paid >= total)
  {
    if total > 0 && paid >= total {
      status := Paid;
    } else if paid > 0 {
      status := PartiallyPaid;
    } else {
      status := Unpaid;
    }
  }

  class Store {
    var bills: map<Id, Bill>
    var receipts: map<Id, BillReceipt>

    ghost function Value(): Payables
      reads this
    {
      Payables(bills, receipts)
    }

    constructor ()
      ensures Value() == NO_PAYABLES
    {
      bills, receipts := map[], map[];
    }

    // --- purchase_invoice_balance.go ----------------------------------------------

    method ApplyPayment(id: Id, mitra: Id, amount: real) returns (why: Option<Refusal>)
      modifies this`bills
      ensures why == BillRefusal(old(bills), id, mitra, amount)
      ensures bills == if why.None? then old(bills)[id := Paying(old(bills)[id], amount)] else old(bills)
    {
      if id !in bills || bills[id].deleted {
        return Some(InvoiceNotFound);
      }
      var bill := bills[id];
      if bill.mitra != mitra {
        return Some(WrongPartner);
      }
      if bill.status != Confirmed {
        return Some(NotConfirmed);
      }
      SubtractingStored(bill.grandTotal, bill.paid);
      var remaining := ToCents(Units(bill.grandTotal) - Units(bill.paid));
      if amount > Units(remaining) {
        return Some(ExceedsBalance(remaining));
      }
      var paid := ToCents(Units(bill.paid) + amount);
      var status := PurchasePaymentStatus(paid, bill.grandTotal);
      bills := bills[id := bill.(paid := paid, paymentStatus := status)];
      why := None;
    }

    /** Works on soft-deleted bills too; a missing bill is no error. */
    method ReversePayment(id: Id, amount: Cents)
      modifies this`bills
      ensures bills == if id in old(bills) then old(bills)[id := Refunding(old(bills)[id], amount)] else old(bills)
    {
      if id !in bills {
        return;
      }
      var bill := bills[id];
      SubtractingStored(bill.paid, amount);
      var paid := ToCents(Units(bill.paid) - Units(amount));
      if paid < 0 {
        paid := 0;
      }
      var status := PurchasePaymentStatus(paid, bill.grandTotal);
      bills := bills[id := bill.(paid := paid, paymentStatus := status)];
    }

    // --- purchase_receipt.repository.go -------------------------------------------

    method CreateReceipt(id: Id, mitra: Id, bill: Option<Id>, amount: real) returns (why: Option<Refusal>)
      modifies this
      ensures Value() == After(old(Value()), DoCreateReceipt(old(Value()), id, mitra, bill, amount))
      ensures why == Why(DoCreateReceipt(old(Value()), id, mitra, bill, amount))
    {
      if amount <= 0.0 {
        return Some(InvalidInput);
      }
      var before := bills;
      why := None;
      if bill.Some? {
        why := ApplyPayment(bill.value, mitra, amount);
      }
      if why.None? && id in receipts {
        why := Some(DuplicateKey);
      }
      if why.Some? {
        bills := before;
        return;
      }
      receipts := receipts[id := BillReceipt(mitra, bill, ToCents(amount), false)];
    }

    /** The old payment goes back first, then the new one is applied, all or nothing. */
    method UpdateReceipt(id: Id, mitra: Id, bill: Option<Id>, amount: real) returns (why: Option<Refusal>)
      modifies this
      ensures Value() == After(old(Value()), DoUpdateReceipt(old(Value()), id, mitra, bill, amount))
      ensures why == Why(DoUpdateReceipt(old(Value()), id, mitra, bill, amount))
    {
      if amount <= 0.0 {
        return Some(InvalidInput);
      }
      if !LiveRow(Payables(bills, receipts), id) {
        return Some(NotFound);
      }
      var existing := receipts[id];
      var before := bills;
      if existing.bill.Some? {
        ReversePayment(existing.bill.value, existing.amount);
      }
      why := None;
      if bill.Some? {
        why := ApplyPayment(bill.value, mitra, amount);
      }
      if why.Some? {
        bills := before;
        return;
      }
      receipts := receipts[id := BillReceipt(mitra, bill, ToCents(amount), false)];
    }

    method DeleteReceipt(id: Id) returns (why: Option<Refusal>)
      modifies this
      ensures Value() == After(old(Value()), DoDeleteReceipt(old(Value()), id))
      ensures why == Why(DoDeleteReceipt(old(Value()), id))
    {
      if !LiveRow(Payables(bills, receipts), id) {
        return Some(NotFound);
      }
      var existing := receipts[id];
      if existing.bill.Some? {
        ReversePayment(existing.bill.value, existing.amount);
      }
      receipts := receipts[id := existing.(deleted := true)];
      why := None;
    }

    // --- purchase_invoice ----------------------------------------------------------

    method CreateBill(id: Id, mitra: Id, doc: Document, active: Rates) returns (why: Option<Refusal>)
      modifies this
      ensures Value() == After(old(Value()), DoCreateBill(old(Value()), id, mitra, doc, active))
      ensures why == Why(DoCreateBill(old(Value()), id, mitra, doc, active))
      ensures why.None? ==> id in bills && IsTotalOf(bills[id].grandTotal, doc, active)
    {
      var totals := CalcDocument(doc, active);
      if totals.Err? {
        return Some(BadDocument(totals.error));
      }
      if id in bills {
        return Some(DuplicateKey);
      }
      CreatedBillIsWorthItsDocument(Payables(bills, receipts), id, mitra, doc, active);
      bills := bills[id := Bill(mitra, Stored(doc), totals.value.grandTotal, Draft, 0, Unpaid, false)];
      why := None;
    }

    method EditBill(id: Id, mitra: Id, doc: Document, active: Rates) returns (why: Option<Refusal>)
      modifies this
      ensures Value() == After(old(Value()), DoEditBill(old(Value()), id, mitra, doc, active))
      ensures why == Why(DoEditBill(old(Value()), id, mitra, doc, active))
      ensures why.None? ==> id in bills && id in old(bills) && IsTotalOf(bills[id].grandTotal, doc, active)
                            && bills[id].paid == old(bills)[id].paid
    {
      if !LiveBill(Payables(bills, receipts), id) {
        return Some(NotFound);
      }
      var totals := CalcDocument(doc, active);
      if totals.Err? {
        return Some(BadDocument(totals.error));
      }
      EditedBillIsWorthItsDocument(Payables(bills, receipts), id, mitra, doc, active);
      var edited := bills[id].(mitra := mitra, document := Stored(doc), grandTotal := totals.value.grandTotal);
      var status := PurchasePaymentStatus(edited.paid, edited.grandTotal);
      bills := bills[id := edited.(paymentStatus := status)];
      why := None;
    }

    method ConfirmBill(id: Id, active: Rates) returns (why: Option<Refusal>)
      modifies this
      ensures Value() == After(old(Value()), DoConfirmBill(old(Value()), id, active))
      ensures why == Why(DoConfirmBill(old(Value()), id, active))
    {
      if !LiveBill(Payables(bills, receipts), id) {
        return Some(NotFound);
      }
      if bills[id].status != Draft {
        return Some(InvalidTransition);
      }
      var totals := CalcDocument(bills[id].document, active);
      if totals.Err? {
        return Some(BadDocument(totals.error));
      }
      why := SetStatus(id, Confirmed);
    }

    method RevertBill(id: Id) returns (why: Option<Refusal>)
      modifies this
      ensures Value() == After(old(Value()), DoReopen(old(Value()), id, Draft))
      ensures why == Why(DoReopen(old(Value()), id, Draft))
    {
      if !LiveBill(Payables(bills, receipts), id) {
        return Some(NotFound);
      }
      if bills[id].status == Draft {
        return Some(InvalidTransition);
      }
      why := SetStatus(id, Draft);
    }

    method CancelBill(id: Id) returns (why: Option<Refusal>)
      modifies this
      ensures Value() == After(old(Value()), DoReopen(old(Value()), id, Cancelled))
      ensures why == Why(DoReopen(old(Value()), id, Cancelled))
    {
      if !LiveBill(Payables(bills, receipts), id) {
        return Some(NotFound);
      }
      if bills[id].status == Cancelled {
        return Some(InvalidTransition);
      }
      why := SetStatus(id, Cancelled);
    }

    method SetStatus(id: Id, status: Status) returns (why: Option<Refusal>)
      modifies this`bills
      ensures why == if status != Confirmed && !NoReceipts(receipts, id) then Some(InUse)
                     else if LiveBill(old(Payables(bills, receipts)), id) then None else Some(NotFound)
      ensures bills == if why.None? then old(bills)[id := old(bills)[id].(status := status)] else old(bills)
    {
      if status == Draft || status == Cancelled {
        if exists r :: r in receipts && Pays(receipts[r], id) {
          return Some(InUse);
        }
      }
      if !LiveBill(Payables(bills, receipts), id) {
        return Some(NotFound);
      }
      bills := bills[id := bills[id].(status := status)];
      why := None;
    }

    method DeleteBill(id: Id) returns (why: Option<Refusal>)
      modifies this
      ensures Value() == After(old(Value()), DoDeleteBill(old(Value()), id))
      ensures why == Why(DoDeleteBill(old(Value()), id))
    {
      if !LiveBill(Payables(bills, receipts), id) {
        return Some(NotFound);
      }
      bills := bills[id := bills[id].(deleted := true)];
      why := None;
    }

    // --- purchase_payment_backfill.go -----------------------------------------------

    /** The grouped sum: one entry per bill that has a live linked receipt. */
    method GroupReceipts() returns (sums: map<Id, Cents>)
      ensures Grouped(sums, receipts)
    {
      sums := map[];
      var todo := receipts.Keys;
      ghost var seen: map<Id, BillReceipt> := map[];
      while todo != {}
        invariant SoFar(seen, receipts, todo) && Grouped(sums, seen)
        decreases todo
      {
        var r :| r in todo;
        var row := receipts[r];
        OneMoreSeen(seen, receipts, todo, r);
        GroupRow(sums, seen, r, row);
        sums := WithRow(sums, row);
        seen := seen[r := row];
        todo := todo - {r};
      }
      AllSeen(seen, receipts);
    }

    /** The rows outside todo. */
    static ghost predicate SoFar(seen: map<Id, BillReceipt>, rows: map<Id, BillReceipt>, todo: set<Id>) {
      todo <= rows.Keys && seen.Keys == rows.Keys - todo && forall r :: r in seen ==> seen[r] == rows[r]
    }

    static lemma OneMoreSeen(seen: map<Id, BillReceipt>, rows: map<Id, BillReceipt>, todo: set<Id>, r: Id)
      requires SoFar(seen, rows, todo) && r in todo
      ensures r !in seen && SoFar(seen[r := rows[r]], rows, todo - {r})
    {
    }

    static lemma AllSeen(seen: map<Id, BillReceipt>, rows: map<Id, BillReceipt>)
      requires SoFar(seen, rows, {})
      ensures seen == rows
    {
    }

    /** One entry per bill with a live linked receipt, holding what these receipts paid. */
    static ghost predicate Grouped(sums: map<Id, Cents>, rows: map<Id, BillReceipt>) {
      && (forall id :: id in sums <==> !NoReceipts(rows, id))
      && (forall id :: id in sums ==> sums[id] == PaidByReceipts(rows, id))
    }

    /** The grouped sums with one more row. */
    static function WithRow(sums: map<Id, Cents>, row: BillReceipt): map<Id, Cents> {
      if row.deleted || row.bill.None? then sums
      else sums[row.bill.value := (if row.bill.value in sums then sums[row.bill.value] else 0) + row.amount]
    }

    static lemma GroupRow(sums: map<Id, Cents>, seen: map<Id, BillReceipt>, r: Id, row: BillReceipt)
      requires Grouped(sums, seen) && r !in seen
      ensures Grouped(WithRow(sums, row), seen[r := row])
    {
      forall id
        ensures id in WithRow(sums, row) <==> !NoReceipts(seen[r := row], id)
        ensures id in WithRow(sums, row) ==> WithRow(sums, row)[id] == PaidByReceipts(seen[r := row], id)
      {
        GroupEntry(sums, seen, r, row, id);
      }
    }

    static lemma GroupEntry(sums: map<Id, Cents>, seen: map<Id, BillReceipt>, r: Id, row: BillReceipt, id: Id)
      requires r !in seen && (id in sums <==> !NoReceipts(seen, id))
      requires id in sums ==> sums[id] == PaidByReceipts(seen, id)
      ensures id in WithRow(sums, row) <==> !NoReceipts(seen[r := row], id)
      ensures id in WithRow(sums, row) ==> WithRow(sums, row)[id] == PaidByReceipts(seen[r := row], id)
    {
      GroupOneMore(seen, r, row, id);
    }

    static lemma GroupOneMore(seen: map<Id, BillReceipt>, r: Id, row: BillReceipt, id: Id)
      requires r !in seen
      ensures PaidByReceipts(seen[r := row], id) == PaidByReceipts(seen, id) + PartOf(row, id)
      ensures NoReceipts(seen[r := row], id) <==> NoReceipts(seen, id) && !Pays(row, id)
      ensures NoReceipts(seen, id) ==> PaidByReceipts(seen, id) == 0
    {
      PaidAfterWrite(seen, r, row, id);
      assert seen[r := row][r] == row;
      if NoReceipts(seen[r := row], id) {
        forall k | k in seen
          ensures !Pays(seen[k], id)
        {
          assert seen[r := row][k] == seen[k];
        }
      }
      if NoReceipts(seen, id) {
        TotalOfZeros(Parts(seen, id));
      }
    }

    /** What the update statement makes of one bill. */
    static function FromSums(b: Bill, id: Id, sums: map<Id, Cents>): Bill {
      if id in sums && b.paid != sums[id]
      then b.(paid := sums[id],
              paymentStatus := if b.grandTotal > 0 && sums[id] >= b.grandTotal then Paid
                               else if sums[id] > 0 then PartiallyPaid else Unpaid)
      else b
    }

    static lemma FromSumsIsRecomputed(b: Bill, id: Id, sums: map<Id, Cents>, receipts: map<Id, BillReceipt>)
      requires Grouped(sums, receipts)
      ensures FromSums(b, id, sums) == Recomputed(b, id, receipts)
    {
    }

    /** One statement over all bills, touching only the rows whose balance differs. */
    method BackfillPurchasePayments()
      modifies this`bills
      ensures Value() == DoBackfill(old(Value()))
    {
      var sums := GroupReceipts();
      forall id | id in bills
        ensures FromSums(bills[id], id, sums) == Recomputed(bills[id], id, receipts)
      {
        FromSumsIsRecomputed(bills[id], id, sums, receipts);
      }
      bills := map id | id in bills :: FromSums(bills[id], id, sums);
    }
  }
}

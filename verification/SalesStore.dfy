/**
 The sales tables as they are updated in place. Each method is one service call; a
 database transaction keeps the rows it started from and puts them back when the
 call is refused. Every method is proved to do exactly what SalesLedger says.
 */
module SalesStore {
  import opened Results
  import opened Money
  import opened Sums
  import opened LineCalc
  import opened Documents
  import opened InvoiceBalance
  import opened SalesLedger
  import opened SalesLaws
  import opened InvoiceLifecycle

  function Why(outcome: Result<Ledger, Refusal>): Option<Refusal> {
    if outcome.Ok? then None else Some(outcome.error)
  }

  /** One more allocation of the list. */
  lemma ApplyNext(invoices: map<Id, Invoice>, mitra: Id, s: seq<AllocationInput>, i: nat)
    requires i < |s| && ApplyAll(invoices, mitra, s[..i]).Ok?
    ensures var earlier := ApplyAll(invoices, mitra, s[..i]).value;
            var refusal := AllocationRefusal(earlier.invoices, mitra, s[i]);
            ApplyAll(invoices, mitra, s[..i + 1]) ==
            if refusal.Some? then Err(refusal.value)
            else Ok(Applied(earlier.invoices[s[i].invoice := Credited(earlier.invoices[s[i].invoice], s[i].amount)],
                            ToCents(Units(earlier.total) + s[i].amount)))
  {
    assert s[..i + 1][..i] == s[..i];
  }

  lemma {:induction false} PrefixRefused(invoices: map<Id, Invoice>, mitra: Id, s: seq<AllocationInput>, n: nat)
    requires n <= |s| && ApplyAll(invoices, mitra, s[..n]).Err?
    ensures ApplyAll(invoices, mitra, s) == ApplyAll(invoices, mitra, s[..n])
    decreases |s|
  {
    if n == |s| {
      assert s[..n] == s;
    } else {
      assert s[..|s| - 1][..n] == s[..n];
      PrefixRefused(invoices, mitra, s[..|s| - 1], n);
    }
  }

  lemma {:induction false} PrefixMissing(invoices: map<Id, Invoice>, s: seq<Allocation>, n: nat)
    requires n <= |s| && ReverseAll(invoices, s[..n]).Err?
    ensures ReverseAll(invoices, s) == ReverseAll(invoices, s[..n])
    decreases |s|
  {
    if n == |s| {
      assert s[..n] == s;
    } else {
      assert s[..|s| - 1][..n] == s[..n];
      PrefixMissing(invoices, s[..|s| - 1], n);
    }
  }

  /** Sorts by invoice id, then looks for a repeated invoice with a set of seen ids. */
  method NormalizeAllocations(s: seq<AllocationInput>) returns (r: Result<seq<AllocationInput>, Refusal>)
    ensures r == Normalize(s)
  {
    NormalizeSorts(s);
    var sorted := SortByInvoice(s);
    var seen: set<Id> := {};
    var i := 0;
    while i < |sorted|
      invariant 0 <= i <= |sorted|
      invariant seen == set k | 0 <= k < i :: sorted[k].invoice
      invariant forall j, k :: 0 <= j < k < i ==> sorted[j].invoice != sorted[k].invoice
    {
      if sorted[i].invoice in seen {
        return Err(InvoiceTwice);
      }
      seen := seen + {sorted[i].invoice};
      i := i + 1;
    }
    r := Ok(sorted);
  }

  class Store {
    var invoices: map<Id, Invoice>
    var receipts: map<Id, Receipt>
    var payments: map<Id, Payment>

    ghost function Value(): Ledger
      reads this
    {
      Ledger(invoices, receipts, payments)
    }

    constructor ()
      ensures Value() == EMPTY
    {
      invoices, receipts, payments := map[], map[], map[];
    }

    // --- invoice_balance.go -----------------------------------------------------

    /** Reads the locked row, checks it, and writes the new balance and status back. */
    method ApplyInvoicePayment(id: Id, amount: real) returns (why: Option<Refusal>)
      modifies this`invoices
      ensures why == ApplyRefusal(old(invoices), id, amount)
      ensures invoices == if why.None? then old(invoices)[id := Credited(old(invoices)[id], amount)] else old(invoices)
    {
      if id !in invoices || invoices[id].deleted {
        return Some(NotConfirmed);
      }
      var invoice := invoices[id];
      if invoice.status != Confirmed {
        return Some(NotConfirmed);
      }
      SubtractingStored(invoice.grandTotal, invoice.paid);
      var remaining := ToCents(Units(invoice.grandTotal) - Units(invoice.paid));
      if amount > Units(remaining) {
        return Some(ExceedsBalance(remaining));
      }
      var paid := ToCents(Units(invoice.paid) + amount);
      var status := Unpaid;
      if paid >= invoice.grandTotal {
        status := Paid;
      } else if paid > 0 {
        status := PartiallyPaid;
      }
      invoices := invoices[id := invoice.(paid := paid, paymentStatus := status)];
      why := None;
    }

    /** Works on soft-deleted invoices too; never goes below zero. */
    method ReverseInvoicePayment(id: Id, amount: Cents) returns (why: Option<Refusal>)
      modifies this`invoices
      ensures why == if id in old(invoices) then None else Some(RowMissing)
      ensures invoices == if why.None? then old(invoices)[id := Debited(old(invoices)[id], amount)] else old(invoices)
    {
      if id !in invoices {
        return Some(RowMissing);
      }
      var invoice := invoices[id];
      SubtractingStored(invoice.paid, amount);
      var paid := ToCents(Units(invoice.paid) - Units(amount));
      if paid < 0 {
        paid := 0;
      }
      var status := Unpaid;
      if paid >= invoice.grandTotal && invoice.grandTotal > 0 {
        status := Paid;
      } else if paid > 0 {
        status := PartiallyPaid;
      }
      invoices := invoices[id := invoice.(paid := paid, paymentStatus := status)];
      why := None;
    }

    method RefreshPaymentStatus(id: Id) returns (why: Option<Refusal>)
      modifies this`invoices
      ensures why == if Live(old(invoices), id) then None else Some(RowMissing)
      ensures invoices == if why.None? then old(invoices)[id := Refreshed(old(invoices)[id])] else old(invoices)
    {
      if !Live(invoices, id) {
        return Some(RowMissing);
      }
      var invoice := invoices[id];
      var status := Unpaid;
      if invoice.paid >= invoice.grandTotal && invoice.grandTotal > 0 {
        status := Paid;
      } else if invoice.paid > 0 {
        status := PartiallyPaid;
      }
      invoices := invoices[id := invoice.(paymentStatus := status)];
      why := None;
    }

    // --- sales_receipt.repository.go --------------------------------------------

    /** Applies the allocations one by one and adds up the receipt total. */
    method ApplyReceiptAllocations(mitra: Id, s: seq<AllocationInput>) returns (r: Result<Cents, Refusal>)
      modifies this`invoices
      ensures r == (match ApplyAll(old(invoices), mitra, s)
                    case Ok(applied) => Ok(applied.total)
                    case Err(why) => Err(why))
      ensures r.Ok? ==> invoices == ApplyAll(old(invoices), mitra, s).value.invoices
    {
      var total := 0;
      var i := 0;
      while i < |s|
        invariant 0 <= i <= |s|
        invariant ApplyAll(old(invoices), mitra, s[..i]) == Ok(Applied(invoices, total))
      {
        var a := s[i];
        ApplyNext(old(invoices), mitra, s, i);
        var refusal: Option<Refusal> := None;
        if a.invoice !in invoices || invoices[a.invoice].deleted {
          refusal := Some(InvoiceNotFound);
        } else if invoices[a.invoice].mitra != mitra {
          refusal := Some(WrongPartner);
        } else {
          refusal := ApplyInvoicePayment(a.invoice, a.amount);
        }
        if refusal.Some? {
          PrefixRefused(old(invoices), mitra, s, i + 1);
          return Err(refusal.value);
        }
        total := ToCents(Units(total) + a.amount);
        i := i + 1;
      }
      assert s[..i] == s;
      r := Ok(total);
    }

    method ReverseReceiptAllocations(s: seq<Allocation>) returns (why: Option<Refusal>)
      modifies this`invoices
      ensures why == (match ReverseAll(old(invoices), s) case Ok(_) => None case Err(e) => Some(e))
      ensures why.None? ==> invoices == ReverseAll(old(invoices), s).value
    {
      var i := 0;
      while i < |s|
        invariant 0 <= i <= |s|
        invariant ReverseAll(old(invoices), s[..i]) == Ok(invoices)
      {
        assert s[..i + 1][..i] == s[..i];
        why := ReverseInvoicePayment(s[i].invoice, s[i].amount);
        if why.Some? {
          PrefixMissing(old(invoices), s, i + 1);
          return;
        }
        i := i + 1;
      }
      assert s[..i] == s;
      why := None;
    }

    method StoredRows(s: seq<AllocationInput>) returns (rows: seq<Allocation>)
      ensures rows == AllocationRows(s)
    {
      rows := [];
      for i := 0 to |s|
        invariant rows == AllocationRows(s)[..i]
      {
        rows := rows + [Allocation(s[i].invoice, ToCents(s[i].amount))];
      }
    }

    method CreateReceipt(id: Id, mitra: Id, s: seq<AllocationInput>) returns (why: Option<Refusal>)
      modifies this
      ensures Value() == After(old(Value()), DoCreateReceipt(old(Value()), id, mitra, s))
      ensures why == Why(DoCreateReceipt(old(Value()), id, mitra, s))
    {
      if !ValidAmounts(s) {
        return Some(InvalidInput);
      }
      var normalized := NormalizeAllocations(s);
      if normalized.Err? {
        return Some(normalized.error);
      }
      var before := invoices;
      var total := ApplyReceiptAllocations(mitra, normalized.value);
      if total.Err? || id in receipts {
        invoices := before;
        return Some(if total.Err? then total.error else DuplicateKey);
      }
      var rows := StoredRows(normalized.value);
      receipts := receipts[id := Receipt(mitra, total.value, rows, false)];
      why := None;
    }

    method UpdateReceipt(id: Id, mitra: Id, s: seq<AllocationInput>) returns (why: Option<Refusal>)
      modifies this
      ensures Value() == After(old(Value()), DoUpdateReceipt(old(Value()), id, mitra, s))
      ensures why == Why(DoUpdateReceipt(old(Value()), id, mitra, s))
    {
      if !ValidAmounts(s) {
        return Some(InvalidInput);
      }
      if !LiveReceipt(receipts, id) {
        return Some(NotFound);
      }
      var normalized := NormalizeAllocations(s);
      if normalized.Err? {
        return Some(normalized.error);
      }
      var before := invoices;
      why := ReverseReceiptAllocations(receipts[id].allocations);
      if why.Some? {
        invoices := before;
        return;
      }
      var total := ApplyReceiptAllocations(mitra, normalized.value);
      if total.Err? {
        invoices := before;
        return Some(total.error);
      }
      var rows := StoredRows(normalized.value);
      receipts := receipts[id := Receipt(mitra, total.value, rows, false)];
    }

    method DeleteReceipt(id: Id) returns (why: Option<Refusal>)
      modifies this
      ensures Value() == After(old(Value()), DoDeleteReceipt(old(Value()), id))
      ensures why == Why(DoDeleteReceipt(old(Value()), id))
    {
      if !LiveReceipt(receipts, id) {
        return Some(NotFound);
      }
      var before := invoices;
      why := ReverseReceiptAllocations(receipts[id].allocations);
      if why.Some? {
        invoices := before;
        return;
      }
      receipts := receipts[id := receipts[id].(deleted := true)];
    }

    // --- sales_payment ------------------------------------------------------------

    method CreatePayment(id: Id, invoice: Id, amount: real) returns (why: Option<Refusal>)
      modifies this
      ensures Value() == After(old(Value()), DoCreatePayment(old(Value()), id, invoice, amount))
      ensures why == Why(DoCreatePayment(old(Value()), id, invoice, amount))
    {
      if amount <= 0.0 {
        return Some(InvalidInput);
      }
      if !Live(invoices, invoice) {
        return Some(InvoiceNotFound);
      }
      var row := invoices[invoice];
      if row.status != Confirmed {
        return Some(NotConfirmed);
      }
      var remaining := row.grandTotal - row.paid;
      if amount > Units(remaining) {
        return Some(ExceedsBalance(remaining));
      }
      if id in payments {
        return Some(DuplicateKey);
      }
      payments := payments[id := Payment(invoice, row.mitra, ToCents(amount), false)];
      why := None;
    }

    method VerifyPayment(id: Id) returns (why: Option<Refusal>)
      modifies this
      ensures Value() == After(old(Value()), DoVerifyPayment(old(Value()), id))
      ensures why == Why(DoVerifyPayment(old(Value()), id))
    {
      if id !in payments {
        return Some(NotFound);
      }
      var payment := payments[id];
      if payment.verified {
        return Some(InvalidTransition);
      }
      why := ApplyInvoicePayment(payment.invoice, Units(payment.amount));
      if why.Some? {
        return;
      }
      payments := payments[id := payment.(verified := true)];
    }

    // --- sales_invoice ------------------------------------------------------------

    method CreateInvoice(id: Id, mitra: Id, downPayment: bool, doc: Document, active: Rates) returns (why: Option<Refusal>)
      modifies this
      ensures Value() == After(old(Value()), DoCreateInvoice(old(Value()), id, mitra, downPayment, doc, active))
      ensures why == Why(DoCreateInvoice(old(Value()), id, mitra, downPayment, doc, active))
      ensures why.None? ==> id in invoices && IsTotalOf(invoices[id].grandTotal, doc, active)
    {
      var totals := CalcDocument(doc, active);
      if totals.Err? {
        return Some(BadDocument(totals.error));
      }
      if id in invoices {
        return Some(DuplicateKey);
      }
      CreatedInvoiceIsWorthItsDocument(Value(), id, mitra, downPayment, doc, active);
      invoices := invoices[id := Invoice(mitra, downPayment, Stored(doc), totals.value.grandTotal, Draft, 0, Unpaid, false)];
      why := None;
    }

    /** Writes the new figures, then derives the payment status again from what was paid. */
    method EditInvoice(id: Id, mitra: Id, doc: Document, active: Rates) returns (why: Option<Refusal>)
      modifies this
      ensures Value() == After(old(Value()), DoEditInvoice(old(Value()), id, mitra, doc, active))
      ensures why == Why(DoEditInvoice(old(Value()), id, mitra, doc, active))
      ensures why.None? ==> id in invoices && id in old(invoices) && IsTotalOf(invoices[id].grandTotal, doc, active)
                            && invoices[id].paid == old(invoices)[id].paid
    {
      if !Live(invoices, id) {
        return Some(NotFound);
      }
      var totals := CalcDocument(doc, active);
      if totals.Err? {
        return Some(BadDocument(totals.error));
      }
      EditedInvoiceIsWorthItsDocument(Value(), id, mitra, doc, active);
      invoices := invoices[id := invoices[id].(mitra := mitra, document := Stored(doc), grandTotal := totals.value.grandTotal)];
      why := RefreshPaymentStatus(id);
    }

    method ConfirmInvoice(id: Id, active: Rates) returns (why: Option<Refusal>)
      modifies this
      ensures Value() == After(old(Value()), DoConfirmInvoice(old(Value()), id, active))
      ensures why == Why(DoConfirmInvoice(old(Value()), id, active))
    {
      if !Live(invoices, id) {
        return Some(NotFound);
      }
      if invoices[id].status != Draft {
        return Some(InvalidTransition);
      }
      var totals := CalcDocument(invoices[id].document, active);
      if totals.Err? {
        return Some(BadDocument(totals.error));
      }
      why := SetStatus(id, Confirmed);
    }

    method RevertInvoice(id: Id) returns (why: Option<Refusal>)
      modifies this
      ensures Value() == After(old(Value()), DoRevertInvoice(old(Value()), id))
      ensures why == Why(DoRevertInvoice(old(Value()), id))
    {
      if !Live(invoices, id) {
        return Some(NotFound);
      }
      if invoices[id].status == Draft {
        return Some(InvalidTransition);
      }
      why := SetStatus(id, Draft);
    }

    method CancelInvoice(id: Id) returns (why: Option<Refusal>)
      modifies this
      ensures Value() == After(old(Value()), DoCancelInvoice(old(Value()), id))
      ensures why == Why(DoCancelInvoice(old(Value()), id))
      ensures why.None? ==> id in invoices && invoices[id].status == Cancelled && TakesNoMoney(Value(), id)
    {
      if !Live(invoices, id) {
        return Some(NotFound);
      }
      if invoices[id].status == Cancelled {
        return Some(InvalidTransition);
      }
      why := SetStatus(id, Cancelled);
      OnlyConfirmedTakesMoney(Value(), id);
    }

    /** Only the way back to draft looks for money on the invoice. */
    method SetStatus(id: Id, status: Status) returns (why: Option<Refusal>)
      modifies this`invoices
      ensures why == if status == Draft && !NoMoney(old(Value()), id) then Some(InUse)
                     else if Live(old(invoices), id) then None else Some(NotFound)
      ensures invoices == if why.None? then old(invoices)[id := old(invoices)[id].(status := status)] else old(invoices)
    {
      if status == Draft {
        var holders :=
          |set p | p in payments && payments[p].invoice == id|
          + |set r | r in receipts && !receipts[r].deleted && Touches(receipts[r].allocations, id)|;
        HoldersCounted(id);
        if holders > 0 {
          return Some(InUse);
        }
      }
      if !Live(invoices, id) {
        return Some(NotFound);
      }
      invoices := invoices[id := invoices[id].(status := status)];
      why := None;
    }

    /** Counting references and finding none is the same as there being none. */
    lemma HoldersCounted(id: Id)
      ensures |set p | p in payments && payments[p].invoice == id|
              + |set r | r in receipts && !receipts[r].deleted && Touches(receipts[r].allocations, id)| > 0
              <==> !NoMoney(Value(), id)
    {
      var ps := set p | p in payments && payments[p].invoice == id;
      var rs := set r | r in receipts && !receipts[r].deleted && Touches(receipts[r].allocations, id);
      if !NoPayment(payments, id) {
        var p :| p in payments && payments[p].invoice == id;
        assert p in ps;
      }
      if !NoAllocation(receipts, id) {
        var r :| r in receipts && !receipts[r].deleted && Touches(receipts[r].allocations, id);
        assert r in rs;
      }
      if |ps| > 0 {
        var p :| p in ps;
      }
      if |rs| > 0 {
        var r :| r in rs;
      }
    }

    method DeleteInvoice(id: Id) returns (why: Option<Refusal>)
      modifies this
      ensures Value() == After(old(Value()), DoDeleteInvoice(old(Value()), id))
      ensures why == Why(DoDeleteInvoice(old(Value()), id))
    {
      if !Live(invoices, id) {
        return Some(NotFound);
      }
      invoices := invoices[id := invoices[id].(deleted := true)];
      why := None;
    }
  }
}

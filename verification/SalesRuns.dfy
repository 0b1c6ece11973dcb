/** The sales ledger over whole runs: every call keeps the invariant of SalesLaws. */
module SalesRuns {
  import opened Results
  import opened Money
  import opened Sums
  import opened Documents
  import opened InvoiceBalance
  import opened SalesLedger
  import opened SalesLaws

  // --- one call at a time -----------------------------------------------------

  lemma PutInvoiceKeepsInv(l: Ledger, id: Id, inv: Invoice)
    requires Inv(l) && InvoiceOk(PutInvoice(l, id, inv), id)
    ensures Inv(PutInvoice(l, id, inv))
  {
    var l' := PutInvoice(l, id, inv);
    forall i | i in l'.invoices
      ensures InvoiceOk(l', i)
    {
      if i != id {
        assert InvoiceOk(l, i);
        assert NoMoney(l', i) <==> NoMoney(l, i);
      }
    }
  }

  /** Nothing can point at an invoice that does not exist yet. */
  lemma FreshInvoiceHasNoMoney(l: Ledger, id: Id)
    requires Inv(l) && id !in l.invoices
    ensures NoMoney(l, id)
  {
    forall p | p in l.payments
      ensures l.payments[p].invoice != id
    {
      assert PaymentOk(l.payments[p], l.invoices);
    }
    forall r | r in l.receipts
      ensures l.receipts[r].deleted || !Touches(l.receipts[r].allocations, id)
    {
      assert ReceiptOk(l.receipts[r], l.invoices);
    }
  }

  lemma InvoiceCallKeepsInv(l: Ledger, c: Command)
    requires Inv(l) && Step(l, c).Ok?
    requires c.CreateInvoice? || c.EditInvoice? || c.ConfirmInvoice? || c.RevertInvoice? || c.CancelInvoice? || c.DeleteInvoice?
    ensures Inv(Step(l, c).value)
  {
    var l' := Step(l, c).value;
    assert l' == PutInvoice(l, c.id, l'.invoices[c.id]);
    if c.CreateInvoice? {
      AcceptedGrandTotal(c.document, c.active);
      FreshInvoiceHasNoMoney(l, c.id);
      NoMoneyIsZero(l, c.id);
    } else {
      assert InvoiceOk(l, c.id);
      if c.EditInvoice? {
        AcceptedGrandTotal(c.document, c.active);
      }
    }
    assert NoMoney(l', c.id) <==> NoMoney(l, c.id);
    PutInvoiceKeepsInv(l, c.id, l'.invoices[c.id]);
  }

  /** A pending payment moves no balance, and only confirmed invoices get one. */
  lemma PendingPaymentKeepsInv(l: Ledger, id: Id, p: Payment)
    requires Inv(l) && id !in l.payments && !p.verified && 0 <= p.amount
    requires p.invoice in l.invoices && l.invoices[p.invoice].status == Confirmed
    ensures Inv(l.(payments := l.payments[id := p]))
  {
    var l' := l.(payments := l.payments[id := p]);
    forall i | i in l'.invoices
      ensures InvoiceOk(l', i)
    {
      assert InvoiceOk(l, i);
      VerifiedAfterWrite(l.payments, id, p, i);
    }
  }

  lemma CreatePaymentKeepsInv(l: Ledger, id: Id, invoice: Id, amount: real)
    requires Inv(l) && DoCreatePayment(l, id, invoice, amount).Ok?
    ensures Inv(DoCreatePayment(l, id, invoice, amount).value)
  {
    NonNegativeCents(amount);
    PendingPaymentKeepsInv(l, id, Payment(invoice, l.invoices[invoice].mitra, ToCents(amount), false));
  }

  /** `after` is a confirmed row with a larger balance and a status that goes with it. */
  ghost predicate RowCredited(before: Invoice, after: Invoice, amount: Cents) {
    && before.status == Confirmed && StatusOk(after)
    && after == before.(paid := before.paid + amount, paymentStatus := after.paymentStatus)
  }

  lemma ApplyCreditsTheRow(l: Ledger, id: Id, amount: real)
    requires Inv(l) && ApplyRefusal(l.invoices, id, amount).None? && 0.0 <= amount
    ensures RowCredited(l.invoices[id], Credited(l.invoices[id], amount), ToCents(amount))
    ensures 0 <= ToCents(amount)
  {
    assert InvoiceOk(l, id);
    RecordedMoney(l, id);
    AcceptedAmountFits(l.invoices, id, amount);
    ApplyStatusIsCanonicalExactlyWhen(l.invoices, id, amount);
  }

  lemma VerifiedPaymentKeepsRow(
    before: Invoice, after: Invoice, i: Id, receipts: map<Id, Receipt>, payments: map<Id, Payment>, id: Id)
    requires RowOk(before, i, receipts, payments)
    requires id in payments && !payments[id].verified
    requires if payments[id].invoice == i then RowCredited(before, after, payments[id].amount) else after == before
    ensures RowOk(after, i, receipts, payments[id := payments[id].(verified := true)])
  {
    VerifiedAfterWrite(payments, id, payments[id].(verified := true), i);
  }

  lemma VerifiedPaymentKeepsInvoice(l: Ledger, id: Id, after: Invoice, i: Id)
    requires i in l.invoices && InvoiceOk(l, i) && id in l.payments && !l.payments[id].verified
    requires i == l.payments[id].invoice ==> RowCredited(l.invoices[i], after, l.payments[id].amount)
    ensures RowOk(l.invoices[l.payments[id].invoice := after][i], i, l.receipts,
                  l.payments[id := l.payments[id].(verified := true)])
  {
    VerifiedPaymentKeepsRow(l.invoices[i], l.invoices[l.payments[id].invoice := after][i], i, l.receipts, l.payments, id);
  }

  lemma VerifiedPaymentKeepsInvoices(l: Ledger, id: Id, after: Invoice)
    requires InvoicesOk(l.invoices, l.receipts, l.payments)
    requires id in l.payments && !l.payments[id].verified && l.payments[id].invoice in l.invoices
    requires RowCredited(l.invoices[l.payments[id].invoice], after, l.payments[id].amount)
    ensures InvoicesOk(l.invoices[l.payments[id].invoice := after], l.receipts,
                       l.payments[id := l.payments[id].(verified := true)])
  {
    var invoices := l.invoices[l.payments[id].invoice := after];
    forall i | i in invoices
      ensures RowOk(invoices[i], i, l.receipts, l.payments[id := l.payments[id].(verified := true)])
    {
      VerifiedPaymentKeepsInvoice(l, id, after, i);
    }
  }

  lemma VerifiedPaymentKeepsInv(l: Ledger, id: Id, after: Invoice)
    requires Inv(l) && id in l.payments && !l.payments[id].verified
    requires l.payments[id].invoice in l.invoices
    requires RowCredited(l.invoices[l.payments[id].invoice], after, l.payments[id].amount)
    ensures Inv(l.(invoices := l.invoices[l.payments[id].invoice := after],
                   payments := l.payments[id := l.payments[id].(verified := true)]))
  {
    VerifiedPaymentKeepsPayments(l, id, after);
    VerifiedPaymentKeepsInvoices(l, id, after);
  }

  lemma VerifiedPaymentKeepsPayments(l: Ledger, id: Id, after: Invoice)
    requires Inv(l) && id in l.payments && l.payments[id].invoice in l.invoices
    ensures var invoices := l.invoices[l.payments[id].invoice := after];
            && ReceiptsOk(l.receipts, invoices)
            && PaymentsOk(l.payments[id := l.payments[id].(verified := true)], invoices)
  {
    var invoices := l.invoices[l.payments[id].invoice := after];
    assert invoices.Keys == l.invoices.Keys;
    RowsStillOk(l, invoices);
    assert PaymentOk(l.payments[id], invoices);
  }

  lemma VerifyPaymentKeepsInv(l: Ledger, id: Id)
    requires Inv(l) && DoVerifyPayment(l, id).Ok?
    ensures Inv(DoVerifyPayment(l, id).value)
  {
    var p := l.payments[id];
    assert PaymentOk(p, l.invoices);
    StoredAmountsAreExact(p.amount);
    ApplyCreditsTheRow(l, p.invoice, Units(p.amount));
    VerifiedPaymentKeepsInv(l, id, Credited(l.invoices[p.invoice], Units(p.amount)));
  }

  lemma RowsOfAscending(s: seq<AllocationInput>)
    requires Ascending(s)
    ensures AscendingRows(AllocationRows(s))
    ensures forall k :: 0 <= k < |s| ==> SumFor(AllocationRows(s), s[k].invoice) == ToCents(s[k].amount)
    ensures forall i :: Touches(AllocationRows(s), i) <==> Names(s, i)
  {
    forall k | 0 <= k < |s|
      ensures SumFor(AllocationRows(s), s[k].invoice) == ToCents(s[k].amount)
    {
      SumForTouched(AllocationRows(s), k);
    }
    forall i
      ensures Touches(AllocationRows(s), i) <==> Names(s, i)
    {
      if Names(s, i) {
        var k :| 0 <= k < |s| && s[k].invoice == i;
        assert AllocationRows(s)[k].invoice == i;
      }
    }
  }

  /** Writing receipt r turns invoice i's row into `invoices[i]`: credited by its share, or left alone. */
  ghost predicate CreditedBy(l: Ledger, r: Receipt, invoices: map<Id, Invoice>, i: Id) {
    && (i in invoices <==> i in l.invoices)
    && (Touches(r.allocations, i) ==>
          i in l.invoices && i in invoices && RowCredited(l.invoices[i], invoices[i], SumFor(r.allocations, i)))
    && (!Touches(r.allocations, i) && i in l.invoices && i in invoices ==> invoices[i] == l.invoices[i])
  }

  lemma ReceiptRowKeepsInvoice(l: Ledger, id: Id, r: Receipt, invoices: map<Id, Invoice>, i: Id)
    requires Inv(l) && !LiveReceipt(l.receipts, id) && !r.deleted
    requires i in l.invoices && i in invoices && CreditedBy(l, r, invoices, i)
    ensures InvoiceOk(l.(invoices := invoices, receipts := l.receipts[id := r]), i)
  {
    var l' := l.(invoices := invoices, receipts := l.receipts[id := r]);
    assert InvoiceOk(l, i);
    AllocatedAfterWrite(l.receipts, id, r, i);
    if !Touches(r.allocations, i) {
      SumForUntouched(r.allocations, i);
      assert NoMoney(l, i) ==> NoMoney(l', i);
    }
  }

  lemma PutReceiptCredits(l: Ledger, mitra: Id, s: seq<AllocationInput>, r: Receipt, i: Id)
    requires Inv(l) && Ascending(s) && ValidAmounts(s) && r.allocations == AllocationRows(s)
    requires ApplyAll(l.invoices, mitra, s).Ok?
    ensures CreditedBy(l, r, ApplyAll(l.invoices, mitra, s).value.invoices, i)
  {
    RowsOfAscending(s);
    if Names(s, i) {
      var k :| 0 <= k < |s| && s[k].invoice == i;
      ApplyAllAcceptsExactlyWhen(l.invoices, mitra, s);
      assert AllocationRefusal(l.invoices, mitra, s[k]).None?;
      NamedRowIsCredited(l.invoices, mitra, s, k);
      ApplyCreditsTheRow(l, i, s[k].amount);
    } else {
      UnnamedRowIsKept(l.invoices, mitra, s, i);
    }
  }

  lemma ReceiptRowIsOk(l: Ledger, mitra: Id, s: seq<AllocationInput>)
    requires Inv(l) && Ascending(s) && ValidAmounts(s)
    requires ApplyAll(l.invoices, mitra, s).Ok?
    ensures ReceiptOk(Receipt(mitra, ApplyAll(l.invoices, mitra, s).value.total, AllocationRows(s), false), l.invoices)
  {
    RowsOfAscending(s);
    TotalOfStoredRows(l.invoices, mitra, s);
    forall k | 0 <= k < |s|
      ensures s[k].invoice in l.invoices && 0 <= AllocationRows(s)[k].amount
    {
      NamedRowIsCredited(l.invoices, mitra, s, k);
      NonNegativeCents(s[k].amount);
    }
  }

  lemma RowsStillOk(l: Ledger, invoices: map<Id, Invoice>)
    requires Inv(l) && invoices.Keys == l.invoices.Keys
    ensures ReceiptsOk(l.receipts, invoices) && PaymentsOk(l.payments, invoices)
  {
    forall r | r in l.receipts
      ensures ReceiptOk(l.receipts[r], invoices)
    {
      assert ReceiptOk(l.receipts[r], l.invoices);
    }
  }

  lemma WrittenReceiptKeepsInvoices(l: Ledger, id: Id, r: Receipt, invoices: map<Id, Invoice>)
    requires Inv(l) && !LiveReceipt(l.receipts, id) && !r.deleted
    requires forall i :: CreditedBy(l, r, invoices, i)
    ensures invoices.Keys == l.invoices.Keys
    ensures InvoicesOk(invoices, l.receipts[id := r], l.payments)
  {
    forall i
      ensures i in invoices <==> i in l.invoices
    {
      assert CreditedBy(l, r, invoices, i);
    }
    forall i | i in invoices
      ensures RowOk(invoices[i], i, l.receipts[id := r], l.payments)
    {
      ReceiptRowKeepsInvoice(l, id, r, invoices, i);
    }
  }

  lemma WrittenReceiptKeepsInv(l: Ledger, id: Id, r: Receipt, invoices: map<Id, Invoice>)
    requires Inv(l) && !LiveReceipt(l.receipts, id) && !r.deleted && ReceiptOk(r, l.invoices)
    requires forall i :: CreditedBy(l, r, invoices, i)
    ensures Inv(l.(invoices := invoices, receipts := l.receipts[id := r]))
    ensures invoices.Keys == l.invoices.Keys
  {
    WrittenReceiptKeepsInvoices(l, id, r, invoices);
    RowsStillOk(l, invoices);
    assert ReceiptOk(r, invoices);
  }

  lemma PutReceiptKeepsInv(l: Ledger, id: Id, mitra: Id, s: seq<AllocationInput>)
    requires Inv(l) && Ascending(s) && ValidAmounts(s) && !LiveReceipt(l.receipts, id)
    requires PutReceipt(l, id, mitra, s).Ok?
    ensures Inv(PutReceipt(l, id, mitra, s).value)
    ensures PutReceipt(l, id, mitra, s).value.invoices.Keys == l.invoices.Keys
  {
    var applied := ApplyAll(l.invoices, mitra, s).value;
    var r := Receipt(mitra, applied.total, AllocationRows(s), false);
    ReceiptRowIsOk(l, mitra, s);
    forall i
      ensures CreditedBy(l, r, applied.invoices, i)
    {
      PutReceiptCredits(l, mitra, s, r, i);
    }
    WrittenReceiptKeepsInv(l, id, r, applied.invoices);
  }

  /** No allocation of a live receipt is larger than what its invoice shows as paid. */
  lemma ReversalDoesNotClamp(l: Ledger, id: Id, k: nat)
    requires Inv(l) && LiveReceipt(l.receipts, id) && k < |l.receipts[id].allocations|
    ensures var a := l.receipts[id].allocations[k];
            a.invoice in l.invoices && a.amount <= l.invoices[a.invoice].paid
  {
    var r := l.receipts[id];
    var a := r.allocations[k];
    assert ReceiptOk(r, l.invoices) && InvoiceOk(l, a.invoice);
    RecordedMoney(l, a.invoice);
    SumForTouched(r.allocations, k);
  }

  /** What giving a receipt back does to one invoice row. */
  predicate TakenBack(before: Invoice, after: Invoice, r: Receipt, i: Id) {
    && (Touches(r.allocations, i) ==> after == Debited(before, Share(r, i)) && Share(r, i) <= before.paid)
    && (!Touches(r.allocations, i) ==> after == before && Share(r, i) == 0)
  }

  lemma TakenBackRow(l: Ledger, id: Id, i: Id)
    requires Inv(l) && LiveReceipt(l.receipts, id) && TakeBack(l, id).Ok? && i in l.invoices
    ensures var l' := TakeBack(l, id).value;
            i in l'.invoices && TakenBack(l.invoices[i], l'.invoices[i], l.receipts[id], i)
  {
    var r := l.receipts[id];
    assert ReceiptOk(r, l.invoices);
    ReverseAllAcceptsExactlyWhen(l.invoices, r.allocations);
    if Touches(r.allocations, i) {
      var k :| 0 <= k < |r.allocations| && r.allocations[k].invoice == i;
      ReverseAllDebitsEachInvoice(l.invoices, r.allocations, k);
      ReversalDoesNotClamp(l, id, k);
      SumForTouched(r.allocations, k);
    } else {
      UntouchedRowIsKept(l.invoices, r.allocations, i);
      SumForUntouched(r.allocations, i);
    }
  }

  lemma TakeBackKeepsInvoice(l: Ledger, id: Id, i: Id)
    requires Inv(l) && LiveReceipt(l.receipts, id) && TakeBack(l, id).Ok? && i in l.invoices
    ensures var l' := TakeBack(l, id).value;
            && i in l'.invoices && InvoiceOk(l', i)
            && l'.invoices[i].paid == l.invoices[i].paid - Share(l.receipts[id], i)
  {
    var l', r := TakeBack(l, id).value, l.receipts[id];
    assert InvoiceOk(l, i) && ReceiptOk(r, l.invoices);
    TakenBackRow(l, id, i);
    AllocatedAfterWrite(l.receipts, id, l'.receipts[id], i);
    ShareBounds(r, l.invoices, i);
    assert !Touches(r.allocations, i) ==> (NoMoney(l, i) ==> NoMoney(l', i));
  }

  lemma TakeBackKeepsInvoices(l: Ledger, id: Id)
    requires Inv(l) && LiveReceipt(l.receipts, id) && TakeBack(l, id).Ok?
    requires TakeBack(l, id).value.invoices.Keys == l.invoices.Keys
    ensures var l' := TakeBack(l, id).value;
            && InvoicesOk(l'.invoices, l'.receipts, l'.payments)
            && (forall i :: i in l.invoices ==> l'.invoices[i].paid == l.invoices[i].paid - Share(l.receipts[id], i))
  {
    var l' := TakeBack(l, id).value;
    forall i | i in l.invoices
      ensures RowOk(l'.invoices[i], i, l'.receipts, l'.payments)
      ensures l'.invoices[i].paid == l.invoices[i].paid - Share(l.receipts[id], i)
    {
      TakeBackKeepsInvoice(l, id, i);
    }
  }

  lemma TakeBackSucceeds(l: Ledger, id: Id)
    requires Inv(l) && LiveReceipt(l.receipts, id)
    ensures TakeBack(l, id).Ok? && TakeBack(l, id).value.invoices.Keys == l.invoices.Keys
  {
    assert ReceiptOk(l.receipts[id], l.invoices);
    ReverseAllAcceptsExactlyWhen(l.invoices, l.receipts[id].allocations);
  }

  lemma TakenBackReceiptsOk(l: Ledger, id: Id)
    requires Inv(l) && LiveReceipt(l.receipts, id) && TakeBack(l, id).Ok?
    requires TakeBack(l, id).value.invoices.Keys == l.invoices.Keys
    ensures var l' := TakeBack(l, id).value;
            ReceiptsOk(l'.receipts, l'.invoices) && PaymentsOk(l'.payments, l'.invoices)
  {
    var r := l.receipts[id];
    RowsStillOk(l, TakeBack(l, id).value.invoices);
    assert ReceiptOk(r, l.invoices);
    assert ReceiptOk(r.(deleted := true), TakeBack(l, id).value.invoices);
  }

  /** A live receipt can always be given back, and every invoice loses exactly its share. */
  lemma TakeBackKeepsInv(l: Ledger, id: Id)
    requires Inv(l) && LiveReceipt(l.receipts, id)
    ensures TakeBack(l, id).Ok? && Inv(TakeBack(l, id).value)
    ensures TakeBack(l, id).value.invoices.Keys == l.invoices.Keys
    ensures forall i :: i in l.invoices ==>
                          TakeBack(l, id).value.invoices[i].paid == l.invoices[i].paid - Share(l.receipts[id], i)
  {
    TakeBackSucceeds(l, id);
    TakeBackKeepsInvoices(l, id);
    TakenBackReceiptsOk(l, id);
  }

  /** Every call keeps the invariant, whether it succeeds or is refused. */
  lemma StepKeepsInv(l: Ledger, c: Command)
    requires Inv(l)
    ensures Inv(After(l, Step(l, c)))
  {
    if Step(l, c).Ok? {
      match c
      case CreatePayment(id, invoice, amount) => CreatePaymentKeepsInv(l, id, invoice, amount);
      case VerifyPayment(id) => VerifyPaymentKeepsInv(l, id);
      case CreateReceipt(id, mitra, s) =>
        NormalizedAmounts(s);
        PutReceiptKeepsInv(l, id, mitra, Normalize(s).value);
      case UpdateReceipt(id, mitra, s) =>
        NormalizedAmounts(s);
        TakeBackKeepsInv(l, id);
        PutReceiptKeepsInv(TakeBack(l, id).value, id, mitra, Normalize(s).value);
      case DeleteReceipt(id) => TakeBackKeepsInv(l, id);
      case _ => InvoiceCallKeepsInv(l, c);
    }
  }

  lemma NormalizedAmounts(s: seq<AllocationInput>)
    requires ValidAmounts(s) && Normalize(s).Ok?
    ensures Ascending(Normalize(s).value) && ValidAmounts(Normalize(s).value)
  {
    NormalizeSorts(s);
    var sorted := Normalize(s).value;
    assert |sorted| == |s| by {
      assert |multiset(sorted)| == |multiset(s)|;
    }
    forall k | 0 <= k < |sorted|
      ensures 0.0 < sorted[k].amount
    {
      assert sorted[k] in sorted;
      assert sorted[k] in s;
    }
  }

  // --- whole runs -------------------------------------------------------------

  lemma {:induction false} RunKeepsInv(commands: seq<Command>)
    ensures Inv(Run(commands))
  {
    if commands != [] {
      var n := |commands| - 1;
      RunKeepsInv(commands[..n]);
      StepKeepsInv(Run(commands[..n]), commands[n]);
    }
  }

  /**
   Conservation. After any run, an invoice's paid amount, soft-deleted or not, is
   exactly its verified payments plus its allocations on live receipts.
   */
  lemma {:induction false} PaidIsTheMoneyOnRecord(commands: seq<Command>, i: Id)
    requires i in Run(commands).invoices
    ensures var l := Run(commands);
            && l.invoices[i].paid == VerifiedOn(l.payments, i) + AllocatedOn(l.receipts, i)
            && 0 <= l.invoices[i].paid
  {
    RunKeepsInv(commands);
    assert InvoiceOk(Run(commands), i);
    RecordedMoney(Run(commands), i);
  }

  /** After any run, a receipt's amount is the sum of its stored allocations, to the cent. */
  lemma {:induction false} ReceiptAmountIsItsRows(commands: seq<Command>, id: Id)
    requires id in Run(commands).receipts
    ensures Run(commands).receipts[id].amount == SumAll(Run(commands).receipts[id].allocations)
  {
    RunKeepsInv(commands);
    assert ReceiptOk(Run(commands).receipts[id], Run(commands).invoices);
  }

  /**
   After any run, the clamp at zero in the reversal has nothing to do: giving back a
   live receipt always succeeds and lowers every invoice by exactly the receipt's share.
   */
  lemma {:induction false} ReversalNeverClamps(commands: seq<Command>, id: Id)
    requires LiveReceipt(Run(commands).receipts, id)
    ensures var l := Run(commands);
            && TakeBack(l, id).Ok?
            && (forall i :: i in l.invoices ==>
                  && i in TakeBack(l, id).value.invoices
                  && TakeBack(l, id).value.invoices[i].paid == l.invoices[i].paid - Share(l.receipts[id], i)
                  && Share(l.receipts[id], i) <= l.invoices[i].paid)
  {
    var l := Run(commands);
    RunKeepsInv(commands);
    TakeBackKeepsInv(l, id);
    forall i | i in l.invoices
      ensures Share(l.receipts[id], i) <= l.invoices[i].paid
    {
      assert InvoiceOk(l, i);
      RecordedMoney(l, i);
    }
  }

  /** After any run, a draft has no payments, no live allocations and nothing paid. */
  lemma {:induction false} DraftsCarryNoMoney(commands: seq<Command>, i: Id)
    requires i in Run(commands).invoices && Run(commands).invoices[i].status == Draft
    ensures NoMoney(Run(commands), i) && Run(commands).invoices[i].paid == 0
  {
    RunKeepsInv(commands);
    assert InvoiceOk(Run(commands), i);
    NoMoneyIsZero(Run(commands), i);
  }

  /**
   After any run, although three switches write it, the payment status of an invoice
   with a positive total is one function of what is paid and what is due.
   */
  lemma {:induction false} PaymentStatusFollowsTheBalance(commands: seq<Command>, i: Id)
    requires i in Run(commands).invoices
    ensures var inv := Run(commands).invoices[i];
            && (inv.grandTotal > 0 ==> inv.paymentStatus == StatusOf(inv.paid, inv.grandTotal))
            && (inv.paymentStatus != StatusOf(inv.paid, inv.grandTotal) ==>
                  inv.grandTotal == 0 && inv.paid == 0 && inv.paymentStatus == Paid)
  {
    RunKeepsInv(commands);
    assert InvoiceOk(Run(commands), i);
  }

  // --- undoing a receipt ------------------------------------------------------

  lemma DebitUndoesCredit(l: Ledger, i: Id, amount: real)
    requires Inv(l) && ApplyRefusal(l.invoices, i, amount).None? && 0.0 < amount
    ensures Debited(Credited(l.invoices[i], amount), ToCents(amount)) == l.invoices[i]
  {
    assert InvoiceOk(l, i);
    RecordedMoney(l, i);
    ReverseUndoesApply(l.invoices, i, amount);
  }

  lemma GivenBackRow(l: Ledger, id: Id, mitra: Id, s: seq<AllocationInput>, i: Id)
    requires Inv(l) && Ascending(s) && ValidAmounts(s) && PutReceipt(l, id, mitra, s).Ok? && !LiveReceipt(l.receipts, id)
    requires i in l.invoices && TakeBack(PutReceipt(l, id, mitra, s).value, id).Ok?
    ensures var back := TakeBack(PutReceipt(l, id, mitra, s).value, id).value.invoices;
            i in back && back[i] == l.invoices[i]
  {
    var put := PutReceipt(l, id, mitra, s).value;
    RowsOfAscending(s);
    ReverseAllAcceptsExactlyWhen(put.invoices, AllocationRows(s));
    if Names(s, i) {
      var k :| 0 <= k < |s| && s[k].invoice == i;
      NamedRowIsCredited(l.invoices, mitra, s, k);
      ApplyAllAcceptsExactlyWhen(l.invoices, mitra, s);
      assert AllocationRefusal(l.invoices, mitra, s[k]).None?;
      DebitUndoesCredit(l, i, s[k].amount);
      ReverseAllDebitsEachInvoice(put.invoices, AllocationRows(s), k);
    } else {
      UnnamedRowIsKept(l.invoices, mitra, s, i);
      UntouchedRowIsKept(put.invoices, AllocationRows(s), i);
    }
  }

  lemma GivenBackRows(l: Ledger, id: Id, mitra: Id, s: seq<AllocationInput>, back: map<Id, Invoice>)
    requires Inv(l) && Ascending(s) && ValidAmounts(s) && PutReceipt(l, id, mitra, s).Ok? && !LiveReceipt(l.receipts, id)
    requires TakeBack(PutReceipt(l, id, mitra, s).value, id).Ok?
    requires back == TakeBack(PutReceipt(l, id, mitra, s).value, id).value.invoices && back.Keys == l.invoices.Keys
    ensures back == l.invoices
  {
    forall i | i in l.invoices
      ensures back[i] == l.invoices[i]
    {
      GivenBackRow(l, id, mitra, s, i);
    }
  }

  lemma TakingBackUndoesPutting(l: Ledger, id: Id, mitra: Id, s: seq<AllocationInput>)
    requires Inv(l) && Ascending(s) && ValidAmounts(s) && PutReceipt(l, id, mitra, s).Ok? && !LiveReceipt(l.receipts, id)
    ensures var l' := PutReceipt(l, id, mitra, s).value;
            && TakeBack(l', id).Ok?
            && TakeBack(l', id).value.invoices == l.invoices
            && TakeBack(l', id).value.payments == l.payments
  {
    var l' := PutReceipt(l, id, mitra, s).value;
    PutReceiptIsLive(l, l', id, mitra, s);
    PutReceiptKeepsInv(l, id, mitra, s);
    LiveCanBeTakenBack(l', id);
    GivenBackRows(l, id, mitra, s, TakeBack(l', id).value.invoices);
  }

  lemma PutReceiptIsLive(l: Ledger, l': Ledger, id: Id, mitra: Id, s: seq<AllocationInput>)
    requires PutReceipt(l, id, mitra, s) == Ok(l')
    ensures LiveReceipt(l'.receipts, id) && l'.payments == l.payments
  {
  }

  lemma LiveCanBeTakenBack(l: Ledger, id: Id)
    requires Inv(l) && LiveReceipt(l.receipts, id)
    ensures TakeBack(l, id).Ok?
    ensures TakeBack(l, id).value.invoices.Keys == l.invoices.Keys && TakeBack(l, id).value.payments == l.payments
  {
    TakeBackSucceeds(l, id);
  }

  /** Deleting a receipt right after creating it restores every invoice row exactly. */
  lemma DeletingUndoesCreating(l: Ledger, id: Id, mitra: Id, s: seq<AllocationInput>)
    requires Inv(l) && DoCreateReceipt(l, id, mitra, s).Ok?
    ensures var l' := DoCreateReceipt(l, id, mitra, s).value;
            && DoDeleteReceipt(l', id).Ok?
            && DoDeleteReceipt(l', id).value.invoices == l.invoices
            && DoDeleteReceipt(l', id).value.payments == l.payments
  {
    NormalizedAmounts(s);
    TakingBackUndoesPutting(l, id, mitra, Normalize(s).value);
  }

  // --- the dashboard ----------------------------------------------------------

  function Shortfall(inv: Invoice): Cents {
    if Billed(inv) && inv.grandTotal == 0 then inv.paid else 0
  }

  lemma OutstandingPerInvoice(inv: Invoice)
    requires 0 <= inv.grandTotal && 0 <= inv.paid && StatusOk(inv)
    ensures Shortfall(inv) == OwedBy(inv) - SummedBy(inv) && 0 <= Shortfall(inv)
  {
    OutstandingIsWhatIsOwed(inv.grandTotal, inv.paid);
  }

  function Shortfalls(l: Ledger): map<Id, Cents> {
    map i | i in l.invoices :: Shortfall(l.invoices[i])
  }

  lemma GapIsTheShortfall(l: Ledger)
    requires Inv(l)
    ensures Total(Shortfalls(l)) == SumOfOutstanding(l) - SummaryOutstanding(l)
    ensures forall i :: i in l.invoices ==> 0 <= Shortfall(l.invoices[i])
  {
    forall i | i in l.invoices
      ensures Shortfall(l.invoices[i]) == OwedBy(l.invoices[i]) - SummedBy(l.invoices[i])
      ensures 0 <= Shortfall(l.invoices[i])
    {
      assert InvoiceOk(l, i);
      RecordedMoney(l, i);
      OutstandingPerInvoice(l.invoices[i]);
    }
    TotalOfDifference(Shortfalls(l), Owed(l), Summed(l));
  }

  /**
   The sales dashboard's outstanding figure, which filters on the payment status and
   subtracts without a floor, is the sum of what the invoices show as outstanding
   exactly when no billed invoice was edited down to a zero total after being paid.
   */
  lemma {:induction false} DashboardMatchesExactlyWhen(commands: seq<Command>)
    ensures var l := Run(commands);
            SummaryOutstanding(l) == SumOfOutstanding(l) <==>
            forall i :: i in l.invoices && Billed(l.invoices[i]) && l.invoices[i].grandTotal == 0 ==> l.invoices[i].paid == 0
  {
    RunKeepsInv(commands);
    GapIsZeroExactlyWhen(Run(commands));
  }

  lemma GapIsZeroExactlyWhen(l: Ledger)
    requires Inv(l)
    ensures SummaryOutstanding(l) == SumOfOutstanding(l) <==>
            forall i :: i in l.invoices && Billed(l.invoices[i]) && l.invoices[i].grandTotal == 0 ==> l.invoices[i].paid == 0
  {
    var gap := Shortfalls(l);
    GapIsTheShortfall(l);
    if forall i :: i in l.invoices ==> gap[i] == 0 {
      TotalOfZeros(gap);
      forall i | i in l.invoices && Billed(l.invoices[i]) && l.invoices[i].grandTotal == 0
        ensures l.invoices[i].paid == 0
      {
        assert gap[i] == 0;
      }
    } else {
      var i :| i in l.invoices && gap[i] != 0;
      TotalAtLeast(gap, i);
    }
  }
}

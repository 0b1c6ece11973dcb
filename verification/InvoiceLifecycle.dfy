/**
 What the calls on a sales invoice leave behind: its total and lines after it is written,
 its status, and which payments and receipts it takes.
 */
module InvoiceLifecycle {
  import opened Results
  import opened Money
  import opened Sums
  import opened LineCalc
  import opened LineCalcLaws
  import opened Documents
  import opened InvoiceBalance
  import opened SalesLedger
  import opened SalesLaws
  import opened SalesRuns

  // --- the total of an invoice ---------------------------------------------------------

  /** Rounded line totals, less the document discount, plus rounded shipping. */
  ghost predicate IsTotalOf(total: Cents, doc: Document, active: Rates) {
    && Calc(doc.lines, active, doc.discount).Ok?
    && total == ToCents(SumOf(doc.lines, active, LineTotal))
                - Calc(doc.lines, active, doc.discount).value.additionalDiscountAmount + ToCents(doc.shipping)
  }

  /** Only the invoice's own row may differ. */
  predicate OthersAsBefore(l: Ledger, l': Ledger, id: Id) {
    && l'.receipts == l.receipts && l'.payments == l.payments
    && forall i :: i in l.invoices && i != id ==> i in l'.invoices && l'.invoices[i] == l.invoices[i]
  }

  /** An accepted invoice is an unpaid live draft of the partner, worth the submitted document. */
  lemma CreatedInvoiceIsWorthItsDocument(l: Ledger, id: Id, mitra: Id, downPayment: bool, doc: Document, active: Rates)
    requires Step(l, CreateInvoice(id, mitra, downPayment, doc, active)).Ok?
    ensures var l' := Step(l, CreateInvoice(id, mitra, downPayment, doc, active)).value;
            && id !in l.invoices && l'.invoices.Keys == l.invoices.Keys + {id} && OthersAsBefore(l, l', id)
            && IsTotalOf(l'.invoices[id].grandTotal, doc, active) && l'.invoices[id].document == Stored(doc)
            && l'.invoices[id].mitra == mitra && l'.invoices[id].downPayment == downPayment && !l'.invoices[id].deleted
            && l'.invoices[id].status == Draft && l'.invoices[id].paid == 0 && l'.invoices[id].paymentStatus == Unpaid
  {
    AcceptedGrandTotal(doc, active);
  }

  /** An accepted edit makes the invoice worth the new document; what was paid and the status of the invoice stay. */
  lemma EditedInvoiceIsWorthItsDocument(l: Ledger, id: Id, mitra: Id, doc: Document, active: Rates)
    requires Step(l, EditInvoice(id, mitra, doc, active)).Ok?
    ensures var l' := Step(l, EditInvoice(id, mitra, doc, active)).value;
            && id in l.invoices && l'.invoices.Keys == l.invoices.Keys && OthersAsBefore(l, l', id)
            && IsTotalOf(l'.invoices[id].grandTotal, doc, active) && l'.invoices[id].document == Stored(doc)
            && l'.invoices[id].mitra == mitra && l'.invoices[id].downPayment == l.invoices[id].downPayment
            && !l'.invoices[id].deleted
            && l'.invoices[id].paid == l.invoices[id].paid && l'.invoices[id].status == l.invoices[id].status
  {
    AcceptedGrandTotal(doc, active);
  }

  // --- which money an invoice takes -------------------------------------------------------

  /** The amount fits what a live, confirmed invoice still owes. */
  predicate Fits(l: Ledger, i: Id, amount: real) {
    && i in l.invoices && !l.invoices[i].deleted && l.invoices[i].status == Confirmed
    && amount <= (l.invoices[i].grandTotal - l.invoices[i].paid) as real / 100.0
  }

  predicate Nearest(c: Cents, v: real) {
    -0.5 <= c as real - v * 100.0 <= 0.5
  }

  /** A payment is accepted exactly when it is positive and fits; it is recorded, unverified, for the invoice's partner. */
  lemma PaymentAcceptedExactlyWhen(l: Ledger, p: Id, i: Id, amount: real)
    requires p !in l.payments
    ensures Step(l, CreatePayment(p, i, amount)).Ok? <==> 0.0 < amount && Fits(l, i, amount)
    ensures Step(l, CreatePayment(p, i, amount)).Ok? ==>
              var l' := Step(l, CreatePayment(p, i, amount)).value;
              && l'.invoices == l.invoices && l'.receipts == l.receipts && l'.payments.Keys == l.payments.Keys + {p}
              && (forall q :: q in l.payments ==> l'.payments[q] == l.payments[q])
              && l'.payments[p].invoice == i && l'.payments[p].mitra == l.invoices[i].mitra && !l'.payments[p].verified
              && Nearest(l'.payments[p].amount, amount)
  {
    RoundIsNearest(amount * 100.0);
  }

  /** A recorded payment is verified exactly once, and only while its stored amount fits. */
  lemma VerifyAcceptedExactlyWhen(l: Ledger, p: Id)
    ensures Step(l, VerifyPayment(p)).Ok? <==>
            && p in l.payments && !l.payments[p].verified
            && Fits(l, l.payments[p].invoice, l.payments[p].amount as real / 100.0)
    ensures Step(l, VerifyPayment(p)).Ok? ==>
              var l' := Step(l, VerifyPayment(p)).value;
              && l'.payments.Keys == l.payments.Keys && l'.payments[p] == l.payments[p].(verified := true)
              && (forall q :: q in l.payments && q != p ==> l'.payments[q] == l.payments[q])
  {
  }

  predicate FitsPartner(l: Ledger, mitra: Id, a: AllocationInput) {
    Fits(l, a.invoice, a.amount) && l.invoices[a.invoice].mitra == mitra
  }

  lemma FitsIsNotRefused(l: Ledger, mitra: Id, s: seq<AllocationInput>)
    requires Normalize(s).Ok?
    ensures NoneRefused(l.invoices, mitra, Normalize(s).value) <==>
            forall k :: 0 <= k < |s| ==> FitsPartner(l, mitra, s[k])
  {
    var sorted := Normalize(s).value;
    NormalizeSorts(s);
    if NoneRefused(l.invoices, mitra, sorted) {
      forall k | 0 <= k < |s|
        ensures FitsPartner(l, mitra, s[k])
      {
        assert s[k] in s;
        var j :| 0 <= j < |sorted| && sorted[j] == s[k];
        assert AllocationRefusal(l.invoices, mitra, sorted[j]).None?;
      }
    }
    if forall k :: 0 <= k < |s| ==> FitsPartner(l, mitra, s[k]) {
      forall j | 0 <= j < |sorted|
        ensures AllocationRefusal(l.invoices, mitra, sorted[j]).None?
      {
        assert sorted[j] in sorted;
        var k :| 0 <= k < |s| && s[k] == sorted[j];
        assert FitsPartner(l, mitra, s[k]);
      }
    }
  }

  /**
   A new receipt is accepted exactly when it names at least one invoice and none twice, with
   positive amounts that each fit an invoice of its partner.
   */
  lemma ReceiptAcceptedExactlyWhen(l: Ledger, r: Id, mitra: Id, s: seq<AllocationInput>)
    requires r !in l.receipts
    ensures Step(l, CreateReceipt(r, mitra, s)).Ok?
       <==> && s != [] && Distinct(s)
            && forall k :: 0 <= k < |s| ==> 0.0 < s[k].amount && FitsPartner(l, mitra, s[k])
  {
    NormalizeSorts(s);
    if Normalize(s).Ok? {
      FitsIsNotRefused(l, mitra, s);
      ApplyAllAcceptsExactlyWhen(l.invoices, mitra, Normalize(s).value);
    }
  }

  /** The rest of an invoice row: everything but what was paid and the status of its payment. */
  predicate SameButPaid(before: Invoice, after: Invoice) {
    after == before.(paid := after.paid, paymentStatus := after.paymentStatus)
  }

  lemma {:induction false} ApplyAllMovesPaidAlone(invoices: map<Id, Invoice>, mitra: Id, s: seq<AllocationInput>, i: Id)
    requires i in invoices && ApplyAll(invoices, mitra, s).Ok?
    ensures var after := ApplyAll(invoices, mitra, s).value.invoices; i in after && SameButPaid(invoices[i], after[i])
  {
    if s != [] {
      ApplyAllMovesPaidAlone(invoices, mitra, s[..|s| - 1], i);
    }
  }

  lemma {:induction false} ReverseAllMovesPaidAlone(invoices: map<Id, Invoice>, s: seq<Allocation>, i: Id)
    requires i in invoices && ReverseAll(invoices, s).Ok?
    ensures var after := ReverseAll(invoices, s).value; i in after && SameButPaid(invoices[i], after[i])
  {
    if s != [] {
      ReverseAllMovesPaidAlone(invoices, s[..|s| - 1], i);
    }
  }

  /** The allocation fits once the old receipt's share of its invoice is given back. */
  predicate FitsAgain(l: Ledger, replaced: Receipt, mitra: Id, a: AllocationInput) {
    && a.invoice in l.invoices && l.invoices[a.invoice].mitra == mitra
    && !l.invoices[a.invoice].deleted && l.invoices[a.invoice].status == Confirmed
    && a.amount <= (l.invoices[a.invoice].grandTotal - l.invoices[a.invoice].paid + Share(replaced, a.invoice)) as real / 100.0
  }

  lemma GivenBackFits(l: Ledger, r: Id, mitra: Id, a: AllocationInput)
    requires Inv(l) && LiveReceipt(l.receipts, r) && TakeBack(l, r).Ok?
    ensures FitsPartner(TakeBack(l, r).value, mitra, a) <==> FitsAgain(l, l.receipts[r], mitra, a)
  {
    TakeBackKeepsInv(l, r);
    if a.invoice in l.invoices {
      ReverseAllMovesPaidAlone(l.invoices, l.receipts[r].allocations, a.invoice);
    }
  }

  /** An edited receipt is accepted exactly as a new one would be with the old one given back. */
  lemma ReceiptEditAcceptedExactlyWhen(l: Ledger, r: Id, mitra: Id, s: seq<AllocationInput>)
    requires Inv(l)
    ensures Step(l, UpdateReceipt(r, mitra, s)).Ok?
       <==> && r in l.receipts && !l.receipts[r].deleted && s != [] && Distinct(s)
            && (forall k :: 0 <= k < |s| ==> 0.0 < s[k].amount)
            && (forall k :: 0 <= k < |s| ==> FitsAgain(l, l.receipts[r], mitra, s[k]))
  {
    assert Normalize(s).Ok? <==> Distinct(s) by {
      NormalizeSorts(s);
    }
    if LiveReceipt(l.receipts, r) && Normalize(s).Ok? {
      assert TakeBack(l, r).Ok? by {
        TakeBackKeepsInv(l, r);
      }
      EditFits(l, r, mitra, s);
    }
  }

  lemma EditFits(l: Ledger, r: Id, mitra: Id, s: seq<AllocationInput>)
    requires Inv(l) && LiveReceipt(l.receipts, r) && TakeBack(l, r).Ok? && Normalize(s).Ok?
    ensures PutReceipt(TakeBack(l, r).value, r, mitra, Normalize(s).value).Ok? <==>
            forall k :: 0 <= k < |s| ==> FitsAgain(l, l.receipts[r], mitra, s[k])
  {
    var back := TakeBack(l, r).value;
    NormalizeSorts(s);
    FitsIsNotRefused(back, mitra, s);
    ApplyAllAcceptsExactlyWhen(back.invoices, mitra, Normalize(s).value);
    forall k | 0 <= k < |s|
      ensures FitsPartner(back, mitra, s[k]) <==> FitsAgain(l, l.receipts[r], mitra, s[k])
    {
      GivenBackFits(l, r, mitra, s[k]);
    }
  }

  /** The receipt row shows its partner and, invoice by invoice, the cents nearest to the submitted amounts. */
  ghost predicate ShowsAllocations(r: Receipt, mitra: Id, s: seq<AllocationInput>) {
    && r.mitra == mitra && !r.deleted && |r.allocations| == |s|
    && (forall k :: 0 <= k < |s| ==> IsListed(r.allocations, s[k]))
    && (forall j :: 0 <= j < |r.allocations| ==> IsSubmitted(s, r.allocations[j]))
  }

  predicate IsListed(rows: seq<Allocation>, a: AllocationInput) {
    exists j :: 0 <= j < |rows| && rows[j].invoice == a.invoice && Nearest(rows[j].amount, a.amount)
  }

  predicate IsSubmitted(s: seq<AllocationInput>, row: Allocation) {
    exists k :: 0 <= k < |s| && s[k].invoice == row.invoice && Nearest(row.amount, s[k].amount)
  }

  lemma RowsShowAllocations(s: seq<AllocationInput>, mitra: Id, total: Cents)
    requires Normalize(s).Ok?
    ensures ShowsAllocations(Receipt(mitra, total, AllocationRows(Normalize(s).value), false), mitra, s)
  {
    var sorted := Normalize(s).value;
    var rows := AllocationRows(sorted);
    NormalizeSorts(s);
    assert |multiset(sorted)| == |multiset(s)|;
    forall k | 0 <= k < |s|
      ensures IsListed(rows, s[k])
    {
      assert s[k] in s;
      var j :| 0 <= j < |sorted| && sorted[j] == s[k];
      RoundIsNearest(s[k].amount * 100.0);
      assert rows[j].invoice == s[k].invoice && Nearest(rows[j].amount, s[k].amount);
    }
    forall j | 0 <= j < |rows|
      ensures IsSubmitted(s, rows[j])
    {
      assert sorted[j] in sorted;
      var k :| 0 <= k < |s| && s[k] == sorted[j];
      RoundIsNearest(s[k].amount * 100.0);
      assert s[k].invoice == rows[j].invoice && Nearest(rows[j].amount, s[k].amount);
    }
  }

  /** An accepted receipt, new or edited, is stored as submitted; no payment and no other receipt changes. */
  lemma ReceiptIsAsSubmitted(l: Ledger, c: Command)
    requires (c.CreateReceipt? || c.UpdateReceipt?) && Step(l, c).Ok?
    ensures var l' := Step(l, c).value;
            && l'.payments == l.payments && c.id in l'.receipts && ShowsAllocations(l'.receipts[c.id], c.mitra, c.allocations)
            && forall q :: q in l.receipts && q != c.id ==> q in l'.receipts && l'.receipts[q] == l.receipts[q]
  {
    RowsShowAllocations(c.allocations, c.mitra, Step(l, c).value.receipts[c.id].amount);
  }

  // --- the life of an invoice ---------------------------------------------------------------

  /** Where an accepted call moves the status of an invoice that is on record. */
  function Moved(before: Status, c: Command, i: Id): Status {
    match c
    case ConfirmInvoice(id, _) => if id == i then Confirmed else before
    case RevertInvoice(id) => if id == i then Draft else before
    case CancelInvoice(id) => if id == i then Cancelled else before
    case _ => before
  }

  /** Only drafts are confirmed, and nothing is reverted or cancelled into the status it has. */
  predicate MayMove(before: Status, c: Command, i: Id) {
    match c
    case ConfirmInvoice(id, _) => id == i ==> before == Draft
    case RevertInvoice(id) => id == i ==> before != Draft
    case CancelInvoice(id) => id == i ==> before != Cancelled
    case _ => true
  }

  /** The status of an invoice moves by confirm, revert and cancel alone, and only as the life of an invoice allows. */
  lemma StatusMoves(l: Ledger, c: Command, i: Id)
    requires i in l.invoices && Step(l, c).Ok?
    ensures var l' := Step(l, c).value;
            && i in l'.invoices && l'.invoices[i].status == Moved(l.invoices[i].status, c, i)
            && MayMove(l.invoices[i].status, c, i)
  {
    match c
    case CreateReceipt(r, mitra, s) => ApplyAllMovesPaidAlone(l.invoices, mitra, Normalize(s).value, i);
    case UpdateReceipt(r, mitra, s) =>
      ReverseAllMovesPaidAlone(l.invoices, l.receipts[r].allocations, i);
      ApplyAllMovesPaidAlone(TakeBack(l, r).value.invoices, mitra, Normalize(s).value, i);
    case DeleteReceipt(r) => ReverseAllMovesPaidAlone(l.invoices, l.receipts[r].allocations, i);
    case _ =>
  }

  /** Confirming, reverting and cancelling change nothing but that status. */
  lemma MovesKeepTheRest(l: Ledger, c: Command, i: Id)
    requires i in l.invoices && Step(l, c).Ok? && (c.ConfirmInvoice? || c.RevertInvoice? || c.CancelInvoice?)
    ensures var l' := Step(l, c).value;
            && i in l'.invoices && l'.invoices[i] == l.invoices[i].(status := l'.invoices[i].status)
            && l'.receipts == l.receipts && l'.payments == l.payments
  {
  }

  function RunFrom(l: Ledger, commands: seq<Command>): Ledger {
    if commands == [] then l
    else
      var before := RunFrom(l, commands[..|commands| - 1]);
      After(before, Step(before, commands[|commands| - 1]))
  }

  /** The calls that would put money on an invoice. */
  predicate WouldPay(l: Ledger, c: Command, i: Id) {
    match c
    case CreatePayment(_, invoice, _) => invoice == i
    case VerifyPayment(p) => p in l.payments && l.payments[p].invoice == i
    case CreateReceipt(_, _, s) => Names(s, i)
    case UpdateReceipt(_, _, s) => Names(s, i)
    case _ => false
  }

  ghost predicate TakesNoMoney(l: Ledger, i: Id) {
    forall c :: WouldPay(l, c, i) ==> Step(l, c).Err?
  }

  lemma {:induction false} NamedInvoiceIsConfirmed(invoices: map<Id, Invoice>, mitra: Id, s: seq<AllocationInput>, i: Id)
    requires ApplyAll(invoices, mitra, s).Ok? && Names(s, i)
    ensures i in invoices && !invoices[i].deleted && invoices[i].status == Confirmed
  {
    var n := |s| - 1;
    if s[n].invoice == i {
      if i in invoices {
        ApplyAllMovesPaidAlone(invoices, mitra, s[..n], i);
      } else {
        ApplyAllAddsNone(invoices, mitra, s[..n], i);
      }
    } else {
      var k :| 0 <= k < |s| && s[k].invoice == i;
      assert s[..n][k].invoice == i;
      NamedInvoiceIsConfirmed(invoices, mitra, s[..n], i);
    }
  }

  lemma {:induction false} ApplyAllAddsNone(invoices: map<Id, Invoice>, mitra: Id, s: seq<AllocationInput>, i: Id)
    requires i !in invoices && ApplyAll(invoices, mitra, s).Ok?
    ensures i !in ApplyAll(invoices, mitra, s).value.invoices
  {
    if s != [] {
      ApplyAllAddsNone(invoices, mitra, s[..|s| - 1], i);
    }
  }

  /** Only a live confirmed invoice takes money; any other adds nothing to what is owed either. */
  lemma OnlyConfirmedTakesMoney(l: Ledger, i: Id)
    requires i in l.invoices && (l.invoices[i].deleted || l.invoices[i].status != Confirmed)
    ensures TakesNoMoney(l, i) && SummedBy(l.invoices[i]) == OwedBy(l.invoices[i]) == 0
  {
    forall c | WouldPay(l, c, i)
      ensures Step(l, c).Err?
    {
      if Step(l, c).Ok? {
        PaidIsConfirmed(l, c, i);
      }
    }
  }

  lemma SortedNames(s: seq<AllocationInput>, i: Id)
    requires Normalize(s).Ok? && Names(s, i)
    ensures Names(Normalize(s).value, i)
  {
    NormalizeSorts(s);
    var k :| 0 <= k < |s| && s[k].invoice == i;
    assert s[k] in s;
    assert s[k] in Normalize(s).value;
  }

  lemma PaidIsConfirmed(l: Ledger, c: Command, i: Id)
    requires i in l.invoices && WouldPay(l, c, i) && Step(l, c).Ok?
    ensures !l.invoices[i].deleted && l.invoices[i].status == Confirmed
  {
    match c
    case CreateReceipt(_, mitra, s) =>
      SortedNames(s, i);
      NamedInvoiceIsConfirmed(l.invoices, mitra, Normalize(s).value, i);
    case UpdateReceipt(r, mitra, s) =>
      SortedNames(s, i);
      ReverseAllMovesPaidAlone(l.invoices, l.receipts[r].allocations, i);
      NamedInvoiceIsConfirmed(TakeBack(l, r).value.invoices, mitra, Normalize(s).value, i);
    case _ =>
  }

  /** What a caller is told: while the invoice is live, that it is not confirmed. */
  lemma RefusedAsNotConfirmed(l: Ledger, i: Id, p: Id, r: Id, amount: real)
    requires Live(l.invoices, i) && l.invoices[i].status != Confirmed && 0.0 < amount
    ensures Step(l, CreatePayment(p, i, amount)) == Err(NotConfirmed)
    ensures p in l.payments && l.payments[p].invoice == i && !l.payments[p].verified ==>
              Step(l, VerifyPayment(p)) == Err(NotConfirmed)
    ensures Step(l, CreateReceipt(r, l.invoices[i].mitra, [AllocationInput(i, amount)])) == Err(NotConfirmed)
  {
    var a := AllocationInput(i, amount);
    assert [a][..0] == [] && [a][1..] == [];
    assert SortByInvoice([]) == [];
    assert SortByInvoice([a]) == [a];
    assert ApplyAll(l.invoices, l.invoices[i].mitra, []) == Ok(Applied(l.invoices, 0));
  }

  predicate Reverts(c: Command, i: Id) {
    c.RevertInvoice? && c.id == i
  }

  predicate Confirms(c: Command, i: Id) {
    c.ConfirmInvoice? && c.id == i
  }

  predicate RevertedIn(commands: seq<Command>, i: Id) {
    exists j :: 0 <= j < |commands| && Reverts(commands[j], i)
  }

  predicate ConfirmedIn(commands: seq<Command>, i: Id) {
    exists j :: 0 <= j < |commands| && Confirms(commands[j], i)
  }

  predicate RevertedThenConfirmedIn(commands: seq<Command>, i: Id) {
    exists j, k :: 0 <= j < k < |commands| && Reverts(commands[j], i) && Confirms(commands[k], i)
  }

  lemma OneMoreCall(commands: seq<Command>, i: Id)
    requires commands != []
    ensures var before, c := commands[..|commands| - 1], commands[|commands| - 1];
            && (RevertedIn(before, i) || Reverts(c, i) ==> RevertedIn(commands, i))
            && (ConfirmedIn(before, i) || Confirms(c, i) ==> ConfirmedIn(commands, i))
            && (RevertedThenConfirmedIn(before, i) || (RevertedIn(before, i) && Confirms(c, i)) ==>
                  RevertedThenConfirmedIn(commands, i))
  {
    var n := |commands| - 1;
    var before := commands[..n];
    if RevertedIn(before, i) {
      var j :| 0 <= j < n && Reverts(before[j], i);
      assert Reverts(commands[j], i);
      if Confirms(commands[n], i) {
        assert j < n && Reverts(commands[j], i) && Confirms(commands[n], i);
      }
    }
    if ConfirmedIn(before, i) {
      var j :| 0 <= j < n && Confirms(before[j], i);
      assert Confirms(commands[j], i);
    }
    if RevertedThenConfirmedIn(before, i) {
      var j, k :| 0 <= j < k < n && Reverts(before[j], i) && Confirms(before[k], i);
      assert Reverts(commands[j], i) && Confirms(commands[k], i);
    }
  }

  lemma {:induction false} ReopenedByCalls(l: Ledger, commands: seq<Command>, i: Id)
    requires i in l.invoices && l.invoices[i].status != Confirmed
    ensures var l' := RunFrom(l, commands);
            && i in l'.invoices
            && (l'.invoices[i].status == Confirmed ==> ConfirmedIn(commands, i))
            && (l.invoices[i].status == Cancelled && l'.invoices[i].status == Draft ==> RevertedIn(commands, i))
            && (l.invoices[i].status == Cancelled && l'.invoices[i].status == Confirmed ==> RevertedThenConfirmedIn(commands, i))
  {
    if commands != [] {
      var n := |commands| - 1;
      var before := RunFrom(l, commands[..n]);
      ReopenedByCalls(l, commands[..n], i);
      OneMoreCall(commands, i);
      if Step(before, commands[n]).Ok? {
        StatusMoves(before, commands[n], i);
      }
    }
  }

  /**
   A cancelled invoice takes no money and adds nothing to what is owed, whatever is called,
   until it has been reverted and, after that, confirmed.
   */
  lemma CancelledInvoiceIsClosed(l: Ledger, i: Id, later: seq<Command>)
    requires Step(l, CancelInvoice(i)).Ok?
    ensures var l' := RunFrom(Step(l, CancelInvoice(i)).value, later);
            && i in l'.invoices
            && (RevertedThenConfirmedIn(later, i)
                || (TakesNoMoney(l', i) && SummedBy(l'.invoices[i]) == OwedBy(l'.invoices[i]) == 0))
  {
    var l' := RunFrom(Step(l, CancelInvoice(i)).value, later);
    ReopenedByCalls(Step(l, CancelInvoice(i)).value, later, i);
    if !RevertedThenConfirmedIn(later, i) {
      OnlyConfirmedTakesMoney(l', i);
    }
  }

  /** The same holds of an invoice that is taken back to draft, until it is confirmed. */
  lemma RevertedInvoiceIsClosed(l: Ledger, i: Id, later: seq<Command>)
    requires Step(l, RevertInvoice(i)).Ok?
    ensures var l' := RunFrom(Step(l, RevertInvoice(i)).value, later);
            && i in l'.invoices
            && (ConfirmedIn(later, i)
                || (TakesNoMoney(l', i) && SummedBy(l'.invoices[i]) == OwedBy(l'.invoices[i]) == 0))
  {
    var l' := RunFrom(Step(l, RevertInvoice(i)).value, later);
    ReopenedByCalls(Step(l, RevertInvoice(i)).value, later, i);
    if !ConfirmedIn(later, i) {
      OnlyConfirmedTakesMoney(l', i);
    }
  }

  /** A confirmed invoice takes payments up to what it owes, and owes its total unless it is a down payment. */
  lemma ConfirmedInvoiceIsOpen(l: Ledger, i: Id, active: Rates, p: Id, amount: real)
    requires Step(l, ConfirmInvoice(i, active)).Ok? && p !in l.payments
    ensures var l' := Step(l, ConfirmInvoice(i, active)).value;
            var inv := l'.invoices[i];
            && inv == l.invoices[i].(status := Confirmed)
            && (Step(l', CreatePayment(p, i, amount)).Ok? <==> 0.0 < amount <= (inv.grandTotal - inv.paid) as real / 100.0)
            && OwedBy(inv) == if !inv.downPayment && inv.grandTotal > inv.paid then inv.grandTotal - inv.paid else 0
  {
    var l' := Step(l, ConfirmInvoice(i, active)).value;
    PaymentAcceptedExactlyWhen(l', p, i, amount);
    OutstandingIsWhatIsOwed(l'.invoices[i].grandTotal, l'.invoices[i].paid);
  }

  predicate InvoiceGone(l: Ledger, i: Id) {
    i in l.invoices && l.invoices[i].deleted
  }

  lemma GoneStays(l: Ledger, c: Command, i: Id)
    requires InvoiceGone(l, i)
    ensures InvoiceGone(After(l, Step(l, c)), i)
  {
    if Step(l, c).Ok? {
      match c
      case CreateReceipt(r, mitra, s) => ApplyAllMovesPaidAlone(l.invoices, mitra, Normalize(s).value, i);
      case UpdateReceipt(r, mitra, s) =>
        ReverseAllMovesPaidAlone(l.invoices, l.receipts[r].allocations, i);
        ApplyAllMovesPaidAlone(TakeBack(l, r).value.invoices, mitra, Normalize(s).value, i);
      case DeleteReceipt(r) => ReverseAllMovesPaidAlone(l.invoices, l.receipts[r].allocations, i);
      case _ =>
    }
  }

  lemma {:induction false} InvoiceStaysGone(l: Ledger, commands: seq<Command>, i: Id)
    requires InvoiceGone(l, i)
    ensures InvoiceGone(RunFrom(l, commands), i)
  {
    if commands != [] {
      InvoiceStaysGone(l, commands[..|commands| - 1], i);
      GoneStays(RunFrom(l, commands[..|commands| - 1]), commands[|commands| - 1], i);
    }
  }

  /** A deleted invoice stays deleted; it takes no money and adds nothing to what is owed. */
  lemma DeletedInvoiceIsGone(l: Ledger, i: Id, later: seq<Command>)
    requires Step(l, DeleteInvoice(i)).Ok?
    ensures var l' := RunFrom(Step(l, DeleteInvoice(i)).value, later);
            InvoiceGone(l', i) && TakesNoMoney(l', i) && SummedBy(l'.invoices[i]) == OwedBy(l'.invoices[i]) == 0
  {
    InvoiceStaysGone(Step(l, DeleteInvoice(i)).value, later, i);
    OnlyConfirmedTakesMoney(RunFrom(Step(l, DeleteInvoice(i)).value, later), i);
  }

  // --- which calls are accepted -------------------------------------------------------------

  /** The lines and the document discount fit, and shipping is not negative. */
  predicate DocumentFits(doc: Document, active: Rates) {
    LinesFit(doc.lines, active, doc.discount) && 0.0 <= doc.shipping
  }

  lemma DocumentAcceptedExactlyWhen(doc: Document, active: Rates)
    ensures DocumentCalc(doc, active).Ok? <==> DocumentFits(doc, active)
  {
    CalcAcceptsExactlyWhen(doc.lines, active, doc.discount);
  }

  /** A payment, verified or not, or an allocation of a receipt that is not deleted. */
  predicate HasMoney(l: Ledger, i: Id) {
    || (exists p :: p in l.payments && l.payments[p].invoice == i)
    || (exists r :: r in l.receipts && !l.receipts[r].deleted && Touches(l.receipts[r].allocations, i))
  }

  /** What each call needs. */
  predicate Admissible(l: Ledger, c: Command) {
    match c
    case CreateInvoice(id, _, _, doc, active) => id !in l.invoices && DocumentFits(doc, active)
    case EditInvoice(id, _, doc, active) => Live(l.invoices, id) && DocumentFits(doc, active)
    case ConfirmInvoice(id, active) =>
      Live(l.invoices, id) && l.invoices[id].status == Draft && DocumentFits(l.invoices[id].document, active)
    case RevertInvoice(id) => Live(l.invoices, id) && l.invoices[id].status != Draft && !HasMoney(l, id)
    case CancelInvoice(id) => Live(l.invoices, id) && l.invoices[id].status != Cancelled
    case DeleteInvoice(id) => Live(l.invoices, id)
    case CreatePayment(p, i, amount) => p !in l.payments && 0.0 < amount && Fits(l, i, amount)
    case VerifyPayment(p) =>
      && p in l.payments && !l.payments[p].verified
      && Fits(l, l.payments[p].invoice, l.payments[p].amount as real / 100.0)
    case CreateReceipt(r, mitra, s) =>
      && r !in l.receipts && s != [] && Distinct(s)
      && forall k :: 0 <= k < |s| ==> 0.0 < s[k].amount && FitsPartner(l, mitra, s[k])
    case UpdateReceipt(r, mitra, s) =>
      && r in l.receipts && !l.receipts[r].deleted && s != [] && Distinct(s)
      && forall k :: 0 <= k < |s| ==> 0.0 < s[k].amount && FitsAgain(l, l.receipts[r], mitra, s[k])
    case DeleteReceipt(r) => r in l.receipts && !l.receipts[r].deleted
  }

  predicate OnInvoice(c: Command) {
    c.CreateInvoice? || c.EditInvoice? || c.ConfirmInvoice? || c.RevertInvoice? || c.CancelInvoice? || c.DeleteInvoice?
  }

  lemma InvoiceCallAcceptedExactlyWhen(l: Ledger, c: Command)
    requires OnInvoice(c)
    ensures Step(l, c).Ok? <==> Admissible(l, c)
  {
    match c
    case CreateInvoice(_, _, _, doc, active) => DocumentAcceptedExactlyWhen(doc, active);
    case EditInvoice(_, _, doc, active) => DocumentAcceptedExactlyWhen(doc, active);
    case ConfirmInvoice(id, active) =>
      if Live(l.invoices, id) {
        DocumentAcceptedExactlyWhen(l.invoices[id].document, active);
      }
    case RevertInvoice(id) => assert HasMoney(l, id) <==> !NoMoney(l, id);
    case _ =>
  }

  lemma ReceiptCallAcceptedExactlyWhen(l: Ledger, c: Command)
    requires Inv(l) && (c.CreateReceipt? || c.UpdateReceipt? || c.DeleteReceipt?)
    ensures Step(l, c).Ok? <==> Admissible(l, c)
  {
    match c
    case CreateReceipt(r, mitra, s) =>
      if r !in l.receipts {
        ReceiptAcceptedExactlyWhen(l, r, mitra, s);
      }
    case UpdateReceipt(r, mitra, s) => ReceiptEditAcceptedExactlyWhen(l, r, mitra, s);
    case DeleteReceipt(r) =>
      if LiveReceipt(l.receipts, r) {
        TakeBackKeepsInv(l, r);
      }
  }

  /** A call on the sales ledger is accepted exactly when its needs are met. */
  lemma AcceptedExactlyWhen(l: Ledger, c: Command)
    requires Inv(l)
    ensures Step(l, c).Ok? <==> Admissible(l, c)
  {
    if OnInvoice(c) {
      InvoiceCallAcceptedExactlyWhen(l, c);
    } else if c.CreatePayment? {
      if c.id !in l.payments {
        PaymentAcceptedExactlyWhen(l, c.id, c.invoice, c.amount);
      }
    } else if c.VerifyPayment? {
      VerifyAcceptedExactlyWhen(l, c.id);
    } else {
      ReceiptCallAcceptedExactlyWhen(l, c);
    }
  }

  // --- what a refusal says --------------------------------------------------------------

  /** The document a call calculates. */
  function DocumentOf(l: Ledger, c: Command): Option<Document> {
    match c
    case CreateInvoice(_, _, _, doc, _) => Some(doc)
    case EditInvoice(_, _, doc, _) => Some(doc)
    case ConfirmInvoice(id, _) => if id in l.invoices then Some(l.invoices[id].document) else None
    case _ => None
  }

  predicate OnReceipt(c: Command) {
    c.CreateReceipt? || c.UpdateReceipt?
  }

  /** What a call would put on an invoice. */
  predicate Puts(l: Ledger, c: Command, i: Id, amount: real) {
    match c
    case CreatePayment(_, invoice, given) => invoice == i && given == amount
    case VerifyPayment(p) => p in l.payments && l.payments[p].invoice == i && amount == Units(l.payments[p].amount)
    case CreateReceipt(_, _, s) => AllocationInput(i, amount) in s
    case UpdateReceipt(_, _, s) => AllocationInput(i, amount) in s
    case _ => false
  }

  /** What an edited receipt gives back to an invoice before it is put on again. */
  function GivenBackTo(l: Ledger, c: Command, i: Id): Cents {
    if c.UpdateReceipt? && c.id in l.receipts then Share(l.receipts[c.id], i) else 0
  }

  /** The status of the invoice, or of the payment, rules the call out. */
  predicate NoSuchMove(l: Ledger, c: Command) {
    match c
    case ConfirmInvoice(id, _) => Live(l.invoices, id) && l.invoices[id].status != Draft
    case RevertInvoice(id) => Live(l.invoices, id) && l.invoices[id].status == Draft
    case CancelInvoice(id) => Live(l.invoices, id) && l.invoices[id].status == Cancelled
    case VerifyPayment(p) => p in l.payments && l.payments[p].verified
    case _ => false
  }

  /** What a refused amount is told about its invoice. */
  predicate IsSoOfPut(l: Ledger, c: Command, i: Id, amount: real, why: Refusal) {
    match why
    case InvoiceNotFound => !Live(l.invoices, i)
    case WrongPartner => OnReceipt(c) && Live(l.invoices, i) && l.invoices[i].mitra != c.mitra
    case NotConfirmed => (Live(l.invoices, i) && l.invoices[i].status != Confirmed) || (c.VerifyPayment? && !Live(l.invoices, i))
    case ExceedsBalance(rest) =>
      && Live(l.invoices, i) && amount > Units(rest)
      && rest == l.invoices[i].grandTotal - l.invoices[i].paid + GivenBackTo(l, c, i)
    case _ => false
  }

  ghost predicate IsSoOfSomePut(l: Ledger, c: Command, why: Refusal) {
    exists i, amount :: Puts(l, c, i, amount) && IsSoOfPut(l, c, i, amount, why)
  }

  /** What the refusal says is so. */
  ghost predicate IsSo(l: Ledger, c: Command, why: Refusal) {
    match why
    case NotFound =>
      || (OnInvoice(c) && !c.CreateInvoice? && !Live(l.invoices, c.id))
      || (c.VerifyPayment? && c.id !in l.payments)
      || ((c.UpdateReceipt? || c.DeleteReceipt?) && !LiveReceipt(l.receipts, c.id))
    case DuplicateKey =>
      || (c.CreateInvoice? && c.id in l.invoices) || (c.CreatePayment? && c.id in l.payments)
      || (c.CreateReceipt? && c.id in l.receipts)
    case InvalidInput => (c.CreatePayment? && c.amount <= 0.0) || (OnReceipt(c) && !ValidAmounts(c.allocations))
    case BadDocument(_) =>
      && (c.CreateInvoice? || c.EditInvoice? || c.ConfirmInvoice?)
      && DocumentOf(l, c).Some? && !DocumentFits(DocumentOf(l, c).value, c.active)
    case InvalidTransition =>
      NoSuchMove(l, c)
    case InUse => c.RevertInvoice? && HasMoney(l, c.id)
    case InvoiceTwice => OnReceipt(c) && !Distinct(c.allocations)
    case InvoiceNotFound => IsSoOfSomePut(l, c, why)
    case WrongPartner => IsSoOfSomePut(l, c, why)
    case NotConfirmed => IsSoOfSomePut(l, c, why)
    case ExceedsBalance(_) => IsSoOfSomePut(l, c, why)
    case RowMissing => false
  }

  /** What the refusal of one allocation says is so. */
  predicate IsSoOfAllocation(l: Ledger, mitra: Id, a: AllocationInput, why: Refusal) {
    match why
    case InvoiceNotFound => !Live(l.invoices, a.invoice)
    case WrongPartner => Live(l.invoices, a.invoice) && l.invoices[a.invoice].mitra != mitra
    case NotConfirmed => Live(l.invoices, a.invoice) && l.invoices[a.invoice].status != Confirmed
    case ExceedsBalance(rest) =>
      && Live(l.invoices, a.invoice) && a.amount > Units(rest)
      && rest == l.invoices[a.invoice].grandTotal - l.invoices[a.invoice].paid
    case _ => false
  }

  lemma AllocationRefusalIsSo(l: Ledger, mitra: Id, s: seq<AllocationInput>) returns (a: AllocationInput)
    requires Normalize(s).Ok? && ApplyAll(l.invoices, mitra, Normalize(s).value).Err?
    ensures a in s && IsSoOfAllocation(l, mitra, a, ApplyAll(l.invoices, mitra, Normalize(s).value).error)
  {
    NormalizeSorts(s);
    ApplyAllAcceptsExactlyWhen(l.invoices, mitra, Normalize(s).value);
    var k := FirstRefusalDecides(l.invoices, mitra, Normalize(s).value);
    a := Normalize(s).value[k];
    assert a in Normalize(s).value;
  }

  lemma NewReceiptRefusalIsSo(l: Ledger, c: Command)
    requires c.CreateReceipt? && ValidAmounts(c.allocations) && Normalize(c.allocations).Ok?
    requires ApplyAll(l.invoices, c.mitra, Normalize(c.allocations).value).Err?
    ensures IsSoOfSomePut(l, c, ApplyAll(l.invoices, c.mitra, Normalize(c.allocations).value).error)
  {
    var a := AllocationRefusalIsSo(l, c.mitra, c.allocations);
    assert Puts(l, c, a.invoice, a.amount);
  }

  lemma GivenBackIsSo(l: Ledger, c: Command, a: AllocationInput, why: Refusal)
    requires Inv(l) && c.UpdateReceipt? && LiveReceipt(l.receipts, c.id) && TakeBack(l, c.id).Ok? && a in c.allocations
    requires IsSoOfAllocation(TakeBack(l, c.id).value, c.mitra, a, why)
    ensures IsSoOfSomePut(l, c, why)
  {
    TakeBackKeepsInv(l, c.id);
    if a.invoice in l.invoices {
      ReverseAllMovesPaidAlone(l.invoices, l.receipts[c.id].allocations, a.invoice);
    }
    assert Puts(l, c, a.invoice, a.amount);
    assert IsSoOfPut(l, c, a.invoice, a.amount, why);
  }

  lemma EditedReceiptRefusalIsSo(l: Ledger, c: Command)
    requires Inv(l) && c.UpdateReceipt? && LiveReceipt(l.receipts, c.id) && Normalize(c.allocations).Ok?
    requires TakeBack(l, c.id).Ok? && ApplyAll(TakeBack(l, c.id).value.invoices, c.mitra, Normalize(c.allocations).value).Err?
    ensures IsSoOfSomePut(l, c, ApplyAll(TakeBack(l, c.id).value.invoices, c.mitra, Normalize(c.allocations).value).error)
  {
    var a := AllocationRefusalIsSo(TakeBack(l, c.id).value, c.mitra, c.allocations);
    GivenBackIsSo(l, c, a, ApplyAll(TakeBack(l, c.id).value.invoices, c.mitra, Normalize(c.allocations).value).error);
  }

  lemma ReceiptRefusalIsSo(l: Ledger, c: Command)
    requires Inv(l) && (OnReceipt(c) || c.DeleteReceipt?) && Step(l, c).Err?
    ensures IsSo(l, c, Step(l, c).error)
  {
    if c.DeleteReceipt? {
      if LiveReceipt(l.receipts, c.id) {
        TakeBackKeepsInv(l, c.id);
      }
    } else {
      NormalizeSorts(c.allocations);
      if ValidAmounts(c.allocations) && Normalize(c.allocations).Ok? {
        if c.CreateReceipt? {
          if ApplyAll(l.invoices, c.mitra, Normalize(c.allocations).value).Err? {
            NewReceiptRefusalIsSo(l, c);
          }
        } else if LiveReceipt(l.receipts, c.id) {
          TakeBackKeepsInv(l, c.id);
          EditedReceiptRefusalIsSo(l, c);
        }
      }
    }
  }

  lemma PaymentRefusalIsSo(l: Ledger, c: Command)
    requires (c.CreatePayment? || c.VerifyPayment?) && Step(l, c).Err?
    ensures IsSo(l, c, Step(l, c).error)
  {
    if c.CreatePayment? {
      assert Puts(l, c, c.invoice, c.amount);
    } else if c.id in l.payments {
      assert Puts(l, c, l.payments[c.id].invoice, Units(l.payments[c.id].amount));
    }
  }

  lemma InvoiceRefusalIsSo(l: Ledger, c: Command)
    requires OnInvoice(c) && Step(l, c).Err?
    ensures IsSo(l, c, Step(l, c).error)
  {
    match c
    case CreateInvoice(_, _, _, doc, active) => DocumentAcceptedExactlyWhen(doc, active);
    case EditInvoice(_, _, doc, active) => DocumentAcceptedExactlyWhen(doc, active);
    case ConfirmInvoice(id, active) =>
      if Live(l.invoices, id) {
        DocumentAcceptedExactlyWhen(l.invoices[id].document, active);
      }
    case _ =>
  }

  /** Every refusal tells the caller something that is so. */
  lemma RefusalsAreSo(l: Ledger, c: Command)
    requires Inv(l) && Step(l, c).Err?
    ensures IsSo(l, c, Step(l, c).error)
  {
    if OnInvoice(c) {
      InvoiceRefusalIsSo(l, c);
    } else if c.CreatePayment? || c.VerifyPayment? {
      PaymentRefusalIsSo(l, c);
    } else {
      ReceiptRefusalIsSo(l, c);
    }
  }
}

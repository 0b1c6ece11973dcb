/**
 What every run of the sales ledger keeps: each invoice's cached balance is exactly
 the money recorded against it, drafts carry no money, and the payment status and
 the dashboard follow from the balances.
 */
module SalesLaws {
  import opened Results
  import opened Money
  import opened Sums
  import opened InvoiceBalance
  import opened SalesLedger

  // --- normalising allocations ------------------------------------------------

  predicate NonDescending(s: seq<AllocationInput>) {
    forall i, j :: 0 <= i < j < |s| ==> s[i].invoice <= s[j].invoice
  }

  predicate Distinct(s: seq<AllocationInput>) {
    forall i, j :: 0 <= i < j < |s| ==> s[i].invoice != s[j].invoice
  }

  lemma {:induction false} InsertKeepsRows(a: AllocationInput, s: seq<AllocationInput>)
    ensures multiset(Insert(a, s)) == multiset{a} + multiset(s)
    ensures forall e :: e in Insert(a, s) <==> e == a || e in s
  {
    if s != [] && s[0].invoice < a.invoice {
      InsertKeepsRows(a, s[1..]);
      assert s == [s[0]] + s[1..];
    }
  }

  lemma {:induction false} InsertKeepsOrder(a: AllocationInput, s: seq<AllocationInput>)
    requires NonDescending(s)
    ensures NonDescending(Insert(a, s))
    ensures Distinct(Insert(a, s)) <==> Distinct(s) && forall e :: e in s ==> e.invoice != a.invoice
  {
    if s != [] && s[0].invoice < a.invoice {
      InsertKeepsRows(a, s[1..]);
      InsertKeepsOrder(a, s[1..]);
      ConsOrder(s[0], Insert(a, s[1..]));
      ConsOrder(s[0], s[1..]);
      assert s == [s[0]] + s[1..];
    } else {
      ConsOrder(a, s);
    }
  }

  lemma ConsOrder(a: AllocationInput, s: seq<AllocationInput>)
    ensures NonDescending([a] + s) <==> NonDescending(s) && forall e :: e in s ==> a.invoice <= e.invoice
    ensures Distinct([a] + s) <==> Distinct(s) && forall e :: e in s ==> e.invoice != a.invoice
  {
    ConsPairs(a, s, (x: Id, y: Id) => x <= y);
    ConsPairs(a, s, (x: Id, y: Id) => x != y);
  }

  lemma ConsPairs(a: AllocationInput, s: seq<AllocationInput>, rel: (Id, Id) -> bool)
    ensures var t := [a] + s;
            (forall i, j :: 0 <= i < j < |t| ==> rel(t[i].invoice, t[j].invoice)) <==>
            && (forall i, j :: 0 <= i < j < |s| ==> rel(s[i].invoice, s[j].invoice))
            && (forall e :: e in s ==> rel(a.invoice, e.invoice))
  {
    var t := [a] + s;
    if forall i, j :: 0 <= i < j < |t| ==> rel(t[i].invoice, t[j].invoice) {
      forall i, j | 0 <= i < j < |s|
        ensures rel(s[i].invoice, s[j].invoice)
      {
        assert rel(t[i + 1].invoice, t[j + 1].invoice);
      }
      forall e | e in s
        ensures rel(a.invoice, e.invoice)
      {
        var k :| 0 <= k < |s| && s[k] == e;
        assert rel(t[0].invoice, t[k + 1].invoice);
      }
    }
  }

  lemma {:induction false} SortKeepsRows(s: seq<AllocationInput>)
    ensures multiset(SortByInvoice(s)) == multiset(s)
    ensures forall e :: e in SortByInvoice(s) <==> e in s
  {
    if s != [] {
      SortKeepsRows(s[1..]);
      InsertKeepsRows(s[0], SortByInvoice(s[1..]));
      assert s == [s[0]] + s[1..];
    }
  }

  lemma {:induction false} SortOrders(s: seq<AllocationInput>)
    ensures NonDescending(SortByInvoice(s))
    ensures Distinct(SortByInvoice(s)) <==> Distinct(s)
  {
    if s != [] {
      SortOrders(s[1..]);
      SortKeepsRows(s[1..]);
      InsertKeepsOrder(s[0], SortByInvoice(s[1..]));
      ConsOrder(s[0], s[1..]);
      assert s == [s[0]] + s[1..];
    }
  }

  /** Normalising sorts the requested allocations, and refuses exactly a repeated invoice. */
  lemma NormalizeSorts(s: seq<AllocationInput>)
    ensures NonDescending(SortByInvoice(s)) && multiset(SortByInvoice(s)) == multiset(s)
    ensures forall e :: e in SortByInvoice(s) <==> e in s
    ensures Normalize(s).Ok? <==> Distinct(s)
    ensures Normalize(s).Ok? ==> Ascending(Normalize(s).value)
  {
    SortKeepsRows(s);
    SortOrders(s);
  }

  // --- the allocation loops in one step ---------------------------------------

  predicate AscendingRows(s: seq<Allocation>) {
    forall i, j :: 0 <= i < j < |s| ==> s[i].invoice < s[j].invoice
  }

  /** What a list of allocation rows gives to one invoice. */
  function SumFor(s: seq<Allocation>, invoice: Id): Cents {
    if s == [] then 0
    else SumFor(s[..|s| - 1], invoice) + if s[|s| - 1].invoice == invoice then s[|s| - 1].amount else 0
  }

  function SumAll(s: seq<Allocation>): Cents {
    if s == [] then 0 else SumAll(s[..|s| - 1]) + s[|s| - 1].amount
  }

  lemma {:induction false} SumForUntouched(s: seq<Allocation>, invoice: Id)
    requires !Touches(s, invoice)
    ensures SumFor(s, invoice) == 0
  {
    if s != [] {
      var n := |s| - 1;
      assert forall k :: 0 <= k < n ==> s[..n][k] == s[k];
      SumForUntouched(s[..n], invoice);
    }
  }

  lemma {:induction false} SumForTouched(s: seq<Allocation>, k: nat)
    requires AscendingRows(s) && k < |s|
    ensures SumFor(s, s[k].invoice) == s[k].amount
  {
    var n := |s| - 1;
    if k < n {
      SumForTouched(s[..n], k);
    } else {
      assert forall j :: 0 <= j < n ==> s[..n][j].invoice < s[k].invoice;
      SumForUntouched(s[..n], s[k].invoice);
    }
  }

  predicate Names(s: seq<AllocationInput>, invoice: Id) {
    exists k :: 0 <= k < |s| && s[k].invoice == invoice
  }

  lemma {:induction false} UnnamedRowIsKept(invoices: map<Id, Invoice>, mitra: Id, s: seq<AllocationInput>, i: Id)
    requires ApplyAll(invoices, mitra, s).Ok? && !Names(s, i)
    ensures var after := ApplyAll(invoices, mitra, s).value.invoices;
            (i in after <==> i in invoices) && (i in invoices ==> after[i] == invoices[i])
  {
    if s != [] {
      assert forall k :: 0 <= k < |s| - 1 ==> s[..|s| - 1][k] == s[k];
      UnnamedRowIsKept(invoices, mitra, s[..|s| - 1], i);
    }
  }

  lemma {:induction false} NamedRowIsCredited(invoices: map<Id, Invoice>, mitra: Id, s: seq<AllocationInput>, k: nat)
    requires Ascending(s) && k < |s| && ApplyAll(invoices, mitra, s).Ok?
    ensures var i, after := s[k].invoice, ApplyAll(invoices, mitra, s).value.invoices;
            i in invoices && i in after && after[i] == Credited(invoices[i], s[k].amount)
  {
    var n := |s| - 1;
    if k < n {
      NamedRowIsCredited(invoices, mitra, s[..n], k);
      assert s[k].invoice < s[n].invoice;
    } else {
      assert !Names(s[..n], s[n].invoice);
      UnnamedRowIsKept(invoices, mitra, s[..n], s[n].invoice);
    }
  }

  predicate NoneRefused(invoices: map<Id, Invoice>, mitra: Id, s: seq<AllocationInput>) {
    forall k :: 0 <= k < |s| ==> AllocationRefusal(invoices, mitra, s[k]).None?
  }

  /** Ascending allocations are accepted as a whole exactly when each of them would be accepted on its own. */
  lemma {:induction false} ApplyAllAcceptsExactlyWhen(invoices: map<Id, Invoice>, mitra: Id, s: seq<AllocationInput>)
    requires Ascending(s)
    ensures ApplyAll(invoices, mitra, s).Ok? <==> NoneRefused(invoices, mitra, s)
  {
    if s != [] {
      var n := |s| - 1;
      ApplyAllAcceptsExactlyWhen(invoices, mitra, s[..n]);
      if ApplyAll(invoices, mitra, s[..n]).Ok? {
        LastRefusal(invoices, mitra, s);
      }
    }
  }

  lemma LastRefusal(invoices: map<Id, Invoice>, mitra: Id, s: seq<AllocationInput>)
    requires Ascending(s) && s != [] && ApplyAll(invoices, mitra, s[..|s| - 1]).Ok?
    ensures var now := ApplyAll(invoices, mitra, s[..|s| - 1]).value.invoices;
            AllocationRefusal(now, mitra, s[|s| - 1]) == AllocationRefusal(invoices, mitra, s[|s| - 1])
  {
    var n := |s| - 1;
    assert !Names(s[..n], s[n].invoice);
    UnnamedRowIsKept(invoices, mitra, s[..n], s[n].invoice);
    RefusalLooksAtOneRow(invoices, ApplyAll(invoices, mitra, s[..n]).value.invoices, mitra, s[n]);
  }

  /** Otherwise the first refused allocation decides the error. */
  lemma {:induction false} FirstRefusalDecides(invoices: map<Id, Invoice>, mitra: Id, s: seq<AllocationInput>) returns (k: nat)
    requires Ascending(s) && ApplyAll(invoices, mitra, s).Err?
    ensures k < |s| && NoneRefused(invoices, mitra, s[..k])
    ensures AllocationRefusal(invoices, mitra, s[k]) == Some(ApplyAll(invoices, mitra, s).error)
  {
    var n := |s| - 1;
    if ApplyAll(invoices, mitra, s[..n]).Ok? {
      ApplyAllAcceptsExactlyWhen(invoices, mitra, s[..n]);
      LastRefusal(invoices, mitra, s);
      k := n;
    } else {
      k := FirstRefusalDecides(invoices, mitra, s[..n]);
      assert s[..n][..k] == s[..k];
    }
  }

  lemma RefusalLooksAtOneRow(a: map<Id, Invoice>, b: map<Id, Invoice>, mitra: Id, allocation: AllocationInput)
    requires allocation.invoice in a <==> allocation.invoice in b
    requires allocation.invoice in a ==> a[allocation.invoice] == b[allocation.invoice]
    ensures AllocationRefusal(a, mitra, allocation) == AllocationRefusal(b, mitra, allocation)
  {
  }

  /** The receipt total is exactly the sum of the rows that are stored. */
  lemma {:induction false} TotalOfStoredRows(invoices: map<Id, Invoice>, mitra: Id, s: seq<AllocationInput>)
    requires forall k :: 0 <= k < |s| ==> 0.0 <= s[k].amount
    requires ApplyAll(invoices, mitra, s).Ok?
    ensures ApplyAll(invoices, mitra, s).value.total == SumAll(AllocationRows(s)) && 0 <= SumAll(AllocationRows(s))
  {
    if s != [] {
      var n := |s| - 1;
      TotalOfStoredRows(invoices, mitra, s[..n]);
      assert AllocationRows(s)[..n] == AllocationRows(s[..n]);
      NonNegativeCents(s[n].amount);
      AddingToStored(SumAll(AllocationRows(s[..n])), s[n].amount);
    }
  }

  /** All rows of the list are on record. */
  predicate RowsExist(invoices: map<Id, Invoice>, s: seq<Allocation>) {
    forall k :: 0 <= k < |s| ==> s[k].invoice in invoices
  }

  /** A list is reversed exactly when its invoices exist, deleted or not. */
  lemma {:induction false} ReverseAllAcceptsExactlyWhen(invoices: map<Id, Invoice>, s: seq<Allocation>)
    ensures ReverseAll(invoices, s).Ok? <==> RowsExist(invoices, s)
    ensures ReverseAll(invoices, s).Ok? ==> ReverseAll(invoices, s).value.Keys == invoices.Keys
  {
    if s != [] {
      ReverseAllAcceptsExactlyWhen(invoices, s[..|s| - 1]);
    }
  }

  lemma {:induction false} UntouchedRowIsKept(invoices: map<Id, Invoice>, s: seq<Allocation>, i: Id)
    requires ReverseAll(invoices, s).Ok? && !Touches(s, i) && i in invoices
    ensures i in ReverseAll(invoices, s).value && ReverseAll(invoices, s).value[i] == invoices[i]
  {
    if s != [] {
      assert forall k :: 0 <= k < |s| - 1 ==> s[..|s| - 1][k] == s[k];
      UntouchedRowIsKept(invoices, s[..|s| - 1], i);
    }
  }

  lemma {:induction false} ReverseAllDebitsEachInvoice(invoices: map<Id, Invoice>, s: seq<Allocation>, k: nat)
    requires AscendingRows(s) && ReverseAll(invoices, s).Ok? && k < |s|
    ensures var i, after := s[k].invoice, ReverseAll(invoices, s).value;
            i in invoices && i in after && after[i] == Debited(invoices[i], s[k].amount)
  {
    var n := |s| - 1;
    ReverseAllAcceptsExactlyWhen(invoices, s);
    if k < n {
      ReverseAllDebitsEachInvoice(invoices, s[..n], k);
      assert s[k].invoice < s[n].invoice;
    } else {
      assert forall j :: 0 <= j < n ==> s[..n][j].invoice < s[n].invoice;
      UntouchedRowIsKept(invoices, s[..n], s[n].invoice);
    }
  }

  // --- the invariant ----------------------------------------------------------

  function Share(r: Receipt, invoice: Id): Cents {
    if r.deleted then 0 else SumFor(r.allocations, invoice)
  }

  function Shares(receipts: map<Id, Receipt>, invoice: Id): map<Id, Cents> {
    map r | r in receipts :: Share(receipts[r], invoice)
  }

  /** The invoice's allocations on live receipts. */
  ghost function AllocatedOn(receipts: map<Id, Receipt>, invoice: Id): Cents {
    Total(Shares(receipts, invoice))
  }

  function VerifiedPart(p: Payment, invoice: Id): Cents {
    if p.verified && p.invoice == invoice then p.amount else 0
  }

  function VerifiedParts(payments: map<Id, Payment>, invoice: Id): map<Id, Cents> {
    map p | p in payments :: VerifiedPart(payments[p], invoice)
  }

  /** The invoice's verified payments. */
  ghost function VerifiedOn(payments: map<Id, Payment>, invoice: Id): Cents {
    Total(VerifiedParts(payments, invoice))
  }

  ghost predicate ReceiptOk(r: Receipt, invoices: map<Id, Invoice>) {
    && AscendingRows(r.allocations)
    && (forall k :: 0 <= k < |r.allocations| ==> r.allocations[k].invoice in invoices && 0 <= r.allocations[k].amount)
    && r.amount == SumAll(r.allocations)
  }

  ghost predicate PaymentOk(p: Payment, invoices: map<Id, Invoice>) {
    p.invoice in invoices && 0 <= p.amount
  }

  /** A zero total is the one place where apply's status differs from the common rule. */
  ghost predicate StatusOk(inv: Invoice) {
    || inv.paymentStatus == StatusOf(inv.paid, inv.grandTotal)
    || (inv.grandTotal == 0 && inv.paid == 0 && inv.paymentStatus == Paid)
  }

  ghost predicate RowOk(inv: Invoice, i: Id, receipts: map<Id, Receipt>, payments: map<Id, Payment>) {
    && 0 <= inv.grandTotal && StatusOk(inv)
    && inv.paid == VerifiedOn(payments, i) + AllocatedOn(receipts, i)
    && (inv.status == Draft ==> NoPayment(payments, i) && NoAllocation(receipts, i))
  }

  ghost predicate InvoiceOk(l: Ledger, i: Id)
    requires i in l.invoices
  {
    RowOk(l.invoices[i], i, l.receipts, l.payments)
  }

  ghost predicate ReceiptsOk(receipts: map<Id, Receipt>, invoices: map<Id, Invoice>) {
    forall r :: r in receipts ==> ReceiptOk(receipts[r], invoices)
  }

  ghost predicate PaymentsOk(payments: map<Id, Payment>, invoices: map<Id, Invoice>) {
    forall p :: p in payments ==> PaymentOk(payments[p], invoices)
  }

  ghost predicate InvoicesOk(invoices: map<Id, Invoice>, receipts: map<Id, Receipt>, payments: map<Id, Payment>) {
    forall i :: i in invoices ==> RowOk(invoices[i], i, receipts, payments)
  }

  ghost predicate Inv(l: Ledger) {
    && ReceiptsOk(l.receipts, l.invoices)
    && PaymentsOk(l.payments, l.invoices)
    && InvoicesOk(l.invoices, l.receipts, l.payments)
  }

  lemma {:induction false} ShareBounds(r: Receipt, invoices: map<Id, Invoice>, i: Id)
    requires ReceiptOk(r, invoices)
    ensures 0 <= Share(r, i)
    ensures !Touches(r.allocations, i) ==> Share(r, i) == 0
  {
    if Touches(r.allocations, i) {
      var k :| 0 <= k < |r.allocations| && r.allocations[k].invoice == i;
      SumForTouched(r.allocations, k);
    } else {
      SumForUntouched(r.allocations, i);
    }
  }

  /** What is recorded for an invoice is never negative, and covers every live receipt's share. */
  lemma RecordedMoney(l: Ledger, i: Id)
    requires Inv(l)
    ensures 0 <= VerifiedOn(l.payments, i) && 0 <= AllocatedOn(l.receipts, i)
    ensures forall r :: r in l.receipts ==> Share(l.receipts[r], i) <= AllocatedOn(l.receipts, i)
  {
    var parts, shares := VerifiedParts(l.payments, i), Shares(l.receipts, i);
    TotalAtLeast(parts, 0);
    forall r | r in l.receipts
      ensures 0 <= Share(l.receipts[r], i)
    {
      ShareBounds(l.receipts[r], l.invoices, i);
    }
    TotalAtLeast(shares, 0);
    forall r | r in l.receipts
      ensures Share(l.receipts[r], i) <= AllocatedOn(l.receipts, i)
    {
      TotalAtLeast(shares, r);
    }
  }

  lemma NoMoneyIsZero(l: Ledger, i: Id)
    requires Inv(l) && NoMoney(l, i)
    ensures VerifiedOn(l.payments, i) == 0 && AllocatedOn(l.receipts, i) == 0
  {
    TotalOfZeros(VerifiedParts(l.payments, i));
    forall r | r in l.receipts
      ensures Share(l.receipts[r], i) == 0
    {
      ShareBounds(l.receipts[r], l.invoices, i);
    }
    TotalOfZeros(Shares(l.receipts, i));
  }

  lemma AllocatedAfterWrite(receipts: map<Id, Receipt>, id: Id, r: Receipt, i: Id)
    ensures AllocatedOn(receipts[id := r], i) ==
            AllocatedOn(receipts, i) - (if id in receipts then Share(receipts[id], i) else 0) + Share(r, i)
  {
    assert Shares(receipts[id := r], i) == Shares(receipts, i)[id := Share(r, i)];
    TotalSet(Shares(receipts, i), id, Share(r, i));
  }

  lemma VerifiedAfterWrite(payments: map<Id, Payment>, id: Id, p: Payment, i: Id)
    ensures VerifiedOn(payments[id := p], i) ==
            VerifiedOn(payments, i) - (if id in payments then VerifiedPart(payments[id], i) else 0) + VerifiedPart(p, i)
  {
    assert VerifiedParts(payments[id := p], i) == VerifiedParts(payments, i)[id := VerifiedPart(p, i)];
    TotalSet(VerifiedParts(payments, i), id, VerifiedPart(p, i));
  }
}

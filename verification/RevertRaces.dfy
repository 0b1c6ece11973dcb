/**
 Taking an invoice back to draft, and recording a payment, while other calls run. A revert
 looks for payments and allocations first and writes the status later; a new payment looks
 at its invoice first and is inserted later. Neither holds a lock in between, so a receipt
 or payment can come in after the look of a revert, and a revert after that of a payment.
 */
module RevertRaces {
  import opened Results
  import opened Money
  import opened Sums
  import opened InvoiceBalance
  import opened SalesLedger
  import opened SalesLaws
  import opened SalesRuns
  import opened InvoiceLifecycle
  import opened SalesEdgeCases

  datatype Admission = Admission(id: Id, payment: Payment)

  /** The invoices whose status is still to be written, and the payments still to be inserted. */
  datatype Office = Office(ledger: Ledger, passed: map<nat, Id>, admitted: map<nat, Admission>)

  datatype Event =
    | Called(command: Command)
    | Looked(t: nat, id: Id)
    | Wrote(t: nat)
    | Admitted(t: nat, id: Id, invoice: Id, amount: real)
    | Inserted(t: nat)

  /** Live, not a draft, and nothing recorded on it. */
  predicate Passes(l: Ledger, id: Id) {
    Live(l.invoices, id) && l.invoices[id].status != Draft && NoMoney(l, id)
  }

  /** The write looks at nothing but the row: a deleted one is not found. */
  function WriteDraft(l: Ledger, id: Id): Ledger {
    if Live(l.invoices, id) then PutInvoice(l, id, l.invoices[id].(status := Draft)) else l
  }

  /** A positive amount that fits a live confirmed invoice. */
  predicate Admits(l: Ledger, invoice: Id, amount: real) {
    0.0 < amount && Live(l.invoices, invoice) && ApplyRefusal(l.invoices, invoice, amount).None?
  }

  function InsertPayment(l: Ledger, a: Admission): Ledger {
    if a.id in l.payments then l else l.(payments := l.payments[a.id := a.payment])
  }

  function Happen(o: Office, e: Event): Office {
    match e
    case Called(c) => o.(ledger := After(o.ledger, Step(o.ledger, c)))
    case Looked(t, id) => if t in o.passed || !Passes(o.ledger, id) then o else o.(passed := o.passed[t := id])
    case Wrote(t) =>
      if t !in o.passed then o else o.(ledger := WriteDraft(o.ledger, o.passed[t]), passed := o.passed - {t})
    case Admitted(t, id, invoice, amount) =>
      if t in o.admitted || !Admits(o.ledger, invoice, amount) then o
      else
        var payment := Payment(invoice, o.ledger.invoices[invoice].mitra, ToCents(amount), false);
        o.(admitted := o.admitted[t := Admission(id, payment)])
    case Inserted(t) =>
      if t !in o.admitted then o
      else o.(ledger := InsertPayment(o.ledger, o.admitted[t]), admitted := o.admitted - {t})
  }

  function Play(events: seq<Event>): Office {
    if events == [] then Office(EMPTY, map[], map[])
    else Happen(Play(events[..|events| - 1]), events[|events| - 1])
  }

  lemma PlayNext(events: seq<Event>, n: nat)
    requires n < |events|
    ensures Play(events[..n + 1]) == Happen(Play(events[..n]), events[n])
  {
    assert events[..n + 1][..n] == events[..n];
  }

  lemma PlayOneMore(events: seq<Event>, e: Event)
    ensures Play(events + [e]) == Happen(Play(events), e)
  {
    assert (events + [e])[..|events|] == events;
  }

  /** Look and write with nothing in between is the revert of the ledger. */
  lemma AtOnceIsTheRevert(o: Office, t: nat, id: Id)
    requires t !in o.passed
    ensures Happen(Happen(o, Looked(t, id)), Wrote(t)).ledger == After(o.ledger, DoRevertInvoice(o.ledger, id))
  {
  }

  /** So is the creation of a payment. */
  lemma AtOnceIsThePayment(o: Office, t: nat, id: Id, invoice: Id, amount: real)
    requires t !in o.admitted
    ensures Happen(Happen(o, Admitted(t, id, invoice, amount)), Inserted(t)).ledger ==
            After(o.ledger, DoCreatePayment(o.ledger, id, invoice, amount))
  {
  }

  // --- exactly when a draft carries money ----------------------------------------------------

  /** What the write finds on the invoice is still nothing. */
  predicate StillClear(l: Ledger, id: Id) {
    Live(l.invoices, id) ==> NoMoney(l, id)
  }

  /** The write moves no balance: each one is still the money on record. */
  lemma WriteMovesNoMoney(l: Ledger, id: Id, i: Id)
    requires Inv(l) && i in l.invoices
    ensures var l' := WriteDraft(l, id);
            && i in l'.invoices
            && l'.invoices[i].paid == VerifiedOn(l'.payments, i) + AllocatedOn(l'.receipts, i)
  {
    assert InvoiceOk(l, i);
  }

  /** A write leaves a consistent ledger exactly when nothing is recorded on the invoice. */
  lemma WriteKeepsInvExactlyWhen(l: Ledger, id: Id)
    requires Inv(l)
    ensures Inv(WriteDraft(l, id)) <==> StillClear(l, id)
  {
    if !Live(l.invoices, id) {
      assert WriteDraft(l, id) == l;
    } else if NoMoney(l, id) {
      ClearWriteKeepsInv(l, id);
    } else {
      DirtyWriteBreaksInv(l, id);
    }
  }

  lemma DirtyWriteBreaksInv(l: Ledger, id: Id)
    requires Live(l.invoices, id) && !NoMoney(l, id)
    ensures !Inv(WriteDraft(l, id))
  {
    assert !InvoiceOk(WriteDraft(l, id), id);
  }

  lemma ClearWriteKeepsInv(l: Ledger, id: Id)
    requires Inv(l) && Live(l.invoices, id) && NoMoney(l, id)
    ensures Inv(WriteDraft(l, id))
  {
    assert InvoiceOk(l, id);
    PutInvoiceKeepsInv(l, id, l.invoices[id].(status := Draft));
  }

  /** What was admitted can still be inserted: the invoice is on record, whatever its status. */
  ghost predicate AdmissionOk(a: Admission, l: Ledger) {
    PaymentOk(a.payment, l.invoices) && !a.payment.verified
  }

  /** The invoice has not become a draft since. */
  predicate StillOpen(l: Ledger, a: Admission) {
    a.id !in l.payments && a.payment.invoice in l.invoices ==> l.invoices[a.payment.invoice].status != Draft
  }

  /** An insert leaves a consistent ledger exactly when its invoice is not a draft. */
  lemma InsertKeepsInvExactlyWhen(l: Ledger, a: Admission)
    requires Inv(l) && AdmissionOk(a, l)
    ensures Inv(InsertPayment(l, a)) <==> StillOpen(l, a)
  {
    if a.id !in l.payments {
      if l.invoices[a.payment.invoice].status == Draft {
        InsertOnDraftBreaksInv(l, a);
      } else {
        InsertKeepsInv(l, a);
      }
    }
  }

  lemma InsertOnDraftBreaksInv(l: Ledger, a: Admission)
    requires a.id !in l.payments && a.payment.invoice in l.invoices && l.invoices[a.payment.invoice].status == Draft
    ensures !Inv(InsertPayment(l, a))
  {
    var l' := InsertPayment(l, a);
    assert l'.payments[a.id].invoice == a.payment.invoice;
    assert !InvoiceOk(l', a.payment.invoice);
  }

  lemma InsertKeepsInv(l: Ledger, a: Admission)
    requires Inv(l) && AdmissionOk(a, l) && a.id !in l.payments && l.invoices[a.payment.invoice].status != Draft
    ensures Inv(InsertPayment(l, a))
  {
    var l' := InsertPayment(l, a);
    forall i | i in l'.invoices
      ensures InvoiceOk(l', i)
    {
      assert InvoiceOk(l, i);
      VerifiedAfterWrite(l.payments, a.id, a.payment, i);
    }
  }

  predicate ClearEvent(o: Office, e: Event) {
    match e
    case Wrote(t) => t in o.passed ==> StillClear(o.ledger, o.passed[t])
    case Inserted(t) => t in o.admitted ==> StillOpen(o.ledger, o.admitted[t])
    case _ => true
  }

  predicate ClearAt(events: seq<Event>, n: nat)
    requires n < |events|
  {
    ClearEvent(Play(events[..n]), events[n])
  }

  ghost predicate ConsistentAt(events: seq<Event>, n: nat)
    requires n <= |events|
  {
    Inv(Play(events[..n]).ledger)
  }

  predicate AllClear(events: seq<Event>, n: nat)
    requires n <= |events|
  {
    forall k :: 0 <= k < n ==> ClearAt(events, k)
  }

  ghost predicate AdmissionsOk(o: Office) {
    forall t :: t in o.admitted ==> AdmissionOk(o.admitted[t], o.ledger)
  }

  /** An invoice stays on record, and only its own revert makes it a draft. */
  predicate Stays(before: map<Id, Invoice>, after: map<Id, Invoice>, i: Id)
    requires i in before
  {
    i in after && (after[i].status == Draft ==> before[i].status == Draft)
  }

  lemma CallsKeepInvoices(l: Ledger, c: Command, i: Id)
    requires i in l.invoices && c != RevertInvoice(i)
    ensures Stays(l.invoices, After(l, Step(l, c)).invoices, i)
  {
    if Step(l, c).Ok? {
      StatusMoves(l, c, i);
    }
  }

  lemma InvoicesRemain(l: Ledger, c: Command, i: Id)
    requires i in l.invoices
    ensures i in After(l, Step(l, c)).invoices
  {
    if c != RevertInvoice(i) {
      CallsKeepInvoices(l, c, i);
    }
  }

  lemma AdmissionsStayOk(o: Office, e: Event)
    requires AdmissionsOk(o)
    ensures AdmissionsOk(Happen(o, e))
  {
    forall t | t in Happen(o, e).admitted
      ensures AdmissionOk(Happen(o, e).admitted[t], Happen(o, e).ledger)
    {
      match e
      case Called(c) => InvoicesRemain(o.ledger, c, o.admitted[t].payment.invoice);
      case Admitted(_, _, _, amount) =>
        if t !in o.admitted {
          NonNegativeCents(amount);
        }
      case _ =>
    }
  }

  lemma EventKeepsInvExactlyWhen(o: Office, e: Event)
    requires Inv(o.ledger) && AdmissionsOk(o)
    ensures Inv(Happen(o, e).ledger) <==> ClearEvent(o, e)
  {
    match e
    case Called(c) => StepKeepsInv(o.ledger, c);
    case Wrote(t) =>
      if t in o.passed {
        WriteKeepsInvExactlyWhen(o.ledger, o.passed[t]);
      }
    case Inserted(t) =>
      if t in o.admitted {
        InsertKeepsInvExactlyWhen(o.ledger, o.admitted[t]);
      }
    case _ =>
  }

  lemma {:induction false} AdmittedIsOk(events: seq<Event>, n: nat)
    requires n <= |events|
    ensures AdmissionsOk(Play(events[..n]))
  {
    if n > 0 {
      AdmittedIsOk(events, n - 1);
      PlayNext(events, n - 1);
      AdmissionsStayOk(Play(events[..n - 1]), events[n - 1]);
    }
  }

  lemma NextKeepsInvExactlyWhen(events: seq<Event>, n: nat)
    requires n < |events| && ConsistentAt(events, n)
    ensures ConsistentAt(events, n + 1) <==> ClearAt(events, n)
  {
    AdmittedIsOk(events, n);
    PlayNext(events, n);
    EventKeepsInvExactlyWhen(Play(events[..n]), events[n]);
  }

  lemma {:induction false} ClearEventsKeepInv(events: seq<Event>, n: nat)
    requires n <= |events| && AllClear(events, n)
    ensures ConsistentAt(events, n)
  {
    if n == 0 {
      RunKeepsInv([]);
    } else {
      assert AllClear(events, n - 1) && ClearAt(events, n - 1);
      ClearEventsKeepInv(events, n - 1);
      NextKeepsInvExactlyWhen(events, n - 1);
    }
  }

  /**
   Whatever overlaps, the ledger is consistent after every event, drafts without money
   included, exactly when every status is written while nothing is recorded on its invoice
   and every payment is inserted while its invoice is not a draft.
   */
  lemma DraftsStayClearExactlyWhen(events: seq<Event>)
    ensures (forall n :: 0 <= n <= |events| ==> ConsistentAt(events, n)) <==> AllClear(events, |events|)
  {
    if forall n :: 0 <= n <= |events| ==> ConsistentAt(events, n) {
      forall n | 0 <= n < |events|
        ensures ClearAt(events, n)
      {
        assert ConsistentAt(events, n) && ConsistentAt(events, n + 1);
        NextKeepsInvExactlyWhen(events, n);
      }
    }
    if AllClear(events, |events|) {
      forall n | 0 <= n <= |events|
        ensures ConsistentAt(events, n)
      {
        assert AllClear(events, n);
        ClearEventsKeepInv(events, n);
      }
    }
  }

  // --- which calls can overtake a look ---------------------------------------------------------

  /** The calls that can record money on an invoice that had none. */
  predicate RecordsOn(c: Command, id: Id) {
    match c
    case CreatePayment(_, invoice, _) => invoice == id
    case CreateReceipt(_, _, s) => Names(s, id)
    case UpdateReceipt(_, _, s) => Names(s, id)
    case _ => false
  }

  lemma SortedNames(s: seq<AllocationInput>, id: Id)
    requires Normalize(s).Ok? && Names(Normalize(s).value, id)
    ensures Names(s, id)
  {
    SortKeepsRows(s);
    var sorted := Normalize(s).value;
    var k :| 0 <= k < |sorted| && sorted[k].invoice == id;
    assert sorted[k] in multiset(sorted);
    assert sorted[k] in s;
  }

  lemma PutReceiptRecordsOnlyNamed(l: Ledger, r: Id, mitra: Id, s: seq<AllocationInput>, id: Id)
    requires PutReceipt(l, r, mitra, s).Ok? && NoMoney(l, id) && !Names(s, id)
    ensures NoMoney(PutReceipt(l, r, mitra, s).value, id)
  {
    var l' := PutReceipt(l, r, mitra, s).value;
    forall q | q in l'.receipts && !l'.receipts[q].deleted
      ensures !Touches(l'.receipts[q].allocations, id)
    {
      if q == r {
        forall k | 0 <= k < |AllocationRows(s)|
          ensures AllocationRows(s)[k].invoice != id
        {
          assert s[k].invoice != id;
        }
      }
    }
  }

  lemma TakeBackRecordsNothing(l: Ledger, r: Id, id: Id)
    requires r in l.receipts && TakeBack(l, r).Ok? && NoMoney(l, id)
    ensures NoMoney(TakeBack(l, r).value, id)
  {
  }

  /** Any other call leaves an invoice without money as it was in this respect. */
  lemma OthersRecordNothing(l: Ledger, c: Command, id: Id)
    requires NoMoney(l, id) && !RecordsOn(c, id)
    ensures NoMoney(After(l, Step(l, c)), id)
  {
    if Step(l, c).Ok? {
      match c
      case CreateReceipt(r, mitra, s) =>
        NamesOnlyIfGiven(s, id);
        PutReceiptRecordsOnlyNamed(l, r, mitra, Normalize(s).value, id);
      case UpdateReceipt(r, mitra, s) =>
        NamesOnlyIfGiven(s, id);
        TakeBackRecordsNothing(l, r, id);
        PutReceiptRecordsOnlyNamed(TakeBack(l, r).value, r, mitra, Normalize(s).value, id);
      case DeleteReceipt(r) => TakeBackRecordsNothing(l, r, id);
      case _ =>
    }
  }

  lemma NamesOnlyIfGiven(s: seq<AllocationInput>, id: Id)
    requires Normalize(s).Ok? && !Names(s, id)
    ensures !Names(Normalize(s).value, id)
  {
    if Names(Normalize(s).value, id) {
      SortedNames(s, id);
    }
  }

  predicate RecordsMoney(o: Office, e: Event, id: Id) {
    match e
    case Called(c) => RecordsOn(c, id)
    case Inserted(t) => t in o.admitted && o.admitted[t].payment.invoice == id
    case _ => false
  }

  predicate MakesDraft(o: Office, e: Event, id: Id) {
    match e
    case Called(RevertInvoice(i)) => i == id
    case Wrote(t) => t in o.passed && o.passed[t] == id
    case _ => false
  }

  lemma OtherEventsRecordNothing(o: Office, e: Event, id: Id)
    requires NoMoney(o.ledger, id) && !RecordsMoney(o, e, id)
    ensures NoMoney(Happen(o, e).ledger, id)
  {
    if e.Called? {
      OthersRecordNothing(o.ledger, e.command, id);
    }
  }

  /** An invoice that is not a draft. */
  predicate Open(l: Ledger, id: Id) {
    id in l.invoices && l.invoices[id].status != Draft
  }

  lemma OtherEventsKeepOpen(o: Office, e: Event, id: Id)
    requires Open(o.ledger, id) && !MakesDraft(o, e, id)
    ensures Open(Happen(o, e).ledger, id)
  {
    if e.Called? {
      CallsKeepInvoices(o.ledger, e.command, id);
    }
  }

  /** Event e touches nothing that a waiting revert or payment relies on. */
  predicate Spares(o: Office, e: Event) {
    && (forall t :: t in o.passed && t in Happen(o, e).passed ==> !RecordsMoney(o, e, o.passed[t]))
    && (forall t :: t in o.admitted && t in Happen(o, e).admitted ==> !MakesDraft(o, e, o.admitted[t].payment.invoice))
  }

  predicate Unovertaken(events: seq<Event>, n: nat)
    requires n <= |events|
  {
    forall m :: 0 <= m < n ==> Spares(Play(events[..m]), events[m])
  }

  /** What every waiting revert and payment saw still holds. */
  predicate LooksHold(o: Office) {
    && (forall t :: t in o.passed ==> NoMoney(o.ledger, o.passed[t]))
    && (forall t :: t in o.admitted ==> Open(o.ledger, o.admitted[t].payment.invoice))
  }

  lemma SparedLooksHold(o: Office, e: Event)
    requires LooksHold(o) && Spares(o, e)
    ensures LooksHold(Happen(o, e))
  {
    forall t | t in Happen(o, e).passed
      ensures NoMoney(Happen(o, e).ledger, Happen(o, e).passed[t])
    {
      if t in o.passed {
        OtherEventsRecordNothing(o, e, o.passed[t]);
      }
    }
    forall t | t in Happen(o, e).admitted
      ensures Open(Happen(o, e).ledger, Happen(o, e).admitted[t].payment.invoice)
    {
      if t in o.admitted {
        OtherEventsKeepOpen(o, e, o.admitted[t].payment.invoice);
      }
    }
  }

  lemma {:induction false} UnovertakenLooksHold(events: seq<Event>, n: nat)
    requires n <= |events| && Unovertaken(events, n)
    ensures LooksHold(Play(events[..n]))
  {
    if n > 0 {
      UnovertakenLooksHold(events, n - 1);
      PlayNext(events, n - 1);
      assert Spares(Play(events[..n - 1]), events[n - 1]);
      SparedLooksHold(Play(events[..n - 1]), events[n - 1]);
    }
  }

  /**
   When nothing is recorded on an invoice between the look and the write of its revert, and
   no invoice becomes a draft between the look of a payment and its insert, no draft ever
   carries money.
   */
  lemma UnovertakenLooksAreSafe(events: seq<Event>)
    requires Unovertaken(events, |events|)
    ensures forall n :: 0 <= n <= |events| ==> ConsistentAt(events, n)
  {
    forall n | 0 <= n < |events|
      ensures ClearAt(events, n)
    {
      assert Unovertaken(events, n);
      UnovertakenLooksHold(events, n);
    }
    DraftsStayClearExactlyWhen(events);
  }

  // --- a look that is overtaken -----------------------------------------------------------------

  function CalledAll(commands: seq<Command>): seq<Event> {
    seq(|commands|, k requires 0 <= k < |commands| => Called(commands[k]))
  }

  lemma {:induction false} PlayCalls(commands: seq<Command>)
    ensures Play(CalledAll(commands)) == Office(Run(commands), map[], map[])
  {
    if commands != [] {
      var n := |commands| - 1;
      PlayCalls(commands[..n]);
      assert CalledAll(commands)[..n] == CalledAll(commands[..n]);
    }
  }

  lemma ApplyOne(invoices: map<Id, Invoice>, mitra: Id, a: AllocationInput)
    requires AllocationRefusal(invoices, mitra, a).None?
    ensures ApplyAll(invoices, mitra, [a]) ==
            Ok(Applied(invoices[a.invoice := Credited(invoices[a.invoice], a.amount)], ToCents(Units(0) + a.amount)))
  {
    assert [a][..0] == [];
    assert ApplyAll(invoices, mitra, []) == Ok(Applied(invoices, 0));
  }

  lemma SortOne(a: AllocationInput)
    ensures Normalize([a]) == Ok([a])
  {
    assert [a][1..] == [];
    assert SortByInvoice([]) == [];
    assert SortByInvoice([a]) == [a];
  }

  lemma FullReceipt(inv: Invoice)
    requires !inv.deleted && inv.mitra == 7 && inv.status == Confirmed && inv.grandTotal == 1000 && inv.paid == 0
    ensures DoCreateReceipt(Ledger(map[1 := inv], map[], map[]), 5, 7, [AllocationInput(1, Units(1000))]) ==
            Ok(Ledger(map[1 := inv.(paid := 1000, paymentStatus := Paid)],
                      map[5 := Receipt(7, 1000, [Allocation(1, 1000)], false)], map[]))
  {
    var a, l := AllocationInput(1, Units(1000)), Ledger(map[1 := inv], map[], map[]);
    var paid := inv.(paid := 1000, paymentStatus := Paid);
    StoredAmountsAreExact(1000);
    AddingToStored(0, Units(1000));
    assert Credited(inv, a.amount) == paid;
    assert map[1 := inv][1 := paid] == map[1 := paid];
    ApplyOne(l.invoices, 7, a);
    SortOne(a);
    assert AllocationRows([a]) == [Allocation(1, 1000)];
    assert l.receipts[5 := Receipt(7, 1000, [Allocation(1, 1000)], false)] ==
           map[5 := Receipt(7, 1000, [Allocation(1, 1000)], false)];
    assert PutReceipt(l, 5, 7, [a]) ==
           Ok(Ledger(map[1 := paid], map[5 := Receipt(7, 1000, [Allocation(1, 1000)], false)], map[]));
  }

  predicate AllAccepted(events: seq<Event>) {
    forall n :: 0 <= n < |events| && events[n].Called? ==> Step(Play(events[..n]).ledger, events[n].command).Ok?
  }

  lemma AcceptedOneMore(events: seq<Event>, e: Event)
    requires AllAccepted(events) && (e.Called? ==> Step(Play(events).ledger, e.command).Ok?)
    ensures AllAccepted(events + [e])
  {
    forall n | 0 <= n < |events + [e]| && (events + [e])[n].Called?
      ensures Step(Play((events + [e])[..n]).ledger, (events + [e])[n].command).Ok?
    {
      assert (events + [e])[..n] == events[..n];
      if n == |events| {
        assert events[..n] == events;
      }
    }
  }

  lemma CallsAccepted(commands: seq<Command>)
    requires |commands| == 2 && Step(EMPTY, commands[0]).Ok? && Step(Run(commands[..1]), commands[1]).Ok?
    ensures AllAccepted(CalledAll(commands))
  {
    PlayCalls(commands[..0]);
    PlayCalls(commands[..1]);
    assert CalledAll(commands)[..0] == CalledAll(commands[..0]) && CalledAll(commands)[..1] == CalledAll(commands[..1]);
  }

  /** An accepted call between the look and the write of a revert of invoice 1. */
  lemma Overtaken(before: seq<Event>, c: Command) returns (events: seq<Event>)
    requires AllAccepted(before) && Play(before).passed == map[] && Passes(Play(before).ledger, 1)
    requires Step(Play(before).ledger, c).Ok?
    ensures events == before + [Looked(0, 1), Called(c), Wrote(0)] && AllAccepted(events)
    ensures Play(events).ledger == WriteDraft(Step(Play(before).ledger, c).value, 1)
  {
    var looked := before + [Looked(0, 1)];
    PlayOneMore(before, Looked(0, 1));
    AcceptedOneMore(before, Looked(0, 1));
    PlayOneMore(looked, Called(c));
    AcceptedOneMore(looked, Called(c));
    PlayOneMore(looked + [Called(c)], Wrote(0));
    AcceptedOneMore(looked + [Called(c)], Wrote(0));
    events := looked + [Called(c)] + [Wrote(0)];
  }

  lemma FullShare()
    ensures AllocatedOn(map[5 := Receipt(7, 1000, [Allocation(1, 1000)], false)], 1) == 1000
  {
    var r := Receipt(7, 1000, [Allocation(1, 1000)], false);
    AllocatedAfterWrite(map[], 5, r, 1);
    assert Shares(map[], 1) == map[];
    assert r.allocations[..0] == [];
    assert SumFor([], 1) == 0;
    assert map[][5 := r] == map[5 := r];
  }

  /** Two calls, and a revert of invoice 1 with a receipt for it between look and write. */
  predicate ReceiptBetween(events: seq<Event>) {
    && |events| == 5 && events[0].Called? && events[1].Called?
    && events[2] == Looked(0, 1)
    && events[3] == Called(CreateReceipt(5, 7, [AllocationInput(1, Units(1000))]))
    && events[4] == Wrote(0)
  }

  ghost predicate PaidDraft(l: Ledger, id: Id) {
    && Live(l.invoices, id) && l.invoices[id].status == Draft
    && 0 < l.invoices[id].grandTotal == l.invoices[id].paid == AllocatedOn(l.receipts, id)
  }

  /**
   A receipt that pays a confirmed invoice in full arrives after the look of its revert:
   every call is accepted and the invoice ends as a draft with everything paid.
   */
  lemma OvertakenRevertLeavesMoney() returns (events: seq<Event>)
    ensures ReceiptBetween(events) && AllAccepted(events) && PaidDraft(Play(events).ledger, 1)
  {
    var commands := OneConfirmedInvoice(1000);
    PlayCalls(commands);
    CallsAccepted(commands);
    var called, receipt := CalledAll(commands), CreateReceipt(5, 7, [AllocationInput(1, Units(1000))]);
    var inv := Run(commands).invoices[1];
    FullReceipt(inv);
    events := Overtaken(called, receipt);
    FullShare();
  }
}

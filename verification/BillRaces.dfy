/**
 Purchase receipts edited and deleted by overlapping requests. The stored receipt is read
 before the transaction starts; the transaction gives back what was read and writes the
 row with whatever it holds by then. Bills are locked until the commit, so a transaction
 takes effect as one step there.
 */
module BillRaces {
  import opened Results
  import opened Money
  import opened Sums
  import opened InvoiceBalance
  import opened PurchaseLedger
  import opened PurchaseLaws

  /** A receipt as a request read it. */
  datatype Seen = Seen(id: Id, row: BillReceipt)

  datatype Desk = Desk(payables: Payables, read: map<nat, Seen>)

  datatype Event =
    | Called(command: Command)
    | Looked(t: nat, id: Id)
    | Deleted(t: nat)
    | Changed(t: nat, mitra: Id, bill: Option<Id>, amount: real)

  /** Both writes leave a row alone that is deleted by then. */
  function RemoveRow(receipts: map<Id, BillReceipt>, id: Id): map<Id, BillReceipt> {
    if id in receipts then receipts[id := receipts[id].(deleted := true)] else receipts
  }

  function ChangeRow(receipts: map<Id, BillReceipt>, id: Id, row: BillReceipt): map<Id, BillReceipt> {
    if id in receipts && !receipts[id].deleted then receipts[id := row] else receipts
  }

  function StaleDelete(l: Payables, s: Seen): Payables {
    Payables(Refunded(l.bills, s.row), RemoveRow(l.receipts, s.id))
  }

  /** Refused as a whole when the new amount can't be applied. */
  function StaleChange(l: Payables, s: Seen, mitra: Id, bill: Option<Id>, amount: real): Payables {
    var bills, receipts :=
      Refunded(l.bills, s.row), ChangeRow(l.receipts, s.id, BillReceipt(mitra, bill, ToCents(amount), false));
    if bill.None? then Payables(bills, receipts)
    else if BillRefusal(bills, bill.value, mitra, amount).Some? then l
    else Payables(bills[bill.value := Paying(bills[bill.value], amount)], receipts)
  }

  ghost function Happen(d: Desk, e: Event): Desk {
    match e
    case Called(c) => d.(payables := After(d.payables, Step(d.payables, c)))
    case Looked(t, id) =>
      if t in d.read || !LiveRow(d.payables, id) then d
      else d.(read := d.read[t := Seen(id, d.payables.receipts[id])])
    case Deleted(t) =>
      if t !in d.read then d else Desk(StaleDelete(d.payables, d.read[t]), d.read - {t})
    case Changed(t, mitra, bill, amount) =>
      if t !in d.read || amount <= 0.0 then d
      else Desk(StaleChange(d.payables, d.read[t], mitra, bill, amount), d.read - {t})
  }

  ghost function Play(events: seq<Event>): Desk {
    if events == [] then Desk(NO_PAYABLES, map[])
    else Happen(Play(events[..|events| - 1]), events[|events| - 1])
  }

  lemma PlayNext(events: seq<Event>, n: nat)
    requires n < |events|
    ensures Play(events[..n + 1]) == Happen(Play(events[..n]), events[n])
  {
    assert events[..n + 1][..n] == events[..n];
  }

  /** With nothing in between, look and commit are the calls of the ledger. */
  lemma AtOnceAreTheCalls(d: Desk, t: nat, id: Id, mitra: Id, bill: Option<Id>, amount: real)
    requires t !in d.read && LiveRow(d.payables, id) && 0.0 < amount
    ensures Happen(Happen(d, Looked(t, id)), Deleted(t)).payables == After(d.payables, DoDeleteReceipt(d.payables, id))
    ensures Happen(Happen(d, Looked(t, id)), Changed(t, mitra, bill, amount)).payables ==
            After(d.payables, DoUpdateReceipt(d.payables, id, mitra, bill, amount))
  {
    var l, row := d.payables, BillReceipt(mitra, bill, ToCents(amount), false);
    assert TakeRowBack(l, id).receipts[id := row] == l.receipts[id := row];
  }

  // --- one commit -------------------------------------------------------------------------

  /** What the row read is worth on a bill. */
  function Worth(r: BillReceipt, b: Id): Cents {
    if r.bill == Some(b) then r.amount else 0
  }

  /** What giving the row back takes from the bill, which never goes below zero. */
  function GivenBack(l: Payables, s: Seen, b: Id): Cents
    requires b in l.bills
  {
    if Worth(s.row, b) <= l.bills[b].paid then Worth(s.row, b) else l.bills[b].paid
  }

  /** What a live row still records on the bill; nothing once it is deleted. */
  function OnRecord(l: Payables, id: Id, b: Id): Cents {
    if id in l.receipts then PartOf(l.receipts[id], b) else 0
  }

  /** What an accepted edit records on a bill. */
  function Added(bill: Option<Id>, amount: real, b: Id): Cents {
    if bill == Some(b) then ToCents(amount) else 0
  }

  predicate Accepted(l: Payables, s: Seen, mitra: Id, bill: Option<Id>, amount: real) {
    bill.Some? ==> BillRefusal(Refunded(l.bills, s.row), bill.value, mitra, amount).None?
  }

  /** A delete takes from every bill what the row records on it. */
  predicate HarmlessDelete(l: Payables, s: Seen) {
    forall b :: b in l.bills ==> GivenBack(l, s, b) == OnRecord(l, s.id, b)
  }

  /** An edit is refused, or takes what the row records; on a deleted row, it takes what it adds. */
  predicate HarmlessChange(l: Payables, s: Seen, mitra: Id, bill: Option<Id>, amount: real) {
    Accepted(l, s, mitra, bill, amount) ==>
      forall b :: b in l.bills ==>
        GivenBack(l, s, b) == if LiveRow(l, s.id) then OnRecord(l, s.id, b) else Added(bill, amount, b)
  }

  /** Everything of the invariant but the equation between balances and receipts. */
  ghost predicate BillShape(b: Bill, id: Id, receipts: map<Id, BillReceipt>) {
    && 0 <= b.grandTotal && 0 <= b.paid && b.paymentStatus == StatusOf(b.paid, b.grandTotal)
    && (b.status != Confirmed ==> NoReceipts(receipts, id))
  }

  ghost predicate Balanced(l: Payables, b: Id)
    requires b in l.bills
  {
    l.bills[b].paid == PaidByReceipts(l.receipts, b)
  }

  ghost predicate SeenOk(s: Seen, l: Payables) {
    s.id in l.receipts && 0 <= s.row.amount && !s.row.deleted
  }

  lemma BillIsOk(l: Payables, b: Id)
    requires Inv(l) && b in l.bills
    ensures BillShape(l.bills[b], b, l.receipts) && Balanced(l, b)
  {
    assert BillOk(l.bills[b], b, l.receipts);
    PartsOnRecord(l.receipts, l.bills, b);
  }

  /** Giving back lowers the balance by what is given back, and nothing else of the bill but its status moves. */
  lemma RefundedBill(l: Payables, s: Seen, b: Id)
    requires b in l.bills && 0 <= l.bills[b].paid && 0 <= s.row.amount
    requires l.bills[b].paymentStatus == StatusOf(l.bills[b].paid, l.bills[b].grandTotal)
    ensures b in Refunded(l.bills, s.row)
    ensures Refunded(l.bills, s.row)[b] == Settled(l.bills[b], l.bills[b].paid - GivenBack(l, s, b))
    ensures 0 <= GivenBack(l, s, b) <= l.bills[b].paid
  {
  }

  lemma RemovedRow(l: Payables, id: Id, b: Id)
    requires id in l.receipts
    ensures PaidByReceipts(RemoveRow(l.receipts, id), b) == PaidByReceipts(l.receipts, b) - OnRecord(l, id, b)
    ensures NoReceipts(l.receipts, b) ==> NoReceipts(RemoveRow(l.receipts, id), b)
  {
    PaidAfterWrite(l.receipts, id, l.receipts[id].(deleted := true), b);
  }

  lemma DeleteOnBill(l: Payables, s: Seen, b: Id)
    requires Inv(l) && SeenOk(s, l) && b in l.bills
    ensures var l' := StaleDelete(l, s);
            && b in l'.bills
            && (BillOk(l'.bills[b], b, l'.receipts) <==> GivenBack(l, s, b) == OnRecord(l, s.id, b))
  {
    BillIsOk(l, b);
    RefundedBill(l, s, b);
    RemovedRow(l, s.id, b);
  }

  /** A delete keeps every balance the sum of the live receipts exactly when it is harmless. */
  lemma DeleteKeepsInvExactlyWhen(l: Payables, s: Seen)
    requires Inv(l) && SeenOk(s, l)
    ensures Inv(StaleDelete(l, s)) <==> HarmlessDelete(l, s)
  {
    var l' := StaleDelete(l, s);
    assert RowsOk(l'.receipts, l'.bills);
    forall b | b in l.bills
      ensures b in l'.bills
      ensures BillOk(l'.bills[b], b, l'.receipts) <==> GivenBack(l, s, b) == OnRecord(l, s.id, b)
    {
      DeleteOnBill(l, s, b);
    }
    assert l'.bills.Keys == l.bills.Keys;
  }

  lemma ChangedRow(l: Payables, id: Id, mitra: Id, bill: Option<Id>, amount: real, b: Id)
    requires id in l.receipts
    ensures var receipts := ChangeRow(l.receipts, id, BillReceipt(mitra, bill, ToCents(amount), false));
            && PaidByReceipts(receipts, b) ==
               PaidByReceipts(l.receipts, b) +
               (if LiveRow(l, id) then Added(bill, amount, b) - OnRecord(l, id, b) else 0)
            && (NoReceipts(l.receipts, b) && bill != Some(b) ==> NoReceipts(receipts, b))
  {
    if LiveRow(l, id) {
      PaidAfterWrite(l.receipts, id, BillReceipt(mitra, bill, ToCents(amount), false), b);
    }
  }

  lemma ChangedBill(l: Payables, s: Seen, mitra: Id, bill: Option<Id>, amount: real, b: Id)
    requires b in l.bills && 0 <= l.bills[b].paid && 0 <= s.row.amount && 0.0 < amount
    requires l.bills[b].paymentStatus == StatusOf(l.bills[b].paid, l.bills[b].grandTotal)
    requires Accepted(l, s, mitra, bill, amount)
    ensures var l' := StaleChange(l, s, mitra, bill, amount);
            && b in l'.bills
            && l'.bills[b] == Settled(l.bills[b], l.bills[b].paid - GivenBack(l, s, b) + Added(bill, amount, b))
            && (bill == Some(b) ==> l.bills[b].status == Confirmed)
  {
    RefundedBill(l, s, b);
    if bill == Some(b) {
      AddingToStored(Refunded(l.bills, s.row)[b].paid, amount);
    }
  }

  lemma ChangeOnBill(l: Payables, s: Seen, mitra: Id, bill: Option<Id>, amount: real, b: Id)
    requires Inv(l) && SeenOk(s, l) && b in l.bills && 0.0 < amount && Accepted(l, s, mitra, bill, amount)
    ensures var l' := StaleChange(l, s, mitra, bill, amount);
            && b in l'.bills
            && (BillOk(l'.bills[b], b, l'.receipts) <==>
                GivenBack(l, s, b) == if LiveRow(l, s.id) then OnRecord(l, s.id, b) else Added(bill, amount, b))
  {
    BillIsOk(l, b);
    ChangedBill(l, s, mitra, bill, amount, b);
    ChangedRow(l, s.id, mitra, bill, amount, b);
  }

  lemma ChangeKeepsRows(l: Payables, s: Seen, mitra: Id, bill: Option<Id>, amount: real)
    requires Inv(l) && SeenOk(s, l) && 0.0 < amount && Accepted(l, s, mitra, bill, amount)
    ensures var l' := StaleChange(l, s, mitra, bill, amount);
            RowsOk(l'.receipts, l'.bills) && l'.bills.Keys == l.bills.Keys
  {
    NonNegativeCents(amount);
  }

  /** An edit keeps every balance the sum of the live receipts exactly when it is harmless. */
  lemma ChangeKeepsInvExactlyWhen(l: Payables, s: Seen, mitra: Id, bill: Option<Id>, amount: real)
    requires Inv(l) && SeenOk(s, l) && 0.0 < amount
    ensures Inv(StaleChange(l, s, mitra, bill, amount)) <==> HarmlessChange(l, s, mitra, bill, amount)
  {
    if Accepted(l, s, mitra, bill, amount) {
      var l' := StaleChange(l, s, mitra, bill, amount);
      ChangeKeepsRows(l, s, mitra, bill, amount);
      forall b | b in l.bills
        ensures b in l'.bills
        ensures BillOk(l'.bills[b], b, l'.receipts) <==>
                GivenBack(l, s, b) == if LiveRow(l, s.id) then OnRecord(l, s.id, b) else Added(bill, amount, b)
      {
        ChangeOnBill(l, s, mitra, bill, amount, b);
      }
    }
  }

  // --- every interleaving --------------------------------------------------------------------

  ghost predicate Harmless(d: Desk, e: Event) {
    match e
    case Deleted(t) => t in d.read ==> HarmlessDelete(d.payables, d.read[t])
    case Changed(t, mitra, bill, amount) =>
      t in d.read && 0.0 < amount ==> HarmlessChange(d.payables, d.read[t], mitra, bill, amount)
    case _ => true
  }

  ghost predicate HarmlessAt(events: seq<Event>, n: nat)
    requires n < |events|
  {
    Harmless(Play(events[..n]), events[n])
  }

  ghost predicate AllHarmless(events: seq<Event>, n: nat)
    requires n <= |events|
  {
    forall k :: 0 <= k < n ==> HarmlessAt(events, k)
  }

  ghost predicate ConsistentAt(events: seq<Event>, n: nat)
    requires n <= |events|
  {
    Inv(Play(events[..n]).payables)
  }

  /** What was read stays a row of the table. */
  ghost predicate AllSeenOk(d: Desk) {
    forall t :: t in d.read ==> SeenOk(d.read[t], d.payables)
  }

  lemma RowsRemain(l: Payables, c: Command, r: Id)
    requires r in l.receipts
    ensures r in After(l, Step(l, c)).receipts
  {
  }

  lemma SeenStaysOk(d: Desk, e: Event)
    requires Inv(d.payables) && AllSeenOk(d)
    ensures AllSeenOk(Happen(d, e))
  {
    forall t | t in Happen(d, e).read
      ensures SeenOk(Happen(d, e).read[t], Happen(d, e).payables)
    {
      if e.Called? {
        RowsRemain(d.payables, e.command, d.read[t].id);
      }
    }
  }

  lemma EventKeepsInvExactlyWhen(d: Desk, e: Event)
    requires Inv(d.payables) && AllSeenOk(d)
    ensures Inv(Happen(d, e).payables) <==> Harmless(d, e)
  {
    match e
    case Called(c) => StepKeepsInv(d.payables, c);
    case Looked(_, _) =>
    case Deleted(t) =>
      if t in d.read {
        DeleteKeepsInvExactlyWhen(d.payables, d.read[t]);
      }
    case Changed(t, mitra, bill, amount) =>
      if t in d.read && 0.0 < amount {
        ChangeKeepsInvExactlyWhen(d.payables, d.read[t], mitra, bill, amount);
      }
  }

  ghost predicate ConsistentUpTo(events: seq<Event>, n: nat)
    requires n <= |events|
  {
    forall k :: 0 <= k <= n ==> ConsistentAt(events, k)
  }

  lemma {:induction false} SeenIsOk(events: seq<Event>, n: nat)
    requires n <= |events| && ConsistentUpTo(events, n)
    ensures AllSeenOk(Play(events[..n]))
  {
    if n > 0 {
      SeenIsOk(events, n - 1);
      assert ConsistentAt(events, n - 1);
      PlayNext(events, n - 1);
      SeenStaysOk(Play(events[..n - 1]), events[n - 1]);
    }
  }

  lemma NextKeepsInvExactlyWhen(events: seq<Event>, n: nat)
    requires n < |events| && ConsistentUpTo(events, n)
    ensures ConsistentAt(events, n + 1) <==> HarmlessAt(events, n)
  {
    SeenIsOk(events, n);
    assert ConsistentAt(events, n);
    PlayNext(events, n);
    EventKeepsInvExactlyWhen(Play(events[..n]), events[n]);
  }

  lemma {:induction false} HarmlessKeepsInv(events: seq<Event>, n: nat)
    requires n <= |events| && AllHarmless(events, n)
    ensures ConsistentUpTo(events, n)
  {
    if n == 0 {
      RunKeepsInv([]);
    } else {
      assert AllHarmless(events, n - 1) && HarmlessAt(events, n - 1);
      HarmlessKeepsInv(events, n - 1);
      NextKeepsInvExactlyWhen(events, n - 1);
    }
  }

  lemma ConsistentMeansHarmless(events: seq<Event>, n: nat)
    requires n < |events| && ConsistentUpTo(events, |events|)
    ensures HarmlessAt(events, n)
  {
    assert ConsistentUpTo(events, n);
    assert ConsistentAt(events, n + 1);
    NextKeepsInvExactlyWhen(events, n);
  }

  /**
   Over every interleaving, every bill shows as paid the sum of its live receipts after
   every event exactly when every commit is harmless.
   */
  lemma BillsBalanceExactlyWhen(events: seq<Event>)
    ensures ConsistentUpTo(events, |events|) <==> AllHarmless(events, |events|)
  {
    if ConsistentUpTo(events, |events|) {
      forall n | 0 <= n < |events|
        ensures HarmlessAt(events, n)
      {
        ConsistentMeansHarmless(events, n);
      }
    }
    if AllHarmless(events, |events|) {
      HarmlessKeepsInv(events, |events|);
    }
  }

  // --- no overlap, no loss ---------------------------------------------------------------------

  /** The row is still what was read. */
  predicate Fresh(l: Payables, s: Seen) {
    s.id in l.receipts && l.receipts[s.id] == s.row && !s.row.deleted
  }

  lemma FreshIsHarmless(l: Payables, s: Seen)
    requires Inv(l) && Fresh(l, s)
    ensures forall b :: b in l.bills ==> GivenBack(l, s, b) == OnRecord(l, s.id, b)
  {
    forall b | b in l.bills
      ensures GivenBack(l, s, b) == OnRecord(l, s.id, b)
    {
      BillIsOk(l, b);
      PartsOnRecord(l.receipts, l.bills, b);
    }
  }

  /** The events that write a receipt's row. */
  predicate Rewrites(d: Desk, e: Event, r: Id) {
    match e
    case Called(UpdateReceipt(id, _, _, _)) => id == r
    case Called(DeleteReceipt(id)) => id == r
    case Called(_) => false
    case Looked(_, _) => false
    case Deleted(t) => t in d.read && d.read[t].id == r
    case Changed(t, _, _, amount) => t in d.read && 0.0 < amount && d.read[t].id == r
  }

  lemma OthersKeepTheRow(d: Desk, e: Event, r: Id)
    requires r in d.payables.receipts && !Rewrites(d, e, r)
    ensures r in Happen(d, e).payables.receipts && Happen(d, e).payables.receipts[r] == d.payables.receipts[r]
  {
  }

  /** While a request waits for its commit, no other event writes the receipt it read. */
  ghost predicate Apart(events: seq<Event>, n: nat)
    requires n <= |events|
  {
    forall m, t :: 0 <= m < n && t in Play(events[..m]).read && t in Happen(Play(events[..m]), events[m]).read ==>
      !Rewrites(Play(events[..m]), events[m], Play(events[..m]).read[t].id)
  }

  ghost predicate AllFresh(d: Desk) {
    forall t :: t in d.read ==> Fresh(d.payables, d.read[t])
  }

  lemma ApartStaysFresh(events: seq<Event>, n: nat)
    requires n < |events| && Apart(events, n + 1) && AllFresh(Play(events[..n]))
    ensures AllFresh(Play(events[..n + 1]))
  {
    var d, d' := Play(events[..n]), Play(events[..n + 1]);
    PlayNext(events, n);
    forall t | t in d'.read
      ensures Fresh(d'.payables, d'.read[t])
    {
      if t in d.read {
        OthersKeepTheRow(d, events[n], d.read[t].id);
      }
    }
  }

  lemma {:induction false} ApartIsFresh(events: seq<Event>, n: nat)
    requires n <= |events| && Apart(events, n)
    ensures AllFresh(Play(events[..n]))
  {
    if n > 0 {
      ApartIsFresh(events, n - 1);
      ApartStaysFresh(events, n - 1);
    }
  }

  lemma {:induction false} ApartIsHarmless(events: seq<Event>, n: nat)
    requires n <= |events| && Apart(events, n)
    ensures AllHarmless(events, n)
  {
    if n > 0 {
      var d := Play(events[..n - 1]);
      ApartIsHarmless(events, n - 1);
      HarmlessKeepsInv(events, n - 1);
      assert ConsistentAt(events, n - 1);
      ApartIsFresh(events, n - 1);
      match events[n - 1]
      case Deleted(t) =>
        if t in d.read {
          FreshIsHarmless(d.payables, d.read[t]);
        }
      case Changed(t, _, _, _) =>
        if t in d.read {
          FreshIsHarmless(d.payables, d.read[t]);
        }
      case _ =>
      assert HarmlessAt(events, n - 1);
    }
  }

  /** As long as no two requests overlap on one receipt, every bill balances throughout. */
  lemma WithoutOverlapBillsBalance(events: seq<Event>)
    requires Apart(events, |events|)
    ensures ConsistentUpTo(events, |events|)
  {
    ApartIsHarmless(events, |events|);
    BillsBalanceExactlyWhen(events);
  }

  // --- the same receipt deleted twice -------------------------------------------------------------

  /** The first delete goes by what the row still is. */
  lemma FirstDelete(l: Payables, s: Seen, b: Id)
    requires Inv(l) && Fresh(l, s) && s.row.bill == Some(b)
    ensures var once := StaleDelete(l, s);
            && b in l.bills && b in once.bills && s.row.amount <= l.bills[b].paid
            && Inv(once) && once.bills[b].paid == PaidByReceipts(once.receipts, b) == l.bills[b].paid - s.row.amount
            && s.id in once.receipts && !LiveRow(once, s.id)
  {
    BillIsOk(l, b);
    FreshIsHarmless(l, s);
    PartsOnRecord(l.receipts, l.bills, b);
    DeleteKeepsInvExactlyWhen(l, s);
    RefundedBill(l, s, b);
    BillIsOk(StaleDelete(l, s), b);
  }

  lemma SecondDelete(l: Payables, s: Seen, b: Id)
    requires Inv(l) && SeenOk(s, l) && !LiveRow(l, s.id) && s.row.bill == Some(b) && b in l.bills
    ensures var twice := StaleDelete(l, s);
            && b in twice.bills && twice.bills[b].paid == l.bills[b].paid - GivenBack(l, s, b)
            && PaidByReceipts(twice.receipts, b) == PaidByReceipts(l.receipts, b)
            && (Inv(twice) <==> s.row.amount == 0 || l.bills[b].paid == 0)
  {
    BillIsOk(l, b);
    RefundedBill(l, s, b);
    RemovedRow(l, s.id, b);
    DeleteKeepsInvExactlyWhen(l, s);
    forall i | i in l.bills && i != b
      ensures GivenBack(l, s, i) == OnRecord(l, s.id, i) == 0
    {
      BillIsOk(l, i);
    }
  }

  /** Two deletes that both read the receipt before either commits. */
  ghost function DeletedTwice(d: Desk, t: nat, u: nat, r: Id): Payables {
    Happen(Happen(Happen(Happen(d, Looked(t, r)), Looked(u, r)), Deleted(t)), Deleted(u)).payables
  }

  lemma BothGoThrough(d: Desk, t: nat, u: nat, r: Id)
    requires t != u && t !in d.read && u !in d.read && LiveRow(d.payables, r)
    ensures var s := Seen(r, d.payables.receipts[r]);
            DeletedTwice(d, t, u, r) == StaleDelete(StaleDelete(d.payables, s), s)
  {
    var s := Seen(r, d.payables.receipts[r]);
    var looked := Happen(Happen(d, Looked(t, r)), Looked(u, r));
    assert looked == Desk(d.payables, d.read[t := s][u := s]);
    assert Happen(looked, Deleted(t)) == Desk(StaleDelete(d.payables, s), d.read[t := s][u := s] - {t});
  }

  /**
   From any consistent state both deletes go through, the bill gives the amount back twice
   as far as its balance reaches, and it no longer shows the sum of its receipts unless the
   receipt was all that was paid, or worth nothing.
   */
  lemma DeletingTwiceLosesExactlyWhen(d: Desk, t: nat, u: nat, r: Id, b: Id)
    requires Inv(d.payables) && t != u && t !in d.read && u !in d.read
    requires LiveRow(d.payables, r) && d.payables.receipts[r].bill == Some(b)
    ensures var l, l', amount := d.payables, DeletedTwice(d, t, u, r), d.payables.receipts[r].amount;
            && b in l.bills && b in l'.bills
            && PaidByReceipts(l'.receipts, b) == l.bills[b].paid - amount
            && l'.bills[b].paid == (if 2 * amount <= l.bills[b].paid then l.bills[b].paid - 2 * amount else 0)
            && (Inv(l') <==> amount == 0 || amount == l.bills[b].paid)
  {
    var l, s := d.payables, Seen(r, d.payables.receipts[r]);
    FirstDelete(l, s, b);
    SecondDelete(StaleDelete(l, s), s, b);
    BothGoThrough(d, t, u, r);
  }
}

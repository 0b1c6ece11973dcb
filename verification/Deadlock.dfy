/**
 Lock order. Transactions whose first touches come in ascending invoice order never
 wait in a circle, and one of them can always move; receipt edits need a condition.
 */
module Deadlock {
  import opened Results
  import opened Sums
  import opened InvoiceBalance
  import opened SalesLedger
  import opened SalesLaws
  import opened RowLocks
  import opened RowLockLaws

  /** The rows a program locks, in the order it asks for them. */
  function LockSequence(p: Program): seq<Id> {
    seq(|p|, k requires 0 <= k < |p| => p[k].invoice)
  }

  /** Every row is asked for the first time after all smaller ones. */
  predicate FirstTouchesAscend(ids: seq<Id>) {
    forall a, b :: 0 <= a < b < |ids| && ids[b] !in ids[..b] ==> ids[a] < ids[b]
  }

  predicate LockOrdered(p: Program) {
    FirstTouchesAscend(LockSequence(p))
  }

  predicate AscendingIds(ids: seq<Id>) {
    forall a, b :: 0 <= a < b < |ids| ==> ids[a] < ids[b]
  }

  /** A create of a normalised list, a delete of a receipt on record, or a verify. */
  predicate OneSided(l: Ledger, q: Request) {
    Known(l, q) &&
    match q
    case Create(_, s) => Ascending(s)
    case Update(_, _, _) => false
    case Delete(r) => AscendingRows(l.receipts[r].allocations)
    case Verify(_) => true
  }

  /** Receipt creates, receipt deletes and payment verifies lock in ascending order. */
  lemma OneSidedRequestsAreOrdered(l: Ledger, q: Request)
    requires OneSided(l, q)
    ensures LockOrdered(ProgramOf(l, q))
  {
    assert AscendingIds(LockSequence(ProgramOf(l, q)));
  }

  lemma JoinedOrder(before: seq<Id>, after: seq<Id>)
    requires AscendingIds(before) && AscendingIds(after)
    ensures FirstTouchesAscend(before + after) <==>
            forall i, j :: i in before && j in after && j !in before ==> i < j
  {
    var ids, m := before + after, |before|;
    if forall i, j :: i in before && j in after && j !in before ==> i < j {
      forall a, b | 0 <= a < b < |ids| && ids[b] !in ids[..b]
        ensures ids[a] < ids[b]
      {
        if m <= b {
          assert ids[..b][..m] == before;
          assert forall i :: i in before ==> i in ids[..b];
          assert ids[b] == after[b - m] && ids[b] in after;
          if a < m {
            assert ids[a] == before[a] && ids[a] in before;
          } else {
            assert ids[a] == after[a - m];
          }
        }
      }
    }
    if FirstTouchesAscend(ids) {
      forall i, j | i in before && j in after && j !in before
        ensures i < j
      {
        var a :| 0 <= a < m && before[a] == i;
        var k :| 0 <= k < |after| && after[k] == j;
        assert ids[..m + k] == before + after[..k];
        assert ids[a] == i && ids[m + k] == j && j !in after[..k];
      }
    }
  }

  function OldInvoices(s: seq<Allocation>): seq<Id> {
    seq(|s|, k requires 0 <= k < |s| => s[k].invoice)
  }

  function NewInvoices(s: seq<AllocationInput>): seq<Id> {
    seq(|s|, k requires 0 <= k < |s| => s[k].invoice)
  }

  /**
   A receipt edit locks the old set and then the new one. It keeps the order exactly
   when every invoice it newly touches comes after all the invoices it had before.
   */
  lemma EditsAreOrderedExactlyWhen(l: Ledger, r: Id, mitra: Id, s: seq<AllocationInput>)
    requires LiveReceipt(l.receipts, r) && AscendingRows(l.receipts[r].allocations) && Ascending(s)
    ensures LockOrdered(ProgramOf(l, Update(r, mitra, s))) <==>
            (forall i, j ::
               i in OldInvoices(l.receipts[r].allocations) && j in NewInvoices(s)
               && j !in OldInvoices(l.receipts[r].allocations)
               ==> i < j)
  {
    var rows := l.receipts[r].allocations;
    assert LockSequence(ProgramOf(l, Update(r, mitra, s))) == OldInvoices(rows) + NewInvoices(s);
    JoinedOrder(OldInvoices(rows), NewInvoices(s));
  }

  // --- waiting ----------------------------------------------------------------

  predicate Wants(s: System, t: Tid) {
    IsRunning(s, t) && s.txns[t].done < |s.txns[t].program|
  }

  function Wanted(s: System, t: Tid): Id
    requires Wants(s, t)
  {
    s.txns[t].program[s.txns[t].done].invoice
  }

  /** t needs a row that u holds. */
  predicate WaitsFor(s: System, t: Tid, u: Tid) {
    Wants(s, t) && IsRunning(s, u) && u != t && Wanted(s, t) in s.txns[u].writes
  }

  ghost predicate AllOrdered(s: System) {
    forall t :: t in s.txns ==> LockOrdered(s.txns[t].program)
  }

  /** Along a wait, the wanted row id goes up. */
  lemma WaitsClimb(s: System, db0: Rows, t: Tid, u: Tid)
    requires SysInv(s, db0) && AllOrdered(s) && WaitsFor(s, t, u) && Wants(s, u)
    requires exists v :: WaitsFor(s, u, v)
    ensures Wanted(s, t) < Wanted(s, u)
  {
    var x := s.txns[u];
    assert TxnOk(s, u);
    AloneTouches(s.db, x.program[..x.done]);
    var v :| WaitsFor(s, u, v);
    assert Wanted(s, u) !in x.writes;
    var ids := LockSequence(x.program);
    var a :| 0 <= a < x.done && x.program[..x.done][a].invoice == Wanted(s, t);
    forall b | 0 <= b < x.done
      ensures ids[..x.done][b] != ids[x.done]
    {
      assert x.program[..x.done][b].invoice in Touched(x.program[..x.done]);
    }
    assert ids[a] < ids[x.done];
  }

  predicate WaitCycle(s: System, cycle: seq<Tid>) {
    && cycle != []
    && (forall k :: 0 <= k < |cycle| - 1 ==> WaitsFor(s, cycle[k], cycle[k + 1]))
    && WaitsFor(s, cycle[|cycle| - 1], cycle[0])
  }

  lemma {:induction false} CycleClimbs(s: System, db0: Rows, cycle: seq<Tid>, k: nat)
    requires SysInv(s, db0) && AllOrdered(s) && WaitCycle(s, cycle) && k < |cycle|
    ensures Wants(s, cycle[0]) && Wants(s, cycle[k]) && Wanted(s, cycle[0]) <= Wanted(s, cycle[k])
  {
    assert |cycle| == 1 || WaitsFor(s, cycle[0], cycle[1]);
    if k > 0 {
      CycleClimbs(s, db0, cycle, k - 1);
      var next := if k + 1 < |cycle| then cycle[k + 1] else cycle[0];
      assert WaitsFor(s, cycle[k - 1], cycle[k]) && WaitsFor(s, cycle[k], next);
      WaitsClimb(s, db0, cycle[k - 1], cycle[k]);
    }
  }

  /**
   No deadlock: however creates, deletes and verifies (and ordered edits) interleave,
   no circle of transactions waits for each other.
   */
  lemma NoWaitCycle(db: Rows, actions: seq<Action>, cycle: seq<Tid>)
    requires AllOrdered(Interleave(db, actions))
    ensures !WaitCycle(Interleave(db, actions), cycle)
  {
    var s := Interleave(db, actions);
    InterleavingKeepsInv(db, actions);
    if WaitCycle(s, cycle) {
      var n := |cycle| - 1;
      CycleClimbs(s, db, cycle, n);
      assert WaitsFor(s, cycle[n], cycle[0]);
      assert n == 0 || WaitsFor(s, cycle[0], cycle[1]);
      WaitsClimb(s, db, cycle[n], cycle[0]);
    }
  }

  /**
   Only creates, deletes and verifies, whatever they name and however they interleave:
   no cycle of waiting transactions. `l` holds the receipts and payments as the requests
   found them.
   */
  lemma CreatesDeletesVerifiesNeverDeadlock(l: Ledger, actions: seq<Action>, requests: map<Tid, Request>, cycle: seq<Tid>)
    requires forall t :: t in Interleave(l.invoices, actions).txns ==>
                           t in requests && OneSided(l, requests[t]) &&
                           Interleave(l.invoices, actions).txns[t].program == ProgramOf(l, requests[t])
    ensures !WaitCycle(Interleave(l.invoices, actions), cycle)
  {
    var s := Interleave(l.invoices, actions);
    forall t | t in s.txns
      ensures LockOrdered(s.txns[t].program)
    {
      OneSidedRequestsAreOrdered(l, requests[t]);
    }
    NoWaitCycle(l.invoices, actions, cycle);
  }

  /** The transaction can take its next step, or it has none left and can commit. */
  predicate CanMove(s: System, t: Tid) {
    IsRunning(s, t) && (s.txns[t].done == |s.txns[t].program| || CanAct(s, t))
  }

  function Higher(s: System, id: Id): set<Tid> {
    set t | t in s.txns && Wants(s, t) && id < Wanted(s, t)
  }

  lemma Blocker(s: System, db0: Rows, t: Tid) returns (u: Tid)
    requires SysInv(s, db0) && IsRunning(s, t) && !CanMove(s, t)
    ensures WaitsFor(s, t, u)
  {
    assert TxnOk(s, t);
    u :| u in s.txns && u != t && s.txns[u].phase == Running && Wanted(s, t) in s.txns[u].writes;
  }

  lemma {:induction false} FindMover(s: System, db0: Rows, t: Tid) returns (mover: Tid)
    requires SysInv(s, db0) && AllOrdered(s) && IsRunning(s, t)
    ensures CanMove(s, mover)
    decreases if Wants(s, t) then |Higher(s, Wanted(s, t))| + 1 else 0
  {
    if CanMove(s, t) {
      return t;
    }
    var u := Blocker(s, db0, t);
    if CanMove(s, u) {
      return u;
    }
    var v := Blocker(s, db0, u);
    WaitsClimb(s, db0, t, u);
    FewerAbove(s, t, u);
    mover := FindMover(s, db0, u);
  }

  lemma FewerAbove(s: System, t: Tid, u: Tid)
    requires Wants(s, t) && Wants(s, u) && Wanted(s, t) < Wanted(s, u)
    ensures |Higher(s, Wanted(s, u))| < |Higher(s, Wanted(s, t))|
  {
    var above, below := Higher(s, Wanted(s, u)), Higher(s, Wanted(s, t));
    assert u in below && u !in above && above <= below - {u};
    SubsetSize(above, below - {u});
  }

  /** Progress: while any transaction is running, some transaction can act or commit. */
  lemma SomeTransactionCanMove(db: Rows, actions: seq<Action>, t: Tid) returns (mover: Tid)
    requires AllOrdered(Interleave(db, actions)) && IsRunning(Interleave(db, actions), t)
    ensures CanMove(Interleave(db, actions), mover)
  {
    InterleavingKeepsInv(db, actions);
    mover := FindMover(Interleave(db, actions), db, t);
  }

  /** An invoice with a receipt of 1.00 as its only payment. */
  predicate PaidOne(inv: Invoice) {
    && inv.paid == 100 && 100 <= inv.grandTotal && inv.status != Draft
    && inv.paymentStatus == StatusOf(100, inv.grandTotal)
  }

  lemma OneRowSums(r: Id, i: Id)
    ensures SumFor([Allocation(r, 100)], i) == if r == i then 100 else 0
    ensures SumAll([Allocation(r, 100)]) == 100
  {
    assert [Allocation(r, 100)][..0] == [];
  }

  /** Two invoices, each paid by its own receipt. */
  function SwapLedger(a: Invoice, b: Invoice, mitra: Id): Ledger {
    Ledger(map[1 := a, 2 := b],
           map[1 := Receipt(mitra, 100, [Allocation(1, 100)], false),
               2 := Receipt(mitra, 100, [Allocation(2, 100)], false)], map[])
  }

  lemma SwapShares(a: Invoice, b: Invoice, mitra: Id, i: Id)
    requires i == 1 || i == 2
    ensures var l := SwapLedger(a, b, mitra); AllocatedOn(l.receipts, i) == 100 && VerifiedOn(l.payments, i) == 0
  {
    var one := Receipt(mitra, 100, [Allocation(1, 100)], false);
    var two := Receipt(mitra, 100, [Allocation(2, 100)], false);
    OneRowSums(1, i);
    OneRowSums(2, i);
    AllocatedAfterWrite(map[], 1, one, i);
    AllocatedAfterWrite(map[1 := one], 2, two, i);
    assert Shares(map[], i) == map[] && VerifiedParts(map[], i) == map[];
    assert map[][1 := one][2 := two] == SwapLedger(a, b, mitra).receipts;
  }

  lemma SwapReceiptIsOk(r: Id, mitra: Id, invoices: map<Id, Invoice>)
    requires r in invoices
    ensures ReceiptOk(Receipt(mitra, 100, [Allocation(r, 100)], false), invoices)
  {
    OneRowSums(r, r);
  }

  lemma SwapInvoiceIsOk(a: Invoice, b: Invoice, mitra: Id, i: Id)
    requires PaidOne(a) && PaidOne(b) && (i == 1 || i == 2)
    ensures var l := SwapLedger(a, b, mitra); RowOk(l.invoices[i], i, l.receipts, l.payments)
  {
    SwapShares(a, b, mitra, i);
  }

  lemma SwapLedgerIsConsistent(a: Invoice, b: Invoice, mitra: Id)
    requires PaidOne(a) && PaidOne(b)
    ensures Inv(SwapLedger(a, b, mitra))
  {
    var l := SwapLedger(a, b, mitra);
    SwapReceiptIsOk(1, mitra, l.invoices);
    SwapReceiptIsOk(2, mitra, l.invoices);
    SwapInvoiceIsOk(a, b, mitra, 1);
    SwapInvoiceIsOk(a, b, mitra, 2);
  }

  /**
   Two receipt edits that swap their invoices can block each other: one moves its money
   from invoice 1 to invoice 2, the other from 2 to 1. The ledger is consistent when the
   two receipts are what was paid.
   */
  lemma EditsCanDeadlock(a: Invoice, b: Invoice, mitra: Id) returns (l: Ledger, actions: seq<Action>)
    ensures l.invoices == map[1 := a, 2 := b] && (PaidOne(a) && PaidOne(b) ==> Inv(l))
    ensures forall r :: r in {1, 2} ==>
                          LiveReceipt(l.receipts, r) && l.receipts[r].allocations == [Allocation(r, 100)]
    ensures var s := Interleave(l.invoices, actions);
            && WaitCycle(s, [1, 2])
            && s.txns[1].program == ProgramOf(l, Update(1, mitra, [AllocationInput(2, 1.0)]))
            && s.txns[2].program == ProgramOf(l, Update(2, mitra, [AllocationInput(1, 1.0)]))
  {
    l := SwapLedger(a, b, mitra);
    if PaidOne(a) && PaidOne(b) {
      SwapLedgerIsConsistent(a, b, mitra);
    }
    var db := l.invoices;
    var p1 := [Reverse(1, 100), Apply(2, Some(mitra), 1.0)];
    var p2 := [Reverse(2, 100), Apply(1, Some(mitra), 1.0)];
    assert p1 == ProgramOf(l, Update(1, mitra, [AllocationInput(2, 1.0)]));
    assert p2 == ProgramOf(l, Update(2, mitra, [AllocationInput(1, 1.0)]));
    actions := BothStarted(db, p1, p2);
    BothFirstActs(db, p1, p2);
    actions := OneMore(db, actions, Act(1));
    actions := OneMore(db, actions, Act(2));
  }

  lemma BothFirstActs(db: Rows, p1: Program, p2: Program)
    requires 1 in db && 2 in db && |p1| > 1 && |p2| > 1
    requires p1[0] == Reverse(1, 100) && p2[0] == Reverse(2, 100)
    requires p1[1].invoice == 2 && p2[1].invoice == 1
    ensures var start := System(db, map[1 := Txn(p1, 0, map[], Running), 2 := Txn(p2, 0, map[], Running)], []);
            var s := Do(Do(start, Act(1)), Act(2));
            s.txns.Keys == {1, 2} && s.txns[1].program == p1 && s.txns[2].program == p2 && WaitCycle(s, [1, 2])
  {
    assert Perform(db, map[], Reverse(1, 100)) == Some(map[][1 := Debited(db[1], 100)]);
    assert Perform(db, map[], Reverse(2, 100)) == Some(map[][2 := Debited(db[2], 100)]);
  }

  lemma BothStarted(db: Rows, p1: Program, p2: Program) returns (actions: seq<Action>)
    requires NonNegative(p1) && NonNegative(p2)
    ensures Interleave(db, actions) ==
            System(db, map[1 := Txn(p1, 0, map[], Running), 2 := Txn(p2, 0, map[], Running)], [])
  {
    actions := [];
    actions := OneMore(db, actions, Begin(1, p1));
    actions := OneMore(db, actions, Begin(2, p2));
  }

  // --- exactly which programs can be caught in a deadlock -------------------------

  /** In some interleaving with transactions that all keep the lock order, one that runs p waits in a circle. */
  ghost predicate Stuck(db: Rows, p: Program, actions: seq<Action>, cycle: seq<Tid>, t: Tid) {
    var s := Interleave(db, actions);
    && t in s.txns && s.txns[t].program == p && t in cycle && WaitCycle(s, cycle)
    && forall u :: u in s.txns && u != t ==> LockOrdered(s.txns[u].program)
  }

  ghost predicate CanGetStuck(db: Rows, p: Program) {
    exists actions, cycle, t :: Stuck(db, p, actions, cycle, t)
  }

  /** Transaction 2 holds the first of its two rows, transaction 1 has made k steps. */
  function Poised(db: Rows, p: Program, q: Program, row: Invoice, k: nat): System
    requires q != [] && k <= |p| && Alone(db, p[..k]).Some?
  {
    System(db, map[1 := Txn(p, k, Alone(db, p[..k]).value, Running),
                   2 := Txn(q, 1, map[q[0].invoice := row], Running)], [])
  }

  lemma PoisedStart(db: Rows, p: Program, q: Program) returns (actions: seq<Action>)
    requires NonNegative(p) && NonNegative(q) && q != [] && q[0].Reverse? && q[0].invoice in db
    ensures p[..0] == [] && Interleave(db, actions) == Poised(db, p, q, Debited(db[q[0].invoice], q[0].cents), 0)
  {
    actions := BothStarted(db, p, q);
    actions := OneMore(db, actions, Act(2));
    var row := Debited(db[q[0].invoice], q[0].cents);
    assert Perform(db, map[], q[0]) == Some(map[q[0].invoice := row]) by {
      assert map[][q[0].invoice := row] == map[q[0].invoice := row];
    }
  }

  /** An action of a running transaction that is in nobody's way. */
  lemma ActOf(s: System, t: Tid, p: Program, k: nat, before: Rows, after: Rows)
    requires t in s.txns && s.txns[t] == Txn(p, k, before, Running) && k < |p| && Free(s, t, p[k].invoice)
    requires Perform(s.db, before, p[k]) == Some(after)
    ensures Do(s, Act(t)) == s.(txns := s.txns[t := Txn(p, k + 1, after, Running)])
  {
  }

  lemma AloneStep(db: Rows, p: Program, k: nat)
    requires k < |p| && Alone(db, p[..k + 1]).Some?
    ensures Alone(db, p[..k]).Some?
    ensures Perform(db, Alone(db, p[..k]).value, p[k]) == Alone(db, p[..k + 1])
  {
    assert p[..k + 1][..k] == p[..k];
  }

  lemma PoisedStep(db: Rows, p: Program, q: Program, row: Invoice, k: nat)
    requires q != [] && k < |p| && Alone(db, p[..k]).Some? && Alone(db, p[..k + 1]).Some?
    requires p[k].invoice != q[0].invoice
    ensures Do(Poised(db, p, q, row, k), Act(1)) == Poised(db, p, q, row, k + 1)
  {
    AloneStep(db, p, k);
    ActOf(Poised(db, p, q, row, k), 1, p, k, Alone(db, p[..k]).value, Alone(db, p[..k + 1]).value);
  }

  lemma {:induction false} PoisedAt(db: Rows, p: Program, q: Program, k: nat) returns (actions: seq<Action>)
    requires NonNegative(p) && NonNegative(q) && q != [] && q[0].Reverse? && q[0].invoice in db
    requires k <= |p| && Alone(db, p).Some? && forall j :: 0 <= j < k ==> p[j].invoice != q[0].invoice
    ensures Alone(db, p[..k]).Some?
    ensures Interleave(db, actions) == Poised(db, p, q, Debited(db[q[0].invoice], q[0].cents), k)
  {
    AlonePrefix(db, p, k);
    if k == 0 {
      actions := PoisedStart(db, p, q);
    } else {
      actions := PoisedAt(db, p, q, k - 1);
      actions := OneMore(db, actions, Act(1));
      PoisedStep(db, p, q, Debited(db[q[0].invoice], q[0].cents), k - 1);
    }
  }

  lemma PoisedIsStuck(db: Rows, p: Program, q: Program, row: Invoice, a: nat, b: nat)
    requires a < b < |p| && Alone(db, p[..b]).Some? && |q| == 2
    requires q[0].invoice == p[b].invoice && q[1].invoice == p[a].invoice
    ensures WaitCycle(Poised(db, p, q, row, b), [1, 2])
  {
    AloneTouches(db, p[..b]);
    assert p[..b][a].invoice in Touched(p[..b]);
  }

  /**
   A program that succeeds alone but asks for a smaller row late can be caught: a
   transaction taking two rows back in ascending order blocks it and is blocked by it.
   */
  lemma UnorderedCanGetStuck(db: Rows, p: Program, a: nat, b: nat) returns (actions: seq<Action>)
    requires NonNegative(p) && Alone(db, p).Some? && a < b < |p|
    requires LockSequence(p)[b] !in LockSequence(p)[..b] && LockSequence(p)[b] < LockSequence(p)[a]
    ensures Stuck(db, p, actions, [1, 2], 1)
    ensures Interleave(db, actions).txns.Keys == {1, 2}
    ensures Interleave(db, actions).txns[2].program ==
            ReverseOps([Allocation(LockSequence(p)[b], 0), Allocation(LockSequence(p)[a], 0)])
  {
    var ids := LockSequence(p);
    var q := ReverseOps([Allocation(ids[b], 0), Allocation(ids[a], 0)]);
    AloneTouches(db, p);
    assert p[b].invoice in Touched(p);
    forall j | 0 <= j < b
      ensures p[j].invoice != q[0].invoice
    {
      assert ids[..b][j] == p[j].invoice;
    }
    actions := PoisedAt(db, p, q, b);
    PoisedIsStuck(db, p, q, Debited(db[q[0].invoice], q[0].cents), a, b);
    assert LockOrdered(q);
  }

  /**
   A program that succeeds alone can wait in a circle of otherwise ordered transactions, in
   some interleaving, exactly when it does not lock its rows in ascending order.
   */
  lemma GetsStuckExactlyWhen(db: Rows, p: Program)
    requires NonNegative(p) && Alone(db, p).Some?
    ensures CanGetStuck(db, p) <==> !LockOrdered(p)
  {
    if CanGetStuck(db, p) && LockOrdered(p) {
      var actions, cycle, t :| Stuck(db, p, actions, cycle, t);
      NoWaitCycle(db, actions, cycle);
    }
    if !LockOrdered(p) {
      var ids := LockSequence(p);
      var a, b :| 0 <= a < b < |ids| && ids[b] !in ids[..b] && !(ids[a] < ids[b]);
      assert ids[a] != ids[b] by {
        assert ids[..b][a] == ids[a];
      }
      var actions := UnorderedCanGetStuck(db, p, a, b);
    }
  }

  /** Every invoice the edit newly names comes after all the invoices the receipt had before. */
  predicate NamesLaterInvoices(before: seq<Allocation>, s: seq<AllocationInput>) {
    forall i, j :: i in OldInvoices(before) && j in NewInvoices(s) && j !in OldInvoices(before) ==> i < j
  }

  /** The normalised edit would be accepted if nothing else were running. */
  predicate AcceptedAlone(l: Ledger, r: Id, mitra: Id, s: seq<AllocationInput>) {
    && LiveReceipt(l.receipts, r) && Ascending(s) && ValidAmounts(s)
    && TakeBack(l, r).Ok? && PutReceipt(TakeBack(l, r).value, r, mitra, s).Ok?
  }

  lemma AcceptedEditRunsAlone(l: Ledger, r: Id, mitra: Id, s: seq<AllocationInput>)
    requires AcceptedAlone(l, r, mitra, s)
    ensures Alone(l.invoices, ProgramOf(l, Update(r, mitra, s))).Some?
  {
    var rows := l.receipts[r].allocations;
    ReverseOpsAreTheLoop(l.invoices, rows);
    ApplyOpsAreTheLoop(TakeBack(l, r).value.invoices, mitra, s);
    AloneJoins(l.invoices, ReverseOps(rows), ApplyOps(mitra, s));
    InTurnIsConcat(ReverseOps(rows), ApplyOps(mitra, s));
  }

  lemma EditIsOrderedExactlyWhen(l: Ledger, r: Id, mitra: Id, s: seq<AllocationInput>)
    requires LiveReceipt(l.receipts, r) && ReceiptOk(l.receipts[r], l.invoices) && Ascending(s) && ValidAmounts(s)
    ensures NonNegative(ProgramOf(l, Update(r, mitra, s)))
    ensures LockOrdered(ProgramOf(l, Update(r, mitra, s))) <==> NamesLaterInvoices(l.receipts[r].allocations, s)
  {
    EditsAreOrderedExactlyWhen(l, r, mitra, s);
  }

  lemma OrderDecides(db: Rows, p: Program, ordered: bool)
    requires NonNegative(p) && Alone(db, p).Some? && (LockOrdered(p) <==> ordered)
    ensures !CanGetStuck(db, p) <==> ordered
  {
    GetsStuckExactlyWhen(db, p);
  }

  /**
   A receipt edit that would be accepted on its own can never be part of a deadlock with
   transactions that keep the order exactly when it only adds invoices after its old ones.
   */
  lemma EditsNeverDeadlockExactlyWhen(l: Ledger, r: Id, mitra: Id, s: seq<AllocationInput>)
    requires Inv(l) && AcceptedAlone(l, r, mitra, s)
    ensures !CanGetStuck(l.invoices, ProgramOf(l, Update(r, mitra, s)))
            <==> NamesLaterInvoices(l.receipts[r].allocations, s)
  {
    ReceiptIsOk(l, r);
    AcceptedEditRunsAlone(l, r, mitra, s);
    EditIsOrderedExactlyWhen(l, r, mitra, s);
    OrderDecides(l.invoices, ProgramOf(l, Update(r, mitra, s)), NamesLaterInvoices(l.receipts[r].allocations, s));
  }

  lemma ReceiptIsOk(l: Ledger, r: Id)
    requires Inv(l) && r in l.receipts
    ensures ReceiptOk(l.receipts[r], l.invoices)
  {
  }
}

/**
 Safety of concurrent receipts and payments: balances stay within bounds in every
 interleaving, and a committed amount is lost exactly when a reversal is clamped.
 */
module RowLockLaws {
  import opened Results
  import opened Money
  import opened Sums
  import opened InvoiceBalance
  import opened SalesLedger
  import opened RowLocks

  // --- the requests behind the transactions -----------------------------------

  datatype Request =
    | Create(mitra: Id, allocations: seq<AllocationInput>)
    | Update(receipt: Id, mitra: Id, allocations: seq<AllocationInput>)
    | Delete(receipt: Id)
    | Verify(payment: Id)

  function ApplyOps(mitra: Id, s: seq<AllocationInput>): Program {
    seq(|s|, k requires 0 <= k < |s| => Apply(s[k].invoice, Some(mitra), s[k].amount))
  }

  function ReverseOps(s: seq<Allocation>): Program {
    seq(|s|, k requires 0 <= k < |s| => Reverse(s[k].invoice, s[k].amount))
  }

  /** One program and then the other. */
  function InTurn(a: Program, b: Program): Program {
    seq(|a| + |b|, k requires 0 <= k < |a| + |b| => if k < |a| then a[k] else b[k - |a|])
  }

  lemma InTurnIsConcat(a: Program, b: Program)
    ensures InTurn(a, b) == a + b
  {
  }

  predicate Known(l: Ledger, q: Request) {
    match q
    case Create(_, s) => true
    case Update(r, _, s) => LiveReceipt(l.receipts, r)
    case Delete(r) => LiveReceipt(l.receipts, r)
    case Verify(p) => p in l.payments
  }

  /** The balance changes of a request, read off the rows as they are when it starts. */
  function ProgramOf(l: Ledger, q: Request): Program
    requires Known(l, q)
  {
    match q
    case Create(mitra, s) => ApplyOps(mitra, s)
    case Update(r, mitra, s) => InTurn(ReverseOps(l.receipts[r].allocations), ApplyOps(mitra, s))
    case Delete(r) => ReverseOps(l.receipts[r].allocations)
    case Verify(p) => [Apply(l.payments[p].invoice, None, Units(l.payments[p].amount))]
  }

  /** One allocation, on the committed rows plus the transaction's own writes. */
  lemma OneApply(invoices: Rows, writes: Rows, mitra: Id, a: AllocationInput)
    ensures var op, now := Apply(a.invoice, Some(mitra), a.amount), invoices + writes;
            && (Perform(invoices, writes, op).Some? <==> AllocationRefusal(now, mitra, a).None?)
            && (AllocationRefusal(now, mitra, a).None? ==>
                  now[a.invoice := Credited(now[a.invoice], a.amount)] == invoices + Perform(invoices, writes, op).value)
  {
  }

  /** Run alone, the apply loop of a receipt is the sequential loop of the ledger. */
  lemma ApplyOpsInit(mitra: Id, s: seq<AllocationInput>)
    requires s != []
    ensures var p, n := ApplyOps(mitra, s), |s| - 1;
            |p| == |s| && p[..n] == ApplyOps(mitra, s[..n]) && p[n] == Apply(s[n].invoice, Some(mitra), s[n].amount)
  {
  }

  /** The last step of a program, on what the earlier ones left. */
  lemma AloneSnoc(db: Rows, p: Program, before: Program, op: Op)
    requires p != [] && p[..|p| - 1] == before && p[|p| - 1] == op
    ensures Alone(db, p) == if Alone(db, before).None? then None else Perform(db, Alone(db, before).value, op)
  {
  }

  lemma {:induction false} ApplyOpsAreTheLoop(invoices: Rows, mitra: Id, s: seq<AllocationInput>)
    ensures Alone(invoices, ApplyOps(mitra, s)).Some? <==> ApplyAll(invoices, mitra, s).Ok?
    ensures ApplyAll(invoices, mitra, s).Ok? ==>
              ApplyAll(invoices, mitra, s).value.invoices == invoices + Alone(invoices, ApplyOps(mitra, s)).value
  {
    if s == [] {
      assert invoices + map[] == invoices;
    } else {
      var n := |s| - 1;
      ApplyOpsAreTheLoop(invoices, mitra, s[..n]);
      ApplyOpsInit(mitra, s);
      AloneSnoc(invoices, ApplyOps(mitra, s), ApplyOps(mitra, s[..n]), Apply(s[n].invoice, Some(mitra), s[n].amount));
      if ApplyAll(invoices, mitra, s[..n]).Ok? {
        OneApply(invoices, Alone(invoices, ApplyOps(mitra, s[..n])).value, mitra, s[n]);
      }
    }
  }

  lemma ReverseOpsInit(s: seq<Allocation>)
    requires s != []
    ensures var p, n := ReverseOps(s), |s| - 1;
            |p| == |s| && p[..n] == ReverseOps(s[..n]) && p[n] == Reverse(s[n].invoice, s[n].amount)
  {
  }

  lemma OneReverse(invoices: Rows, writes: Rows, a: Allocation)
    ensures var op, now := Reverse(a.invoice, a.amount), invoices + writes;
            && (Perform(invoices, writes, op).Some? <==> a.invoice in now)
            && (a.invoice in now ==>
                  now[a.invoice := Debited(now[a.invoice], a.amount)] == invoices + Perform(invoices, writes, op).value)
  {
  }

  lemma {:induction false} ReverseOpsAreTheLoop(invoices: Rows, s: seq<Allocation>)
    ensures Alone(invoices, ReverseOps(s)).Some? <==> ReverseAll(invoices, s).Ok?
    ensures ReverseAll(invoices, s).Ok? ==>
              ReverseAll(invoices, s).value == invoices + Alone(invoices, ReverseOps(s)).value
  {
    if s == [] {
      assert invoices + map[] == invoices;
    } else {
      var n := |s| - 1;
      ReverseOpsAreTheLoop(invoices, s[..n]);
      ReverseOpsInit(s);
      AloneSnoc(invoices, ReverseOps(s), ReverseOps(s[..n]), Reverse(s[n].invoice, s[n].amount));
      if ReverseAll(invoices, s[..n]).Ok? {
        OneReverse(invoices, Alone(invoices, ReverseOps(s[..n])).value, s[n]);
      }
    }
  }

  // --- bounds -----------------------------------------------------------------

  predicate Bounded(rows: Rows) {
    forall i :: i in rows ==> 0 <= rows[i].paid <= rows[i].grandTotal
  }

  lemma EffectBounded(row: Invoice, op: Op)
    requires 0 <= row.paid <= row.grandTotal && NonNegative([op]) && Effect(row, op).Some?
    ensures 0 <= Effect(row, op).value.paid <= Effect(row, op).value.grandTotal
  {
    assert [op][0] == op;
    if op.Apply? {
      AcceptedAmountFits(map[0 := row], 0, op.amount);
    }
  }

  lemma {:induction false} AloneBounded(db: Rows, p: Program)
    requires Bounded(db) && NonNegative(p) && Alone(db, p).Some?
    ensures Bounded(Alone(db, p).value)
  {
    if p != [] {
      var n := |p| - 1;
      AloneBounded(db, p[..n]);
      EffectBounded(Seen(db, Alone(db, p[..n]).value, p[n].invoice).value, p[n]);
    }
  }

  lemma {:induction false} SerialBounded(db: Rows, ps: seq<Program>)
    requires Bounded(db) && Serial(db, ps).Some?
    requires forall k :: 0 <= k < |ps| ==> NonNegative(ps[k])
    ensures Bounded(Serial(db, ps).value)
  {
    if ps != [] {
      var n := |ps| - 1;
      SerialBounded(db, ps[..n]);
      AloneBounded(Serial(db, ps[..n]).value, ps[n]);
    }
  }

  /**
   In every interleaving of receipt and payment transactions, every invoice keeps
   0 <= paid <= grand total: in the committed rows and in what a running transaction
   has written so far.
   */
  lemma BalancesStayBounded(db: Rows, actions: seq<Action>)
    requires Bounded(db)
    ensures var s := Interleave(db, actions);
            && Bounded(s.db)
            && (forall t :: IsRunning(s, t) ==> Bounded(s.txns[t].writes))
  {
    var s := Interleave(db, actions);
    InterleavingKeepsInv(db, actions);
    forall k | 0 <= k < |s.log|
      ensures NonNegative(Programs(s)[k])
    {
      assert TxnOk(s, s.log[k]);
    }
    SerialBounded(db, Programs(s));
    forall t | IsRunning(s, t)
      ensures Bounded(s.txns[t].writes)
    {
      assert TxnOk(s, t);
      AloneBounded(s.db, s.txns[t].program[..s.txns[t].done]);
    }
  }

  // --- what happens to the amounts --------------------------------------------

  function AppliedTo(p: Program, i: Id): Cents {
    if p == [] then 0
    else
      var op := p[|p| - 1];
      AppliedTo(p[..|p| - 1], i) + if op.Apply? && op.invoice == i then ToCents(op.amount) else 0
  }

  function ReversedFrom(p: Program, i: Id): Cents {
    if p == [] then 0
    else
      var op := p[|p| - 1];
      ReversedFrom(p[..|p| - 1], i) + if op.Reverse? && op.invoice == i then op.cents else 0
  }

  /** What invoice i shows as paid after p ran alone. */
  function PaidAfter(db: Rows, p: Program, i: Id): Cents
    requires i in db
  {
    if Alone(db, p).Some? then Seen(db, Alone(db, p).value, i).value.paid else db[i].paid
  }

  /** The part of a reversal that the clamp at zero swallows. */
  function Swallowed(paid: Cents, op: Op, i: Id): Cents {
    if op.Reverse? && op.invoice == i && op.cents > paid then op.cents - paid else 0
  }

  function ClampedOn(db: Rows, p: Program, i: Id): Cents
    requires i in db
  {
    if p == [] then 0
    else ClampedOn(db, p[..|p| - 1], i) + Swallowed(PaidAfter(db, p[..|p| - 1], i), p[|p| - 1], i)
  }

  /** No reversal on i finds less paid than it takes back. */
  ghost predicate Covered(db: Rows, p: Program, i: Id)
    requires i in db
  {
    forall k :: 0 <= k < |p| ==> Swallowed(PaidAfter(db, p[..k], i), p[k], i) == 0
  }

  predicate NonNegativePaid(db: Rows) {
    forall i :: i in db ==> 0 <= db[i].paid
  }

  lemma OneEffect(row: Invoice, op: Op, i: Id)
    requires 0 <= row.paid && NonNegative([op]) && Effect(row, op).Some? && op.invoice == i
    ensures 0 <= Effect(row, op).value.paid
    ensures Effect(row, op).value.paid ==
            row.paid + AppliedTo([op], i) - ReversedFrom([op], i) + Swallowed(row.paid, op, i)
  {
    assert [op][0] == op && [op][..0] == [];
    if op.Apply? {
      AddingToStored(row.paid, op.amount);
      NonNegativeCents(op.amount);
    }
  }

  lemma OneMoreOp(p: Program, i: Id)
    requires p != []
    ensures AppliedTo(p, i) == AppliedTo(p[..|p| - 1], i) + AppliedTo([p[|p| - 1]], i)
    ensures ReversedFrom(p, i) == ReversedFrom(p[..|p| - 1], i) + ReversedFrom([p[|p| - 1]], i)
  {
    assert [p[|p| - 1]][..0] == [];
  }

  /** The balance equation of a program run alone, one invoice at a time. */
  lemma {:induction false} PaidEquation(db: Rows, p: Program, i: Id)
    requires NonNegativePaid(db) && NonNegative(p) && Alone(db, p).Some? && i in db
    ensures 0 <= PaidAfter(db, p, i)
    ensures PaidAfter(db, p, i) == db[i].paid + AppliedTo(p, i) - ReversedFrom(p, i) + ClampedOn(db, p, i)
  {
    if p != [] {
      var n := |p| - 1;
      PaidEquation(db, p[..n], i);
      OneMoreOp(p, i);
      if p[n].invoice == i {
        OneEffect(Seen(db, Alone(db, p[..n]).value, i).value, p[n], i);
      } else {
        assert [p[n]][..0] == [];
      }
    }
  }

  lemma {:induction false} ClampedExactlyWhen(db: Rows, p: Program, i: Id)
    requires i in db
    ensures 0 <= ClampedOn(db, p, i)
    ensures ClampedOn(db, p, i) == 0 <==> Covered(db, p, i)
  {
    if p != [] {
      var n := |p| - 1;
      ClampedExactlyWhen(db, p[..n], i);
      assert forall k :: 0 <= k < n ==> p[..n][..k] == p[..k];
      if Covered(db, p[..n], i) && Swallowed(PaidAfter(db, p[..n], i), p[n], i) == 0 {
        forall k | 0 <= k < |p|
          ensures Swallowed(PaidAfter(db, p[..k], i), p[k], i) == 0
        {
          if k < n {
            assert p[..n][k] == p[k];
          }
        }
      }
    }
  }

  // --- a serial schedule as one program ---------------------------------------

  function Joined(ps: seq<Program>): Program {
    if ps == [] then [] else Joined(ps[..|ps| - 1]) + ps[|ps| - 1]
  }

  /** Writing on top of wa is the same whether wa is committed or still the transaction's own. */
  lemma PerformThrough(db: Rows, wa: Rows, wb: Rows, op: Op)
    ensures Perform(db, wa + wb, op) ==
            match Perform(db + wa, wb, op) case None => None case Some(writes) => Some(wa + writes)
  {
    assert Seen(db, wa + wb, op.invoice) == Seen(db + wa, wb, op.invoice);
    var seen := Seen(db, wa + wb, op.invoice);
    if seen.Some? && Effect(seen.value, op).Some? {
      WriteThrough(wa, wb, op.invoice, Effect(seen.value, op).value);
    }
  }

  lemma WriteThrough(wa: Rows, wb: Rows, i: Id, row: Invoice)
    ensures wa + wb[i := row] == (wa + wb)[i := row]
  {
  }

  lemma ConcatInit(a: Program, b: Program)
    requires b != []
    ensures var all, n := a + b, |b| - 1;
            all != [] && all[..|all| - 1] == a + b[..n] && all[|all| - 1] == b[n]
  {
  }

  lemma {:induction false} AloneJoins(db: Rows, a: Program, b: Program)
    requires Alone(db, a).Some? && Alone(db + Alone(db, a).value, b).Some?
    ensures Alone(db, a + b) == Some(Alone(db, a).value + Alone(db + Alone(db, a).value, b).value)
    decreases |b|
  {
    var wa := Alone(db, a).value;
    if b == [] {
      assert a + b == a;
      assert wa + map[] == wa;
    } else {
      var n := |b| - 1;
      AloneSnoc(db + wa, b, b[..n], b[n]);
      AloneJoins(db, a, b[..n]);
      ConcatInit(a, b);
      AloneSnoc(db, a + b, a + b[..n], b[n]);
      PerformThrough(db, wa, Alone(db + wa, b[..n]).value, b[n]);
    }
  }

  lemma {:induction false} SerialIsJoined(db: Rows, ps: seq<Program>)
    requires Serial(db, ps).Some?
    ensures Alone(db, Joined(ps)).Some? && Serial(db, ps).value == db + Alone(db, Joined(ps)).value
  {
    if ps != [] {
      var n := |ps| - 1;
      SerialIsJoined(db, ps[..n]);
      AloneJoins(db, Joined(ps[..n]), ps[n]);
    }
  }

  lemma {:induction false} JoinedNonNegative(ps: seq<Program>)
    requires forall k :: 0 <= k < |ps| ==> NonNegative(ps[k])
    ensures NonNegative(Joined(ps))
  {
    if ps != [] {
      JoinedNonNegative(ps[..|ps| - 1]);
    }
  }

  /** All balance changes committed so far, in commit order. */
  function CommittedOps(s: System): Program
    requires forall k :: 0 <= k < |s.log| ==> s.log[k] in s.txns
  {
    Joined(Programs(s))
  }

  /**
   In every interleaving, an invoice's committed balance is its first balance plus
   everything committed transactions applied to it, minus everything they reversed,
   plus what the clamp swallowed; so the amounts add up exactly when every committed
   reversal found at least its amount paid.
   */
  lemma AmountsAddUpExactlyWhen(db: Rows, actions: seq<Action>, i: Id)
    requires NonNegativePaid(db) && i in db
    ensures var s := Interleave(db, actions);
            && LogOk(s) && i in s.db
            && s.db[i].paid == db[i].paid + AppliedTo(CommittedOps(s), i) - ReversedFrom(CommittedOps(s), i)
                               + ClampedOn(db, CommittedOps(s), i)
            && (s.db[i].paid == db[i].paid + AppliedTo(CommittedOps(s), i) - ReversedFrom(CommittedOps(s), i)
                <==> Covered(db, CommittedOps(s), i))
  {
    var s := Interleave(db, actions);
    InterleavingKeepsInv(db, actions);
    forall k | 0 <= k < |s.log|
      ensures NonNegative(Programs(s)[k])
    {
      assert TxnOk(s, s.log[k]);
    }
    SerialIsJoined(db, Programs(s));
    JoinedNonNegative(Programs(s));
    PaidEquation(db, CommittedOps(s), i);
    ClampedExactlyWhen(db, CommittedOps(s), i);
  }

  // --- building interleavings ---------------------------------------------------

  lemma {:induction false} AlonePrefix(db: Rows, p: Program, k: nat)
    requires Alone(db, p).Some? && k <= |p|
    ensures Alone(db, p[..k]).Some?
  {
    if k < |p| {
      AlonePrefix(db, p[..|p| - 1], k);
      assert p[..|p| - 1][..k] == p[..k];
    } else {
      assert p[..k] == p;
    }
  }

  lemma OneMore(db: Rows, actions: seq<Action>, a: Action) returns (more: seq<Action>)
    ensures more == actions + [a]
    ensures Interleave(db, more) == Do(Interleave(db, actions), a)
  {
    more := actions + [a];
    assert more[..|actions|] == actions;
  }
}

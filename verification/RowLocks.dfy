/**
 Receipt and payment transactions running at the same time. Each transaction is the
 list of balance changes it will make (fixed when it starts, because the payment row
 and the old allocations are read without a lock). Every change first locks its
 invoice row; the lock and the uncommitted row are kept until commit or rollback.
 */
module RowLocks {
  import opened Results
  import opened Money
  import opened Sums
  import opened InvoiceBalance

  type Tid = nat

  /** `partner` is checked by receipts; verifying a payment does not look at it. */
  datatype Op =
    | Apply(invoice: Id, partner: Option<Id>, amount: real)
    | Reverse(invoice: Id, cents: Cents)

  type Program = seq<Op>

  type Rows = map<Id, Invoice>

  /** What a change makes of the row it locked, or None when the transaction must roll back. */
  function Effect(row: Invoice, op: Op): Option<Invoice> {
    match op
    case Apply(_, partner, amount) =>
      if row.deleted || (partner.Some? && row.mitra != partner.value) || row.status != Confirmed
         || amount > Units(Remaining(row))
      then None
      else Some(Credited(row, amount))
    case Reverse(_, cents) => Some(Debited(row, cents))
  }

  /** A transaction sees its own writes first, then the committed rows. */
  function Seen(db: Rows, writes: Rows, id: Id): Option<Invoice> {
    if id in writes then Some(writes[id]) else if id in db then Some(db[id]) else None
  }

  function Perform(db: Rows, writes: Rows, op: Op): Option<Rows> {
    match Seen(db, writes, op.invoice)
    case None => None
    case Some(row) =>
      match Effect(row, op)
      case None => None
      case Some(row') => Some(writes[op.invoice := row'])
  }

  /** The rows a program leaves behind when it runs alone on db. */
  function Alone(db: Rows, p: Program): Option<Rows> {
    if p == [] then Some(map[])
    else
      match Alone(db, p[..|p| - 1])
      case None => None
      case Some(writes) => Perform(db, writes, p[|p| - 1])
  }

  /** Programs run one after the other, each committing before the next one starts. */
  function Serial(db: Rows, ps: seq<Program>): Option<Rows> {
    if ps == [] then Some(db)
    else
      match Serial(db, ps[..|ps| - 1])
      case None => None
      case Some(now) =>
        match Alone(now, ps[|ps| - 1])
        case None => None
        case Some(writes) => Some(now + writes)
  }

  // --- the concurrent system --------------------------------------------------

  datatype Phase = Running | Committed | Aborted

  datatype Txn = Txn(program: Program, done: nat, writes: Rows, phase: Phase)

  datatype System = System(db: Rows, txns: map<Tid, Txn>, log: seq<Tid>)

  datatype Action = Begin(t: Tid, program: Program) | Act(t: Tid) | Commit(t: Tid) | Abort(t: Tid)

  predicate NonNegative(p: Program) {
    forall k :: 0 <= k < |p| ==> if p[k].Apply? then 0.0 <= p[k].amount else 0 <= p[k].cents
  }

  predicate IsRunning(s: System, t: Tid) {
    t in s.txns && s.txns[t].phase == Running
  }

  /** No other running transaction holds the lock on the row. */
  predicate Free(s: System, t: Tid, id: Id) {
    forall u :: u in s.txns && u != t && s.txns[u].phase == Running ==> id !in s.txns[u].writes
  }

  predicate CanAct(s: System, t: Tid) {
    && IsRunning(s, t) && s.txns[t].done < |s.txns[t].program|
    && Free(s, t, s.txns[t].program[s.txns[t].done].invoice)
  }

  function RolledBack(x: Txn): Txn {
    x.(writes := map[], phase := Aborted)
  }

  function DoAct(s: System, t: Tid): System
    requires CanAct(s, t)
  {
    var x := s.txns[t];
    var next := match Perform(s.db, x.writes, x.program[x.done])
      case None => RolledBack(x)
      case Some(writes) => x.(writes := writes, done := x.done + 1);
    s.(txns := s.txns[t := next])
  }

  /** One step of one transaction; an action that is not enabled changes nothing. */
  function Do(s: System, a: Action): System {
    match a
    case Begin(t, program) =>
      if t in s.txns || !NonNegative(program) then s
      else s.(txns := s.txns[t := Txn(program, 0, map[], Running)])
    case Act(t) => if CanAct(s, t) then DoAct(s, t) else s
    case Commit(t) =>
      if IsRunning(s, t) && s.txns[t].done == |s.txns[t].program|
      then System(s.db + s.txns[t].writes, s.txns[t := s.txns[t].(writes := map[], phase := Committed)], s.log + [t])
      else s
    case Abort(t) => if IsRunning(s, t) then s.(txns := s.txns[t := RolledBack(s.txns[t])]) else s
  }

  /** Any interleaving at all. */
  function Interleave(db: Rows, actions: seq<Action>): System {
    if actions == [] then System(db, map[], [])
    else Do(Interleave(db, actions[..|actions| - 1]), actions[|actions| - 1])
  }

  // --- every interleaving is serial -------------------------------------------

  function Programs(s: System): seq<Program>
    requires forall k :: 0 <= k < |s.log| ==> s.log[k] in s.txns
  {
    seq(|s.log|, k requires 0 <= k < |s.log| => s.txns[s.log[k]].program)
  }

  /** The log lists every committed transaction once, and nothing else. */
  ghost predicate LogOk(s: System) {
    && (forall k :: 0 <= k < |s.log| ==> s.log[k] in s.txns && s.txns[s.log[k]].phase == Committed)
    && (forall t :: t in s.txns && s.txns[t].phase == Committed ==> t in s.log)
    && (forall j, k :: 0 <= j < k < |s.log| ==> s.log[j] != s.log[k])
  }

  /** A running transaction has seen the committed rows as they still are. */
  ghost predicate TxnOk(s: System, t: Tid)
    requires t in s.txns
  {
    var x := s.txns[t];
    && NonNegative(x.program)
    && (x.phase == Running ==> x.done <= |x.program| && Alone(s.db, x.program[..x.done]) == Some(x.writes))
  }

  ghost predicate LocksExclusive(s: System) {
    forall t, u :: IsRunning(s, t) && IsRunning(s, u) && t != u ==> s.txns[t].writes.Keys !! s.txns[u].writes.Keys
  }

  ghost predicate SysInv(s: System, db0: Rows) {
    && LogOk(s) && LocksExclusive(s)
    && (forall t :: t in s.txns ==> TxnOk(s, t))
    && Serial(db0, Programs(s)) == Some(s.db)
  }

  function Touched(p: Program): set<Id> {
    set k | 0 <= k < |p| :: p[k].invoice
  }

  lemma {:induction false} AloneTouches(db: Rows, p: Program)
    requires Alone(db, p).Some?
    ensures Alone(db, p).value.Keys == Touched(p) <= db.Keys
  {
    if p != [] {
      var n := |p| - 1;
      AloneTouches(db, p[..n]);
      assert p == p[..n] + [p[n]];
      assert Touched(p) == Touched(p[..n]) + {p[n].invoice};
    }
  }

  /** A program only depends on the committed rows it locks. */
  lemma {:induction false} AloneFrame(db: Rows, db': Rows, p: Program)
    requires Alone(db, p).Some?
    requires forall i :: i in Alone(db, p).value ==> i in db && i in db' && db'[i] == db[i]
    ensures Alone(db', p) == Alone(db, p)
  {
    if p != [] {
      AloneTouches(db, p);
      AloneTouches(db, p[..|p| - 1]);
      AloneFrame(db, db', p[..|p| - 1]);
    }
  }

  lemma SameLogSamePrograms(s: System, s': System)
    requires LogOk(s) && s'.log == s.log
    requires forall t :: t in s.log ==> t in s'.txns && s'.txns[t] == s.txns[t]
    ensures forall k :: 0 <= k < |s'.log| ==> s'.log[k] in s'.txns
    ensures Programs(s') == Programs(s)
  {
  }

  /** Starting, acting and rolling back change one running transaction and no committed row. */
  lemma LocalStepKeepsInv(s: System, db0: Rows, t: Tid, x: Txn)
    requires SysInv(s, db0) && x.phase != Committed && (t in s.txns ==> IsRunning(s, t))
    requires TxnOk(s.(txns := s.txns[t := x]), t)
    requires x.phase == Running ==> forall i :: i in x.writes ==> (IsRunning(s, t) && i in s.txns[t].writes) || Free(s, t, i)
    ensures SysInv(s.(txns := s.txns[t := x]), db0)
  {
    var s' := s.(txns := s.txns[t := x]);
    assert t !in s.log;
    SameLogSamePrograms(s, s');
    forall u | u in s'.txns
      ensures TxnOk(s', u)
    {
      assert u != t ==> TxnOk(s, u);
    }
    forall a, b | IsRunning(s', a) && IsRunning(s', b) && a != b
      ensures s'.txns[a].writes.Keys !! s'.txns[b].writes.Keys
    {
      if a != t && b != t {
        assert IsRunning(s, a) && IsRunning(s, b);
      } else {
        var other := if a == t then b else a;
        assert IsRunning(s, other);
        forall i | i in x.writes
          ensures i !in s.txns[other].writes
        {
        }
      }
    }
  }

  lemma ActKeepsInv(s: System, db0: Rows, t: Tid)
    requires SysInv(s, db0) && CanAct(s, t)
    ensures SysInv(DoAct(s, t), db0)
  {
    var x := s.txns[t];
    var x' := DoAct(s, t).txns[t];
    assert TxnOk(s, t);
    if x'.phase == Running {
      assert x.program[..x.done + 1][..x.done] == x.program[..x.done];
      assert Alone(s.db, x'.program[..x'.done]) == Some(x'.writes);
    }
    LocalStepKeepsInv(s, db0, t, x');
  }

  lemma CommitKeepsOthers(s: System, db0: Rows, t: Tid, u: Tid)
    requires SysInv(s, db0) && IsRunning(s, t) && s.txns[t].done == |s.txns[t].program|
    requires u in s.txns && u != t
    ensures TxnOk(Do(s, Commit(t)), u)
  {
    assert TxnOk(s, u);
    if IsRunning(s, u) {
      var x := s.txns[u];
      AloneTouches(s.db, x.program[..x.done]);
      AloneFrame(s.db, s.db + s.txns[t].writes, x.program[..x.done]);
    }
  }

  lemma CommitKeepsLog(s: System, t: Tid)
    requires LogOk(s) && LocksExclusive(s) && IsRunning(s, t) && s.txns[t].done == |s.txns[t].program|
    ensures LogOk(Do(s, Commit(t))) && LocksExclusive(Do(s, Commit(t)))
    ensures Programs(Do(s, Commit(t))) == Programs(s) + [s.txns[t].program]
  {
    var s' := Do(s, Commit(t));
    assert t !in s.log;
    forall u | u in s'.txns && s'.txns[u].phase == Committed
      ensures u in s'.log
    {
      assert u != t ==> u in s.log;
    }
    forall a, b | IsRunning(s', a) && IsRunning(s', b) && a != b
      ensures s'.txns[a].writes.Keys !! s'.txns[b].writes.Keys
    {
      assert IsRunning(s, a) && IsRunning(s, b);
    }
  }

  lemma CommitKeepsTxns(s: System, db0: Rows, t: Tid)
    requires SysInv(s, db0) && IsRunning(s, t) && s.txns[t].done == |s.txns[t].program|
    ensures forall u :: u in Do(s, Commit(t)).txns ==> TxnOk(Do(s, Commit(t)), u)
  {
    forall u | u in s.txns
      ensures TxnOk(Do(s, Commit(t)), u)
    {
      if u == t {
        assert TxnOk(s, t);
      } else {
        CommitKeepsOthers(s, db0, t, u);
      }
    }
  }

  lemma CommitKeepsInv(s: System, db0: Rows, t: Tid)
    requires SysInv(s, db0) && IsRunning(s, t) && s.txns[t].done == |s.txns[t].program|
    ensures SysInv(Do(s, Commit(t)), db0)
  {
    var x := s.txns[t];
    assert Alone(s.db, x.program) == Some(x.writes) by {
      assert TxnOk(s, t) && x.program[..x.done] == x.program;
    }
    CommitKeepsTxns(s, db0, t);
    CommitKeepsLog(s, t);
    assert (Programs(s) + [x.program])[..|s.log|] == Programs(s);
  }

  lemma DoKeepsInv(s: System, db0: Rows, a: Action)
    requires SysInv(s, db0)
    ensures SysInv(Do(s, a), db0)
  {
    match a
    case Begin(t, program) =>
      if t !in s.txns && NonNegative(program) {
        assert program[..0] == [];
        LocalStepKeepsInv(s, db0, t, Txn(program, 0, map[], Running));
      }
    case Act(t) =>
      if CanAct(s, t) {
        ActKeepsInv(s, db0, t);
      }
    case Commit(t) =>
      if IsRunning(s, t) && s.txns[t].done == |s.txns[t].program| {
        CommitKeepsInv(s, db0, t);
      }
    case Abort(t) =>
      if IsRunning(s, t) {
        assert TxnOk(s, t);
        LocalStepKeepsInv(s, db0, t, RolledBack(s.txns[t]));
      }
  }

  lemma {:induction false} InterleavingKeepsInv(db: Rows, actions: seq<Action>)
    ensures SysInv(Interleave(db, actions), db)
  {
    if actions != [] {
      var n := |actions| - 1;
      InterleavingKeepsInv(db, actions[..n]);
      DoKeepsInv(Interleave(db, actions[..n]), db, actions[n]);
    }
  }

  /**
   Serializability. Whatever the interleaving, the committed rows are those of the
   committed transactions run one at a time in commit order: each commits exactly
   once, none of them fails in that order, and no committed update is lost.
   */
  lemma EveryInterleavingIsSerial(db: Rows, actions: seq<Action>)
    ensures var s := Interleave(db, actions);
            && LogOk(s)
            && Serial(db, Programs(s)) == Some(s.db)
  {
    InterleavingKeepsInv(db, actions);
  }
}

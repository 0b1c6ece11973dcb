/**
 Receipts and payments under concurrency. Invoice rows are locked as in RowLocks, but a
 transaction reads its payment, or the allocations it takes back, without a lock when it
 starts, and writes its receipt or payment when it commits. A receipt may have been
 deleted between the lookup of the request and the start of its transaction.
 */
module ReceiptRaces {
  import opened Results
  import opened Money
  import opened Sums
  import opened SalesLedger
  import opened SalesLaws
  import opened RowLocks
  import opened RowLockLaws

  /** What a running transaction has read and is going to write. */
  datatype Job =
    | Creates(receipt: Id, mitra: Id, given: seq<AllocationInput>)
    | Edits(receipt: Id, taken: seq<Allocation>, foundLive: bool, mitra: Id, given: seq<AllocationInput>)
    | Deletes(receipt: Id, taken: seq<Allocation>, foundLive: bool)
    | Verifies(payment: Id, invoice: Id, amount: Cents)

  datatype World = World(sys: System, receipts: map<Id, Receipt>, payments: map<Id, Payment>, jobs: map<Tid, Job>)

  /** `newId` is the generated id of a new receipt. */
  datatype Move = Start(t: Tid, request: Request, newId: Id) | Advance(t: Tid) | Finish(t: Tid) | GiveUp(t: Tid)

  // --- the steps ---------------------------------------------------------------------

  /** The request can start: a normalised list, a receipt on record, a payment read as pending. */
  predicate CanStart(w: World, q: Request) {
    match q
    case Create(_, s) => Ascending(s) && ValidAmounts(s)
    case Update(r, _, s) => r in w.receipts && Ascending(s) && ValidAmounts(s)
    case Delete(r) => r in w.receipts
    case Verify(p) => p in w.payments && !w.payments[p].verified
  }

  function JobOf(w: World, q: Request, newId: Id): Job
    requires CanStart(w, q)
  {
    match q
    case Create(mitra, s) => Creates(newId, mitra, s)
    case Update(r, mitra, s) => Edits(r, w.receipts[r].allocations, !w.receipts[r].deleted, mitra, s)
    case Delete(r) => Deletes(r, w.receipts[r].allocations, !w.receipts[r].deleted)
    case Verify(p) => Verifies(p, w.payments[p].invoice, w.payments[p].amount)
  }

  function Taking(j: Job): seq<Allocation> {
    match j
    case Edits(_, taken, _, _, _) => taken
    case Deletes(_, taken, _) => taken
    case _ => []
  }

  function Giving(j: Job): Program {
    match j
    case Creates(_, mitra, s) => ApplyOps(mitra, s)
    case Edits(_, _, _, mitra, s) => ApplyOps(mitra, s)
    case Deletes(_, _, _) => []
    case Verifies(_, invoice, amount) => [Apply(invoice, None, Units(amount))]
  }

  /** The balance changes of the transaction: everything taken back first, then everything applied. */
  function JobProgram(j: Job): Program {
    InTurn(ReverseOps(Taking(j)), Giving(j))
  }

  /** An edit replaces the allocation rows even of a receipt that was deleted meanwhile, and leaves it deleted. */
  function EditedReceipt(r: Receipt, mitra: Id, s: seq<AllocationInput>): Receipt {
    if r.deleted then r.(allocations := AllocationRows(s)) else Receipt(mitra, SumAll(AllocationRows(s)), AllocationRows(s), false)
  }

  function WrittenReceipts(receipts: map<Id, Receipt>, j: Job): map<Id, Receipt> {
    match j
    case Creates(r, mitra, s) => receipts[r := Receipt(mitra, SumAll(AllocationRows(s)), AllocationRows(s), false)]
    case Edits(r, _, _, mitra, s) => if r in receipts then receipts[r := EditedReceipt(receipts[r], mitra, s)] else receipts
    case Deletes(r, _, _) => if r in receipts then receipts[r := receipts[r].(deleted := true)] else receipts
    case Verifies(_, _, _) => receipts
  }

  function WrittenPayments(payments: map<Id, Payment>, j: Job): map<Id, Payment> {
    if j.Verifies? && j.payment in payments then payments[j.payment := payments[j.payment].(verified := true)] else payments
  }

  /** Every balance change is done; a new receipt's id is not in use. */
  predicate CanFinish(w: World, t: Tid) {
    && t in w.jobs && IsRunning(w.sys, t) && w.sys.txns[t].done == |w.sys.txns[t].program|
    && (w.jobs[t].Creates? ==> w.jobs[t].receipt !in w.receipts)
  }

  function StepWorld(w: World, m: Move): World {
    match m
    case Start(t, q, newId) =>
      if t in w.sys.txns || t in w.jobs || !CanStart(w, q) then w
      else
        var j := JobOf(w, q, newId);
        w.(sys := Do(w.sys, Begin(t, JobProgram(j))), jobs := w.jobs[t := j])
    case Advance(t) => w.(sys := Do(w.sys, Act(t)))
    case Finish(t) =>
      if CanFinish(w, t)
      then World(Do(w.sys, Commit(t)), WrittenReceipts(w.receipts, w.jobs[t]), WrittenPayments(w.payments, w.jobs[t]), w.jobs)
      else w
    case GiveUp(t) => w.(sys := Do(w.sys, Abort(t)))
  }

  /** Any interleaving at all, from the rows of a ledger. */
  function Explore(l: Ledger, moves: seq<Move>): World {
    if moves == [] then World(System(l.invoices, map[], []), l.receipts, l.payments, map[])
    else StepWorld(Explore(l, moves[..|moves| - 1]), moves[|moves| - 1])
  }

  // --- what the balances should be ---------------------------------------------------

  /** Verified payments plus allocations on live receipts. */
  ghost function Recorded(w: World, i: Id): Cents {
    VerifiedOn(w.payments, i) + AllocatedOn(w.receipts, i)
  }

  ghost predicate Conserved(w: World, i: Id) {
    i in w.sys.db && w.sys.db[i].paid == Recorded(w, i)
  }

  function GivenTo(j: Job, i: Id): Cents {
    match j
    case Creates(_, _, s) => SumFor(AllocationRows(s), i)
    case Edits(_, _, _, _, s) => SumFor(AllocationRows(s), i)
    case Deletes(_, _, _) => 0
    case Verifies(_, invoice, amount) => if invoice == i then amount else 0
  }

  function ShareOnRecord(receipts: map<Id, Receipt>, r: Id, i: Id): Cents {
    if r in receipts then Share(receipts[r], i) else 0
  }

  /** What the receipt or payment of the job contributes to the recorded money right now. */
  function OnRecord(w: World, j: Job, i: Id): Cents {
    match j
    case Creates(r, _, _) => ShareOnRecord(w.receipts, r, i)
    case Edits(r, _, _, _, _) => ShareOnRecord(w.receipts, r, i)
    case Deletes(r, _, _) => ShareOnRecord(w.receipts, r, i)
    case Verifies(p, _, _) => if p in w.payments then VerifiedPart(w.payments[p], i) else 0
  }

  // --- what every interleaving keeps -----------------------------------------------------

  predicate AllocationsOk(s: seq<Allocation>) {
    AscendingRows(s) && forall k :: 0 <= k < |s| ==> 0 <= s[k].amount
  }

  predicate InputsOk(s: seq<AllocationInput>) {
    Ascending(s) && ValidAmounts(s)
  }

  predicate JobOk(j: Job) {
    match j
    case Creates(_, _, s) => InputsOk(s)
    case Edits(_, taken, _, _, s) => AllocationsOk(taken) && InputsOk(s)
    case Deletes(_, taken, _) => AllocationsOk(taken)
    case Verifies(_, _, amount) => 0 <= amount
  }

  /** A verifying job holds its payment's own figures; they never change. */
  predicate PaymentAsRead(payments: map<Id, Payment>, j: Job) {
    j.Verifies? ==>
      j.payment in payments && payments[j.payment].invoice == j.invoice && payments[j.payment].amount == j.amount
  }

  predicate ReceiptOnRecord(receipts: map<Id, Receipt>, j: Job) {
    j.Edits? || j.Deletes? ==> j.receipt in receipts
  }

  ghost predicate TablesOk(w: World) {
    && (forall r :: r in w.receipts ==> AllocationsOk(w.receipts[r].allocations))
    && (forall p :: p in w.payments ==> 0 <= w.payments[p].amount)
    && NonNegativePaid(w.sys.db)
  }

  ghost predicate JobsOk(w: World) {
    && w.jobs.Keys == w.sys.txns.Keys
    && forall t :: t in w.jobs ==>
         && JobOk(w.jobs[t]) && w.sys.txns[t].program == JobProgram(w.jobs[t])
         && PaymentAsRead(w.payments, w.jobs[t]) && ReceiptOnRecord(w.receipts, w.jobs[t])
  }

  ghost predicate WorldInv(w: World, l: Ledger) {
    SysInv(w.sys, l.invoices) && w.sys.db.Keys == l.invoices.Keys && TablesOk(w) && JobsOk(w)
  }

  lemma RowsAreOk(s: seq<AllocationInput>)
    requires InputsOk(s)
    ensures AllocationsOk(AllocationRows(s))
  {
    forall k | 0 <= k < |s|
      ensures 0 <= AllocationRows(s)[k].amount
    {
      NonNegativeCents(s[k].amount);
    }
  }

  lemma JobProgramNonNegative(j: Job)
    requires JobOk(j)
    ensures NonNegative(JobProgram(j))
  {
  }

  /** Acting, committing and rolling back leave every program as it started. */
  lemma ProgramsStay(s: System, a: Action)
    requires !a.Begin?
    ensures Do(s, a).txns.Keys == s.txns.Keys
    ensures forall t :: t in s.txns ==> Do(s, a).txns[t].program == s.txns[t].program
  {
  }

  lemma RowsStay(s: System, a: Action)
    requires !a.Commit?
    ensures Do(s, a).db == s.db
  {
  }

  /** The locking part of the invariant is the one of RowLocks. */
  lemma LocksKeepInv(w: World, l: Ledger, a: Action)
    requires SysInv(w.sys, l.invoices)
    ensures SysInv(Do(w.sys, a), l.invoices)
  {
    DoKeepsInv(w.sys, l.invoices, a);
  }

  lemma StartedJobIsOk(w: World, q: Request, newId: Id)
    requires TablesOk(w) && CanStart(w, q)
    ensures var j := JobOf(w, q, newId); JobOk(j) && PaymentAsRead(w.payments, j) && ReceiptOnRecord(w.receipts, j)
  {
  }

  lemma StartKeepsJobs(w: World, t: Tid, q: Request, newId: Id)
    requires TablesOk(w) && JobsOk(w) && t !in w.jobs && CanStart(w, q)
    ensures JobsOk(StepWorld(w, Start(t, q, newId)))
  {
    StartedJobIsOk(w, q, newId);
    JobProgramNonNegative(JobOf(w, q, newId));
  }

  lemma StartKeepsInv(w: World, l: Ledger, t: Tid, q: Request, newId: Id)
    requires WorldInv(w, l) && t !in w.jobs && CanStart(w, q)
    ensures WorldInv(StepWorld(w, Start(t, q, newId)), l)
  {
    var a := Begin(t, JobProgram(JobOf(w, q, newId)));
    LocksKeepInv(w, l, a);
    RowsStay(w.sys, a);
    StartKeepsJobs(w, t, q, newId);
    assert StepWorld(w, Start(t, q, newId)).sys == Do(w.sys, a);
  }

  lemma LockStepKeepsInv(w: World, l: Ledger, a: Action)
    requires WorldInv(w, l) && (a.Act? || a.Abort?)
    ensures WorldInv(w.(sys := Do(w.sys, a)), l)
  {
    LocksKeepInv(w, l, a);
    RowsStay(w.sys, a);
    ProgramsStay(w.sys, a);
  }

  /** A committing transaction leaves the rows that its whole program leaves when run alone. */
  lemma CommitIsAlone(s: System, db0: Rows, t: Tid)
    requires SysInv(s, db0) && IsRunning(s, t) && s.txns[t].done == |s.txns[t].program|
    ensures Alone(s.db, s.txns[t].program) == Some(s.txns[t].writes)
    ensures Do(s, Commit(t)).db == s.db + s.txns[t].writes
    ensures Do(s, Commit(t)).db.Keys == s.db.Keys
  {
    var x := s.txns[t];
    assert TxnOk(s, t) && x.program[..x.done] == x.program;
    AloneTouches(s.db, x.program);
  }

  lemma {:induction false} AloneNonNegative(db: Rows, p: Program)
    requires NonNegativePaid(db) && NonNegative(p) && Alone(db, p).Some?
    ensures NonNegativePaid(Alone(db, p).value)
  {
    if p != [] {
      var n := |p| - 1;
      AloneNonNegative(db, p[..n]);
      OneEffect(Seen(db, Alone(db, p[..n]).value, p[n].invoice).value, p[n], p[n].invoice);
    }
  }

  lemma WrittenReceiptsOk(receipts: map<Id, Receipt>, j: Job)
    requires forall r :: r in receipts ==> AllocationsOk(receipts[r].allocations)
    requires JobOk(j)
    ensures forall r :: r in WrittenReceipts(receipts, j) ==> AllocationsOk(WrittenReceipts(receipts, j)[r].allocations)
    ensures receipts.Keys <= WrittenReceipts(receipts, j).Keys
  {
    if j.Creates? || j.Edits? {
      RowsAreOk(j.given);
    }
  }

  /** The committed rows before and after a commit are those before and after the job running alone. */
  ghost predicate RunsAlone(db: Rows, j: Job, db': Rows) {
    && JobOk(j) && NonNegativePaid(db) && db'.Keys == db.Keys
    && Alone(db, JobProgram(j)).Some? && db' == db + Alone(db, JobProgram(j)).value
  }

  /** The whole program is done, and its writes are what it does alone. */
  ghost predicate WritesAlone(s: System, s': System, p: Program) {
    Alone(s.db, p).Some? && s'.db == s.db + Alone(s.db, p).value && s'.db.Keys == s.db.Keys
  }

  lemma FinishingWritesAlone(w: World, db0: Rows, t: Tid)
    requires SysInv(w.sys, db0) && CanFinish(w, t)
    ensures WritesAlone(w.sys, Do(w.sys, Commit(t)), w.sys.txns[t].program)
  {
    CommitIsAlone(w.sys, db0, t);
  }

  lemma JobWritesAlone(s: System, s': System, p: Program, j: Job)
    requires WritesAlone(s, s', p) && p == JobProgram(j) && JobOk(j) && NonNegativePaid(s.db)
    ensures RunsAlone(s.db, j, s'.db)
  {
  }

  lemma CommitRunsAlone(w: World, l: Ledger, t: Tid)
    requires WorldInv(w, l) && CanFinish(w, t)
    ensures RunsAlone(w.sys.db, w.jobs[t], StepWorld(w, Finish(t)).sys.db)
  {
    FinishingWritesAlone(w, l.invoices, t);
    JobWritesAlone(w.sys, Do(w.sys, Commit(t)), w.sys.txns[t].program, w.jobs[t]);
  }

  lemma RunningAloneKeepsPaid(db: Rows, j: Job, db': Rows)
    requires RunsAlone(db, j, db')
    ensures NonNegativePaid(db')
  {
    JobProgramNonNegative(j);
    AloneNonNegative(db, JobProgram(j));
  }

  lemma FinishKeepsTables(w: World, t: Tid)
    requires TablesOk(w) && CanFinish(w, t) && JobOk(w.jobs[t]) && NonNegativePaid(StepWorld(w, Finish(t)).sys.db)
    ensures TablesOk(StepWorld(w, Finish(t)))
  {
    WrittenReceiptsOk(w.receipts, w.jobs[t]);
  }

  /** No job loses its record, and a payment keeps its figures. */
  lemma RecordsStay(w: World, j: Job, done: Job)
    requires PaymentAsRead(w.payments, j) && ReceiptOnRecord(w.receipts, j)
    ensures PaymentAsRead(WrittenPayments(w.payments, done), j) && ReceiptOnRecord(WrittenReceipts(w.receipts, done), j)
  {
  }

  lemma FinishKeepsJobs(w: World, t: Tid)
    requires JobsOk(w) && CanFinish(w, t)
    ensures JobsOk(StepWorld(w, Finish(t)))
  {
    var w' := StepWorld(w, Finish(t));
    ProgramsStay(w.sys, Commit(t));
    forall u | u in w'.jobs
      ensures JobOk(w'.jobs[u]) && w'.sys.txns[u].program == JobProgram(w'.jobs[u])
      ensures PaymentAsRead(w'.payments, w'.jobs[u]) && ReceiptOnRecord(w'.receipts, w'.jobs[u])
    {
      RecordsStay(w, w.jobs[u], w.jobs[t]);
    }
  }

  lemma FinishKeepsInv(w: World, l: Ledger, t: Tid)
    requires WorldInv(w, l) && CanFinish(w, t)
    ensures WorldInv(StepWorld(w, Finish(t)), l)
  {
    CommitRunsAlone(w, l, t);
    RunningAloneKeepsPaid(w.sys.db, w.jobs[t], StepWorld(w, Finish(t)).sys.db);
    FinishKeepsTables(w, t);
    FinishKeepsJobs(w, t);
    LocksKeepInv(w, l, Commit(t));
  }

  lemma StepKeepsWorldInv(w: World, l: Ledger, m: Move)
    requires WorldInv(w, l)
    ensures WorldInv(StepWorld(w, m), l)
  {
    match m
    case Start(t, q, newId) =>
      if t !in w.jobs && CanStart(w, q) {
        StartKeepsInv(w, l, t, q, newId);
      }
    case Finish(t) =>
      if CanFinish(w, t) {
        FinishKeepsInv(w, l, t);
      }
    case Advance(t) => LockStepKeepsInv(w, l, Act(t));
    case GiveUp(t) => LockStepKeepsInv(w, l, Abort(t));
  }

  lemma LedgerTablesOk(l: Ledger)
    requires Inv(l)
    ensures TablesOk(Explore(l, []))
  {
    forall i | i in l.invoices
      ensures 0 <= l.invoices[i].paid
    {
      assert InvoiceOk(l, i);
      RecordedMoney(l, i);
    }
    forall r | r in l.receipts
      ensures AllocationsOk(l.receipts[r].allocations)
    {
      assert ReceiptOk(l.receipts[r], l.invoices);
    }
    assert forall p :: p in l.payments ==> PaymentOk(l.payments[p], l.invoices);
  }

  lemma {:induction false} ExploreKeepsInv(l: Ledger, moves: seq<Move>)
    requires Inv(l)
    ensures WorldInv(Explore(l, moves), l)
  {
    if moves == [] {
      LedgerTablesOk(l);
      InterleavingKeepsInv(l.invoices, []);
    } else {
      ExploreKeepsInv(l, moves[..|moves| - 1]);
      StepKeepsWorldInv(Explore(l, moves[..|moves| - 1]), l, moves[|moves| - 1]);
    }
  }

  // --- what one commit does to one invoice --------------------------------------------------

  function Clamp(x: Cents): Cents {
    if x < 0 then 0 else x
  }

  lemma {:induction false} ReversesTake(db: Rows, rows: seq<Allocation>, i: Id)
    requires AllocationsOk(rows) && NonNegativePaid(db) && i in db && Alone(db, ReverseOps(rows)).Some?
    ensures PaidAfter(db, ReverseOps(rows), i) == Clamp(db[i].paid - SumFor(rows, i))
  {
    if rows != [] {
      var n := |rows| - 1;
      assert ReverseOps(rows)[..n] == ReverseOps(rows[..n]);
      ReversesTake(db, rows[..n], i);
      if rows[n].invoice == i {
        assert !Touches(rows[..n], i);
        SumForUntouched(rows[..n], i);
      }
    }
  }

  lemma OneMoreApply(db: Rows, p: Program, n: nat, i: Id)
    requires NonNegativePaid(db) && NonNegative(p) && i in db && n < |p| && p[n].Apply?
    requires Alone(db, p[..n + 1]).Some?
    ensures Alone(db, p[..n]).Some?
    ensures PaidAfter(db, p[..n + 1], i) == PaidAfter(db, p[..n], i) + if p[n].invoice == i then ToCents(p[n].amount) else 0
  {
    assert p[..n + 1][..n] == p[..n];
    PaidEquation(db, p[..n], i);
    AddingToStored(PaidAfter(db, p[..n], i), p[n].amount);
  }

  /** p ends in the application of the allocations. */
  predicate EndsApplying(p: Program, m: nat, mitra: Id, s: seq<AllocationInput>) {
    m + |s| == |p| && forall k :: 0 <= k < |s| ==> p[m + k] == Apply(s[k].invoice, Some(mitra), s[k].amount)
  }

  lemma RowsSnoc(s: seq<AllocationInput>, h: nat, i: Id)
    requires h < |s|
    ensures SumFor(AllocationRows(s[..h + 1]), i) ==
            SumFor(AllocationRows(s[..h]), i) + if s[h].invoice == i then ToCents(s[h].amount) else 0
  {
    assert AllocationRows(s[..h + 1])[..h] == AllocationRows(s[..h]);
  }

  lemma {:induction false} AppliesGive(db: Rows, p: Program, m: nat, mitra: Id, s: seq<AllocationInput>, k: nat, i: Id)
    requires NonNegativePaid(db) && NonNegative(p) && i in db && Alone(db, p).Some?
    requires EndsApplying(p, m, mitra, s) && k <= |s|
    ensures Alone(db, p[..m]).Some? && Alone(db, p[..m + k]).Some?
    ensures PaidAfter(db, p[..m + k], i) == PaidAfter(db, p[..m], i) + SumFor(AllocationRows(s[..k]), i)
    decreases k
  {
    AlonePrefix(db, p, m);
    AlonePrefix(db, p, m + k);
    if k > 0 {
      var h := k - 1;
      AppliesGive(db, p, m, mitra, s, h, i);
      assert p[m + h] == Apply(s[h].invoice, Some(mitra), s[h].amount);
      OneMoreApply(db, p, m + h, i);
      RowsSnoc(s, h, i);
    }
  }

  lemma AllocationsGiven(db: Rows, p: Program, m: nat, mitra: Id, s: seq<AllocationInput>, i: Id)
    requires NonNegativePaid(db) && NonNegative(p) && i in db && Alone(db, p).Some? && EndsApplying(p, m, mitra, s)
    ensures Alone(db, p[..m]).Some? && PaidAfter(db, p, i) == PaidAfter(db, p[..m], i) + SumFor(AllocationRows(s), i)
  {
    assert p[..|p|] == p && s[..|s|] == s;
    AppliesGive(db, p, m, mitra, s, |s|, i);
  }

  lemma PaymentGiven(db: Rows, p: Program, invoice: Id, amount: Cents, i: Id)
    requires p == [Apply(invoice, None, Units(amount))]
    requires NonNegativePaid(db) && NonNegative(p) && i in db && Alone(db, p).Some?
    ensures Alone(db, p[..0]).Some?
    ensures PaidAfter(db, p, i) == PaidAfter(db, p[..0], i) + if invoice == i then amount else 0
  {
    assert p[..1] == p;
    OneMoreApply(db, p, 0, i);
    StoredAmountsAreExact(amount);
  }

  /** The second half of a job's program, run after the first: one summand per step. */
  ghost predicate GivesAfter(db: Rows, p: Program, m: nat, j: Job, i: Id)
    requires i in db && m <= |p|
  {
    Alone(db, p[..m]).Some? && PaidAfter(db, p, i) == PaidAfter(db, p[..m], i) + GivenTo(j, i)
  }

  lemma JobGivesAfter(db: Rows, p: Program, j: Job, i: Id)
    requires p == JobProgram(j) && NonNegative(p) && NonNegativePaid(db) && i in db && Alone(db, p).Some?
    ensures GivesAfter(db, p, |Taking(j)|, j, i)
  {
    match j
    case Creates(_, mitra, s) => AllocationsGiven(db, p, 0, mitra, s, i);
    case Edits(_, taken, _, mitra, s) => AllocationsGiven(db, p, |taken|, mitra, s, i);
    case Deletes(_, _, _) => assert p[..|p|] == p;
    case Verifies(_, invoice, amount) => PaymentGiven(db, p, invoice, amount, i);
  }

  lemma FirstHalf(j: Job)
    ensures JobProgram(j)[..|Taking(j)|] == ReverseOps(Taking(j))
  {
  }

  lemma HalvesPay(db: Rows, p: Program, m: nat, j: Job, i: Id)
    requires NonNegativePaid(db) && i in db && m <= |p| && GivesAfter(db, p, m, j, i)
    requires AllocationsOk(Taking(j)) && p[..m] == ReverseOps(Taking(j))
    ensures PaidAfter(db, p, i) == Clamp(db[i].paid - SumFor(Taking(j), i)) + GivenTo(j, i)
  {
    ReversesTake(db, Taking(j), i);
  }

  lemma TakingOk(j: Job)
    requires JobOk(j)
    ensures AllocationsOk(Taking(j))
  {
  }

  /** Run alone, a job takes its share back, clamped at zero, and then gives. */
  lemma PaidAfterJob(db: Rows, j: Job, i: Id)
    requires JobOk(j) && NonNegativePaid(db) && i in db && Alone(db, JobProgram(j)).Some?
    ensures PaidAfter(db, JobProgram(j), i) == Clamp(db[i].paid - SumFor(Taking(j), i)) + GivenTo(j, i)
  {
    JobProgramNonNegative(j);
    TakingOk(j);
    FirstHalf(j);
    JobGivesAfter(db, JobProgram(j), j, i);
    HalvesPay(db, JobProgram(j), |Taking(j)|, j, i);
  }

  /** What the job's record contributes once it is written. */
  function NewOnRecord(w: World, j: Job, i: Id): Cents {
    match j
    case Edits(r, _, _, _, _) => if r in w.receipts && w.receipts[r].deleted then 0 else GivenTo(j, i)
    case Deletes(_, _, _) => 0
    case _ => GivenTo(j, i)
  }

  /** A committing job in terms of the records it names. */
  ghost predicate OnItsRecord(w: World, j: Job) {
    && JobOk(j) && PaymentAsRead(w.payments, j) && ReceiptOnRecord(w.receipts, j)
    && (j.Creates? ==> j.receipt !in w.receipts)
  }

  lemma FinishingJob(w: World, t: Tid)
    requires JobsOk(w) && CanFinish(w, t)
    ensures OnItsRecord(w, w.jobs[t])
  {
  }

  /** The records a commit leaves. */
  predicate Recorder(w: World, j: Job, w': World) {
    w'.receipts == WrittenReceipts(w.receipts, j) && w'.payments == WrittenPayments(w.payments, j)
  }

  lemma RecordedAfterWrite(w: World, j: Job, w': World, i: Id)
    requires OnItsRecord(w, j) && Recorder(w, j, w')
    ensures Recorded(w', i) == Recorded(w, i) - OnRecord(w, j, i) + NewOnRecord(w, j, i)
  {
    if j.Verifies? {
      VerifiedAfterWrite(w.payments, j.payment, w.payments[j.payment].(verified := true), i);
    } else {
      AllocatedAfterWrite(w.receipts, j.receipt, WrittenReceipts(w.receipts, j)[j.receipt], i);
    }
  }

  predicate Pays(db: Rows, j: Job, db': Rows, i: Id) {
    i in db && i in db' && db'[i].paid == Clamp(db[i].paid - SumFor(Taking(j), i)) + GivenTo(j, i)
  }

  lemma RunningAlonePays(db: Rows, j: Job, db': Rows, i: Id)
    requires RunsAlone(db, j, db') && i in db
    ensures Pays(db, j, db', i)
  {
    JobProgramNonNegative(j);
    PaidAfterJob(db, j, i);
  }

  // --- exactly which commits break conservation -----------------------------------------------

  /** A take-back finds its share still on record, or the clamp hides the rest because nothing else is recorded. */
  ghost predicate ShareStands(w: World, r: Id, taken: seq<Allocation>, i: Id) {
    var share := ShareOnRecord(w.receipts, r, i);
    SumFor(taken, i) == share || (SumFor(taken, i) > share && Recorded(w, i) == share)
  }

  /** What must be true of the records when a transaction commits, as far as invoice i goes. */
  ghost predicate Harmless(w: World, j: Job, i: Id) {
    match j
    case Creates(_, _, _) => true
    case Verifies(p, invoice, amount) => p in w.payments && w.payments[p].verified && invoice == i ==> amount == 0
    case Deletes(r, taken, _) => ShareStands(w, r, taken, i)
    case Edits(r, taken, _, _, s) =>
      if r in w.receipts && w.receipts[r].deleted
      then SumFor(AllocationRows(s), i) == if SumFor(taken, i) <= Recorded(w, i) then SumFor(taken, i) else Recorded(w, i)
      else ShareStands(w, r, taken, i)
  }

  lemma {:induction false} SumForNonNegative(s: seq<Allocation>, i: Id)
    requires forall k :: 0 <= k < |s| ==> 0 <= s[k].amount
    ensures 0 <= SumFor(s, i)
  {
    if s != [] {
      SumForNonNegative(s[..|s| - 1], i);
    }
  }

  /** Every record's part is covered by the recorded money. */
  lemma PartsAreRecorded(w: World, j: Job, i: Id)
    requires TablesOk(w)
    ensures 0 <= OnRecord(w, j, i) <= Recorded(w, i)
  {
    forall r | r in w.receipts
      ensures 0 <= Share(w.receipts[r], i)
    {
      SumForNonNegative(w.receipts[r].allocations, i);
    }
    TotalAtLeast(Shares(w.receipts, i), if j.Verifies? then 0 else j.receipt);
    TotalAtLeast(VerifiedParts(w.payments, i), if j.Verifies? then j.payment else 0);
  }

  /** The new balance is the new recorded money exactly when the commit is harmless. */
  lemma HarmlessArithmetic(w: World, j: Job, i: Id)
    requires OnItsRecord(w, j) && 0 <= OnRecord(w, j, i) <= Recorded(w, i)
    ensures Clamp(Recorded(w, i) - SumFor(Taking(j), i)) + GivenTo(j, i)
              == Recorded(w, i) - OnRecord(w, j, i) + NewOnRecord(w, j, i)
            <==> Harmless(w, j, i)
  {
    SumForNonNegative(Taking(j), i);
    if j.Creates? || j.Edits? {
      RowsAreOk(j.given);
      SumForNonNegative(AllocationRows(j.given), i);
    }
  }

  lemma WritingConservesExactlyWhen(w: World, j: Job, w': World, i: Id)
    requires OnItsRecord(w, j) && Recorder(w, j, w') && Pays(w.sys.db, j, w'.sys.db, i)
    requires TablesOk(w) && Conserved(w, i)
    ensures Conserved(w', i) <==> Harmless(w, j, i)
  {
    RecordedAfterWrite(w, j, w', i);
    PartsAreRecorded(w, j, i);
    HarmlessArithmetic(w, j, i);
  }

  lemma CommitPays(w: World, l: Ledger, t: Tid, i: Id)
    requires WorldInv(w, l) && CanFinish(w, t) && i in w.sys.db
    ensures Pays(w.sys.db, w.jobs[t], StepWorld(w, Finish(t)).sys.db, i)
  {
    CommitRunsAlone(w, l, t);
    RunningAlonePays(w.sys.db, w.jobs[t], StepWorld(w, Finish(t)).sys.db, i);
  }

  /** One commit: conservation survives on an invoice exactly when the commit is harmless to it. */
  lemma CommitConservesExactlyWhen(w: World, l: Ledger, t: Tid, i: Id)
    requires WorldInv(w, l) && CanFinish(w, t) && Conserved(w, i)
    ensures Conserved(StepWorld(w, Finish(t)), i) <==> Harmless(w, w.jobs[t], i)
  {
    CommitPays(w, l, t, i);
    FinishingJob(w, t);
    WritingConservesExactlyWhen(w, w.jobs[t], StepWorld(w, Finish(t)), i);
  }

  lemma OtherMovesConserve(w: World, m: Move, i: Id)
    requires !(m.Finish? && CanFinish(w, m.t))
    ensures Conserved(StepWorld(w, m), i) <==> Conserved(w, i)
  {
  }

  ghost predicate ConservedThroughout(l: Ledger, moves: seq<Move>, i: Id) {
    forall n :: 0 <= n <= |moves| ==> Conserved(Explore(l, moves[..n]), i)
  }

  /** The n-th move, if it commits, is harmless to invoice i. */
  ghost predicate HarmlessMove(l: Ledger, moves: seq<Move>, n: nat, i: Id)
    requires n < |moves|
  {
    var w, m := Explore(l, moves[..n]), moves[n];
    m.Finish? && CanFinish(w, m.t) ==> Harmless(w, w.jobs[m.t], i)
  }

  lemma ExploreNext(l: Ledger, moves: seq<Move>, n: nat)
    requires n < |moves|
    ensures Explore(l, moves[..n + 1]) == StepWorld(Explore(l, moves[..n]), moves[n])
  {
    assert moves[..n + 1][..n] == moves[..n];
  }

  lemma MoveConservesExactlyWhen(l: Ledger, moves: seq<Move>, n: nat, i: Id)
    requires Inv(l) && n < |moves| && Conserved(Explore(l, moves[..n]), i)
    ensures Conserved(Explore(l, moves[..n + 1]), i) <==> HarmlessMove(l, moves, n, i)
  {
    var w, m := Explore(l, moves[..n]), moves[n];
    ExploreNext(l, moves, n);
    ExploreKeepsInv(l, moves[..n]);
    if m.Finish? && CanFinish(w, m.t) {
      CommitConservesExactlyWhen(w, l, m.t, i);
    } else {
      OtherMovesConserve(w, m, i);
    }
  }

  ghost predicate HarmlessUpTo(l: Ledger, moves: seq<Move>, n: nat, i: Id)
    requires n <= |moves|
  {
    forall k :: 0 <= k < n ==> HarmlessMove(l, moves, k, i)
  }

  lemma OneLess(l: Ledger, moves: seq<Move>, n: nat, i: Id)
    requires 0 < n <= |moves| && HarmlessUpTo(l, moves, n, i)
    ensures HarmlessUpTo(l, moves, n - 1, i)
  {
  }

  /** The ledger the moves start from is conserved. */
  lemma StartsConserved(l: Ledger, i: Id)
    requires Inv(l) && i in l.invoices
    ensures Conserved(Explore(l, []), i)
  {
    assert InvoiceOk(l, i);
  }

  lemma NextHarmlessConserves(l: Ledger, moves: seq<Move>, n: nat, i: Id)
    requires Inv(l) && 0 < n <= |moves| && HarmlessUpTo(l, moves, n, i) && Conserved(Explore(l, moves[..n - 1]), i)
    ensures Conserved(Explore(l, moves[..n]), i)
  {
    assert HarmlessMove(l, moves, n - 1, i);
    MoveConservesExactlyWhen(l, moves, n - 1, i);
  }

  lemma {:induction false} HarmlessMovesConserve(l: Ledger, moves: seq<Move>, n: nat, i: Id)
    requires Inv(l) && i in l.invoices && n <= |moves| && HarmlessUpTo(l, moves, n, i)
    ensures Conserved(Explore(l, moves[..n]), i)
  {
    if n == 0 {
      StartsConserved(l, i);
    } else {
      OneLess(l, moves, n, i);
      HarmlessMovesConserve(l, moves, n - 1, i);
      NextHarmlessConserves(l, moves, n, i);
    }
  }

  /**
   In every interleaving from a consistent ledger, an invoice's paid amount is its verified
   payments plus its live allocations after every move, exactly when every commit takes
   back what is still on record and verifies what is still pending, up to what the clamp hides.
   */
  lemma ConservedExactlyWhen(l: Ledger, moves: seq<Move>, i: Id)
    requires Inv(l) && i in l.invoices
    ensures ConservedThroughout(l, moves, i) <==> HarmlessUpTo(l, moves, |moves|, i)
  {
    if ConservedThroughout(l, moves, i) {
      forall n | 0 <= n < |moves|
        ensures HarmlessMove(l, moves, n, i)
      {
        assert Conserved(Explore(l, moves[..n]), i) && Conserved(Explore(l, moves[..n + 1]), i);
        MoveConservesExactlyWhen(l, moves, n, i);
      }
    }
    if HarmlessUpTo(l, moves, |moves|, i) {
      forall n | 0 <= n <= |moves|
        ensures Conserved(Explore(l, moves[..n]), i)
      {
        HarmlessPrefix(l, moves, n, i);
        HarmlessMovesConserve(l, moves, n, i);
      }
    }
  }

  lemma HarmlessPrefix(l: Ledger, moves: seq<Move>, n: nat, i: Id)
    requires n <= |moves| && HarmlessUpTo(l, moves, |moves|, i)
    ensures HarmlessUpTo(l, moves, n, i)
  {
  }
}

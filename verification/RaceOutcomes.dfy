/**
 Which overlapping receipt and payment transactions lose or invent money: none without
 a race on one record, and the double delete and the double verification that do.
 */
module RaceOutcomes {
  import opened Results
  import opened Money
  import opened Sums
  import opened InvoiceBalance
  import opened SalesLedger
  import opened SalesLaws
  import opened RowLocks
  import opened RowLockLaws
  import opened ReceiptRaces

  // --- transactions that do not race lose nothing ---------------------------------------------

  /** The record is still what the transaction read, and live or pending. */
  predicate AsRead(w: World, j: Job) {
    match j
    case Creates(_, _, _) => true
    case Edits(r, taken, _, _, _) => LiveReceipt(w.receipts, r) && w.receipts[r].allocations == taken
    case Deletes(r, taken, _) => LiveReceipt(w.receipts, r) && w.receipts[r].allocations == taken
    case Verifies(p, _, _) => p in w.payments && !w.payments[p].verified
  }

  /** The receipt was still live when the transaction began. */
  predicate BeganLive(j: Job) {
    match j
    case Edits(_, _, foundLive, _, _) => foundLive
    case Deletes(_, _, foundLive) => foundLive
    case _ => true
  }

  predicate TakesBack(j: Job) {
    j.Edits? || j.Deletes?
  }

  predicate SameRecord(a: Job, b: Job) {
    || (TakesBack(a) && TakesBack(b) && a.receipt == b.receipt)
    || (a.Verifies? && b.Verifies? && a.payment == b.payment)
  }

  predicate CommitsAt(l: Ledger, moves: seq<Move>, n: nat)
    requires n < |moves|
  {
    moves[n].Finish? && CanFinish(Explore(l, moves[..n]), moves[n].t)
  }

  /** After t began and before it committed, another transaction committed on the same receipt or payment. */
  predicate RacedAt(l: Ledger, moves: seq<Move>, m: nat, t: Tid)
    requires m < |moves|
  {
    var w := Explore(l, moves[..m]);
    CommitsAt(l, moves, m) && moves[m].t != t && t in w.jobs && SameRecord(w.jobs[moves[m].t], w.jobs[t])
  }

  ghost predicate Unraced(l: Ledger, moves: seq<Move>, n: nat, t: Tid)
    requires n <= |moves|
  {
    forall m :: 0 <= m < n ==> !RacedAt(l, moves, m, t)
  }

  /** A record stays as read through any step but a commit on it. */
  lemma StepLeavesRecord(w: World, m: Move, j: Job)
    requires AsRead(w, j)
    requires m.Finish? && CanFinish(w, m.t) ==> !SameRecord(w.jobs[m.t], j)
    ensures AsRead(StepWorld(w, m), j)
  {
  }

  lemma JobsStay(w: World, m: Move, t: Tid)
    requires t in w.jobs
    ensures t in StepWorld(w, m).jobs && StepWorld(w, m).jobs[t] == w.jobs[t]
  {
  }

  lemma StartedAsRead(w: World, m: Move, t: Tid)
    requires t !in w.jobs && t in StepWorld(w, m).jobs && BeganLive(StepWorld(w, m).jobs[t])
    ensures AsRead(StepWorld(w, m), StepWorld(w, m).jobs[t])
  {
  }

  lemma JobsRun(l: Ledger, moves: seq<Move>)
    requires Inv(l)
    ensures Explore(l, moves).jobs.Keys == Explore(l, moves).sys.txns.Keys
  {
    ExploreKeepsInv(l, moves);
  }

  lemma NoLongerRuns(w: World, t: Tid)
    requires CanFinish(w, t)
    ensures !IsRunning(StepWorld(w, Finish(t)).sys, t)
  {
  }

  lemma RunsOn(w: World, m: Move, t: Tid)
    requires t in w.sys.txns && IsRunning(StepWorld(w, m).sys, t)
    ensures IsRunning(w.sys, t)
  {
  }

  /** While nobody else commits on its record, a running transaction's reading stays true. */
  lemma {:induction false} StaysAsRead(l: Ledger, moves: seq<Move>, n: nat, t: Tid)
    requires Inv(l) && n <= |moves| && Unraced(l, moves, n, t)
    requires var w := Explore(l, moves[..n]); t in w.jobs && IsRunning(w.sys, t) && BeganLive(w.jobs[t])
    ensures AsRead(Explore(l, moves[..n]), Explore(l, moves[..n]).jobs[t])
  {
    if n > 0 {
      var w, m := Explore(l, moves[..n - 1]), moves[n - 1];
      ExploreNext(l, moves, n - 1);
      if t in w.jobs {
        JobsRun(l, moves[..n - 1]);
        JobsStay(w, m, t);
        RunsOn(w, m, t);
        StaysAsRead(l, moves, n - 1, t);
        if m.Finish? && CanFinish(w, m.t) {
          if m.t == t {
            NoLongerRuns(w, t);
          }
          assert !RacedAt(l, moves, n - 1, t);
        }
        StepLeavesRecord(w, m, w.jobs[t]);
      } else {
        StartedAsRead(w, m, t);
      }
    }
  }

  lemma AsReadIsHarmless(w: World, j: Job, i: Id)
    requires AsRead(w, j)
    ensures Harmless(w, j, i)
  {
  }

  /** Every commit began on a live record, and nobody else committed on that record in between. */
  ghost predicate NoRaces(l: Ledger, moves: seq<Move>) {
    forall n :: 0 <= n < |moves| && CommitsAt(l, moves, n) ==>
      BeganLive(Explore(l, moves[..n]).jobs[moves[n].t]) && Unraced(l, moves, n, moves[n].t)
  }

  lemma UnracedCommitIsHarmless(l: Ledger, moves: seq<Move>, n: nat, i: Id)
    requires Inv(l) && NoRaces(l, moves) && n < |moves| && CommitsAt(l, moves, n)
    ensures HarmlessMove(l, moves, n, i)
  {
    var w, t := Explore(l, moves[..n]), moves[n].t;
    StaysAsRead(l, moves, n, t);
    AsReadIsHarmless(w, w.jobs[t], i);
  }

  /**
   When no two transactions on the same receipt or payment overlap, no interleaving of
   creating, editing and deleting receipts and verifying payments loses or invents money.
   */
  lemma WithoutRacesMoneyIsConserved(l: Ledger, moves: seq<Move>, i: Id)
    requires Inv(l) && i in l.invoices && NoRaces(l, moves)
    ensures ConservedThroughout(l, moves, i)
  {
    forall n | 0 <= n < |moves|
      ensures HarmlessMove(l, moves, n, i)
    {
      if CommitsAt(l, moves, n) {
        UnracedCommitIsHarmless(l, moves, n, i);
      }
    }
    assert HarmlessUpTo(l, moves, |moves|, i);
    ConservedExactlyWhen(l, moves, i);
  }

  // --- the two races that go wrong -------------------------------------------------------------

  /** Deleting a receipt that another transaction deleted meanwhile is hidden only where nothing else is recorded. */
  lemma SecondDeleteConservesExactlyWhen(w: World, l: Ledger, t: Tid, i: Id)
    requires WorldInv(w, l) && CanFinish(w, t) && Conserved(w, i)
    requires w.jobs[t].Deletes? && !LiveReceipt(w.receipts, w.jobs[t].receipt) && SumFor(w.jobs[t].taken, i) > 0
    ensures Conserved(StepWorld(w, Finish(t)), i) <==> Recorded(w, i) == 0
  {
    CommitConservesExactlyWhen(w, l, t, i);
  }

  /** Verifying a payment that another transaction verified meanwhile counts it twice. */
  lemma SecondVerifyConservesExactlyWhen(w: World, l: Ledger, t: Tid, i: Id)
    requires WorldInv(w, l) && CanFinish(w, t) && Conserved(w, i)
    requires w.jobs[t].Verifies? && w.jobs[t].invoice == i
    requires w.jobs[t].payment in w.payments && w.payments[w.jobs[t].payment].verified
    ensures Conserved(StepWorld(w, Finish(t)), i) <==> w.jobs[t].amount == 0
  {
    CommitConservesExactlyWhen(w, l, t, i);
  }

  /** A request read from the ledger runs the program RowLockLaws gives it. */
  lemma JobRunsRequest(l: Ledger, q: Request, newId: Id)
    requires Known(l, q) && CanStart(Explore(l, []), q)
    ensures JobProgram(JobOf(Explore(l, []), q, newId)) == ProgramOf(l, q)
  {
    var p := JobProgram(JobOf(Explore(l, []), q, newId));
    match q
    case Create(mitra, s) => assert p == ApplyOps(mitra, s);
    case Update(r, mitra, s) =>
    case Delete(r) => assert p == ReverseOps(l.receipts[r].allocations);
    case Verify(v) => assert p == [Apply(l.payments[v].invoice, None, Units(l.payments[v].amount))];
  }

  /** Nobody but t holds a lock. */
  predicate OthersIdle(s: System, t: Tid) {
    forall u :: u in s.txns && u != t && s.txns[u].phase == Running ==> s.txns[u].writes == map[]
  }

  predicate AtStart(s: System, t: Tid) {
    t in s.txns && s.txns[t] == Txn(s.txns[t].program, 0, map[], Running)
  }

  function Advanced(w: World, t: Tid, k: nat): World
    requires t in w.sys.txns && k <= |w.sys.txns[t].program| && Alone(w.sys.db, w.sys.txns[t].program[..k]).Some?
  {
    var p := w.sys.txns[t].program;
    w.(sys := w.sys.(txns := w.sys.txns[t := Txn(p, k, Alone(w.sys.db, p[..k]).value, Running)]))
  }

  lemma OneAdvance(w: World, t: Tid, k: nat)
    requires AtStart(w.sys, t) && OthersIdle(w.sys, t) && k < |w.sys.txns[t].program|
    requires Alone(w.sys.db, w.sys.txns[t].program[..k]).Some? && Alone(w.sys.db, w.sys.txns[t].program[..k + 1]).Some?
    ensures StepWorld(Advanced(w, t, k), Advance(t)) == Advanced(w, t, k + 1)
  {
    var p := w.sys.txns[t].program;
    assert p[..k + 1][..k] == p[..k];
  }

  /** With all locks free, a transaction that succeeds alone gets through its program. */
  lemma {:induction false} Advances(l: Ledger, moves: seq<Move>, t: Tid, k: nat) returns (more: seq<Move>)
    requires var w := Explore(l, moves);
             && AtStart(w.sys, t) && OthersIdle(w.sys, t) && k <= |w.sys.txns[t].program|
             && Alone(w.sys.db, w.sys.txns[t].program).Some?
    ensures var w := Explore(l, moves);
            Alone(w.sys.db, w.sys.txns[t].program[..k]).Some? && Explore(l, more) == Advanced(w, t, k)
  {
    var w := Explore(l, moves);
    AlonePrefix(w.sys.db, w.sys.txns[t].program, k);
    if k == 0 {
      more := moves;
      assert w.sys.txns[t := w.sys.txns[t]] == w.sys.txns;
    } else {
      var before := Advances(l, moves, t, k - 1);
      more := before + [Advance(t)];
      assert more[..|before|] == before;
      OneAdvance(w, t, k - 1);
    }
  }

  /** The world after t ran through and committed with nobody in its way. */
  function Done(w: World, t: Tid): World
    requires t in w.sys.txns && t in w.jobs && Alone(w.sys.db, w.sys.txns[t].program).Some?
  {
    var p := w.sys.txns[t].program;
    World(System(w.sys.db + Alone(w.sys.db, p).value, w.sys.txns[t := Txn(p, |p|, map[], Committed)], w.sys.log + [t]),
          WrittenReceipts(w.receipts, w.jobs[t]), WrittenPayments(w.payments, w.jobs[t]), w.jobs)
  }

  lemma ExploreOneMore(l: Ledger, moves: seq<Move>, m: Move)
    ensures Explore(l, moves + [m]) == StepWorld(Explore(l, moves), m)
  {
    assert (moves + [m])[..|moves|] == moves;
  }

  lemma FinishAdvanced(w: World, t: Tid)
    requires AtStart(w.sys, t) && Alone(w.sys.db, w.sys.txns[t].program).Some?
    requires t in w.jobs && !w.jobs[t].Creates?
    requires w.sys.txns[t].program[..|w.sys.txns[t].program|] == w.sys.txns[t].program
    ensures StepWorld(Advanced(w, t, |w.sys.txns[t].program|), Finish(t)) == Done(w, t)
  {
    var p, w' := w.sys.txns[t].program, Advanced(w, t, |w.sys.txns[t].program|);
    assert CanFinish(w', t);
    assert w.sys.txns[t := w'.sys.txns[t]][t := Txn(p, |p|, map[], Committed)] == w.sys.txns[t := Txn(p, |p|, map[], Committed)];
  }

  lemma RunsThrough(l: Ledger, moves: seq<Move>, t: Tid) returns (more: seq<Move>)
    requires var w := Explore(l, moves);
             && AtStart(w.sys, t) && OthersIdle(w.sys, t) && Alone(w.sys.db, w.sys.txns[t].program).Some?
             && t in w.jobs && !w.jobs[t].Creates?
    ensures Explore(l, more) == Done(Explore(l, moves), t)
  {
    var w := Explore(l, moves);
    var p := w.sys.txns[t].program;
    var before := Advances(l, moves, t, |p|);
    assert p[..|p|] == p;
    FinishAdvanced(w, t);
    more := before + [Finish(t)];
    ExploreOneMore(l, before, Finish(t));
  }

  /** The state in which transactions 1 and 2 have both begun the request and done nothing yet. */
  function BothBegan(l: Ledger, q: Request): World
    requires CanStart(Explore(l, []), q)
  {
    var j := JobOf(Explore(l, []), q, 0);
    var x := Txn(JobProgram(j), 0, map[], Running);
    World(System(l.invoices, map[1 := x, 2 := x], []), l.receipts, l.payments, map[1 := j, 2 := j])
  }

  lemma OneBegins(w: World, q: Request, t: Tid)
    requires t !in w.sys.txns && t !in w.jobs && CanStart(w, q) && NonNegative(JobProgram(JobOf(w, q, 0)))
    ensures var j := JobOf(w, q, 0);
            StepWorld(w, Start(t, q, 0)) ==
            w.(sys := w.sys.(txns := w.sys.txns[t := Txn(JobProgram(j), 0, map[], Running)]), jobs := w.jobs[t := j])
  {
  }

  lemma BothBegin(l: Ledger, q: Request) returns (moves: seq<Move>)
    requires Inv(l) && CanStart(Explore(l, []), q)
    ensures Explore(l, moves) == BothBegan(l, q)
  {
    var w := Explore(l, []);
    LedgerTablesOk(l);
    StartedJobIsOk(w, q, 0);
    JobProgramNonNegative(JobOf(w, q, 0));
    OneBegins(w, q, 1);
    OneBegins(StepWorld(w, Start(1, q, 0)), q, 2);
    ExploreOneMore(l, [], Start(1, q, 0));
    ExploreOneMore(l, [] + [Start(1, q, 0)], Start(2, q, 0));
    moves := [] + [Start(1, q, 0)] + [Start(2, q, 0)];
  }

  lemma OneDone(w: World, x: Txn, j: Job)
    requires w.sys.txns == map[1 := x, 2 := x] && w.jobs == map[1 := j, 2 := j] && x == Txn(x.program, 0, map[], Running)
    requires Alone(w.sys.db, x.program).Some?
    ensures AtStart(w.sys, 1) && OthersIdle(w.sys, 1)
    ensures var w' := Done(w, 1);
            AtStart(w'.sys, 2) && OthersIdle(w'.sys, 2) && w'.sys.txns[2].program == x.program && w'.jobs == w.jobs
  {
  }

  function RowsAfter(db: Rows, p: Program): Rows
    requires Alone(db, p).Some?
  {
    db + Alone(db, p).value
  }

  predicate RunsTwice(db: Rows, p: Program) {
    Alone(db, p).Some? && Alone(RowsAfter(db, p), p).Some?
  }

  /** Transactions 1 and 2 have both committed the same job. */
  predicate CommittedTwice(l: Ledger, w: World, j: Job) {
    && w.sys.log == [1, 2] && w.sys.txns.Keys == {1, 2}
    && w.sys.txns[1].program == w.sys.txns[2].program == JobProgram(j)
    && RunsTwice(l.invoices, JobProgram(j))
    && w.sys.db == RowsAfter(RowsAfter(l.invoices, JobProgram(j)), JobProgram(j))
    && w.receipts == WrittenReceipts(WrittenReceipts(l.receipts, j), j)
    && w.payments == WrittenPayments(WrittenPayments(l.payments, j), j)
  }

  /** Two transactions of one request, begun together and committed one after the other. */
  lemma BothCommit(l: Ledger, q: Request) returns (moves: seq<Move>)
    requires Inv(l) && CanStart(Explore(l, []), q) && !q.Create?
    requires RunsTwice(l.invoices, JobProgram(JobOf(Explore(l, []), q, 0)))
    ensures CommittedTwice(l, Explore(l, moves), JobOf(Explore(l, []), q, 0))
  {
    ghost var w, j := BothBegan(l, q), JobOf(Explore(l, []), q, 0);
    moves := BothBegin(l, q);
    OneDone(w, w.sys.txns[1], j);
    moves := RunsThrough(l, moves, 1);
    moves := RunsThrough(l, moves, 2);
    BothDone(l, w, Txn(JobProgram(j), 0, map[], Running), j);
  }

  lemma BothDone(l: Ledger, w: World, x: Txn, j: Job)
    requires w == World(System(l.invoices, map[1 := x, 2 := x], []), l.receipts, l.payments, map[1 := j, 2 := j])
    requires x.program == JobProgram(j) && RunsTwice(l.invoices, x.program)
    ensures CommittedTwice(l, Done(Done(w, 1), 2), j)
  {
  }

  lemma RunningPays(db: Rows, j: Job, i: Id)
    requires JobOk(j) && NonNegativePaid(db) && Alone(db, JobProgram(j)).Some? && i in db
    ensures var db' := RowsAfter(db, JobProgram(j)); NonNegativePaid(db') && Pays(db, j, db', i)
  {
    AloneTouches(db, JobProgram(j));
    RunningAloneKeepsPaid(db, j, RowsAfter(db, JobProgram(j)));
    RunningAlonePays(db, j, RowsAfter(db, JobProgram(j)), i);
  }

  predicate PaysTwice(db: Rows, j: Job, db': Rows, i: Id) {
    var take, give := SumFor(Taking(j), i), GivenTo(j, i);
    i in db && i in db' && db'[i].paid == Clamp(Clamp(db[i].paid - take) + give - take) + give
  }

  lemma RunningTwicePays(db: Rows, j: Job, i: Id)
    requires JobOk(j) && NonNegativePaid(db) && i in db && RunsTwice(db, JobProgram(j))
    ensures PaysTwice(db, j, RowsAfter(RowsAfter(db, JobProgram(j)), JobProgram(j)), i)
  {
    RunningPays(db, j, i);
    RunningPays(RowsAfter(db, JobProgram(j)), j, i);
  }

  lemma ReversesAlways(db: Rows, rows: seq<Allocation>)
    requires RowsExist(db, rows)
    ensures Alone(db, ReverseOps(rows)).Some?
    ensures RowsExist(RowsAfter(db, ReverseOps(rows)), rows)
  {
    ReverseOpsAreTheLoop(db, rows);
    ReverseAllAcceptsExactlyWhen(db, rows);
  }

  lemma DeleteRunsTwice(l: Ledger, r: Id)
    requires Inv(l) && LiveReceipt(l.receipts, r)
    ensures JobProgram(Deletes(r, l.receipts[r].allocations, true)) == ReverseOps(l.receipts[r].allocations)
    ensures RunsTwice(l.invoices, ReverseOps(l.receipts[r].allocations))
  {
    var rows := l.receipts[r].allocations;
    assert ReceiptOk(l.receipts[r], l.invoices);
    ReversesAlways(l.invoices, rows);
    ReversesAlways(RowsAfter(l.invoices, ReverseOps(rows)), rows);
  }

  lemma DeletedShare(receipts: map<Id, Receipt>, r: Id, i: Id)
    requires LiveReceipt(receipts, r)
    ensures var j := Deletes(r, receipts[r].allocations, true);
            AllocatedOn(WrittenReceipts(WrittenReceipts(receipts, j), j), i) == AllocatedOn(receipts, i) - Share(receipts[r], i)
  {
    var j, gone := Deletes(r, receipts[r].allocations, true), receipts[r].(deleted := true);
    AllocatedAfterWrite(receipts, r, gone, i);
    assert WrittenReceipts(WrittenReceipts(receipts, j), j) == receipts[r := gone];
  }

  lemma ShareIsPaid(l: Ledger, r: Id, i: Id)
    requires Inv(l) && LiveReceipt(l.receipts, r) && i in l.invoices
    ensures 0 <= Share(l.receipts[r], i) <= l.invoices[i].paid == VerifiedOn(l.payments, i) + AllocatedOn(l.receipts, i)
  {
    assert InvoiceOk(l, i);
    RecordedMoney(l, i);
    ShareBounds(l.receipts[r], l.invoices, i);
  }

  lemma DeletedTwicePaid(l: Ledger, r: Id, w: World, i: Id)
    requires Inv(l) && LiveReceipt(l.receipts, r) && i in l.invoices
    requires var j := Deletes(r, l.receipts[r].allocations, true);
             && w.receipts == WrittenReceipts(WrittenReceipts(l.receipts, j), j) && w.payments == l.payments
             && PaysTwice(l.invoices, j, w.sys.db, i)
    ensures var share, paid := Share(l.receipts[r], i), l.invoices[i].paid;
            && w.sys.db[i].paid == Clamp(paid - 2 * share) && Recorded(w, i) == paid - share
            && (Conserved(w, i) <==> share == 0 || paid == share)
  {
    DeletedShare(l.receipts, r, i);
    ShareIsPaid(l, r, i);
  }

  /**
   From any consistent ledger, a live receipt can be deleted by two transactions that both
   commit. Every invoice then gives its share back twice; its balance is still the recorded
   money exactly when the receipt had no share in it or nothing else was paid on it.
   */
  lemma DeletingTwiceLosesExactlyWhen(l: Ledger, r: Id) returns (moves: seq<Move>)
    requires Inv(l) && LiveReceipt(l.receipts, r)
    ensures var w := Explore(l, moves);
            && w.sys.log == [1, 2] && w.sys.txns.Keys == {1, 2}
            && w.sys.txns[1].program == w.sys.txns[2].program == ProgramOf(l, Delete(r))
            && forall i :: i in l.invoices ==>
                 var share, paid := Share(l.receipts[r], i), l.invoices[i].paid;
                 && i in w.sys.db && w.sys.db[i].paid == Clamp(paid - 2 * share)
                 && Recorded(w, i) == paid - share
                 && (Conserved(w, i) <==> share == 0 || paid == share)
  {
    DeleteRunsTwice(l, r);
    moves := BothCommit(l, Delete(r));
    LedgerTablesOk(l);
    forall i | i in l.invoices
      ensures PaysTwice(l.invoices, Deletes(r, l.receipts[r].allocations, true), Explore(l, moves).sys.db, i)
    {
      RunningTwicePays(l.invoices, Deletes(r, l.receipts[r].allocations, true), i);
    }
    forall i | i in l.invoices
      ensures var w, share, paid := Explore(l, moves), Share(l.receipts[r], i), l.invoices[i].paid;
              && w.sys.db[i].paid == Clamp(paid - 2 * share) && Recorded(w, i) == paid - share
              && (Conserved(w, i) <==> share == 0 || paid == share)
    {
      DeletedTwicePaid(l, r, Explore(l, moves), i);
    }
  }

  lemma AloneOne(db: Rows, op: Op)
    requires op.invoice in db && Effect(db[op.invoice], op).Some?
    ensures Alone(db, [op]) == Some(map[op.invoice := Effect(db[op.invoice], op).value])
  {
    assert [op][..0] == [];
    assert map[][op.invoice := Effect(db[op.invoice], op).value] == map[op.invoice := Effect(db[op.invoice], op).value];
  }

  /** An amount that fits twice is accepted twice. */
  lemma FitsTwice(row: Invoice, i: Id, amount: Cents)
    requires !row.deleted && row.status == Confirmed && 0 <= row.paid && 0 <= amount && 2 * amount <= Remaining(row)
    ensures var op := Apply(i, None, Units(amount));
            && Effect(row, op) == Some(Credited(row, Units(amount)))
            && Effect(Credited(row, Units(amount)), op).Some?
  {
    AddingToStored(row.paid, Units(amount));
    StoredAmountsAreExact(amount);
  }

  lemma VerifiedPartAfter(l: Ledger, p: Id)
    requires Inv(l) && p in l.payments && !l.payments[p].verified
    ensures var i, j := l.payments[p].invoice, Verifies(p, l.payments[p].invoice, l.payments[p].amount);
            && i in l.invoices && l.invoices[i].paid == VerifiedOn(l.payments, i) + AllocatedOn(l.receipts, i)
            && 0 <= l.payments[p].amount && 0 <= l.invoices[i].paid
            && VerifiedOn(WrittenPayments(WrittenPayments(l.payments, j), j), i)
               == VerifiedOn(l.payments, i) + l.payments[p].amount
  {
    var i, j := l.payments[p].invoice, Verifies(p, l.payments[p].invoice, l.payments[p].amount);
    var done := l.payments[p].(verified := true);
    assert PaymentOk(l.payments[p], l.invoices);
    VerifiedAfterWrite(l.payments, p, done, i);
    assert WrittenPayments(WrittenPayments(l.payments, j), j) == l.payments[p := done];
    assert InvoiceOk(l, i);
    RecordedMoney(l, i);
  }

  predicate FitsTwiceOn(l: Ledger, p: Id) {
    && p in l.payments && !l.payments[p].verified && Live(l.invoices, l.payments[p].invoice)
    && l.invoices[l.payments[p].invoice].status == Confirmed
    && 2 * l.payments[p].amount <= Remaining(l.invoices[l.payments[p].invoice])
  }

  lemma AppliesTwice(db: Rows, i: Id, amount: Cents)
    requires i in db && !db[i].deleted && db[i].status == Confirmed
    requires 0 <= db[i].paid && 0 <= amount && 2 * amount <= Remaining(db[i])
    ensures RunsTwice(db, [Apply(i, None, Units(amount))])
  {
    var op := Apply(i, None, Units(amount));
    FitsTwice(db[i], i, amount);
    AloneOne(db, op);
    AloneOne(db + map[i := Credited(db[i], Units(amount))], op);
  }

  lemma VerifyRunsTwice(l: Ledger, p: Id)
    requires Inv(l) && FitsTwiceOn(l, p)
    ensures var op := Apply(l.payments[p].invoice, None, Units(l.payments[p].amount));
            JobProgram(Verifies(p, l.payments[p].invoice, l.payments[p].amount)) == [op] && RunsTwice(l.invoices, [op])
  {
    PendingPayment(l, p);
    VerifyProgram(p, l.payments[p].invoice, l.payments[p].amount);
    AppliesTwice(l.invoices, l.payments[p].invoice, l.payments[p].amount);
  }

  lemma VerifyProgram(p: Id, i: Id, amount: Cents)
    ensures JobProgram(Verifies(p, i, amount)) == [Apply(i, None, Units(amount))]
  {
  }

  lemma PendingPayment(l: Ledger, p: Id)
    requires Inv(l) && p in l.payments
    ensures var i := l.payments[p].invoice; i in l.invoices && 0 <= l.payments[p].amount && 0 <= l.invoices[i].paid
  {
    assert PaymentOk(l.payments[p], l.invoices);
    assert InvoiceOk(l, l.payments[p].invoice);
    RecordedMoney(l, l.payments[p].invoice);
  }

  /**
   A pending payment that fits its invoice twice can be verified by two transactions that
   both commit: the invoice is paid twice the amount while the payment is recorded once.
   */
  lemma VerifyingTwiceCountsTwice(l: Ledger, p: Id) returns (moves: seq<Move>)
    requires Inv(l) && FitsTwiceOn(l, p)
    ensures var w, i := Explore(l, moves), l.payments[p].invoice;
            && w.sys.log == [1, 2] && w.sys.txns.Keys == {1, 2}
            && w.sys.txns[1].program == w.sys.txns[2].program == ProgramOf(l, Verify(p))
            && i in w.sys.db && w.sys.db[i].paid == l.invoices[i].paid + 2 * l.payments[p].amount
            && Recorded(w, i) == l.invoices[i].paid + l.payments[p].amount
  {
    var i := l.payments[p].invoice;
    VerifyRunsTwice(l, p);
    moves := BothCommit(l, Verify(p));
    LedgerTablesOk(l);
    assert PaymentOk(l.payments[p], l.invoices);
    RunningTwicePays(l.invoices, Verifies(p, i, l.payments[p].amount), i);
    VerifiedTwicePaid(l, p, Explore(l, moves));
  }

  lemma VerifiedTwicePaid(l: Ledger, p: Id, w: World)
    requires Inv(l) && p in l.payments && !l.payments[p].verified
    requires var j := Verifies(p, l.payments[p].invoice, l.payments[p].amount);
             && w.payments == WrittenPayments(WrittenPayments(l.payments, j), j) && w.receipts == l.receipts
             && PaysTwice(l.invoices, j, w.sys.db, j.invoice)
    ensures var i := l.payments[p].invoice;
            && w.sys.db[i].paid == l.invoices[i].paid + 2 * l.payments[p].amount
            && Recorded(w, i) == l.invoices[i].paid + l.payments[p].amount
  {
    VerifiedPartAfter(l, p);
  }
}

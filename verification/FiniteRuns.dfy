/** Why the queue quiesces: every commit by a worker or the reaper uses up work that a request or a retry put in. */
module FiniteRuns {
  import opened Common
  import opened Deployments
  import opened Tables
  import opened Totals
  import opened Protocol
  import opened Invariants
  import opened Selections
  import Timelines

  /** The commits still possible after a requeue at this number of attempts: none once the limit is reached. */
  function Requeueable(attempts: nat): nat
    decreases MAX_ATTEMPTS - attempts
  {
    if attempts < MAX_ATTEMPTS then 4 + Requeueable(attempts + 1) else 0
  }

  /** The measure of one row: commits left in this pass, plus the passes the reaper may still grant. */
  function Potential(r: Row): nat {
    match r.status
    case REQUESTED => 4 + Requeueable(r.attempts + 1)
    case VALIDATING => (if |r.events| > 0 && InClaimWindow(r) then 3 else 2) + Requeueable(r.attempts)
    case DEPLOYING => 1 + Requeueable(r.attempts)
    case SUCCEEDED => 0
    case FAILED => 0
    case ROLLED_BACK => 0
  }

  /** Four commits for each of MAX_ATTEMPTS passes. */
  const PER_ENTRY: nat := 4 * MAX_ATTEMPTS

  function Reaped(cutoff: int): Row -> nat {
    (r: Row) => if Stuck(r, cutoff) then 1 else 0
  }

  /** Row commits below n made by workers and the reaper in one step. */
  ghost function Work(s: State, step: Step, n: nat): nat
    requires Enabled(s, step)
  {
    match step
    case ClaimCommit(w) => if s.workers[w].id < n then 1 else 0
    case StartValidation(w) => if s.workers[w].id < n then 1 else 0
    case CommitDecision(w) => if s.workers[w].id < n then 1 else 0
    case Finish(w) => if s.workers[w].id < n then 1 else 0
    case Reap => Total(s.rows, n, Reaped(Cutoff(s.clock)))
    case _ => 0
  }

  /** Successful requests and retries of rows below n. */
  ghost function Entries(s: State, step: Step, n: nat): nat
    requires Enabled(s, step)
  {
    match step
    case RequestInsert(c, id) =>
      if id < n && InsertRequest(s.rows, s.calls[c].request, s.calls[c].model, id).Ok? then 1 else 0
    case Retry(id) => if id < n && RetryDeployment(s.rows, id).Ok? then 1 else 0
    case _ => 0
  }

  ghost function TotalWork(s: State, steps: seq<Step>, n: nat): nat
    requires IsRun(s, steps)
  {
    if steps == [] then 0
    else TotalWork(s, steps[..|steps| - 1], n) + Work(After(s, steps[..|steps| - 1]), steps[|steps| - 1], n)
  }

  ghost function TotalEntries(s: State, steps: seq<Step>, n: nat): nat
    requires IsRun(s, steps)
  {
    if steps == [] then 0
    else TotalEntries(s, steps[..|steps| - 1], n) + Entries(After(s, steps[..|steps| - 1]), steps[|steps| - 1], n)
  }

  lemma {:induction false} TotalAtLeast(rows: Table, n: nat, f: Row -> nat, id: Id)
    requires id in rows && id < n
    ensures f(rows[id]) <= Total(rows, n, f)
  {
    if id < n - 1 {
      TotalAtLeast(rows, n - 1, f, id);
    }
  }

  /** Work and entries leave no write out: a row below n changes only by one of them, or by a rollback. */
  lemma EveryWriteCounts(s: State, step: Step, n: nat, id: Id)
    requires Inv(s) && Enabled(s, step) && id < n && id in Apply(s, step).rows
    ensures Work(s, step, n) + Entries(s, step, n) > 0 || step.RollbackCommit? ||
            (id in s.rows && Apply(s, step).rows[id] == s.rows[id])
  {
    hide Inv, Apply, InsertRequest, RetryDeployment, Total;
    Timelines.WriteStep(s, step, id);
    if step.Reap? && id in StuckIds(s.rows, Cutoff(s.clock)) {
      TotalAtLeast(s.rows, n, Reaped(Cutoff(s.clock)), id);
    }
  }

  lemma RequeueableBounds(attempts: nat)
    ensures Requeueable(attempts) <= PER_ENTRY
    ensures attempts >= 1 ==> Requeueable(attempts) <= PER_ENTRY - 4
    ensures attempts < MAX_ATTEMPTS ==> Requeueable(attempts) == 4 + Requeueable(attempts + 1)
  {
    assert Requeueable(3) == 0 && Requeueable(2) == 4 && Requeueable(1) == 8 && Requeueable(0) == 12;
  }

  /** A stuck row loses potential when it is reaped, whichever branch the reaper takes. */
  lemma ReapSpends(r: Row)
    requires RowOk(r) && Held(r)
    ensures Potential(ReapRow(r)) + 1 <= Potential(r)
  {
    RequeueableBounds(r.attempts);
  }

  lemma ClaimSpends(r: Row, worker: Id, now: nat)
    requires RowOk(r) && r.status == REQUESTED
    ensures Potential(ClaimRow(r, worker, now)) + 1 <= Potential(r)
  {
  }

  lemma ExecutorSpends(r: Row)
    requires RowOk(r)
    ensures InClaimWindow(r) ==> Potential(StartRow(r)) + 1 <= Potential(r)
    ensures r.status == VALIDATING && !InClaimWindow(r) ==> Potential(DeployRow(r)) + 1 <= Potential(r)
  {
  }

  lemma FinishSpends(r: Row)
    requires RowOk(r) && Held(r)
    ensures Potential(FinishRow(r)) == 0 && Potential(FailRow(r, ApprovalValidationFailed)) == 0 && Potential(r) >= 1
  {
  }

  /** One row write: potential drops for work, and rises by at most PER_ENTRY for an entry. */
  lemma WriteSpends(s: State, s': State, n: nat, id: Id, r: Row, work: nat, entries: nat)
    requires s'.rows == s.rows[id := r]
    requires Potential(r) + work <= Weight(s.rows, id, Potential) + PER_ENTRY * entries
    ensures id < n ==> Total(s'.rows, n, Potential) + work <= Total(s.rows, n, Potential) + PER_ENTRY * entries
    ensures id >= n ==> Total(s'.rows, n, Potential) == Total(s.rows, n, Potential)
  {
    TotalWritten(s.rows, n, Potential, id, r);
  }

  lemma WorkerSpends(s: State, step: Step, n: nat)
    requires Inv(s) && Enabled(s, step)
    requires step.ClaimCommit? || step.StartValidation? || step.CommitDecision? || step.Finish?
    ensures Total(Apply(s, step).rows, n, Potential) + Work(s, step, n) <= Total(s.rows, n, Potential)
  {
    hide Inv, RowOk, Potential, ClaimRow, StartRow, DeployRow, FailRow, FinishRow;
    var id := s.workers[step.worker].id;
    WorkerRow(s, step.worker);
    var r := s.rows[id];
    match step
    case ClaimCommit(w) =>
      ClaimSpends(r, w, s.clock);
      WriteSpends(s, Apply(s, step), n, id, ClaimRow(r, w, s.clock), 1, 0);
    case StartValidation(w) =>
      ExecutorSpends(r);
      WriteSpends(s, Apply(s, step), n, id, StartRow(r), 1, 0);
    case CommitDecision(w) =>
      ExecutorSpends(r);
      FinishSpends(r);
      WriteSpends(s, Apply(s, step), n, id,
                  if s.workers[w].deployable then DeployRow(r) else FailRow(r, ApprovalValidationFailed), 1, 0);
    case Finish(w) =>
      FinishSpends(r);
      WriteSpends(s, Apply(s, step), n, id, FinishRow(r), 1, 0);
  }

  /** What the invariant says of the row in a worker's hands. */
  lemma WorkerRow(s: State, w: Id)
    requires Inv(s) && w in s.workers
    ensures s.workers[w].id in s.rows && RowOk(s.rows[s.workers[w].id]) && WorkerOk(s, w)
  {
    assert WorkerOk(s, w);
    RowOfTable(s, s.workers[w].id);
  }

  lemma ReaperSpends(s: State, n: nat)
    requires Inv(s)
    ensures Total(Apply(s, Reap).rows, n, Potential) + Work(s, Reap, n) <= Total(s.rows, n, Potential)
  {
    var rows' := ReapTable(s.rows, Cutoff(s.clock));
    hide Inv, Potential, RowOk, ReapRow;
    forall i | i in s.rows ensures Potential(rows'[i]) + Reaped(Cutoff(s.clock))(s.rows[i]) <= Potential(s.rows[i]) {
      RowOfTable(s, i);
      if Stuck(s.rows[i], Cutoff(s.clock)) {
        ReapSpends(s.rows[i]);
      }
    }
    TotalBounded(s.rows, rows', n, Potential, Reaped(Cutoff(s.clock)), Potential);
  }

  /** A queued row is worth at most three full passes. */
  lemma QueuedPotential(r: Row)
    requires r.status == REQUESTED
    ensures Potential(r) <= PER_ENTRY
  {
    RequeueableBounds(r.attempts + 1);
  }

  lemma EntrySpends(s: State, step: Step, n: nat)
    requires Enabled(s, step) && (step.RequestInsert? || step.Retry?)
    ensures Total(Apply(s, step).rows, n, Potential) <= Total(s.rows, n, Potential) + PER_ENTRY * Entries(s, step, n)
  {
    hide ActiveClash, KeyClash, Potential;
    match step
    case RequestInsert(c, id) =>
      var q, m := s.calls[c].request, s.calls[c].model;
      var r := NewRow(m, q.version, q.environment, q.key, q.simulateFailure);
      if InsertRequest(s.rows, q, m, id).Ok? {
        QueuedPotential(r);
        WriteSpends(s, Apply(s, step), n, id, r, 0, 1);
      }
    case Retry(id) =>
      if RetryDeployment(s.rows, id).Ok? {
        QueuedPotential(RetryRow(s.rows[id]));
        WriteSpends(s, Apply(s, step), n, id, RetryRow(s.rows[id]), 0, 1);
      }
  }

  /** One step, all kinds: work is paid from the potential, and only entries refill it. */
  lemma StepSpends(s: State, step: Step, n: nat)
    requires Inv(s) && Enabled(s, step)
    ensures Total(Apply(s, step).rows, n, Potential) + Work(s, step, n)
         <= Total(s.rows, n, Potential) + PER_ENTRY * Entries(s, step, n)
  {
    hide Inv, Potential;
    if step.ClaimCommit? || step.StartValidation? || step.CommitDecision? || step.Finish? {
      WorkerSpends(s, step, n);
    } else if step.Reap? {
      ReaperSpends(s, n);
    } else if step.RequestInsert? || step.Retry? {
      EntrySpends(s, step, n);
    } else if step.RollbackCommit? {
      RollbackSpendsNothing(s, step, n);
    }
  }

  lemma RollbackSpendsNothing(s: State, step: Step, n: nat)
    requires Enabled(s, step) && step.RollbackCommit?
    ensures Total(Apply(s, step).rows, n, Potential) <= Total(s.rows, n, Potential)
  {
    var c := s.calls[step.call];
    WriteSpends(s, Apply(s, step), n, c.id, RollbackRow(s.rows[c.id], c.target), 0, 0);
  }

  /**
   * In every run, the commits of workers and reaper never exceed the potential at its start plus PER_ENTRY for each
   * request and retry in it, whatever crashes and requeues occur. Rows retried at or past the attempt limit included.
   */
  lemma {:induction false} WorkIsBounded(s: State, steps: seq<Step>, n: nat)
    requires Inv(s) && IsRun(s, steps)
    ensures Total(After(s, steps).rows, n, Potential) + TotalWork(s, steps, n)
         <= Total(s.rows, n, Potential) + PER_ENTRY * TotalEntries(s, steps, n)
  {
    hide Inv, Apply, Enabled, Work, Entries, Total, Evolves, VersionsGrow, Potential;
    if steps != [] {
      var k := |steps| - 1;
      RunAdvances(s, steps[..k]);
      WorkIsBounded(s, steps[..k], n);
      StepSpends(After(s, steps[..k]), steps[k], n);
      Distribute(TotalEntries(s, steps[..k], n), Entries(After(s, steps[..k]), steps[k], n));
    }
  }

  lemma Distribute(a: nat, b: nat)
    ensures PER_ENTRY * (a + b) == PER_ENTRY * a + PER_ENTRY * b
  {
  }

  /** From the empty store: at most twelve commits per successful request or retry. */
  lemma TwelveCommitsPerEntry(steps: seq<Step>, n: nat)
    requires IsRun(INIT, steps)
    ensures TotalWork(INIT, steps, n) <= 12 * TotalEntries(INIT, steps, n)
  {
    InitInv();
    WorkIsBounded(INIT, steps, n);
    TotalEmpty(n);
  }

  lemma {:induction false} TotalEmpty(n: nat)
    ensures Total(map[], n, Potential) == 0
  {
    if n > 0 {
      TotalEmpty(n - 1);
    }
  }

  // ---------- All steps of workers, not only their commits ----------

  /** Every step a worker takes at a row below n: selections, commits, gate reads and deaths. */
  ghost function WorkerSteps(s: State, steps: seq<Step>, n: nat): nat
    requires IsRun(s, steps)
  {
    Tally(Selection, s, steps, Below(n)) + Tally(Claim, s, steps, Below(n)) + Tally(Start, s, steps, Below(n)) +
    Tally(GateRead, s, steps, Below(n)) + Tally(Ending, s, steps, Below(n)) + Tally(Death, s, steps, Below(n))
  }

  lemma CommitIsWork(s: State, step: Step, n: nat)
    requires Enabled(s, step)
    ensures Once(Claim, s, step, Below(n)) + Once(Start, s, step, Below(n)) + Once(Ending, s, step, Below(n)) <= Work(s, step, n)
  {
    hide LeaseHolds, Claimable, MinId, Locked, Total;
  }

  lemma {:induction false} CommitsAreWork(s: State, steps: seq<Step>, n: nat)
    requires IsRun(s, steps)
    ensures Tally(Claim, s, steps, Below(n)) + Tally(Start, s, steps, Below(n)) + Tally(Ending, s, steps, Below(n))
         <= TotalWork(s, steps, n)
  {
    hide Enabled, Apply, Once, Work, Below;
    if steps != [] {
      var k := |steps| - 1;
      CommitsAreWork(s, steps[..k], n);
      CommitIsWork(After(s, steps[..k]), steps[k], n);
    }
  }

  ghost predicate Apart(workers: map<Id, Worker>) {
    forall w, u :: w in workers && u in workers && w != u ==> workers[w].id != workers[u].id
  }

  lemma LiveWorkersApart(s: State)
    requires Inv(s)
    ensures Apart(s.workers)
  {
    forall w, u | w in s.workers && u in s.workers && w != u ensures s.workers[w].id != s.workers[u].id {
      ExclusiveWorkers(s, w, u);
    }
  }

  ghost function RowsBelow(rows: Table, n: nat): set<Id> {
    set i | i in rows && i < n
  }

  /** Exclusive execution, counted: no more live workers than rows. */
  lemma {:induction false} OneWorkerPerRow(workers: map<Id, Worker>, rows: Table, n: nat)
    requires Apart(workers) && forall w :: w in workers ==> workers[w].id in rows
    ensures |Those(workers, At(Below(n)))| <= |RowsBelow(rows, n)|
  {
    if n > 0 {
      OneWorkerPerRow(workers, rows, n - 1);
      OneMoreWorker(workers, n - 1);
      OneMoreRow(rows, n - 1);
      if w :| w in workers && workers[w].id == n - 1 {
        assert n - 1 in rows;
      } else {
        assert Those(workers, At(Below(n))) == Those(workers, At(Below(n - 1)));
      }
    } else {
      assert Those(workers, At(Below(n))) == {};
    }
  }

  lemma OneMoreWorker(workers: map<Id, Worker>, id: Id)
    requires Apart(workers)
    ensures |Those(workers, At(Below(id + 1)))| <= |Those(workers, At(Below(id)))| + 1
  {
    var here, fewer := Those(workers, At(Below(id + 1))), Those(workers, At(Below(id)));
    if w :| w in workers && workers[w].id == id {
      assert here <= fewer + {w};
      SubsetCount(here, fewer + {w});
    } else {
      SubsetCount(here, fewer);
    }
  }

  lemma OneMoreRow(rows: Table, id: Id)
    ensures |RowsBelow(rows, id + 1)| == |RowsBelow(rows, id)| + (if id in rows then 1 else 0)
  {
    assert RowsBelow(rows, id + 1) == RowsBelow(rows, id) + (if id in rows then {id} else {});
  }

  /** Rows only come by requests. */
  lemma RowsStep(s: State, step: Step, n: nat)
    requires Enabled(s, step)
    ensures |RowsBelow(Apply(s, step).rows, n)| <= |RowsBelow(s.rows, n)| + Entries(s, step, n)
  {
    RowKeys(s, step, n);
    var before, after := RowsBelow(s.rows, n), RowsBelow(Apply(s, step).rows, n);
    hide Enabled, Apply, Entries;
    if Entries(s, step, n) == 0 {
      SubsetCount(after, before);
    } else {
      assert after <= before + {step.id};
      SubsetCount(after, before + {step.id});
    }
  }

  lemma RowKeys(s: State, step: Step, n: nat)
    requires Enabled(s, step)
    ensures Entries(s, step, n) == 0 ==> forall i :: i in Apply(s, step).rows && i < n ==> i in s.rows
    ensures Entries(s, step, n) > 0 ==> (step.RequestInsert? || step.Retry?) && Apply(s, step).rows.Keys <= s.rows.Keys + {step.id}
  {
    hide InsertRequest, RetryDeployment, RollbackTarget, LookupRequest, StillDeployable, LeaseHolds, MinId, Claimable, Locked;
    hide ClaimRow, StartRow, DeployRow, FailRow, FinishRow, RollbackRow;
    if step.RequestInsert? {
      InsertKeys(s.rows, s.calls[step.call].request, s.calls[step.call].model, step.id);
    }
    if step.Retry? {
      RetryKeys(s.rows, step.id);
    }
  }

  lemma InsertKeys(rows: Table, q: Request, model: Id, id: Id)
    ensures InsertRequest(rows, q, model, id).Ok? ==> InsertRequest(rows, q, model, id).value.Keys == rows.Keys + {id}
  {
  }

  lemma RetryKeys(rows: Table, id: Id)
    ensures RetryDeployment(rows, id).Ok? ==> RetryDeployment(rows, id).value.Keys == rows.Keys
  {
  }

  lemma {:induction false} RowsAreEntries(s: State, steps: seq<Step>, n: nat)
    requires IsRun(s, steps)
    ensures |RowsBelow(After(s, steps).rows, n)| <= |RowsBelow(s.rows, n)| + TotalEntries(s, steps, n)
  {
    hide Enabled, Apply, Entries, RowsBelow;
    if steps != [] {
      var k := |steps| - 1;
      RowsAreEntries(s, steps[..k], n);
      RowsStep(After(s, steps[..k]), steps[k], n);
    }
  }

  lemma FewerThose(workers: map<Id, Worker>, ids: Id -> bool)
    ensures |Those(workers, Locking(ids))| <= |Those(workers, At(ids))|
    ensures |Those(workers, Reading(ids))| <= |Those(workers, At(ids))|
  {
    SubsetCount(Those(workers, Locking(ids)), Those(workers, At(ids)));
    SubsetCount(Those(workers, Reading(ids)), Those(workers, At(ids)));
  }

  /**
   * In every run, all steps of workers are bounded by the work and the rows at the start, the requests and retries,
   * and two for each claimer that died holding nothing but its row lock. So a finite number of requests and retries
   * keeps workers busy without end only if claimers keep dying between their selection and their commit. The bound n
   * on the ids only picks out finitely many rows; it does not enter the bound.
   */
  lemma WorkerStepsBounded(s: State, steps: seq<Step>, n: nat)
    requires Inv(s) && IsRun(s, steps)
    ensures Tally(LockDropped, s, steps, Below(n)) <= WorkerSteps(s, steps, n)
    ensures WorkerSteps(s, steps, n) <= 3 * Total(s.rows, n, Potential) + 3 * |RowsBelow(s.rows, n)| +
                                        (3 * PER_ENTRY + 1) * TotalEntries(s, steps, n) +
                                        2 * Tally(LockDropped, s, steps, Below(n))
  {
    var t := After(s, steps);
    RunAdvances(s, steps);
    WorkersCounted(s, n);
    WorkersCounted(t, n);
    WorkIsBounded(s, steps, n);
    hide Inv, IsRun, Those, Below, Total, Tally, RowsBelow;
    RowsAreEntries(s, steps, n);
    CommitsAreWork(s, steps, n);
    LockBalance(s, steps, Below(n));
    GateBalance(s, steps, Below(n));
    WorkerBalance(s, steps, Below(n));
    FewerThose(s.workers, Below(n));
    FewerThose(t.workers, Below(n));
    DroppedAreDeaths(s, steps, Below(n));
    hide PER_ENTRY;
    TimesEntries(TotalEntries(s, steps, n));
  }

  lemma TimesEntries(entries: nat)
    ensures 3 * (PER_ENTRY * entries) + entries == (3 * PER_ENTRY + 1) * entries
  {
  }

  lemma WorkersCounted(s: State, n: nat)
    requires Inv(s)
    ensures |Those(s.workers, At(Below(n)))| <= |RowsBelow(s.rows, n)|
  {
    LiveWorkersApart(s);
    HeldRowsExist(s);
    hide Inv, Apart;
    OneWorkerPerRow(s.workers, s.rows, n);
  }

  /** From the empty store: at most thirty-seven worker steps per request or retry, and two per lock lost to a death. */
  lemma StepsPerEntry(steps: seq<Step>, n: nat)
    requires IsRun(INIT, steps)
    ensures WorkerSteps(INIT, steps, n) <= 37 * TotalEntries(INIT, steps, n) + 2 * Tally(LockDropped, INIT, steps, Below(n))
  {
    InitInv();
    WorkerStepsBounded(INIT, steps, n);
    TotalEmpty(n);
    assert RowsBelow(INIT.rows, n) == {};
  }

  lemma {:induction false} DroppedAreDeaths(s: State, steps: seq<Step>, ids: Id -> bool)
    requires IsRun(s, steps)
    ensures Tally(LockDropped, s, steps, ids) <= Tally(Death, s, steps, ids)
  {
    if steps != [] {
      DroppedAreDeaths(s, steps[..|steps| - 1], ids);
      hide Enabled, Apply;
    }
  }
}

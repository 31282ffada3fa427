/** Replaying a deployment's timeline: its events against its status, and which step last wrote the row. */
module Timelines {
  import opened Common
  import opened Deployments
  import opened Tables
  import opened Protocol
  import opened Invariants

  /** The step commits a new value for the row (or inserts it). */
  ghost predicate WritesRow(s: State, step: Step, id: Id)
    requires Enabled(s, step)
  {
    match step
    case RequestInsert(c, newId) => newId == id && InsertRequest(s.rows, s.calls[c].request, s.calls[c].model, newId).Ok?
    case Retry(i) => i == id && RetryDeployment(s.rows, i).Ok?
    case RollbackCommit(c) => s.calls[c].id == id
    case ClaimCommit(w) => s.workers[w].id == id
    case StartValidation(w) => s.workers[w].id == id
    case CommitDecision(w) => s.workers[w].id == id
    case Finish(w) => s.workers[w].id == id
    case Reap => id in StuckIds(s.rows, Cutoff(s.clock))
    case _ => false
  }

  /** Status and last event disagree. */
  predicate Mismatch(r: Row) {
    |r.events| > 0 && LastEvent(r).status != r.status
  }

  lemma ClaimTarget(s: State, w: Id)
    requires Inv(s) && Enabled(s, ClaimCommit(w))
    ensures s.rows[s.workers[w].id].status == REQUESTED && RowOk(s.rows[s.workers[w].id])
  {
    assert WorkerOk(s, w);
    RowOfTable(s, s.workers[w].id);
  }

  /** Every commit but a claim records the status it sets; a claim records nothing. */
  lemma RecordedAgrees(r: Row, now: nat, worker: Id, target: Id)
    ensures !Mismatch(StartRow(r)) && !Mismatch(DeployRow(r)) && !Mismatch(FailRow(r, ApprovalValidationFailed))
    ensures !Mismatch(FinishRow(r)) && !Mismatch(RetryRow(r)) && !Mismatch(RollbackRow(r, target)) && !Mismatch(ReapRow(r))
    ensures r.status == REQUESTED && RowOk(r) ==> Mismatch(ClaimRow(r, worker, now))
  {
  }

  /** One step: other rows keep their value, and a written row agrees with its last event unless it was just claimed. */
  lemma WriteStep(s: State, step: Step, id: Id)
    requires Inv(s) && Enabled(s, step) && id in Apply(s, step).rows
    ensures !WritesRow(s, step, id) ==> id in s.rows && Apply(s, step).rows[id] == s.rows[id]
    ensures WritesRow(s, step, id) ==> (Mismatch(Apply(s, step).rows[id]) <==> step.ClaimCommit?)
  {
    hide Inv;
    if step.ClaimCommit? || step.StartValidation? || step.CommitDecision? || step.Finish? {
      WorkerWriteStep(s, step, id);
    } else {
      OtherWriteStep(s, step, id);
    }
  }

  lemma WorkerWriteStep(s: State, step: Step, id: Id)
    requires Inv(s) && Enabled(s, step) && id in Apply(s, step).rows
    requires step.ClaimCommit? || step.StartValidation? || step.CommitDecision? || step.Finish?
    ensures !WritesRow(s, step, id) ==> id in s.rows && Apply(s, step).rows[id] == s.rows[id]
    ensures WritesRow(s, step, id) ==> (Mismatch(Apply(s, step).rows[id]) <==> step.ClaimCommit?)
  {
    hide Inv, RowOk, Mismatch, StartRow, DeployRow, FailRow, FinishRow, ClaimRow;
    if step.ClaimCommit? {
      ClaimTarget(s, step.worker);
    }
    RecordedAgrees(s.rows[s.workers[step.worker].id], s.clock, step.worker, 0);
  }

  lemma OtherWriteStep(s: State, step: Step, id: Id)
    requires Enabled(s, step) && id in Apply(s, step).rows
    requires !step.ClaimCommit? && !step.StartValidation? && !step.CommitDecision? && !step.Finish?
    ensures !WritesRow(s, step, id) ==> id in s.rows && Apply(s, step).rows[id] == s.rows[id]
    ensures WritesRow(s, step, id) ==> !Mismatch(Apply(s, step).rows[id])
  {
    hide Mismatch, Stuck, RetryRow, RollbackRow, ReapRow;
    hide ActiveClash, KeyClash, RollbackTarget, LookupRequest, LeaseHolds, Claimable, MinId, StillDeployable;
    match step
    case Retry(i) =>
      if i in s.rows {
        RecordedAgrees(s.rows[i], s.clock, 0, 0);
      }
    case RollbackCommit(c) => RecordedAgrees(s.rows[s.calls[c].id], s.clock, 0, s.calls[c].target);
    case Reap => RecordedAgrees(s.rows[id], s.clock, 0, 0);
    case RequestInsert(c, i) => InsertedAgrees(s.calls[c].model, s.calls[c].request);
    case _ =>
  }

  lemma InsertedAgrees(model: Id, q: Request)
    ensures !Mismatch(NewRow(model, q.version, q.environment, q.key, q.simulateFailure))
  {
  }

  /** The last step of the run that wrote the row was the commit of a claim. */
  ghost predicate LastWriteIsClaim(s: State, steps: seq<Step>, id: Id)
    requires IsRun(s, steps)
  {
    if steps == [] then false
    else
      var before, last := After(s, steps[..|steps| - 1]), steps[|steps| - 1];
      if WritesRow(before, last, id) then last.ClaimCommit? else LastWriteIsClaim(s, steps[..|steps| - 1], id)
  }

  /**
   * In every run from the empty store, wherever workers crash: a row's status differs from its last event's status
   * exactly when the last commit on the row was a claim, and then the row is VALIDATING after a REQUESTED event.
   */
  lemma {:induction false} ClaimWindowExact(steps: seq<Step>, id: Id)
    requires IsRun(INIT, steps) && id in After(INIT, steps).rows
    ensures |After(INIT, steps).rows[id].events| > 0
    ensures Mismatch(After(INIT, steps).rows[id]) <==> LastWriteIsClaim(INIT, steps, id)
    ensures Mismatch(After(INIT, steps).rows[id]) <==> InClaimWindow(After(INIT, steps).rows[id])
  {
    InitInv();
    RunAdvances(INIT, steps);
    RowOfTable(After(INIT, steps), id);
    hide Inv, Enabled, Apply, WritesRow;
    if steps != [] {
      var before, last := After(INIT, steps[..|steps| - 1]), steps[|steps| - 1];
      RunAdvances(INIT, steps[..|steps| - 1]);
      WriteStep(before, last, id);
      if !WritesRow(before, last, id) {
        ClaimWindowExact(steps[..|steps| - 1], id);
      }
    }
  }

  /** In every reachable state, a row's event list is a word of the automaton; a FAILED row names its last event as its error. */
  lemma TimelineIsLegal(s: State, id: Id)
    requires Reachable(s) && id in s.rows
    ensures LegalTimeline(s.rows[id].events)
    ensures s.rows[id].status == FAILED ==> s.rows[id].error == Some(LastEvent(s.rows[id]).name)
  {
    ReachableInv(s);
    RowOfTable(s, id);
  }

  /** The queue bookkeeping of every reachable row, status by status. */
  lemma BookkeepingHolds(s: State, id: Id)
    requires Reachable(s) && id in s.rows
    ensures var r := s.rows[id];
            && (r.worker.Some? <==> r.status != REQUESTED)
            && (r.error.Some? <==> r.status == FAILED)
            && (r.lockedAt.Some? <==> Held(r) || (r.status == FAILED && r.error == Some(WorkerLost)))
            && (r.rolledBackTo.Some? <==> r.status == ROLLED_BACK)
  {
    ReachableInv(s);
    RowOfTable(s, id);
  }

  /** A live worker is in the claim window exactly before it commits validation_started. */
  lemma LiveWorkerWindow(s: State, w: Id)
    requires Reachable(s) && w in s.workers && Executing(s.workers[w])
    ensures s.workers[w].id in s.rows
    ensures Mismatch(s.rows[s.workers[w].id]) <==> s.workers[w].Claimed?
  {
    ReachableInv(s);
    assert WorkerOk(s, w);
    RowOfTable(s, s.workers[w].id);
  }
}

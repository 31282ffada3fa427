/** Draining by any number of workers at once: their interleaving does not change what becomes of a deployment. */
module Draining {
  import opened Common
  import opened Deployments
  import opened Tables
  import opened Protocol
  import opened Invariants
  import V = Versions

  /**
   * The steps that may be interleaved: all of the workers', the clock, and API calls that neither rewrite a row nor move
   * a version. New deployments may be requested meanwhile.
   */
  predicate DrainStep(step: Step) {
    !step.Crash? && !step.Reap? && !step.Retry? && !step.RollbackCommit? && !step.ApproveVersion? && !step.TransitionVersion?
  }

  /** The row as a worker at this stage has left it. */
  function StageRow(p: Worker, r: Row, w: Id, now: nat): Row {
    match p
    case Selecting(_) => r
    case Claimed(_) => ClaimRow(r, w, now)
    case Validating(_) => StartRow(ClaimRow(r, w, now))
    case Decided(_, _) => StartRow(ClaimRow(r, w, now))
    case Running(_) => DeployRow(StartRow(ClaimRow(r, w, now)))
  }

  /** The worker is at this row, has left it as its stage says, and knows the right outcome of the gate. */
  ghost predicate InHand(p: Worker, id: Id, r: Row, deployable: bool, w: Id, c: Row) {
    && Executing(p) && p.id == id && c.lockedAt.Some? && c == StageRow(p, r, w, c.lockedAt.value)
    && (p.Decided? ==> p.deployable == deployable) && (p.Running? ==> deployable)
  }

  ghost predicate Done(r: Row, deployable: bool, c: Row) {
    c.worker.Some? && c == ProcessedRow(r, c.worker.value, deployable)
  }

  /** A row of the start: untouched, or requested and since then in one worker's hands or done. */
  ghost predicate RowProgress(r: Row, deployable: bool, id: Id, c: Row, workers: map<Id, Worker>) {
    c == r ||
    (r.status == REQUESTED && c.worker.Some? &&
     (Done(r, deployable, c) ||
      (c.worker.value in workers && InHand(workers[c.worker.value], id, r, deployable, c.worker.value, c))))
  }

  ghost predicate Kept(versions: VersionTable, versions': VersionTable) {
    forall v :: v in versions ==> v in versions' && versions'[v] == versions[v]
  }

  ghost predicate WorkersAtRequested(rows: Table, workers: map<Id, Worker>) {
    forall w :: w in workers && workers[w].id in rows ==> rows[workers[w].id].status == REQUESTED
  }

  ghost predicate RowsProgress(s: State, t: State) {
    forall i :: i in s.rows ==> i in t.rows && RowProgress(s.rows[i], StillDeployable(s.versions, s.rows[i]), i, t.rows[i], t.workers)
  }

  /** How far a drain from s has come in t. */
  ghost predicate Drains(s: State, t: State) {
    RowsProgress(s, t) && WorkersAtRequested(s.rows, t.workers) && Kept(s.versions, t.versions)
  }

  // ---------- Single rows ----------

  lemma StageStatus(p: Worker, r: Row, w: Id, now: nat)
    ensures Executing(p) ==> Held(StageRow(p, r, w, now)) && StageRow(p, r, w, now).worker == Some(w)
    ensures SameIdentity(r, StageRow(p, r, w, now))
  {
  }

  lemma DoneStatus(r: Row, deployable: bool, c: Row)
    requires Done(r, deployable, c)
    ensures !InFlight(c)
  {
  }

  /** A requested row is one nobody has touched. */
  lemma RequestedUntouched(r: Row, deployable: bool, id: Id, c: Row, workers: map<Id, Worker>)
    requires RowProgress(r, deployable, id, c, workers) && c.status == REQUESTED
    ensures c == r
  {
    hide Done, StageRow;
    if c != r {
      if Done(r, deployable, c) {
        DoneStatus(r, deployable, c);
      } else {
        StageStatus(workers[c.worker.value], r, c.worker.value, c.lockedAt.value);
      }
    }
  }

  /** The row of a live executor is in that worker's hands. */
  lemma HeldInHand(r: Row, deployable: bool, id: Id, c: Row, workers: map<Id, Worker>, w: Id)
    requires RowProgress(r, deployable, id, c, workers) && r.status == REQUESTED && Held(c) && c.worker == Some(w)
    ensures w in workers && InHand(workers[w], id, r, deployable, w, c)
  {
    hide StageRow;
    if Done(r, deployable, c) {
      DoneStatus(r, deployable, c);
    }
  }

  /** One executor step on the row in hand: still in hand, or done. */
  lemma HandMoves(p: Worker, id: Id, r: Row, deployable: bool, w: Id, c: Row)
    requires InHand(p, id, r, deployable, w, c) && r.status == REQUESTED && r.error.None?
    ensures p.Claimed? ==> InHand(Validating(id), id, r, deployable, w, StartRow(c))
    ensures p.Validating? ==> InHand(Decided(id, deployable), id, r, deployable, w, c)
    ensures p.Decided? && deployable ==> InHand(Running(id), id, r, deployable, w, DeployRow(c))
    ensures p.Decided? && !deployable ==> Done(r, deployable, FailRow(c, ApprovalValidationFailed))
    ensures p.Running? ==> Done(r, deployable, FinishRow(c))
  {
    ProcessedRowIsTheCommits(r, w, c.lockedAt.value, deployable);
    assert ProcessedRow(r, w, deployable).worker == Some(w);
    hide ProcessedRow, FailRow, FinishRow;
  }

  // ---------- Steps ----------

  /** Progress carries over to a row that is not written, as long as its worker is not moved. */
  lemma ProgressFrame(r: Row, deployable: bool, id: Id, c: Row, workers: map<Id, Worker>, workers': map<Id, Worker>)
    requires RowProgress(r, deployable, id, c, workers)
    requires forall w :: w in workers && Executing(workers[w]) && workers[w].id == id ==> w in workers' && workers'[w] == workers[w]
    ensures RowProgress(r, deployable, id, c, workers')
  {
    hide Done, StageRow;
  }

  /** A step that writes no row of the start and moves no executor at one. */
  lemma DrainsFrame(s: State, t: State, t': State)
    requires Drains(s, t) && WorkersAtRequested(s.rows, t'.workers) && Kept(t.versions, t'.versions)
    requires forall i :: i in t.rows ==> i in t'.rows && t'.rows[i] == t.rows[i]
    requires forall w :: w in t.workers && Executing(t.workers[w]) ==> w in t'.workers && t'.workers[w] == t.workers[w]
    ensures Drains(s, t')
  {
    hide RowProgress, Executing, StillDeployable;
    forall i | i in s.rows
      ensures RowProgress(s.rows[i], StillDeployable(s.versions, s.rows[i]), i, t'.rows[i], t'.workers)
    {
      ProgressFrame(s.rows[i], StillDeployable(s.versions, s.rows[i]), i, t.rows[i], t.workers, t'.workers);
    }
  }

  /** A worker's move on its own row. */
  lemma DrainsMove(s: State, t: State, t': State, w: Id)
    requires Drains(s, t) && w in t.workers && t'.versions == t.versions
    requires forall u :: u in t.workers && u != w ==> t.workers[u].id != t.workers[w].id
    requires t'.workers == (if w in t'.workers then t.workers[w := t'.workers[w]] else t.workers - {w})
    requires w in t'.workers ==> t'.workers[w].id == t.workers[w].id
    requires t.workers[w].id in t.rows
    requires t'.rows.Keys == t.rows.Keys && forall i :: i in t.rows && i != t.workers[w].id ==> t'.rows[i] == t.rows[i]
    requires var id := t.workers[w].id;
             id in s.rows ==> RowProgress(s.rows[id], StillDeployable(s.versions, s.rows[id]), id, t'.rows[id], t'.workers)
    ensures Drains(s, t')
  {
    hide RowProgress, StillDeployable, Executing;
    forall i | i in s.rows
      ensures RowProgress(s.rows[i], StillDeployable(s.versions, s.rows[i]), i, t'.rows[i], t'.workers)
    {
      if i != t.workers[w].id {
        ProgressFrame(s.rows[i], StillDeployable(s.versions, s.rows[i]), i, t.rows[i], t.workers, t'.workers);
      }
    }
  }

  lemma SelectDrains(s: State, t: State, w: Id)
    requires Drains(s, t) && Enabled(t, ClaimSelect(w))
    ensures Drains(s, Apply(t, ClaimSelect(w)))
  {
    var id := MinId(Claimable(t.rows, Locked(t)));
    assert id in Claimable(t.rows, Locked(t));
    if id in s.rows {
      RequestedUntouched(s.rows[id], StillDeployable(s.versions, s.rows[id]), id, t.rows[id], t.workers);
    }
    hide RowsProgress, RowProgress, Claimable, Locked, Kept;
    VersionsKept(t.versions);
    DrainsFrame(s, t, Apply(t, ClaimSelect(w)));
  }

  lemma VersionsKept(versions: VersionTable)
    ensures Kept(versions, versions)
  {
  }

  /** The row of a live executor is in that worker's hands, if it is a row of the start. */
  lemma AtHand(s: State, t: State, w: Id)
    requires Inv(s) && Inv(t) && Drains(s, t) && w in t.workers && Executing(t.workers[w])
    ensures t.workers[w].id in t.rows
    ensures forall u :: u in t.workers && u != w ==> t.workers[u].id != t.workers[w].id
    ensures var id := t.workers[w].id;
            id in s.rows ==>
              && s.rows[id].status == REQUESTED && s.rows[id].error.None? && s.rows[id].version in s.versions
              && InHand(t.workers[w], id, s.rows[id], StillDeployable(s.versions, s.rows[id]), w, t.rows[id])
  {
    var id := t.workers[w].id;
    forall u | u in t.workers && u != w ensures t.workers[u].id != id {
      ExclusiveWorkers(t, w, u);
    }
    HeldByWorker(t, w);
    if id in s.rows {
      QueuedRow(s, id);
      hide Inv, StillDeployable;
      HeldInHand(s.rows[id], StillDeployable(s.versions, s.rows[id]), id, t.rows[id], t.workers, w);
    }
  }

  lemma HeldByWorker(t: State, w: Id)
    requires Inv(t) && w in t.workers && Executing(t.workers[w])
    ensures t.workers[w].id in t.rows && Held(t.rows[t.workers[w].id]) && t.rows[t.workers[w].id].worker == Some(w)
  {
    assert WorkerOk(t, w);
  }

  lemma QueuedRow(s: State, id: Id)
    requires Inv(s) && id in s.rows
    ensures s.rows[id].status == REQUESTED ==> s.rows[id].error.None?
    ensures s.rows[id].version in s.versions
  {
    RowOfTable(s, id);
    assert RowGoverned(s.versions, s.rows[id]);
  }

  /** A row in hand, or done, has made progress. */
  lemma HandProgress(r: Row, deployable: bool, id: Id, c: Row, workers: map<Id, Worker>, w: Id)
    requires r.status == REQUESTED
    requires Done(r, deployable, c) || (w in workers && InHand(workers[w], id, r, deployable, w, c))
    ensures RowProgress(r, deployable, id, c, workers)
  {
    if w in workers && InHand(workers[w], id, r, deployable, w, c) {
      StageStatus(workers[w], r, w, c.lockedAt.value);
    }
    hide Done, StageRow;
  }

  lemma ProgressAt(s: State, t: State, id: Id)
    requires Drains(s, t) && id in s.rows
    ensures id in t.rows && RowProgress(s.rows[id], StillDeployable(s.versions, s.rows[id]), id, t.rows[id], t.workers)
  {
    hide RowProgress;
  }

  lemma ClaimDrains(s: State, t: State, w: Id)
    requires Inv(s) && Inv(t) && Drains(s, t) && Enabled(t, ClaimCommit(w))
    ensures Drains(s, Apply(t, ClaimCommit(w)))
  {
    hide Inv, Drains, RowProgress, InHand, Done, StillDeployable, ClaimRow;
    var t', id := Apply(t, ClaimCommit(w)), t.workers[w].id;
    SelectedRequested(t, w);
    if id in s.rows {
      var r, deployable := s.rows[id], StillDeployable(s.versions, s.rows[id]);
      ProgressAt(s, t, id);
      RequestedUntouched(r, deployable, id, t.rows[id], t.workers);
      ClaimInHand(id, r, deployable, w, t.clock);
      HandProgress(r, deployable, id, t'.rows[id], t'.workers, w);
    }
    DrainsMove(s, t, t', w);
  }

  lemma ClaimInHand(id: Id, r: Row, deployable: bool, w: Id, now: nat)
    ensures InHand(Claimed(id), id, r, deployable, w, ClaimRow(r, w, now))
  {
  }

  lemma SelectedRequested(t: State, w: Id)
    requires Inv(t) && w in t.workers && t.workers[w].Selecting?
    ensures t.workers[w].id in t.rows && t.rows[t.workers[w].id].status == REQUESTED
    ensures forall u :: u in t.workers && u != w ==> t.workers[u].id != t.workers[w].id
  {
    assert WorkerOk(t, w);
    forall u | u in t.workers && u != w ensures t.workers[u].id != t.workers[w].id {
      ExclusiveWorkers(t, w, u);
    }
  }

  lemma ExecutorDrains(s: State, t: State, step: Step)
    requires Inv(s) && Inv(t) && Drains(s, t) && Enabled(t, step)
    requires step.StartValidation? || step.CheckGate? || step.CommitDecision? || step.Finish?
    ensures Drains(s, Apply(t, step))
  {
    hide Inv, Drains, RowProgress, InHand, Done, StillDeployable, StartRow, DeployRow, FailRow, FinishRow;
    var w, t' := step.worker, Apply(t, step);
    AtHand(s, t, w);
    var id := t.workers[w].id;
    if id in s.rows {
      var r, deployable := s.rows[id], StillDeployable(s.versions, s.rows[id]);
      HandMoves(t.workers[w], id, r, deployable, w, t.rows[id]);
      HandKnows(t.workers[w], id, r, deployable, w, t.rows[id]);
      if step.CheckGate? {
        SameGate(s, t, w, id);
      }
      HandProgress(r, deployable, id, t'.rows[id], t'.workers, w);
    }
    DrainsMove(s, t, t', w);
  }

  lemma HandKnows(p: Worker, id: Id, r: Row, deployable: bool, w: Id, c: Row)
    requires InHand(p, id, r, deployable, w, c)
    ensures p.Decided? ==> p.deployable == deployable
  {
  }

  /** The gate reads the same now as at the start: the version is the same, and so is what the row asks for. */
  lemma SameGate(s: State, t: State, w: Id, id: Id)
    requires Drains(s, t) && id in s.rows && id in t.rows && s.rows[id].version in s.versions
    requires w in t.workers && InHand(t.workers[w], id, s.rows[id], StillDeployable(s.versions, s.rows[id]), w, t.rows[id])
    ensures StillDeployable(t.versions, t.rows[id]) == StillDeployable(s.versions, s.rows[id])
  {
    StageStatus(t.workers[w], s.rows[id], w, t.rows[id].lockedAt.value);
    hide RowsProgress, StageRow;
  }

  lemma OtherDrains(s: State, t: State, step: Step)
    requires Drains(s, t) && Enabled(t, step) && DrainStep(step)
    requires !step.ClaimSelect? && !step.ClaimCommit?
    requires !step.StartValidation? && !step.CheckGate? && !step.CommitDecision? && !step.Finish?
    ensures Drains(s, Apply(t, step))
  {
    hide RowsProgress, Executing;
    OthersKeep(t, step);
    hide Enabled, Apply, Kept;
    DrainsFrame(s, t, Apply(t, step));
  }

  lemma OthersKeep(t: State, step: Step)
    requires Enabled(t, step) && DrainStep(step)
    requires !step.ClaimSelect? && !step.ClaimCommit?
    requires !step.StartValidation? && !step.CheckGate? && !step.CommitDecision? && !step.Finish?
    ensures Apply(t, step).workers == t.workers && Kept(t.versions, Apply(t, step).versions)
    ensures forall i :: i in t.rows ==> i in Apply(t, step).rows && Apply(t, step).rows[i] == t.rows[i]
  {
    hide RollbackTarget, LookupRequest, LeaseHolds, ActiveClash, KeyClash, VersionExists, V.NewVersion, NewRow;
  }

  lemma StepDrains(s: State, t: State, step: Step)
    requires Inv(s) && Inv(t) && Drains(s, t) && Enabled(t, step) && DrainStep(step)
    ensures Drains(s, Apply(t, step))
  {
    hide Inv, Drains, Enabled, Apply;
    match step
    case ClaimSelect(w) => SelectDrains(s, t, w);
    case ClaimCommit(w) => ClaimDrains(s, t, w);
    case StartValidation(_) => ExecutorDrains(s, t, step);
    case CheckGate(_) => ExecutorDrains(s, t, step);
    case CommitDecision(_) => ExecutorDrains(s, t, step);
    case Finish(_) => ExecutorDrains(s, t, step);
    case _ => OtherDrains(s, t, step);
  }

  // ---------- Runs ----------

  ghost predicate IsDrain(s: State, steps: seq<Step>) {
    s.workers == map[] && IsRun(s, steps) && forall k :: 0 <= k < |steps| ==> DrainStep(steps[k])
  }

  lemma {:induction false} RunDrains(s: State, steps: seq<Step>)
    requires Inv(s) && IsDrain(s, steps)
    ensures Inv(After(s, steps)) && Drains(s, After(s, steps))
  {
    hide Inv, Enabled, Apply;
    if steps == [] {
      DrainsBegin(s);
    } else {
      var n := |steps| - 1;
      RunDrains(s, steps[..n]);
      StepDrains(s, After(s, steps[..n]), steps[n]);
      StepAdvances(After(s, steps[..n]), steps[n]);
    }
  }

  lemma DrainsBegin(s: State)
    requires s.workers == map[]
    ensures Drains(s, s)
  {
    hide Done, InHand, StillDeployable;
  }

  /**
   * Concurrent draining. Let any number of workers drain, interleaved in any way, with new requests coming in: a row
   * that was not requested stays as it is, and a requested row that has left the queue is exactly what DrainedTable
   * says, for the worker stamped on it.
   */
  lemma ConcurrentDrain(s: State, steps: seq<Step>, id: Id)
    requires Inv(s) && IsDrain(s, steps) && id in s.rows
    ensures var t := After(s, steps);
            && id in t.rows
            && (s.rows[id].status != REQUESTED ==> t.rows[id] == s.rows[id])
            && (s.rows[id].status == REQUESTED && !InFlight(t.rows[id]) ==>
                  t.rows[id].worker.Some? && t.rows[id] == DrainedTable(s.rows, s.versions, t.rows[id].worker.value)[id])
  {
    RunDrains(s, steps);
    hide Inv, IsRun, ProcessedRow, StillDeployable, Kept;
    var t := After(s, steps);
    if s.rows[id].status == REQUESTED && !InFlight(t.rows[id]) {
      NotInHand(s.rows[id], StillDeployable(s.versions, s.rows[id]), id, t.rows[id], t.workers);
    }
  }

  lemma NotInHand(r: Row, deployable: bool, id: Id, c: Row, workers: map<Id, Worker>)
    requires RowProgress(r, deployable, id, c, workers) && r.status == REQUESTED && !InFlight(c)
    ensures Done(r, deployable, c)
  {
    hide StageRow, Done;
    if !Done(r, deployable, c) {
      StageStatus(workers[c.worker.value], r, c.worker.value, c.lockedAt.value);
    }
  }

  /** When all workers are idle and nothing is left to claim, every row of the start has its outcome. */
  lemma DrainCompletes(s: State, steps: seq<Step>, id: Id)
    requires Inv(s) && IsDrain(s, steps) && id in s.rows && s.rows[id].status == REQUESTED
    requires After(s, steps).workers == map[] && Claimable(After(s, steps).rows, {}) == {}
    ensures var t := After(s, steps);
            && id in t.rows && t.rows[id].worker.Some?
            && t.rows[id] == DrainedTable(s.rows, s.versions, t.rows[id].worker.value)[id]
  {
    ConcurrentDrain(s, steps, id);
    RunDrains(s, steps);
    var t := After(s, steps);
    assert t.rows[id].status != REQUESTED by {
      assert id !in Claimable(t.rows, {});
    }
    hide Inv, IsDrain, IsRun, ProcessedRow, StillDeployable, Done;
    assert RowProgress(s.rows[id], StillDeployable(s.versions, s.rows[id]), id, t.rows[id], t.workers);
    DoneStatus(s.rows[id], StillDeployable(s.versions, s.rows[id]), t.rows[id]);
  }

  /** So two complete drains of one queue, however their workers interleave, differ only in the worker ids they stamp. */
  lemma DrainsAgree(s: State, first: seq<Step>, second: seq<Step>, id: Id)
    requires Inv(s) && id in s.rows && IsDrain(s, first) && IsDrain(s, second)
    requires After(s, first).workers == map[] && Claimable(After(s, first).rows, {}) == {}
    requires After(s, second).workers == map[] && Claimable(After(s, second).rows, {}) == {}
    ensures id in After(s, first).rows && id in After(s, second).rows
    ensures After(s, first).rows[id].(worker := None) == After(s, second).rows[id].(worker := None)
  {
    ConcurrentDrain(s, first, id);
    ConcurrentDrain(s, second, id);
    if s.rows[id].status == REQUESTED {
      DrainCompletes(s, first, id);
      DrainCompletes(s, second, id);
      OnlyWorkerDiffers(s.rows[id], StillDeployable(s.versions, s.rows[id]),
                        After(s, first).rows[id].worker.value, After(s, second).rows[id].worker.value);
    }
    hide Inv, IsDrain, ProcessedRow;
  }

  lemma OnlyWorkerDiffers(r: Row, deployable: bool, w: Id, u: Id)
    ensures ProcessedRow(r, w, deployable).(worker := None) == ProcessedRow(r, u, deployable).(worker := None)
  {
  }
}

/**
 * What each step writes, column by column: when a deployment's status, lock time, worker, attempts, error, rollback pointer
 * and history change, and to what. Nothing here is stated through the update functions.
 */
module Effects {
  import opened Common
  import opened Lifecycle
  import opened Deployments
  import opened Tables
  import opened Protocol
  import opened Invariants
  import V = Versions

  // ---------- One step, one row ----------

  /** The step is taken by a worker at this row. */
  ghost predicate ByWorkerAt(s: State, step: Step, id: Id) {
    && (step.ClaimCommit? || step.StartValidation? || step.CommitDecision? || step.Finish?)
    && step.worker in s.workers && s.workers[step.worker].id == id
  }

  ghost predicate ClaimsRow(s: State, step: Step, id: Id) {
    step.ClaimCommit? && ByWorkerAt(s, step, id)
  }

  ghost predicate RollsBack(s: State, step: Step, id: Id) {
    step.RollbackCommit? && step.call in s.calls && s.calls[step.call].RollingBack? && s.calls[step.call].id == id
  }

  /** In execution for more than two minutes since its lock time. */
  ghost predicate Expired(r: Row, clock: nat) {
    r.status in {VALIDATING, DEPLOYING} && r.lockedAt.Some? && clock > r.lockedAt.value + 120
  }

  /** The event the step leaves in the row's history, if any. */
  ghost function EventOf(s: State, step: Step, id: Id): Option<EventName>
    requires id in s.rows
  {
    var at := ByWorkerAt(s, step, id);
    match step
    case StartValidation(_) => if at then Some(ValidationStarted) else None
    case CommitDecision(w) =>
      if !at then None
      else if s.workers[w].Decided? && s.workers[w].deployable then Some(DeploymentStarted) else Some(ApprovalValidationFailed)
    case Finish(_) =>
      if !at then None else if s.rows[id].simulateFailure then Some(RuntimeTimeout) else Some(DeploymentCompleted)
    case Retry(i) => if i == id && s.rows[id].status == FAILED && PlaceFree(s.rows, id) then Some(RetryRequested) else None
    case RollbackCommit(_) => if RollsBack(s, step, id) then Some(RolledBack) else None
    case Reap =>
      if !Expired(s.rows[id], s.clock) then None else if s.rows[id].attempts < 3 then Some(Requeued) else Some(WorkerLost)
    case _ => None
  }

  /** The status a row is in once the event is recorded. */
  function StatusAt(name: EventName): Status {
    match name
    case Requested => REQUESTED
    case RetryRequested => REQUESTED
    case Requeued => REQUESTED
    case ValidationStarted => VALIDATING
    case DeploymentStarted => DEPLOYING
    case DeploymentCompleted => SUCCEEDED
    case RolledBack => ROLLED_BACK
    case ApprovalValidationFailed => FAILED
    case RuntimeTimeout => FAILED
    case WorkerLost => FAILED
  }

  /** History and status: the event of the step, if it has one for this row; a claim alone sets the status without one. */
  ghost predicate HistoryWritten(r: Row, r': Row, claimed: bool, name: Option<EventName>) {
    match name
    case None => r'.events == r.events && r'.status == (if claimed then VALIDATING else r.status)
    case Some(n) => !claimed && r'.events == r.events + [Event(StatusAt(n), n)] && r'.status == StatusAt(n)
  }

  /** Who executes it since when, and how often it was claimed. */
  ghost predicate ClaimColumns(r: Row, r': Row, claim: Option<(Id, nat)>) {
    && r'.attempts == r.attempts + (if claim.Some? then 1 else 0)
    && r'.worker == (if claim.Some? then Some(claim.value.0) else if r'.status == REQUESTED then None else r.worker)
    && r'.lockedAt == (if claim.Some? then Some(claim.value.1)
                       else if r'.status in {VALIDATING, DEPLOYING} || r'.error == Some(WorkerLost) then r.lockedAt
                       else None)
  }

  ghost predicate OtherColumns(r: Row, r': Row, target: Option<Id>) {
    && r'.model == r.model && r'.version == r.version && r'.environment == r.environment
    && r'.key == r.key && r'.simulateFailure == r.simulateFailure
    && r'.rolledBackTo == (if target.Some? then target else r.rolledBackTo)
    && (r'.status != FAILED ==> r'.error == None)
    && (r'.status == FAILED ==> |r'.events| > 0 && r'.error == Some(r'.events[|r'.events| - 1].name))
  }

  /** All columns of one row across one step. */
  ghost predicate RowWritten(s: State, step: Step, id: Id, r': Row)
    requires id in s.rows
  {
    && HistoryWritten(s.rows[id], r', ClaimsRow(s, step, id), EventOf(s, step, id))
    && ClaimColumns(s.rows[id], r', if ClaimsRow(s, step, id) then Some((step.worker, s.clock)) else None)
    && OtherColumns(s.rows[id], r', if RollsBack(s, step, id) then Some(s.calls[step.call].target) else None)
  }

  /** A row nobody writes. */
  lemma Unwritten(r: Row)
    requires RowOk(r)
    ensures HistoryWritten(r, r, false, None) && ClaimColumns(r, r, None) && OtherColumns(r, r, None)
  {
  }

  lemma WorkerWrites(r: Row, w: Id, now: nat)
    requires RowOk(r)
    ensures r.status == REQUESTED ==>
              var r' := ClaimRow(r, w, now);
              HistoryWritten(r, r', true, None) && ClaimColumns(r, r', Some((w, now))) && OtherColumns(r, r', None)
    ensures r.status == VALIDATING ==>
              var r' := StartRow(r);
              HistoryWritten(r, r', false, Some(ValidationStarted)) && ClaimColumns(r, r', None) && OtherColumns(r, r', None)
    ensures r.status == VALIDATING ==>
              var r' := DeployRow(r);
              HistoryWritten(r, r', false, Some(DeploymentStarted)) && ClaimColumns(r, r', None) && OtherColumns(r, r', None)
    ensures r.status == VALIDATING ==>
              var r' := FailRow(r, ApprovalValidationFailed);
              HistoryWritten(r, r', false, Some(ApprovalValidationFailed)) && ClaimColumns(r, r', None) && OtherColumns(r, r', None)
  {
  }

  lemma FinishWrites(r: Row)
    requires RowOk(r) && r.status == DEPLOYING
    ensures var r', name := FinishRow(r), if r.simulateFailure then RuntimeTimeout else DeploymentCompleted;
            HistoryWritten(r, r', false, Some(name)) && ClaimColumns(r, r', None) && OtherColumns(r, r', None)
  {
  }

  lemma QueueWrites(r: Row, target: Id)
    requires RowOk(r)
    ensures Held(r) ==>
              var r', name := ReapRow(r), if r.attempts < 3 then Requeued else WorkerLost;
              HistoryWritten(r, r', false, Some(name)) && ClaimColumns(r, r', None) && OtherColumns(r, r', None)
    ensures r.status == FAILED ==>
              var r' := RetryRow(r);
              HistoryWritten(r, r', false, Some(RetryRequested)) && ClaimColumns(r, r', None) && OtherColumns(r, r', None)
    ensures Deployed(r) ==>
              var r' := RollbackRow(r, target);
              HistoryWritten(r, r', false, Some(RolledBack)) && ClaimColumns(r, r', None) && OtherColumns(r, r', Some(target))
  {
  }

  lemma WorkerRowWritten(s: State, step: Step, id: Id)
    requires Inv(s) && Enabled(s, step) && ByWorkerAt(s, step, id)
    ensures id in s.rows && id in Apply(s, step).rows && RowWritten(s, step, id, Apply(s, step).rows[id])
  {
    hide Inv, RowOk, HistoryWritten, ClaimColumns, OtherColumns, ClaimRow, StartRow, DeployRow, FailRow, FinishRow;
    WorkerStands(s, step.worker);
    var r := s.rows[id];
    WorkerWrites(r, step.worker, s.clock);
    if step.Finish? {
      FinishWrites(r);
    }
  }

  /** What the invariant says of the row a worker is at. */
  lemma WorkerStands(s: State, w: Id)
    requires Inv(s) && w in s.workers
    ensures s.workers[w].id in s.rows && RowOk(s.rows[s.workers[w].id])
    ensures var p, status := s.workers[w], s.rows[s.workers[w].id].status;
            && (p.Selecting? ==> status == REQUESTED) && (p.Running? ==> status == DEPLOYING)
            && (p.Claimed? || p.Validating? || p.Decided? ==> status == VALIDATING)
  {
    assert WorkerOk(s, w);
    RowOfTable(s, s.workers[w].id);
  }

  lemma ReapRowWritten(s: State, id: Id)
    requires id in s.rows && RowOk(s.rows[id])
    ensures id in Apply(s, Reap).rows && RowWritten(s, Reap, id, Apply(s, Reap).rows[id])
  {
    var r := s.rows[id];
    assert Stuck(r, Cutoff(s.clock)) <==> Expired(r, s.clock);
    QueueWrites(r, 0);
    Unwritten(r);
    hide RowOk, HistoryWritten, ClaimColumns, OtherColumns, ReapRow, Stuck, Expired;
  }

  lemma RetryRowWritten(s: State, i: Id, id: Id)
    requires id in s.rows && RowOk(s.rows[id])
    ensures id in Apply(s, Retry(i)).rows && RowWritten(s, Retry(i), id, Apply(s, Retry(i)).rows[id])
  {
    var r := s.rows[id];
    QueueWrites(r, 0);
    Unwritten(r);
    RetriedTable(s.rows, i);
    hide RowOk, HistoryWritten, ClaimColumns, OtherColumns, RetryRow, RetryDeployment, PlaceFree;
  }

  lemma RetriedTable(rows: Table, i: Id)
    ensures RetryDeployment(rows, i).Ok? <==> i in rows && rows[i].status == FAILED && PlaceFree(rows, i)
    ensures RetryDeployment(rows, i).Ok? ==> RetryDeployment(rows, i).value == rows[i := RetryRow(rows[i])]
  {
    RetrySucceedsIff(rows, i);
    hide RetryRow, ActiveClash;
  }

  lemma RollbackRowWritten(s: State, c: Id, id: Id)
    requires Enabled(s, RollbackCommit(c)) && id in s.rows && RowOk(s.rows[id])
    requires s.calls[c].id == id ==> Deployed(s.rows[id])
    ensures id in Apply(s, RollbackCommit(c)).rows
    ensures RowWritten(s, RollbackCommit(c), id, Apply(s, RollbackCommit(c)).rows[id])
  {
    QueueWrites(s.rows[id], s.calls[c].target);
    Unwritten(s.rows[id]);
    hide RowOk, HistoryWritten, ClaimColumns, OtherColumns, RollbackRow;
  }

  lemma RollbackStands(s: State, c: Id)
    requires Inv(s) && Enabled(s, RollbackCommit(c))
    ensures s.calls[c].id in s.rows && Deployed(s.rows[s.calls[c].id])
  {
    assert CallOk(s.rows, s.versions, s.calls[c]);
  }

  lemma OtherRowWritten(s: State, step: Step, id: Id)
    requires Enabled(s, step) && id in s.rows && RowOk(s.rows[id])
    requires !ByWorkerAt(s, step, id) && !step.Reap? && !step.Retry? && !step.RollbackCommit?
    ensures id in Apply(s, step).rows && RowWritten(s, step, id, Apply(s, step).rows[id])
  {
    Unwritten(s.rows[id]);
    OthersLeaveRow(s, step, id);
    hide RowOk, HistoryWritten, ClaimColumns, OtherColumns, Apply, Enabled;
  }

  lemma OthersLeaveRow(s: State, step: Step, id: Id)
    requires Enabled(s, step) && id in s.rows
    requires !ByWorkerAt(s, step, id) && !step.Reap? && !step.Retry? && !step.RollbackCommit?
    ensures id in Apply(s, step).rows && Apply(s, step).rows[id] == s.rows[id]
  {
    hide RollbackTarget, LookupRequest, StillDeployable, LeaseHolds, ActiveClash, KeyClash, MinId, Claimable, Locked, NewRow;
    hide ClaimRow, StartRow, DeployRow, FailRow, FinishRow, V.Approve, V.Transition, V.NewVersion, VersionExists;
  }

  /** In every reachable state, for every step and every row. */
  lemma EveryColumn(s: State, step: Step, id: Id)
    requires Reachable(s) && Enabled(s, step) && id in s.rows
    ensures id in Apply(s, step).rows && RowWritten(s, step, id, Apply(s, step).rows[id])
  {
    ReachableInv(s);
    hide Reachable;
    RowOfStep(s, step, id);
  }

  lemma RowOfStep(s: State, step: Step, id: Id)
    requires Inv(s) && Enabled(s, step) && id in s.rows
    ensures id in Apply(s, step).rows && RowWritten(s, step, id, Apply(s, step).rows[id])
  {
    hide Inv, Enabled, Apply, RowWritten;
    RowOfTable(s, id);
    if ByWorkerAt(s, step, id) {
      WorkerRowWritten(s, step, id);
    } else {
      match step
      case Reap => ReapRowWritten(s, id);
      case Retry(i) => RetryRowWritten(s, i, id);
      case RollbackCommit(c) =>
        RollbackStands(s, c);
        RollbackRowWritten(s, c, id);
      case _ => OtherRowWritten(s, step, id);
    }
  }

  /** A retry re-queues the row exactly if it is FAILED and its place is free; otherwise nothing changes. */
  lemma RetryRequeuesIff(s: State, id: Id)
    requires Reachable(s) && id in s.rows
    ensures var s' := Apply(s, Retry(id));
            if s.rows[id].status == FAILED && PlaceFree(s.rows, id)
            then id in s'.rows && s'.rows[id].status == REQUESTED
            else s' == s
  {
    RetriedTable(s.rows, id);
    hide Reachable, RetryDeployment, PlaceFree;
  }

  // ---------- The lease of a claim ----------

  /** A claim is stamped with the time it commits, and from then on the reaper leaves the row alone for 120 seconds. */
  lemma ClaimStartsLease(s: State, w: Id, later: nat)
    requires Reachable(s) && Enabled(s, ClaimCommit(w))
    ensures var id, rows := s.workers[w].id, Apply(s, ClaimCommit(w)).rows;
            && id in rows && rows[id].status == VALIDATING
            && rows[id].worker == Some(w) && rows[id].lockedAt == Some(s.clock)
            && (id in StuckIds(rows, Cutoff(later)) <==> later > s.clock + 120)
  {
    EveryColumn(s, ClaimCommit(w), s.workers[w].id);
    hide Reachable, Apply;
  }

  /** Who claimed the row last in a run, and when. */
  ghost function LastClaim(s: State, steps: seq<Step>, id: Id): Option<(Id, nat)>
    requires IsRun(s, steps)
  {
    if steps == [] then None
    else
      var n := |steps| - 1;
      var before := After(s, steps[..n]);
      if ClaimsRow(before, steps[n], id) then Some((steps[n].worker, before.clock)) else LastClaim(s, steps[..n], id)
  }

  /** A row comes into execution by a claim only. */
  lemma ExecutionNeedsClaim(s: State, step: Step, id: Id)
    requires Inv(s) && Enabled(s, step) && id in Apply(s, step).rows
    requires Apply(s, step).rows[id].status in {VALIDATING, DEPLOYING} && !ClaimsRow(s, step, id)
    ensures id in s.rows && s.rows[id].status in {VALIDATING, DEPLOYING}
    ensures Apply(s, step).rows[id].worker == s.rows[id].worker && Apply(s, step).rows[id].lockedAt == s.rows[id].lockedAt
  {
    hide Inv, Apply, Enabled;
    if id in s.rows {
      RowOfStep(s, step, id);
      if ByWorkerAt(s, step, id) {
        WorkerStands(s, step.worker);
        WorkerStage(s, step);
      }
    } else {
      NewRowRequested(s, step, id);
    }
  }

  /** Which worker takes which step. */
  lemma WorkerStage(s: State, step: Step)
    requires Enabled(s, step)
    ensures step.StartValidation? ==> step.worker in s.workers && s.workers[step.worker].Claimed?
    ensures step.CommitDecision? ==> step.worker in s.workers && s.workers[step.worker].Decided?
    ensures step.Finish? ==> step.worker in s.workers && s.workers[step.worker].Running?
  {
  }

  /** A new row is the one a pending request asked for. */
  lemma NewRowRequested(s: State, step: Step, id: Id)
    requires Enabled(s, step) && id in Apply(s, step).rows && id !in s.rows
    ensures step.RequestInsert? && step.id == id && step.call in s.calls && s.calls[step.call].Inserting?
    ensures var r, q := Apply(s, step).rows[id], s.calls[step.call].request;
            && r.model == s.calls[step.call].model && r.version == q.version && r.environment == q.environment
            && r.key == q.key && r.simulateFailure == q.simulateFailure && r.status == REQUESTED && r.attempts == 0
  {
    NoOtherRow(s, step);
    hide ActiveClash, KeyClash;
    if step.RequestInsert? {
      InsertStoresRequest(s.rows, s.calls[step.call].request, s.calls[step.call].model, step.id);
      hide InsertRequest;
    }
  }

  lemma NoOtherRow(s: State, step: Step)
    requires Enabled(s, step)
    ensures !step.RequestInsert? ==> Apply(s, step).rows.Keys == s.rows.Keys
  {
    hide RollbackTarget, LookupRequest, StillDeployable, LeaseHolds, ActiveClash, MinId, Claimable, Locked;
    hide ClaimRow, StartRow, DeployRow, FailRow, FinishRow, RetryRow, ReapRow, V.Approve, V.Transition, V.NewVersion, VersionExists;
  }

  /**
   * In every run from the empty store, a row in execution carries the worker and the time of its last claim, through
   * validation and deployment; so the reaper takes it exactly when that claim is more than 120 seconds old.
   */
  lemma {:induction false} LockTimeIsClaimTime(steps: seq<Step>, id: Id)
    requires IsRun(INIT, steps) && id in After(INIT, steps).rows
    requires After(INIT, steps).rows[id].status in {VALIDATING, DEPLOYING}
    ensures var r, claim := After(INIT, steps).rows[id], LastClaim(INIT, steps, id);
            claim.Some? && r.worker == Some(claim.value.0) && r.lockedAt == Some(claim.value.1)
  {
    hide Inv, Apply, Enabled, ClaimsRow;
    if steps != [] {
      var n := |steps| - 1;
      var before := After(INIT, steps[..n]);
      InitInv();
      RunAdvances(INIT, steps[..n]);
      if ClaimsRow(before, steps[n], id) {
        ClaimWrites(before, steps[n], id);
      } else {
        ExecutionNeedsClaim(before, steps[n], id);
        LockTimeIsClaimTime(steps[..n], id);
      }
    }
  }

  lemma ClaimWrites(s: State, step: Step, id: Id)
    requires Inv(s) && Enabled(s, step) && ClaimsRow(s, step, id)
    ensures id in Apply(s, step).rows
    ensures Apply(s, step).rows[id].worker == Some(step.worker) && Apply(s, step).rows[id].lockedAt == Some(s.clock)
  {
    WorkerStands(s, step.worker);
    hide Inv, Apply, Enabled;
    RowOfStep(s, step, id);
  }

  /** What the reaper takes, by the history of the run alone. */
  lemma ReaperTakesExpired(steps: seq<Step>, id: Id, later: nat)
    requires IsRun(INIT, steps) && id in After(INIT, steps).rows
    ensures var rows, claim := After(INIT, steps).rows, LastClaim(INIT, steps, id);
            id in StuckIds(rows, Cutoff(later)) <==>
            rows[id].status in {VALIDATING, DEPLOYING} && claim.Some? && later > claim.value.1 + 120
  {
    if After(INIT, steps).rows[id].status in {VALIDATING, DEPLOYING} {
      LockTimeIsClaimTime(steps, id);
    }
    hide IsRun, LastClaim;
  }

  // ---------- When calls take effect ----------

  /** A lookup admits a request exactly if its key names no row and its version is eligible; then the request is pending. */
  lemma RequestAdmittedIff(s: State, c: Id, q: Request)
    requires Reachable(s) && c !in s.calls
    ensures var s' := Apply(s, RequestLookup(c, q));
            && (c in s'.calls <==>
                  !(exists id :: id in s.rows && q.key.Some? && q.key.value != "" && s.rows[id].key == q.key) &&
                  q.version in s.versions && TakesStage(q.environment, s.versions[q.version].stage))
            && (c in s'.calls ==> s'.calls[c] == Inserting(q, s.versions[q.version].model))
  {
    assert UniqueKeys(s.rows) by { ReachableInv(s); }
    hide Reachable, UniqueKeys;
    LookupExact(s.rows, s.versions, q);
    var found := LookupRequest(s.rows, s.versions, q);
    assert found.Replay? ==> found == Replay(found.id);
    hide LookupRequest, TakesStage;
  }

  /** A pending request is stored exactly if no other row is in flight in its place or carries its key; it is over either way. */
  lemma RequestStoredIff(s: State, c: Id, id: Id)
    requires Enabled(s, RequestInsert(c, id))
    ensures var s', q, model := Apply(s, RequestInsert(c, id)), s.calls[c].request, s.calls[c].model;
            && c !in s'.calls
            && (id !in s'.rows <==>
                  exists j :: j in s.rows &&
                    ((s.rows[j].status in {REQUESTED, VALIDATING, DEPLOYING} &&
                      s.rows[j].model == model && s.rows[j].environment == q.environment) ||
                     (q.key.Some? && s.rows[j].key == q.key)))
  {
    InsertStoresRequest(s.rows, s.calls[c].request, s.calls[c].model, id);
    hide InsertRequest;
  }

  /** A stage change takes effect exactly for these pairs of stages. */
  lemma MoveTakesEffectIff(s: State, v: Id, target: Stage, actor: Id)
    requires Reachable(s) && v in s.versions
    ensures var stage, s' := s.versions[v].stage, Apply(s, TransitionVersion(v, target, actor));
            if (stage, target) in {(Draft, Validated), (Approved, Staging), (Staging, Production)} ||
               (target == Archived && stage != Archived)
            then v in s'.versions && s'.versions[v].stage == target
            else s' == s
  {
    hide Reachable, V.VersionOk, Inv, V.Transition, ValidateTransition;
    ReachableInv(s);
    OkVersion(s, v);
    V.TransitionOk(s.versions[v], target, actor);
  }

  /** An approval takes effect exactly from VALIDATED. */
  lemma ApprovalTakesEffectIff(s: State, v: Id, actor: Id)
    requires Reachable(s) && v in s.versions
    ensures var s' := Apply(s, ApproveVersion(v, actor));
            if s.versions[v].stage == Validated then v in s'.versions && s'.versions[v].stage == Approved else s' == s
  {
    hide Reachable, V.VersionOk, Inv, V.Approve, ValidateTransition;
    ReachableInv(s);
    OkVersion(s, v);
    V.ApproveOk(s.versions[v], s.clock, actor);
  }

  /** A creation is admitted exactly for a known model without this version, and stored exactly if that is still so. */
  lemma CreationStoredIff(s: State, c: Id, model: Id, version: string, actor: Id, id: Id)
    ensures c !in s.calls ==>
              var s' := Apply(s, VersionCheck(c, model, version, actor));
              if model in s.models && !(exists v :: v in s.versions && s.versions[v].model == model && s.versions[v].version == version)
              then c in s'.calls && s'.calls[c] == Creating(model, version, actor)
              else s' == s
    ensures c in s.calls && s.calls[c] == Creating(model, version, actor) && id !in s.versions ==>
              var s' := Apply(s, VersionInsert(c, id));
              c !in s'.calls && (id in s'.versions <==>
                !(exists v :: v in s.versions && s.versions[v].model == model && s.versions[v].version == version))
  {
    hide V.NewVersion;
  }

  /** A model is stored under the key that was probed, exactly if no model has it by then and it fits its column. */
  lemma ModelStoredIff(s: State, c: Id, id: Id)
    requires Enabled(s, ModelInsert(c, id))
    ensures var s', key := Apply(s, ModelInsert(c, id)), s.calls[c].key;
            && c !in s'.calls && (id in s'.models ==> s'.models == s.models[id := key])
            && (id in s'.models <==> |key| <= 128 && forall m :: m in s.models ==> s.models[m] != key)
  {
    assert forall m :: m in s.models ==> s.models[m] in s.models.Values;
  }

  /** The step works on this call. */
  predicate OnCall(step: Step, c: Id) {
    match step
    case ModelProbe(d, _) => d == c
    case ModelInsert(d, _) => d == c
    case VersionCheck(d, _, _, _) => d == c
    case VersionInsert(d, _) => d == c
    case RequestLookup(d, _) => d == c
    case RequestInsert(d, _) => d == c
    case RollbackRead(d, _) => d == c
    case RollbackCommit(d) => d == c
    case Hangup(d) => d == c
    case _ => false
  }

  /** Calls do not disturb each other, and only time moves the clock. */
  lemma OthersUndisturbed(s: State, step: Step, c: Id)
    requires Enabled(s, step)
    ensures !OnCall(step, c) ==>
              (c in Apply(s, step).calls <==> c in s.calls) && (c in s.calls ==> Apply(s, step).calls[c] == s.calls[c])
    ensures c in s.calls && OnCall(step, c) ==> c !in Apply(s, step).calls
    ensures Apply(s, step).clock == if step.Tick? then step.now else s.clock
  {
    hide InsertRequest, RetryDeployment, RollbackTarget, LookupRequest, ReapTable, StillDeployable, LeaseHolds, MinId, Claimable, Locked;
    hide ClaimRow, StartRow, DeployRow, FailRow, FinishRow, RollbackRow, V.Approve, V.Transition, V.NewVersion, VersionExists;
  }
}

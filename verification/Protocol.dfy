/**
 * The deployment queue and the version lifecycle as one transition system.
 *
 * The database tables are shared by API calls, worker processes and the reaper. A step is one committed
 * transaction, or one read whose outcome is carried to a later commit. Workers and API calls may disappear between
 * any two steps.
 */
module Protocol {
  import opened Common
  import opened Lifecycle
  import opened Deployments
  import opened Tables
  import V = Versions

  /** Where a worker is; a worker that is not in the map is idle or gone. */
  datatype Worker =
    | Selecting(id: Id)                    // holds the row lock of claim_one, not committed
    | Claimed(id: Id)                      // claim committed
    | Validating(id: Id)                   // validation_started committed
    | Decided(id: Id, deployable: bool)    // read the version's stage
    | Running(id: Id)                      // deployment_started committed

  /** An API call between its reads and its commit. */
  datatype Call =
    | Registering(key: string)
    | Creating(model: Id, version: string, actor: Id)
    | Inserting(request: Request, model: Id)
    | RollingBack(id: Id, target: Id)

  datatype State = State(
    models: map<Id, string>,               // the key of each model
    versions: VersionTable,
    rows: Table,
    workers: map<Id, Worker>,
    calls: map<Id, Call>,
    clock: nat)

  datatype Step =
    | ModelProbe(call: Id, key: string)
    | ModelInsert(call: Id, id: Id)
    | VersionCheck(call: Id, model: Id, version: string, actor: Id)
    | VersionInsert(call: Id, id: Id)
    | ApproveVersion(versionId: Id, actor: Id)
    | TransitionVersion(versionId: Id, target: Stage, actor: Id)
    | RequestLookup(call: Id, request: Request)
    | RequestInsert(call: Id, id: Id)
    | Retry(id: Id)
    | RollbackRead(call: Id, id: Id)
    | RollbackCommit(call: Id)
    | Hangup(call: Id)
    | ClaimSelect(worker: Id)
    | ClaimCommit(worker: Id)
    | StartValidation(worker: Id)
    | CheckGate(worker: Id)
    | CommitDecision(worker: Id)
    | Finish(worker: Id)
    | Crash(worker: Id)
    | Reap
    | Tick(now: nat)

  const INIT := State(map[], map[], map[], map[], map[], 0)

  /** A worker that committed its claim and has not finished. */
  predicate Executing(w: Worker) {
    !w.Selecting?
  }

  ghost function Locked(s: State): set<Id> {
    set w | w in s.workers && s.workers[w].Selecting? :: s.workers[w].id
  }

  /** The lease: while a live worker executes a row, the clock does not pass the row's visibility timeout. */
  ghost predicate LeaseHolds(s: State, now: nat) {
    forall w :: w in s.workers && Executing(s.workers[w]) && s.workers[w].id in s.rows &&
                s.rows[s.workers[w].id].lockedAt.Some?
                ==> now <= s.rows[s.workers[w].id].lockedAt.value + TIMEOUT
  }

  /** The version table's uniqueness of (model, version). */
  ghost predicate VersionExists(versions: VersionTable, model: Id, version: string) {
    exists v :: v in versions && versions[v].model == model && versions[v].version == version
  }

  /**
   * When a step can be taken. A step whose code raises is enabled and changes nothing. A model's key is any free one
   * (ModelService.UniqueKey says which is chosen). That the row a worker or a
   * rollback is about still exists holds in every reachable state (WorkerOk, CallOk); it is asked here so that Apply
   * is defined.
   */
  ghost predicate Enabled(s: State, step: Step) {
    match step
    case ModelProbe(c, key) => c !in s.calls && key !in s.models.Values
    case ModelInsert(c, id) => c in s.calls && s.calls[c].Registering? && id !in s.models
    case VersionCheck(c, _, _, _) => c !in s.calls
    case VersionInsert(c, id) => c in s.calls && s.calls[c].Creating? && id !in s.versions
    case ApproveVersion(_, _) => true
    case TransitionVersion(_, _, _) => true
    case RequestLookup(c, _) => c !in s.calls
    case RequestInsert(c, id) => c in s.calls && s.calls[c].Inserting? && id !in s.rows
    case Retry(_) => true
    case RollbackRead(c, _) => c !in s.calls
    case RollbackCommit(c) => c in s.calls && s.calls[c].RollingBack? && s.calls[c].id in s.rows
    case Hangup(c) => c in s.calls
    case ClaimSelect(w) => w !in s.workers && Claimable(s.rows, Locked(s)) != {}
    case ClaimCommit(w) => w in s.workers && s.workers[w].Selecting? && s.workers[w].id in s.rows
    case StartValidation(w) => w in s.workers && s.workers[w].Claimed? && s.workers[w].id in s.rows
    case CheckGate(w) => w in s.workers && s.workers[w].Validating? && s.workers[w].id in s.rows
    case CommitDecision(w) => w in s.workers && s.workers[w].Decided? && s.workers[w].id in s.rows
    case Finish(w) => w in s.workers && s.workers[w].Running? && s.workers[w].id in s.rows
    case Crash(w) => w in s.workers
    case Reap => true
    case Tick(now) => s.clock <= now && LeaseHolds(s, now)
  }

  /** A worker's write to its row: by primary key only, whatever the row holds now. */
  ghost function WorkerWrite(s: State, w: Id, r: Row, next: map<Id, Worker>): State
    requires w in s.workers
  {
    s.(rows := s.rows[s.workers[w].id := r], workers := next)
  }

  ghost function Apply(s: State, step: Step): State
    requires Enabled(s, step)
  {
    match step
    case ModelProbe(c, key) => s.(calls := s.calls[c := Registering(key)])
    case ModelInsert(c, id) =>
      var key := s.calls[c].key;
      s.(calls := s.calls - {c},
         models := if key in s.models.Values || |key| > MAX_KEY_LENGTH then s.models else s.models[id := key])
    case VersionCheck(c, m, version, actor) =>
      if m !in s.models || VersionExists(s.versions, m, version) then s
      else s.(calls := s.calls[c := Creating(m, version, actor)])
    case VersionInsert(c, id) =>
      var Creating(m, version, actor) := s.calls[c];
      s.(calls := s.calls - {c},
         versions := if VersionExists(s.versions, m, version) then s.versions
                     else s.versions[id := V.NewVersion(m, version, actor)])
    case ApproveVersion(v, actor) =>
      if v in s.versions && V.Approve(s.versions[v], s.clock, actor).Ok? then
        s.(versions := s.versions[v := V.Approve(s.versions[v], s.clock, actor).value])
      else s
    case TransitionVersion(v, target, actor) =>
      if v in s.versions && V.Transition(s.versions[v], target, actor).Ok? then
        s.(versions := s.versions[v := V.Transition(s.versions[v], target, actor).value])
      else s
    case RequestLookup(c, q) =>
      var found := LookupRequest(s.rows, s.versions, q);
      if found.Proceed? then s.(calls := s.calls[c := Inserting(q, found.model)]) else s
    case RequestInsert(c, id) =>
      var inserted := InsertRequest(s.rows, s.calls[c].request, s.calls[c].model, id);
      s.(calls := s.calls - {c}, rows := if inserted.Ok? then inserted.value else s.rows)
    case Retry(id) =>
      var retried := RetryDeployment(s.rows, id);
      s.(rows := if retried.Ok? then retried.value else s.rows)
    case RollbackRead(c, id) =>
      var target := RollbackTarget(s.rows, id);
      if target.Ok? then s.(calls := s.calls[c := RollingBack(id, target.value)]) else s
    case RollbackCommit(c) =>
      var id := s.calls[c].id;
      s.(calls := s.calls - {c}, rows := s.rows[id := RollbackRow(s.rows[id], s.calls[c].target)])
    case Hangup(c) => s.(calls := s.calls - {c})
    case ClaimSelect(w) => s.(workers := s.workers[w := Selecting(MinId(Claimable(s.rows, Locked(s))))])
    case ClaimCommit(w) =>
      var id := s.workers[w].id;
      WorkerWrite(s, w, ClaimRow(s.rows[id], w, s.clock), s.workers[w := Claimed(id)])
    case StartValidation(w) =>
      var id := s.workers[w].id;
      WorkerWrite(s, w, StartRow(s.rows[id]), s.workers[w := Validating(id)])
    case CheckGate(w) =>
      var id := s.workers[w].id;
      s.(workers := s.workers[w := Decided(id, StillDeployable(s.versions, s.rows[id]))])
    case CommitDecision(w) =>
      var id := s.workers[w].id;
      if s.workers[w].deployable then WorkerWrite(s, w, DeployRow(s.rows[id]), s.workers[w := Running(id)])
      else WorkerWrite(s, w, FailRow(s.rows[id], ApprovalValidationFailed), s.workers - {w})
    case Finish(w) =>
      WorkerWrite(s, w, FinishRow(s.rows[s.workers[w].id]), s.workers - {w})
    case Crash(w) => s.(workers := s.workers - {w})
    case Reap => s.(rows := ReapTable(s.rows, Cutoff(s.clock)))
    case Tick(now) => s.(clock := now)
  }

  // ---------- Runs ----------

  /** The state after a run; every step of the run must be enabled when it is taken. */
  ghost function Run(s: State, steps: seq<Step>): Option<State> {
    if steps == [] then Some(s)
    else
      var before := Run(s, steps[..|steps| - 1]);
      var last := steps[|steps| - 1];
      if before.Some? && Enabled(before.value, last) then Some(Apply(before.value, last)) else None
  }

  ghost predicate IsRun(s: State, steps: seq<Step>) {
    Run(s, steps).Some?
  }

  ghost function After(s: State, steps: seq<Step>): State
    requires IsRun(s, steps)
  {
    Run(s, steps).value
  }

  /** Some run leads from s to t. */
  ghost predicate Reaches(s: State, t: State) {
    exists steps :: Run(s, steps) == Some(t)
  }

  ghost predicate Reachable(s: State) {
    Reaches(INIT, s)
  }

  /** Taking one step after a run is the longer run. */
  lemma RunSnoc(s: State, steps: seq<Step>, step: Step)
    requires IsRun(s, steps) && Enabled(After(s, steps), step)
    ensures Run(s, steps + [step]) == Some(Apply(After(s, steps), step))
  {
    assert (steps + [step])[..|steps|] == steps;
  }

  lemma {:induction false} RunAppend(s: State, first: seq<Step>, second: seq<Step>)
    requires IsRun(s, first) && IsRun(After(s, first), second)
    ensures Run(s, first + second) == Run(After(s, first), second)
  {
    hide Enabled, Apply;
    if second == [] {
      assert first + second == first;
    } else {
      var n := |second| - 1;
      RunAppend(s, first, second[..n]);
      assert (first + second)[..|first| + n] == first + second[..n];
    }
  }

  // ---------- The invariant ----------

  /** What a live worker may rely on about the row it works on. */
  ghost predicate WorkerOk(s: State, w: Id)
    requires w in s.workers
  {
    var p := s.workers[w];
    && p.id in s.rows
    && (var r := s.rows[p.id];
        && |r.events| > 0
        && (p.Selecting? ==> r.status == REQUESTED)
        && (Executing(p) ==>
              r.worker == Some(w) && r.lockedAt.Some? && s.clock <= r.lockedAt.value + TIMEOUT)
        && (p.Claimed? ==> InClaimWindow(r))
        && (p.Validating? || p.Decided? ==> r.status == VALIDATING && !InClaimWindow(r))
        && (p.Decided? && !p.deployable ==> r.version in s.versions && s.versions[r.version].stage.Archived?)
        && (p.Running? ==> r.status == DEPLOYING))
  }

  /** No row is locked by two claimers. */
  ghost predicate LocksExclusive(workers: map<Id, Worker>) {
    forall w, u :: w in workers && u in workers && w != u && workers[w].Selecting? && workers[u].Selecting?
                   ==> workers[w].id != workers[u].id
  }

  ghost predicate WorkersOk(s: State) {
    LocksExclusive(s.workers) && forall w :: w in s.workers ==> WorkerOk(s, w)
  }

  ghost predicate CallOk(rows: Table, versions: VersionTable, c: Call) {
    match c
    case Registering(_) => true
    case Creating(_, _, _) => true
    case Inserting(q, m) => q.version in versions && versions[q.version].model == m &&
                            EverDeployable(versions, q.version, q.environment)
    case RollingBack(id, target) => id in rows && Deployed(rows[id]) && PointsBack(rows, id, target)
  }

  ghost predicate CallsOk(s: State) {
    forall c :: c in s.calls ==> CallOk(s.rows, s.versions, s.calls[c])
  }

  ghost predicate Inv(s: State) {
    VersionsOk(s.versions) && TableOk(s.rows, s.versions) && WorkersOk(s) && CallsOk(s)
  }
}

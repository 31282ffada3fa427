/** Deployment rows as values (models/deployment.py), every update the code makes to one row, and what each row's history says. */
module Deployments {
  import opened Common
  import opened DeploymentPolicy

  datatype Status = REQUESTED | VALIDATING | DEPLOYING | SUCCEEDED | FAILED | ROLLED_BACK

  /** Event names; a failed row's error column holds the name of the event that failed it. */
  datatype EventName =
    | Requested
    | RetryRequested
    | RolledBack
    | ValidationStarted
    | ApprovalValidationFailed
    | DeploymentStarted
    | RuntimeTimeout
    | DeploymentCompleted
    | WorkerLost
    | Requeued

  datatype Event = Event(status: Status, name: EventName)

  datatype Row = Row(
    model: Id,
    version: Id,
    environment: Environment,
    status: Status,
    key: Option<string>,
    simulateFailure: bool,
    worker: Option<Id>,
    lockedAt: Option<nat>,
    attempts: nat,
    error: Option<EventName>,
    rolledBackTo: Option<Id>,
    events: seq<Event>)

  const MAX_ATTEMPTS: nat := 3

  /** The visibility timeout: the default argument of reap_stuck, in seconds. */
  const TIMEOUT: nat := 120

  predicate InFlight(r: Row) {
    r.status == REQUESTED || r.status == VALIDATING || r.status == DEPLOYING
  }

  /** A row some worker claimed and has not finished. */
  predicate Held(r: Row) {
    r.status == VALIDATING || r.status == DEPLOYING
  }

  /** Deployed at some time, whether or not it was rolled back since. */
  predicate Deployed(r: Row) {
    r.status == SUCCEEDED || r.status == ROLLED_BACK
  }

  /** Claimed before the cutoff and not finished. */
  predicate Stuck(r: Row, cutoff: int) {
    Held(r) && r.lockedAt.Some? && r.lockedAt.value < cutoff
  }

  /** The reaper's cutoff under the default timeout. */
  function Cutoff(now: nat): int {
    now - TIMEOUT
  }

  function RecordEvent(r: Row, name: EventName): Row {
    r.(events := r.events + [Event(r.status, name)])
  }

  // ---------- One function per committed update ----------

  function NewRow(model: Id, version: Id, environment: Environment, key: Option<string>, simulateFailure: bool): Row {
    RecordEvent(Row(model, version, environment, REQUESTED, key, simulateFailure, None, None, 0, None, None, []), Requested)
  }

  function ClaimRow(r: Row, worker: Id, now: nat): Row {
    r.(status := VALIDATING, worker := Some(worker), lockedAt := Some(now), attempts := r.attempts + 1)
  }

  function StartRow(r: Row): Row {
    RecordEvent(r, ValidationStarted)
  }

  function DeployRow(r: Row): Row {
    RecordEvent(r.(status := DEPLOYING), DeploymentStarted)
  }

  function FailRow(r: Row, name: EventName): Row {
    RecordEvent(r.(status := FAILED, error := Some(name), lockedAt := None), name)
  }

  function SucceedRow(r: Row): Row {
    RecordEvent(r.(status := SUCCEEDED, error := None, lockedAt := None), DeploymentCompleted)
  }

  /** The last executor commit: the simulated runtime either times out or completes. */
  function FinishRow(r: Row): Row {
    if r.simulateFailure then FailRow(r, RuntimeTimeout) else SucceedRow(r)
  }

  function ReapRow(r: Row): Row {
    if r.attempts >= MAX_ATTEMPTS then
      RecordEvent(r.(status := FAILED, error := Some(WorkerLost)), WorkerLost)
    else
      RecordEvent(r.(status := REQUESTED, worker := None, lockedAt := None), Requeued)
  }

  function RetryRow(r: Row): Row {
    RecordEvent(r.(status := REQUESTED, error := None, worker := None, lockedAt := None), RetryRequested)
  }

  function RollbackRow(r: Row, target: Id): Row {
    RecordEvent(r.(status := ROLLED_BACK, rolledBackTo := Some(target)), RolledBack)
  }

  /** What one uninterrupted pass of a worker leaves behind, stated by its outcome. */
  function ProcessedRow(r: Row, worker: Id, deployable: bool): Row {
    var started := r.events + [Event(VALIDATING, ValidationStarted)];
    var claimed := r.(worker := Some(worker), lockedAt := None, attempts := r.attempts + 1);
    if !deployable then
      claimed.(status := FAILED, error := Some(ApprovalValidationFailed),
               events := started + [Event(FAILED, ApprovalValidationFailed)])
    else if r.simulateFailure then
      claimed.(status := FAILED, error := Some(RuntimeTimeout),
               events := started + [Event(DEPLOYING, DeploymentStarted), Event(FAILED, RuntimeTimeout)])
    else
      claimed.(status := SUCCEEDED, error := None,
               events := started + [Event(DEPLOYING, DeploymentStarted), Event(SUCCEEDED, DeploymentCompleted)])
  }

  // ---------- The event automaton ----------

  /** The event that may come after an event that left the row in the given status. */
  predicate MayFollow(status: Status, e: Event) {
    match e.name
    case Requested => false
    case RetryRequested => status == FAILED && e.status == REQUESTED
    case RolledBack => (status == SUCCEEDED || status == ROLLED_BACK) && e.status == ROLLED_BACK
    case ValidationStarted => status == REQUESTED && e.status == VALIDATING
    case ApprovalValidationFailed => status == VALIDATING && e.status == FAILED
    case DeploymentStarted => status == VALIDATING && e.status == DEPLOYING
    case RuntimeTimeout => status == DEPLOYING && e.status == FAILED
    case DeploymentCompleted => status == DEPLOYING && e.status == SUCCEEDED
    case WorkerLost => (status == REQUESTED || status == VALIDATING || status == DEPLOYING) && e.status == FAILED
    case Requeued => (status == REQUESTED || status == VALIDATING || status == DEPLOYING) && e.status == REQUESTED
  }

  /** The event list is a word of the automaton. */
  ghost predicate LegalTimeline(events: seq<Event>) {
    && |events| > 0
    && events[0] == Event(REQUESTED, Requested)
    && forall i, j :: 0 <= i < j < |events| && j == i + 1 ==> MayFollow(events[i].status, events[j])
  }

  function LastEvent(r: Row): Event
    requires |r.events| > 0
  {
    r.events[|r.events| - 1]
  }

  /** Claimed, but validation_started is not committed: the one time when status and last event disagree. */
  predicate InClaimWindow(r: Row)
    requires |r.events| > 0
  {
    r.status == VALIDATING && LastEvent(r).status == REQUESTED
  }

  function Count(events: seq<Event>, name: EventName): nat {
    if |events| == 0 then 0
    else Count(events[..|events| - 1], name) + (if events[|events| - 1].name == name then 1 else 0)
  }

  /** How often the reaper put the row back. */
  function Requeues(r: Row): nat {
    Count(r.events, Requeued)
  }

  /** How often a user retried the row. */
  function Retries(r: Row): nat {
    Count(r.events, RetryRequested)
  }

  // ---------- The invariant of one row ----------

  predicate Bookkeeping(r: Row) {
    && (r.worker.Some? <==> r.status != REQUESTED)
    && (r.error.Some? <==> r.status == FAILED)
    && (r.lockedAt.Some? <==> Held(r) || r.error == Some(WorkerLost))
    && (r.rolledBackTo.Some? <==> r.status == ROLLED_BACK)
  }

  /** Every claim is paid for by the request, one requeue, or one retry. */
  predicate Accounted(r: Row) {
    && r.attempts + (if r.status == REQUESTED then 1 else 0) == 1 + Requeues(r) + Retries(r)
    && Requeues(r) <= MAX_ATTEMPTS - 1
  }

  ghost predicate Timeline(r: Row) {
    && LegalTimeline(r.events)
    && (LastEvent(r).status == r.status || InClaimWindow(r))
    && (r.status == FAILED ==> r.error == Some(LastEvent(r).name))
  }

  ghost predicate RowOk(r: Row) {
    Bookkeeping(r) && Accounted(r) && Timeline(r)
  }

  /** The columns no update touches. */
  predicate SameIdentity(r: Row, r': Row) {
    && r.model == r'.model && r.version == r'.version && r.environment == r'.environment
    && r.key == r'.key && r.simulateFailure == r'.simulateFailure
  }

  // ---------- Lemmas ----------

  lemma CountAppend(events: seq<Event>, e: Event, name: EventName)
    ensures Count(events + [e], name) == Count(events, name) + (if e.name == name then 1 else 0)
  {
    assert (events + [e])[..|events|] == events;
  }

  /** Recording an event that may follow the current last one keeps the timeline legal. */
  lemma RecordOk(r: Row, name: EventName)
    requires |r.events| > 0 && LegalTimeline(r.events)
    requires MayFollow(LastEvent(r).status, Event(r.status, name))
    ensures LegalTimeline(RecordEvent(r, name).events)
    ensures LastEvent(RecordEvent(r, name)) == Event(r.status, name)
    ensures Requeues(RecordEvent(r, name)) == Requeues(r) + (if name == Requeued then 1 else 0)
    ensures Retries(RecordEvent(r, name)) == Retries(r) + (if name == RetryRequested then 1 else 0)
  {
    CountAppend(r.events, Event(r.status, name), Requeued);
    CountAppend(r.events, Event(r.status, name), RetryRequested);
  }

  lemma NewRowOk(model: Id, version: Id, environment: Environment, key: Option<string>, simulateFailure: bool)
    ensures RowOk(NewRow(model, version, environment, key, simulateFailure))
  {
    var e := [Event(REQUESTED, Requested)];
    assert NewRow(model, version, environment, key, simulateFailure).events == e;
    CountAppend([], e[0], Requeued);
    CountAppend([], e[0], RetryRequested);
    assert [] + e == e;
  }

  lemma ClaimRowOk(r: Row, worker: Id, now: nat)
    requires RowOk(r) && r.status == REQUESTED
    ensures RowOk(ClaimRow(r, worker, now)) && InClaimWindow(ClaimRow(r, worker, now))
  {
  }

  lemma StartRowOk(r: Row)
    requires RowOk(r) && InClaimWindow(r)
    ensures RowOk(StartRow(r)) && !InClaimWindow(StartRow(r))
  {
    RecordOk(r, ValidationStarted);
  }

  lemma DeployRowOk(r: Row)
    requires RowOk(r) && r.status == VALIDATING && !InClaimWindow(r)
    ensures RowOk(DeployRow(r))
  {
    RecordOk(r.(status := DEPLOYING), DeploymentStarted);
  }

  lemma FailRowOk(r: Row, name: EventName)
    requires RowOk(r) && Held(r) && !InClaimWindow(r)
    requires name == if r.status == VALIDATING then ApprovalValidationFailed else RuntimeTimeout
    ensures RowOk(FailRow(r, name))
  {
    RecordOk(r.(status := FAILED, error := Some(name), lockedAt := None), name);
  }

  lemma FinishRowOk(r: Row)
    requires RowOk(r) && r.status == DEPLOYING
    ensures RowOk(FinishRow(r))
  {
    if r.simulateFailure {
      FailRowOk(r, RuntimeTimeout);
    } else {
      RecordOk(r.(status := SUCCEEDED, error := None, lockedAt := None), DeploymentCompleted);
    }
  }

  /** The reaper may strike in any held status, the claim window included. */
  lemma ReapRowOk(r: Row)
    requires RowOk(r) && Held(r)
    ensures RowOk(ReapRow(r)) && !Held(ReapRow(r))
    ensures ReapRow(r).status == REQUESTED <==> r.attempts < MAX_ATTEMPTS
  {
    if r.attempts >= MAX_ATTEMPTS {
      RecordOk(r.(status := FAILED, error := Some(WorkerLost)), WorkerLost);
    } else {
      RecordOk(r.(status := REQUESTED, worker := None, lockedAt := None), Requeued);
    }
  }

  lemma RetryRowOk(r: Row)
    requires RowOk(r) && r.status == FAILED
    ensures RowOk(RetryRow(r)) && Retries(RetryRow(r)) == Retries(r) + 1
  {
    RecordOk(r.(status := REQUESTED, error := None, worker := None, lockedAt := None), RetryRequested);
  }

  /** A second rollback of the same row is legal too. */
  lemma RollbackRowOk(r: Row, target: Id)
    requires RowOk(r) && Deployed(r)
    ensures RowOk(RollbackRow(r, target))
  {
    RecordOk(r.(status := ROLLED_BACK, rolledBackTo := Some(target)), RolledBack);
  }

  /** Attempts never exceed the limit by more than the retries a user asked for. */
  lemma AttemptsBounded(r: Row)
    requires RowOk(r)
    ensures r.attempts <= MAX_ATTEMPTS + Retries(r)
    ensures Requeues(r) <= MAX_ATTEMPTS - 1
  {
  }

  /** The executor's commits, run without a crash, add up to ProcessedRow. */
  lemma ProcessedRowIsTheCommits(r: Row, worker: Id, now: nat, deployable: bool)
    ensures var started := StartRow(ClaimRow(r, worker, now));
            (r.status == REQUESTED && r.error.None? ==>
              ProcessedRow(r, worker, deployable) ==
              if deployable then FinishRow(DeployRow(started)) else FailRow(started, ApprovalValidationFailed))
  {
    var started := StartRow(ClaimRow(r, worker, now));
    var base := r.events + [Event(VALIDATING, ValidationStarted)];
    assert started.events == base;
    if deployable {
      var deploying := DeployRow(started);
      assert base + [Event(DEPLOYING, DeploymentStarted)] == deploying.events;
      var e := if r.simulateFailure then Event(FAILED, RuntimeTimeout) else Event(SUCCEEDED, DeploymentCompleted);
      assert base + [Event(DEPLOYING, DeploymentStarted), e] == deploying.events + [e];
    }
  }
}

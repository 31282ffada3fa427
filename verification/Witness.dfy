/** Runs from the empty store that show which situations the code can really get into. */
module Witness {
  import opened Common
  import opened Lifecycle
  import opened DeploymentPolicy
  import opened Deployments
  import opened Tables
  import opened Protocol
  import opened Invariants
  import opened Recovery
  import opened Waiting
  import opened Lease
  import opened Atomicity
  import V = Versions

  lemma ReachableStep(s: State, step: Step)
    requires Reachable(s) && Enabled(s, step)
    ensures Reachable(Apply(s, step))
  {
    hide Enabled, Apply;
    var steps :| Run(INIT, steps) == Some(s);
    RunSnoc(INIT, steps, step);
  }

  lemma RecoveryIsReachable(s: State, t: State, w: Id)
    requires Reachable(s) && Recovers(s, t, w)
    ensures Reachable(t)
  {
    hide Run, IsRun, RecoveryStep;
    var first :| Run(INIT, first) == Some(s);
    var second :| Run(s, second) == Some(t) && forall k :: 0 <= k < |second| ==> RecoveryStep(second[k], w);
    RunsCompose(INIT, s, t, first, second);
  }

  lemma RunIsReachable(s: State, steps: seq<Step>)
    requires Reachable(s) && IsRun(s, steps)
    ensures Reachable(After(s, steps))
  {
    hide Run;
    var first :| Run(INIT, first) == Some(s);
    RunsCompose(INIT, s, After(s, steps), first, steps);
  }

  lemma RunsCompose(r: State, s: State, t: State, first: seq<Step>, second: seq<Step>)
    requires Run(r, first) == Some(s) && Run(s, second) == Some(t)
    ensures Run(r, first + second) == Some(t)
  {
    hide Enabled, Apply;
    RunAppend(r, first, second);
  }

  const DRAFT_VERSION := V.NewVersion(0, "1.0.0", 0)

  const VALIDATED_VERSION := V.RecordVersionEvent(DRAFT_VERSION.(stage := Validated), Some(Draft), Validated, 0)

  /** A model with one validated version, and these deployments of it. */
  ghost function Registered(rows: Table, calls: map<Id, Call>): State {
    State(map[0 := "model"], map[0 := VALIDATED_VERSION], rows, map[], calls, 0)
  }

  function DevRequest(key: Option<string>, simulateFailure: bool): Request {
    Request(0, DevelopmentEnv, key, simulateFailure)
  }

  function DevRow(key: Option<string>, simulateFailure: bool): Row {
    NewRow(0, 0, DevelopmentEnv, key, simulateFailure)
  }

  /** No key, or the empty one: neither is looked up. */
  predicate NoLookup(key: Option<string>) {
    key.Some? ==> key.value == ""
  }

  lemma InitIsReachable()
    ensures Reachable(INIT)
  {
    assert Run(INIT, []) == Some(INIT);
  }

  lemma ValidatedIsReachable()
    ensures Reachable(Registered(map[], map[]))
  {
    hide Reachable;
    InitIsReachable();
    ReachableStep(INIT, ModelProbe(0, "model"));
    var s1 := INIT.(calls := map[0 := Registering("model")]);
    assert Apply(INIT, ModelProbe(0, "model")) == s1;
    ReachableStep(s1, ModelInsert(0, 0));
    var s2 := INIT.(models := map[0 := "model"]);
    assert Apply(s1, ModelInsert(0, 0)) == s2;
    ReachableStep(s2, VersionCheck(0, 0, "1.0.0", 0));
    var s3 := s2.(calls := map[0 := Creating(0, "1.0.0", 0)]);
    assert Apply(s2, VersionCheck(0, 0, "1.0.0", 0)) == s3;
    ReachableStep(s3, VersionInsert(0, 0));
    var s4 := s2.(versions := map[0 := DRAFT_VERSION]);
    assert Apply(s3, VersionInsert(0, 0)) == s4;
    ReachableStep(s4, TransitionVersion(0, Validated, 0));
    assert Apply(s4, TransitionVersion(0, Validated, 0)) == Registered(map[], map[]);
  }

  /** A request for development whose lookup has succeeded. */
  lemma RequestIsReachable(rows: Table, key: Option<string>, simulateFailure: bool)
    requires Reachable(Registered(rows, map[])) && NoLookup(key)
    ensures Reachable(Registered(rows, map[0 := Inserting(DevRequest(key, simulateFailure), 0)]))
  {
    hide Reachable;
    var s := Registered(rows, map[]);
    ReachableStep(s, RequestLookup(0, DevRequest(key, simulateFailure)));
    assert Apply(s, RequestLookup(0, DevRequest(key, simulateFailure))) ==
           Registered(rows, map[0 := Inserting(DevRequest(key, simulateFailure), 0)]);
  }

  /** A queued deployment of it. */
  lemma QueuedIsReachable(key: Option<string>, simulateFailure: bool)
    requires NoLookup(key)
    ensures Reachable(Registered(map[0 := DevRow(key, simulateFailure)], map[]))
  {
    hide Reachable;
    ValidatedIsReachable();
    RequestIsReachable(map[], key, simulateFailure);
    var s := Registered(map[], map[0 := Inserting(DevRequest(key, simulateFailure), 0)]);
    ReachableStep(s, RequestInsert(0, 0));
    assert Apply(s, RequestInsert(0, 0)) == Registered(map[0 := DevRow(key, simulateFailure)], map[]);
  }

  lemma DrainIsReachable(s: State, w: Id)
    requires Reachable(s) && s.workers == map[]
    ensures Reachable(s.(rows := DrainedTable(s.rows, s.versions, w)))
  {
    hide Reachable, Inv, Recovers, DrainedTable;
    ReachableInv(s);
    RecoversRefl(s, w);
    DrainIsARun(s, s, w);
    RecoveryIsReachable(s, s.(rows := DrainedTable(s.rows, s.versions, w)), w);
  }

  /** That deployment, processed by a worker. */
  lemma ProcessedIsReachable(key: Option<string>, simulateFailure: bool) returns (rows: Table)
    requires NoLookup(key)
    ensures Reachable(Registered(rows, map[])) && rows == map[0 := ProcessedRow(DevRow(key, simulateFailure), 7, true)]
    ensures rows[0].status == (if simulateFailure then FAILED else SUCCEEDED)
    ensures SameIdentity(DevRow(key, simulateFailure), rows[0])
  {
    hide Reachable;
    var s := Registered(map[0 := DevRow(key, simulateFailure)], map[]);
    QueuedIsReachable(key, simulateFailure);
    DrainIsReachable(s, 7);
    assert StillDeployable(s.versions, s.rows[0]);
    rows := DrainedTable(s.rows, s.versions, 7);
    hide StillDeployable;
  }

  /** Some reachable state holds a successful deployment. */
  lemma SuccessIsReachable() returns (s: State)
    ensures Reachable(s) && 0 in s.rows && s.rows[0].status == SUCCEEDED
  {
    var rows := ProcessedIsReachable(None, false);
    s := Registered(rows, map[]);
  }

  // ---------- Both guarded commits do meet the index ----------

  /** A second request for the same place passes its lookup, and is refused at its insert by the index. */
  lemma RefusedInsertIsReachable() returns (s: State)
    ensures Reachable(s) && Enabled(s, RequestInsert(0, 1)) && Apply(s, RequestInsert(0, 1)).rows == s.rows
    ensures ActiveClash(s.rows, 1, DevRow(None, false)) && !KeyClash(s.rows, 1, DevRow(None, false))
    ensures s.calls[0] == Inserting(DevRequest(None, false), 0)
  {
    QueuedIsReachable(None, false);
    RequestIsReachable(map[0 := DevRow(None, false)], None, false);
    s := Registered(map[0 := DevRow(None, false)], map[0 := Inserting(DevRequest(None, false), 0)]);
    hide Reachable;
    assert Competes(DevRow(None, false), s.rows[0]);
  }

  /** A failed deployment whose place was taken by a newer request cannot be retried: the index refuses it. */
  lemma RefusedRetryIsReachable() returns (s: State)
    ensures Reachable(s) && 0 in s.rows && s.rows[0].status == FAILED
    ensures RetryDeployment(s.rows, 0) == Err(ConflictError) && Apply(s, Retry(0)) == s
  {
    var rows := ProcessedIsReachable(None, true);
    SecondIsReachable(rows);
    s := Registered(rows[1 := DevRow(None, false)], map[]);
    RetryClashes(s.rows);
    hide Reachable, ProcessedRow, ActiveClash, RetryRow;
  }

  lemma RetryClashes(rows: Table)
    requires rows.Keys == {0, 1} && rows[1] == DevRow(None, false) && SameIdentity(DevRow(None, true), rows[0])
    ensures ActiveClash(rows, 0, RetryRow(rows[0]))
  {
    assert Competes(RetryRow(rows[0]), rows[1]);
  }

  lemma SecondIsReachable(rows: Table)
    requires Reachable(Registered(rows, map[])) && rows.Keys == {0} && !InFlight(rows[0])
    ensures Reachable(Registered(rows[1 := DevRow(None, false)], map[]))
  {
    hide Reachable;
    RequestIsReachable(rows, None, false);
    var asked := Registered(rows, map[0 := Inserting(DevRequest(None, false), 0)]);
    ReachableStep(asked, RequestInsert(0, 1));
    assert Apply(asked, RequestInsert(0, 1)) == Registered(rows[1 := DevRow(None, false)], map[]);
  }

  /**
   * Two requests with the empty key: the first is processed, and the second, which a non-empty key would have answered
   * with the first, passes its lookup and is refused at its insert by the key constraint alone.
   */
  lemma EmptyKeyRefusalIsReachable() returns (s: State)
    ensures Reachable(s) && 0 in s.rows && s.rows[0].key == Some("") && s.rows[0].status == SUCCEEDED
    ensures s.calls == map[0 := Inserting(DevRequest(Some(""), false), 0)]
    ensures KeyClash(s.rows, 1, DevRow(Some(""), false)) && !ActiveClash(s.rows, 1, DevRow(Some(""), false))
    ensures Enabled(s, RequestInsert(0, 1)) && Apply(s, RequestInsert(0, 1)).rows == s.rows
  {
    var rows := ProcessedIsReachable(Some(""), false);
    RequestIsReachable(rows, Some(""), false);
    s := Registered(rows, map[0 := Inserting(DevRequest(Some(""), false), 0)]);
    OnlyKeyClashes(rows);
    hide Reachable, ProcessedRow, KeyClash, ActiveClash;
  }

  lemma OnlyKeyClashes(rows: Table)
    requires rows.Keys == {0} && rows[0].key == Some("") && rows[0].status == SUCCEEDED
    ensures KeyClash(rows, 1, DevRow(Some(""), false)) && !ActiveClash(rows, 1, DevRow(Some(""), false))
  {
    assert SharesKey(DevRow(Some(""), false), rows[0]);
  }

  // ---------- Overtaking ----------

  const STAGED_VERSION :=
    V.RecordVersionEvent(
      V.RecordVersionEvent(VALIDATED_VERSION.(approvedAt := Some(0), approvedBy := Some(0), stage := Staging),
                           Some(Validated), Approved, 0),
      Some(Approved), Staging, 0)

  /** The version's deployments to development and to staging, both queued. */
  const TWO_QUEUED := State(
    map[0 := "model"],
    map[0 := STAGED_VERSION],
    map[0 := DevRow(None, false), 1 := NewRow(0, 0, StagingEnv, None, false)],
    map[], map[], 0)

  lemma TwoQueuedIsReachable()
    ensures Reachable(TWO_QUEUED)
  {
    hide Reachable;
    QueuedIsReachable(None, false);
    var s := Registered(map[0 := DevRow(None, false)], map[]);
    var approved := V.Approve(VALIDATED_VERSION, 0, 0).value;
    ReachableStep(s, ApproveVersion(0, 0));
    assert Apply(s, ApproveVersion(0, 0)) == s.(versions := map[0 := approved]);
    var s1 := s.(versions := map[0 := approved]);
    ReachableStep(s1, TransitionVersion(0, Staging, 0));
    var s2 := s.(versions := map[0 := STAGED_VERSION]);
    assert Apply(s1, TransitionVersion(0, Staging, 0)) == s2;
    StagingRequest(s2);
  }

  lemma StagingRequest(s: State)
    requires Reachable(s) && s == Registered(map[0 := DevRow(None, false)], map[]).(versions := map[0 := STAGED_VERSION])
    ensures Reachable(TWO_QUEUED)
  {
    hide Reachable;
    var q := Request(0, StagingEnv, None, false);
    ReachableStep(s, RequestLookup(0, q));
    var s' := s.(calls := map[0 := Inserting(q, 0)]);
    assert Apply(s, RequestLookup(0, q)) == s';
    ReachableStep(s', RequestInsert(0, 1));
    assert Apply(s', RequestInsert(0, 1)) == TWO_QUEUED;
  }

  /** Some reachable state has a newer deployment in execution while an older one is still queued. */
  lemma OvertakingIsReachable() returns (s: State)
    ensures Reachable(s) && 0 in s.rows && 1 in s.rows
    ensures s.rows[0].status == REQUESTED && s.rows[1].status == VALIDATING
    ensures s.workers == map[7 := Selecting(0), 8 := Claimed(1)]
  {
    hide Reachable, Enabled, Apply;
    TwoQueuedIsReachable();
    assert Claimable(TWO_QUEUED.rows, {}) == {0, 1};
    SkipLockedOvertakes(TWO_QUEUED, 7, 8, 0, 1);
    var steps := [ClaimSelect(7), ClaimSelect(8), ClaimCommit(8)];
    s := After(TWO_QUEUED, steps);
    RunIsReachable(TWO_QUEUED, steps);
  }

  // ---------- Overrunning ----------

  /** A reachable state in which one worker has claimed the only row. */
  lemma ClaimedIsReachable() returns (s: State)
    ensures Reachable(s) && s.rows == map[0 := ClaimRow(DevRow(None, false), 7, 0)] && s.workers == map[7 := Claimed(0)]
  {
    hide Reachable, Recovers, MinId, Locked;
    QueuedIsReachable(None, false);
    var queued := Registered(map[0 := DevRow(None, false)], map[]);
    assert Claimable(queued.rows, Locked(queued)) == {0} by { NobodyLocks(queued); }
    RecoversRefl(queued, 7);
    s := OneClaim(queued, queued, 7, 0);
    RecoveryIsReachable(queued, s, 7);
  }

  /**
   * Without the lease, execution is not exclusive: from a reachable state, letting the clock run past a live worker's
   * timeout and then the reaper and a second worker act leaves two workers executing one deployment.
   */
  lemma DoubleExecution() returns (s: State, t: State)
    ensures Reachable(s) && 7 in s.workers && !LeaseHolds(s, 121)
    ensures Recovers(Apply(s.(clock := 121), Reap), t, 8) && SameRow(t, 7, 8)
  {
    s := ClaimedIsReachable();
    OverrunRow(s, 121, 7);
    OverrunBreaksExclusion(s, 121, 7, 8);
    hide Reachable;
    t :| Recovers(AfterReap(s, 121), t, 8) && SameRow(t, 7, 8);
  }

  // ---------- A late retry ----------

  lemma StepThenRecovers(s: State, step: Step, t: State, w: Id)
    requires Enabled(s, step) && Recovers(Apply(s, step), t, w)
    ensures Reaches(s, t)
  {
    hide Enabled, Apply, RecoveryStep;
    var steps :| Run(Apply(s, step), steps) == Some(t) && forall k :: 0 <= k < |steps| ==> RecoveryStep(steps[k], w);
    assert Run(s, []) == Some(s);
    RunSnoc(s, [], step);
    hide Run;
    RunsCompose(s, Apply(s, step), t, [] + [step], steps);
  }

  /** The only row is claimed, its worker dies, and once the lease has passed the reaper takes the row. */
  lemma LostOnce(s0: State, s: State, id: Id, w: Id)
    requires Recovers(s0, s, w) && s.workers == map[] && s.rows.Keys == {id} && s.rows[id].status == REQUESTED
    ensures Recovers(s0, s.(clock := s.clock + TIMEOUT + 1, rows := map[id := ReapRow(ClaimRow(s.rows[id], w, s.clock))]), w)
  {
    hide Recovers, MinId, Locked;
    var lost := s.(rows := map[id := ClaimRow(s.rows[id], w, s.clock)]);
    assert Claimable(s.rows, Locked(s)) == {id} by {
      assert Locked(s) == {} by { NobodyLocks(s); }
    }
    var t := OneClaim(s0, s, w, id);
    hide Claimable;
    assert t.rows == lost.rows;
    Abandoned(s0, t, w, s.clock + TIMEOUT + 1);
    LostRowReaped(s0, lost.(clock := s.clock + TIMEOUT + 1), id, w);
  }

  lemma NobodyLocks(s: State)
    requires s.workers == map[]
    ensures Locked(s) == {}
  {
  }

  /** The only worker dies and time passes. */
  lemma Abandoned(s0: State, s: State, w: Id, now: nat)
    requires Recovers(s0, s, w) && s.workers.Keys == {w} && s.clock <= now
    ensures Recovers(s0, s.(workers := map[], clock := now), w)
  {
    hide Recovers;
    var dead := s.(workers := map[]);
    assert Apply(s, Crash(w)) == dead;
    RecoversStep(s0, s, Crash(w), w);
    assert Apply(dead, Tick(now)) == dead.(clock := now);
    RecoversStep(s0, dead, Tick(now), w);
  }

  lemma LostRowReaped(s0: State, s: State, id: Id, w: Id)
    requires Recovers(s0, s, w) && s.rows.Keys == {id} && Stuck(s.rows[id], Cutoff(s.clock))
    ensures Recovers(s0, s.(rows := map[id := ReapRow(s.rows[id])]), w)
  {
    hide Recovers, ReapRow, Stuck;
    assert Apply(s, Reap).rows == map[id := ReapRow(s.rows[id])];
    RecoversStep(s0, s, Reap, w);
  }

  /**
   * A retry can read a deployment that failed at run time and commit after somebody else retried it and its workers
   * were lost. The row is FAILED both times, and still the late commit leaves a lock time on a requested row.
   */
  lemma LateRetryBreaksRow() returns (s: State, t: State)
    ensures Reachable(s) && Reaches(s, t) && s.rows.Keys == t.rows.Keys == {0}
    ensures s.rows[0].status == FAILED && t.rows[0].status == FAILED
    ensures RowOk(t.rows[0]) && !RowOk(LateCommit(t.rows[0], s.rows[0], RetryRow(s.rows[0])))
  {
    hide Reachable, Reaches, Inv, RowOk, Recovers;
    var rows := ProcessedIsReachable(None, true);
    s := Registered(rows, map[]);
    t := FailedAgain(s);
    ReachableInv(s);
    RowAfter(s, t, 0);
    LateRetry(t.rows[0], s.rows[0]);
  }

  /** A failed row is retried, and its workers are lost until the attempt limit. */
  lemma FailedAgain(s: State) returns (t: State)
    requires s.rows.Keys == {0} && s.rows[0].status == FAILED && s.rows[0].attempts == 1 && s.workers == map[]
    ensures Reaches(s, t) && t.rows.Keys == {0} && t.rows[0].status == FAILED && t.rows[0].lockedAt.Some?
  {
    hide Recovers, Reaches;
    var failed, c := s.rows[0], s.clock;
    var retried := s.(rows := map[0 := RetryRow(failed)]);
    assert Apply(s, Retry(0)) == retried;
    hide Apply;
    RecoversRefl(retried, 8);
    LostOnce(retried, retried, 0, 8);
    var requeued := ReapRow(ClaimRow(RetryRow(failed), 8, c));
    LostOnce(retried, retried.(clock := c + TIMEOUT + 1, rows := map[0 := requeued]), 0, 8);
    t := retried.(clock := c + 2 * (TIMEOUT + 1), rows := map[0 := ReapRow(ClaimRow(requeued, 8, c + TIMEOUT + 1))]);
    StepThenRecovers(s, Retry(0), t, 8);
  }
}

/** The deployments table as a value: the queries and commits that span rows, and the invariant they keep. */
module Tables {
  import opened Common
  import opened Lifecycle
  import opened DeploymentPolicy
  import opened Deployments
  import V = Versions

  type Table = map<Id, Row>

  type VersionTable = map<Id, V.Version>

  /** The body of a deployment request (schemas/deployment.py). */
  datatype Request = Request(version: Id, environment: Environment, key: Option<string>, simulateFailure: bool)

  /** What the first half of request_deployment decides. */
  datatype Lookup = Replay(id: Id) | Proceed(model: Id) | Refuse(error: DomainError)

  // ---------- Ordered selection ----------

  /** ORDER BY id LIMIT 1. */
  ghost function MinId(ids: set<Id>): (m: Id)
    requires ids != {}
    ensures m in ids && forall i :: i in ids ==> m <= i
    decreases |ids|
  {
    var x :| x in ids;
    if ids - {x} == {} then
      assert ids == {x};
      x
    else
      var m := MinId(ids - {x});
      assert forall i :: i in ids ==> i == x || i in ids - {x};
      if x < m then x else m
  }

  /** ORDER BY id DESC LIMIT 1. */
  ghost function MaxId(ids: set<Id>): (m: Id)
    requires ids != {}
    ensures m in ids && forall i :: i in ids ==> i <= m
    decreases |ids|
  {
    var x :| x in ids;
    if ids - {x} == {} then
      assert ids == {x};
      x
    else
      var m := MaxId(ids - {x});
      assert forall i :: i in ids ==> i == x || i in ids - {x};
      if x > m then x else m
  }

  // ---------- Queries ----------

  /** Rows a claim may select: requested, and not locked by another claimer (SKIP LOCKED). */
  ghost function Claimable(rows: Table, locked: set<Id>): set<Id> {
    set i | i in rows && rows[i].status == REQUESTED && i !in locked
  }

  ghost function StuckIds(rows: Table, cutoff: int): set<Id> {
    set i | i in rows && Stuck(rows[i], cutoff)
  }

  /** Earlier successful deployments of another version in the same model and environment. */
  ghost function RollbackCandidates(rows: Table, id: Id): set<Id>
    requires id in rows
  {
    set i | i in rows && i < id && rows[i].status == SUCCEEDED &&
            rows[i].environment == rows[id].environment && rows[i].model == rows[id].model &&
            rows[i].version != rows[id].version
  }

  ghost function WithKey(rows: Table, key: string): set<Id> {
    set i | i in rows && rows[i].key == Some(key)
  }

  // ---------- The two uniqueness constraints ----------

  /** Two rows the index uq_active_deployment does not admit together. */
  predicate Competes(r: Row, other: Row) {
    InFlight(r) && InFlight(other) && r.model == other.model && r.environment == other.environment
  }

  /** Two rows the unique idempotency_key does not admit together; missing keys never collide. */
  predicate SharesKey(r: Row, other: Row) {
    r.key.Some? && r.key == other.key
  }

  /** Some row other than id keeps r out of the index. */
  ghost predicate ActiveClash(rows: Table, id: Id, r: Row) {
    exists j :: j in rows && j != id && Competes(r, rows[j])
  }

  ghost predicate KeyClash(rows: Table, id: Id, r: Row) {
    exists j :: j in rows && j != id && SharesKey(r, rows[j])
  }

  ghost predicate UniqueActive(rows: Table) {
    forall i, j :: i in rows && j in rows && i != j ==> !Competes(rows[i], rows[j])
  }

  ghost predicate UniqueKeys(rows: Table) {
    forall i, j :: i in rows && j in rows && i != j ==> !SharesKey(rows[i], rows[j])
  }

  // ---------- Commits that need more than one row ----------

  /** The key lookup and the governance gate. An empty key does not count as a key here, though it is stored. */
  ghost function LookupRequest(rows: Table, versions: VersionTable, q: Request): Lookup {
    if q.key.Some? && q.key.value != "" && WithKey(rows, q.key.value) != {} then
      Replay(MinId(WithKey(rows, q.key.value)))
    else if q.version !in versions then Refuse(NotFoundError)
    else if !IsDeployable(versions[q.version].stage, q.environment) then Refuse(ConflictError)
    else Proceed(versions[q.version].model)
  }

  /** The insert, refused by either uniqueness constraint. */
  ghost function InsertRequest(rows: Table, q: Request, model: Id, id: Id): Result<Table> {
    var r := NewRow(model, q.version, q.environment, q.key, q.simulateFailure);
    if ActiveClash(rows, id, r) || KeyClash(rows, id, r) then Err(ConflictError) else Ok(rows[id := r])
  }

  ghost function RetryDeployment(rows: Table, id: Id): Result<Table> {
    if id !in rows then Err(NotFoundError)
    else if rows[id].status != FAILED then Err(ConflictError)
    else if ActiveClash(rows, id, RetryRow(rows[id])) then Err(ConflictError)
    else Ok(rows[id := RetryRow(rows[id])])
  }

  ghost function RollbackTarget(rows: Table, id: Id): Result<Id> {
    if id !in rows then Err(NotFoundError)
    else if rows[id].status != SUCCEEDED then Err(ConflictError)
    else if RollbackCandidates(rows, id) == {} then Err(ConflictError)
    else Ok(MaxId(RollbackCandidates(rows, id)))
  }

  ghost function ReapTable(rows: Table, cutoff: int): Table {
    map i | i in rows :: if Stuck(rows[i], cutoff) then ReapRow(rows[i]) else rows[i]
  }

  /** The worker's re-check of the gate. */
  ghost predicate StillDeployable(versions: VersionTable, r: Row) {
    r.version in versions && IsDeployable(versions[r.version].stage, r.environment)
  }

  /** What draining the queue leaves behind, stated row by row. */
  ghost function DrainedTable(rows: Table, versions: VersionTable, worker: Id): Table {
    map i | i in rows ::
      if rows[i].status == REQUESTED then ProcessedRow(rows[i], worker, StillDeployable(versions, rows[i])) else rows[i]
  }

  // ---------- The table invariant ----------

  ghost predicate RowsOk(rows: Table) {
    forall i :: i in rows ==> RowOk(rows[i])
  }

  /** A rollback points at an earlier deployed row of another version, same model and environment. */
  ghost predicate PointsBack(rows: Table, id: Id, target: Id)
    requires id in rows
  {
    && target in rows && target < id && Deployed(rows[target])
    && rows[target].model == rows[id].model && rows[target].environment == rows[id].environment
    && rows[target].version != rows[id].version
  }

  ghost predicate RollbackLinked(rows: Table, id: Id)
    requires id in rows
  {
    rows[id].status == ROLLED_BACK ==>
      rows[id].rolledBackTo.Some? && PointsBack(rows, id, rows[id].rolledBackTo.value)
  }

  ghost predicate RollbacksOk(rows: Table) {
    forall i {:trigger RollbackLinked(rows, i)} :: i in rows ==> RollbackLinked(rows, i)
  }

  /** The row's version exists, belongs to its model, and was eligible for its environment at some time. */
  ghost predicate RowGoverned(versions: VersionTable, r: Row) {
    && r.version in versions
    && versions[r.version].model == r.model
    && EverDeployable(versions, r.version, r.environment)
    && ((exists k :: 0 <= k < |r.events| && r.events[k].name == ApprovalValidationFailed) ==>
        Retired(versions, r.version))
  }

  ghost predicate EverDeployable(versions: VersionTable, version: Id, environment: Environment)
    requires version in versions
  {
    V.EverDeployable(versions[version], environment)
  }

  ghost predicate Retired(versions: VersionTable, version: Id)
    requires version in versions
  {
    versions[version].stage.Archived?
  }

  ghost predicate Governed(rows: Table, versions: VersionTable) {
    forall i :: i in rows ==> RowGoverned(versions, rows[i])
  }

  ghost predicate VersionsOk(versions: VersionTable) {
    forall v :: v in versions ==> V.VersionOk(versions[v])
  }

  ghost predicate TableOk(rows: Table, versions: VersionTable) {
    RowsOk(rows) && Governed(rows, versions) && ShapeOk(rows)
  }

  // ---------- How tables change ----------

  ghost predicate RowEvolves(r: Row, r': Row) {
    SameIdentity(r, r') && r.events <= r'.events && r.attempts <= r'.attempts && (Deployed(r) ==> Deployed(r'))
  }

  /** Rows are never deleted, keep their identity, only append to their history, and stay deployed once deployed. */
  ghost predicate Evolves(rows: Table, rows': Table) {
    forall i :: i in rows ==> i in rows' && RowEvolves(rows[i], rows'[i])
  }

  ghost predicate VersionsGrow(versions: VersionTable, versions': VersionTable) {
    forall v :: v in versions ==> v in versions' && V.Grows(versions[v], versions'[v])
  }

  lemma RowGovernedGrows(versions: VersionTable, versions': VersionTable, r: Row)
    requires VersionsGrow(versions, versions') && RowGoverned(versions, r)
    ensures RowGoverned(versions', r)
  {
    V.EverDeployableGrows(versions[r.version], versions'[r.version], r.environment);
  }

  lemma GovernedGrows(rows: Table, versions: VersionTable, versions': VersionTable)
    requires VersionsGrow(versions, versions') && Governed(rows, versions)
    ensures Governed(rows, versions')
  {
    forall i | i in rows ensures RowGoverned(versions', rows[i]) {
      RowGovernedGrows(versions, versions', rows[i]);
    }
  }

  /** Updates that never move a row into flight keep both uniqueness constraints. */
  lemma ConstraintsKept(rows: Table, rows': Table)
    requires UniqueActive(rows) && UniqueKeys(rows) && rows'.Keys == rows.Keys
    requires forall i :: i in rows ==> SameIdentity(rows[i], rows'[i])
    requires forall i :: i in rows && InFlight(rows'[i]) ==> InFlight(rows[i])
    ensures UniqueActive(rows') && UniqueKeys(rows')
  {
    forall i, j | i in rows' && j in rows' && i != j ensures !Competes(rows'[i], rows'[j]) {
      assert !Competes(rows[i], rows[j]);
    }
    forall i, j | i in rows' && j in rows' && i != j ensures !SharesKey(rows'[i], rows'[j]) {
      assert !SharesKey(rows[i], rows[j]);
    }
  }

  /** A commit that passed both constraint checks keeps them. */
  lemma ConstraintsChecked(rows: Table, id: Id, r: Row)
    requires UniqueActive(rows) && UniqueKeys(rows)
    requires !ActiveClash(rows, id, r) && !KeyClash(rows, id, r)
    ensures UniqueActive(rows[id := r]) && UniqueKeys(rows[id := r])
  {
    var rows' := rows[id := r];
    forall i, j | i in rows' && j in rows' && i != j ensures !Competes(rows'[i], rows'[j]) && !SharesKey(rows'[i], rows'[j]) {
      if i == id {
        assert !Competes(r, rows[j]) && !SharesKey(r, rows[j]);
      } else if j == id {
        assert !Competes(r, rows[i]) && !SharesKey(r, rows[i]);
      }
    }
  }

  lemma OwnRowIgnored(rows: Table, id: Id, r: Row)
    ensures ActiveClash(rows[id := r], id, r) == ActiveClash(rows, id, r)
  {
    var rows' := rows[id := r];
    forall j | j != id ensures (j in rows' && Competes(r, rows'[j])) <==> (j in rows && Competes(r, rows[j])) {
    }
  }

  /** A rewrite keeps its key, so only the index needs to admit it. */
  lemma RewriteChecked(rows: Table, id: Id, r: Row)
    requires UniqueActive(rows) && UniqueKeys(rows) && id in rows && rows[id].key == r.key
    requires !ActiveClash(rows, id, r)
    ensures UniqueActive(rows[id := r]) && UniqueKeys(rows[id := r])
  {
    forall j | j in rows && j != id ensures !SharesKey(r, rows[j]) {
      assert !SharesKey(rows[id], rows[j]);
    }
    ConstraintsChecked(rows, id, r);
  }

  lemma RowsWritten(rows: Table, id: Id, r: Row)
    requires RowsOk(rows) && RowOk(r)
    ensures RowsOk(rows[id := r])
  {
  }

  lemma GovernedWritten(rows: Table, versions: VersionTable, id: Id, r: Row)
    requires Governed(rows, versions) && RowGoverned(versions, r)
    ensures Governed(rows[id := r], versions)
  {
  }

  lemma EvolvesWritten(rows: Table, id: Id, r: Row)
    requires id in rows ==> RowEvolves(rows[id], r)
    ensures Evolves(rows, rows[id := r])
  {
  }

  ghost predicate ShapeOk(rows: Table) {
    UniqueActive(rows) && UniqueKeys(rows) && RollbacksOk(rows)
  }

  lemma ShapeWritten(rows: Table, id: Id, r: Row)
    requires ShapeOk(rows) && id in rows && RowEvolves(rows[id], r)
    requires InFlight(r) ==> InFlight(rows[id]) || !ActiveClash(rows, id, r)
    requires r.status == ROLLED_BACK ==> r.rolledBackTo.Some? && PointsBack(rows, id, r.rolledBackTo.value)
    ensures ShapeOk(rows[id := r])
  {
    if InFlight(r) && !InFlight(rows[id]) {
      RewriteChecked(rows, id, r);
    } else {
      ConstraintsKept(rows, rows[id := r]);
    }
    EvolvesWritten(rows, id, r);
    RollbacksKept(rows, rows[id := r], id);
  }

  /** A rewrite of one row that does not newly occupy the index keeps the table invariant. */
  lemma WriteOk(rows: Table, versions: VersionTable, id: Id, r: Row)
    requires TableOk(rows, versions) && id in rows
    requires RowOk(r) && RowEvolves(rows[id], r) && RowGoverned(versions, r)
    requires InFlight(r) ==> InFlight(rows[id]) || !ActiveClash(rows, id, r)
    requires r.status == ROLLED_BACK ==> r.rolledBackTo.Some? && PointsBack(rows, id, r.rolledBackTo.value)
    ensures TableOk(rows[id := r], versions) && Evolves(rows, rows[id := r])
  {
    RowsWritten(rows, id, r);
    GovernedWritten(rows, versions, id, r);
    EvolvesWritten(rows, id, r);
    ShapeWritten(rows, id, r);
  }

  /** Old rollback pointers survive any evolution of the table. */
  lemma RollbacksKept(rows: Table, rows': Table, id: Id)
    requires RollbacksOk(rows) && Evolves(rows, rows') && rows'.Keys == rows.Keys + {id}
    requires forall i :: i in rows && i != id && rows'[i].status == ROLLED_BACK ==> rows'[i] == rows[i]
    requires id in rows' && rows'[id].status == ROLLED_BACK ==>
               id in rows && rows'[id].rolledBackTo.Some? && PointsBack(rows, id, rows'[id].rolledBackTo.value)
    ensures RollbacksOk(rows')
  {
    forall i | i in rows' ensures RollbackLinked(rows', i) {
      if rows'[i].status == ROLLED_BACK {
        assert i != id ==> RollbackLinked(rows, i);
        var t := rows'[i].rolledBackTo.value;
        assert PointsBack(rows, i, t);
        assert RowEvolves(rows[t], rows'[t]) && RowEvolves(rows[i], rows'[i]);
      }
    }
  }

  /** An insert that neither constraint refuses keeps the table invariant. */
  lemma InsertOk(rows: Table, versions: VersionTable, q: Request, model: Id, id: Id)
    requires TableOk(rows, versions) && id !in rows
    requires q.version in versions && versions[q.version].model == model
    requires V.EverDeployable(versions[q.version], q.environment)
    requires InsertRequest(rows, q, model, id).Ok?
    ensures TableOk(InsertRequest(rows, q, model, id).value, versions)
    ensures Evolves(rows, InsertRequest(rows, q, model, id).value)
  {
    var r := NewRow(model, q.version, q.environment, q.key, q.simulateFailure);
    NewRowOk(model, q.version, q.environment, q.key, q.simulateFailure);
    assert r.events == [Event(REQUESTED, Requested)];
    RowsWritten(rows, id, r);
    GovernedWritten(rows, versions, id, r);
    EvolvesWritten(rows, id, r);
    ShapeInserted(rows, id, r);
  }

  lemma ShapeInserted(rows: Table, id: Id, r: Row)
    requires ShapeOk(rows) && id !in rows && r.status == REQUESTED
    requires !ActiveClash(rows, id, r) && !KeyClash(rows, id, r)
    ensures ShapeOk(rows[id := r])
  {
    EvolvesWritten(rows, id, r);
    ConstraintsChecked(rows, id, r);
    RollbacksKept(rows, rows[id := r], id);
  }

  /** Claiming never touches the index: a requested row already occupies it. */
  lemma ClaimOk(rows: Table, versions: VersionTable, id: Id, worker: Id, now: nat)
    requires TableOk(rows, versions) && id in rows && rows[id].status == REQUESTED
    ensures TableOk(rows[id := ClaimRow(rows[id], worker, now)], versions)
    ensures Evolves(rows, rows[id := ClaimRow(rows[id], worker, now)])
  {
    ClaimRowOk(rows[id], worker, now);
    WriteOk(rows, versions, id, ClaimRow(rows[id], worker, now));
  }

  /** A new event other than a gate failure leaves the governance of a row as it was. */
  lemma GovernedByRecord(versions: VersionTable, r: Row, r': Row, e: Event)
    requires RowGoverned(versions, r) && SameIdentity(r, r') && r'.events == r.events + [e]
    requires e.name == ApprovalValidationFailed ==> Retired(versions, r.version)
    ensures RowGoverned(versions, r')
  {
    if !Retired(versions, r.version) {
      forall k | 0 <= k < |r'.events| ensures r'.events[k].name != ApprovalValidationFailed {
        if k < |r.events| {
          assert r'.events[k] == r.events[k];
        }
      }
    }
  }

  lemma StartOk(rows: Table, versions: VersionTable, id: Id)
    requires TableOk(rows, versions) && id in rows && InClaimWindow(rows[id])
    ensures TableOk(rows[id := StartRow(rows[id])], versions) && Evolves(rows, rows[id := StartRow(rows[id])])
  {
    StartRowOk(rows[id]);
    GovernedByRecord(versions, rows[id], StartRow(rows[id]), Event(VALIDATING, ValidationStarted));
    WriteOk(rows, versions, id, StartRow(rows[id]));
  }

  lemma DeployOk(rows: Table, versions: VersionTable, id: Id)
    requires TableOk(rows, versions) && id in rows && rows[id].status == VALIDATING && !InClaimWindow(rows[id])
    ensures TableOk(rows[id := DeployRow(rows[id])], versions) && Evolves(rows, rows[id := DeployRow(rows[id])])
  {
    DeployRowOk(rows[id]);
    GovernedByRecord(versions, rows[id], DeployRow(rows[id]), Event(DEPLOYING, DeploymentStarted));
    WriteOk(rows, versions, id, DeployRow(rows[id]));
  }

  lemma GateFailOk(rows: Table, versions: VersionTable, id: Id)
    requires TableOk(rows, versions) && id in rows && rows[id].status == VALIDATING && !InClaimWindow(rows[id])
    requires versions[rows[id].version].stage.Archived?
    ensures TableOk(rows[id := FailRow(rows[id], ApprovalValidationFailed)], versions)
    ensures Evolves(rows, rows[id := FailRow(rows[id], ApprovalValidationFailed)])
  {
    FailRowOk(rows[id], ApprovalValidationFailed);
    GovernedByRecord(versions, rows[id], FailRow(rows[id], ApprovalValidationFailed), Event(FAILED, ApprovalValidationFailed));
    WriteOk(rows, versions, id, FailRow(rows[id], ApprovalValidationFailed));
  }

  lemma FinishOk(rows: Table, versions: VersionTable, id: Id)
    requires TableOk(rows, versions) && id in rows && rows[id].status == DEPLOYING
    ensures TableOk(rows[id := FinishRow(rows[id])], versions) && Evolves(rows, rows[id := FinishRow(rows[id])])
  {
    var r := FinishRow(rows[id]);
    FinishRowOk(rows[id]);
    GovernedByRecord(versions, rows[id], r, LastEvent(r));
    WriteOk(rows, versions, id, r);
  }

  /** Retry is one of the two commits that need the index. */
  lemma RetryOk(rows: Table, versions: VersionTable, id: Id)
    requires TableOk(rows, versions) && RetryDeployment(rows, id).Ok?
    ensures TableOk(RetryDeployment(rows, id).value, versions) && Evolves(rows, RetryDeployment(rows, id).value)
  {
    RetryRowOk(rows[id]);
    GovernedByRecord(versions, rows[id], RetryRow(rows[id]), Event(REQUESTED, RetryRequested));
    WriteOk(rows, versions, id, RetryRow(rows[id]));
  }

  /** A rollback may commit on a target that was itself rolled back meanwhile. */
  lemma RollbackOk(rows: Table, versions: VersionTable, id: Id, target: Id)
    requires TableOk(rows, versions) && id in rows && Deployed(rows[id]) && PointsBack(rows, id, target)
    ensures TableOk(rows[id := RollbackRow(rows[id], target)], versions)
    ensures Evolves(rows, rows[id := RollbackRow(rows[id], target)])
  {
    RollbackRowOk(rows[id], target);
    GovernedByRecord(versions, rows[id], RollbackRow(rows[id], target), Event(ROLLED_BACK, RolledBack));
    WriteOk(rows, versions, id, RollbackRow(rows[id], target));
  }

  lemma ReapedRow(rows: Table, versions: VersionTable, id: Id, cutoff: int)
    requires TableOk(rows, versions) && id in rows
    ensures var r := ReapTable(rows, cutoff)[id];
            RowOk(r) && RowEvolves(rows[id], r) && RowGoverned(versions, r) && (InFlight(r) ==> InFlight(rows[id])) &&
            (r.status == ROLLED_BACK ==> r == rows[id])
  {
    if Stuck(rows[id], cutoff) {
      ReapRowOk(rows[id]);
      GovernedByRecord(versions, rows[id], ReapRow(rows[id]), LastEvent(ReapRow(rows[id])));
    }
  }

  /** The whole reap batch keeps the invariant, the index included, unaided. */
  lemma ReapOk(rows: Table, versions: VersionTable, cutoff: int)
    requires TableOk(rows, versions)
    ensures TableOk(ReapTable(rows, cutoff), versions) && Evolves(rows, ReapTable(rows, cutoff))
  {
    var rows' := ReapTable(rows, cutoff);
    forall i | i in rows ensures RowOk(rows'[i]) && RowGoverned(versions, rows'[i]) {
      ReapedRow(rows, versions, i, cutoff);
    }
    ShapeReaped(rows, versions, cutoff);
  }

  lemma ShapeReaped(rows: Table, versions: VersionTable, cutoff: int)
    requires TableOk(rows, versions)
    ensures ShapeOk(ReapTable(rows, cutoff)) && Evolves(rows, ReapTable(rows, cutoff))
  {
    hide RowOk, RowGoverned, Stuck, ReapRow;
    var rows' := ReapTable(rows, cutoff);
    forall i | i in rows
      ensures RowEvolves(rows[i], rows'[i]) && (InFlight(rows'[i]) ==> InFlight(rows[i]))
      ensures rows'[i].status == ROLLED_BACK ==> rows'[i] == rows[i]
    {
      ReapedRow(rows, versions, i, cutoff);
    }
    ConstraintsKept(rows, rows');
    if id :| id in rows {
      assert RollbackLinked(rows, id);
      RollbacksKept(rows, rows', id);
    }
  }

  /**
   * What a request stores: the row asked for, queued and never claimed. It is refused exactly if another row is in flight
   * for that model and environment, or carries the same key.
   */
  lemma InsertStoresRequest(rows: Table, q: Request, model: Id, id: Id)
    requires id !in rows
    ensures InsertRequest(rows, q, model, id).Ok? ==>
              var rows' := InsertRequest(rows, q, model, id).value;
              && rows'.Keys == rows.Keys + {id} && (forall j :: j in rows ==> rows'[j] == rows[j])
              && rows'[id].model == model && rows'[id].version == q.version && rows'[id].environment == q.environment
              && rows'[id].key == q.key && rows'[id].simulateFailure == q.simulateFailure
              && rows'[id].status == REQUESTED && rows'[id].attempts == 0
              && rows'[id].events == [Event(REQUESTED, Requested)]
    ensures InsertRequest(rows, q, model, id).Err? <==>
              exists j :: j in rows &&
                ((rows[j].status in {REQUESTED, VALIDATING, DEPLOYING} &&
                  rows[j].model == model && rows[j].environment == q.environment) ||
                 (q.key.Some? && rows[j].key == q.key))
    ensures InsertRequest(rows, q, model, id).Err? ==> InsertRequest(rows, q, model, id).error == ConflictError
  {
    var r := NewRow(model, q.version, q.environment, q.key, q.simulateFailure);
    assert r.events == [Event(REQUESTED, Requested)];
    assert forall j :: j in rows ==>
             (Competes(r, rows[j]) <==>
                rows[j].status in {REQUESTED, VALIDATING, DEPLOYING} &&
                rows[j].model == model && rows[j].environment == q.environment);
    assert forall j :: j in rows ==> (SharesKey(r, rows[j]) <==> q.key.Some? && rows[j].key == q.key);
  }

  /** No other row in flight has the row's model and environment. */
  ghost predicate PlaceFree(rows: Table, id: Id)
    requires id in rows
  {
    forall j :: j in rows && j != id && rows[j].status in {REQUESTED, VALIDATING, DEPLOYING} ==>
                rows[j].model != rows[id].model || rows[j].environment != rows[id].environment
  }

  /** A retry succeeds exactly for a FAILED row whose place no other row in flight has taken, however it failed before. */
  lemma RetrySucceedsIff(rows: Table, id: Id)
    ensures RetryDeployment(rows, id).Ok? <==>
            id in rows && rows[id].status == FAILED && PlaceFree(rows, id)
    ensures RetryDeployment(rows, id).Err? ==>
              RetryDeployment(rows, id).error == if id in rows then ConflictError else NotFoundError
    ensures RetryDeployment(rows, id).Ok? ==>
              var rows' := RetryDeployment(rows, id).value;
              && rows'.Keys == rows.Keys && (forall j :: j in rows && j != id ==> rows'[j] == rows[j])
              && rows'[id].status == REQUESTED && rows'[id].attempts == rows[id].attempts
              && rows'[id].worker == None && rows'[id].lockedAt == None && rows'[id].error == None
  {
    if id in rows {
      assert forall j :: j in rows ==>
               (Competes(RetryRow(rows[id]), rows[j]) <==>
                  rows[j].status in {REQUESTED, VALIDATING, DEPLOYING} &&
                  rows[j].model == rows[id].model && rows[j].environment == rows[id].environment);
    }
  }

  /** The stages from which an environment takes deployments. */
  predicate TakesStage(environment: Environment, stage: Stage) {
    match environment
    case DevelopmentEnv => stage in {Validated, Approved, Staging, Production}
    case StagingEnv => stage in {Staging, Production}
    case ProductionEnv => stage == Production
  }

  /** A non-empty key that names a row is answered with it; otherwise the version decides: unknown, not eligible, or admitted. */
  lemma LookupExact(rows: Table, versions: VersionTable, q: Request)
    requires UniqueKeys(rows)
    ensures forall id :: LookupRequest(rows, versions, q) == Replay(id) <==>
                         id in rows && q.key.Some? && q.key.value != "" && rows[id].key == q.key
    ensures LookupRequest(rows, versions, q).Replay? || LookupRequest(rows, versions, q) ==
            if q.version !in versions then Refuse(NotFoundError)
            else if !TakesStage(q.environment, versions[q.version].stage) then Refuse(ConflictError)
            else Proceed(versions[q.version].model)
  {
    if q.key.Some? && q.key.value != "" {
      var found := WithKey(rows, q.key.value);
      forall id | id in found ensures found == {id} && MinId(found) == id {
        KeyIdentifies(rows, id, q.key.value);
      }
      assert forall id :: id in rows && rows[id].key == q.key <==> id in found;
    }
  }

  /** The worker's re-check, for any row: its version is still there, in a stage its environment takes. */
  lemma GateExact(versions: VersionTable, r: Row)
    ensures StillDeployable(versions, r) <==> r.version in versions && TakesStage(r.environment, versions[r.version].stage)
  {
    assert r.environment.DevelopmentEnv? || r.environment.StagingEnv? || r.environment.ProductionEnv?;
  }

  /** Why a rollback is refused. */
  lemma RollbackRefusal(rows: Table, id: Id)
    ensures RollbackTarget(rows, id).Err? <==> id !in rows || rows[id].status != SUCCEEDED || RollbackCandidates(rows, id) == {}
    ensures RollbackTarget(rows, id).Err? ==>
              RollbackTarget(rows, id).error == if id in rows then ConflictError else NotFoundError
  {
  }

  /** A successful lookup may insert: its version exists and was eligible when it was read. */
  lemma LookupProceeds(rows: Table, versions: VersionTable, q: Request)
    requires VersionsOk(versions)
    ensures LookupRequest(rows, versions, q).Proceed? ==>
              q.version in versions && versions[q.version].model == LookupRequest(rows, versions, q).model &&
              V.EverDeployable(versions[q.version], q.environment)
  {
    if LookupRequest(rows, versions, q).Proceed? {
      V.OnceDeployable(versions[q.version], q.environment);
    }
  }

  /** A rollback's target is the latest earlier success of another version, and a legal one to point at. */
  lemma TargetPointsBack(rows: Table, id: Id)
    requires RollbackTarget(rows, id).Ok?
    ensures var t := RollbackTarget(rows, id).value;
            PointsBack(rows, id, t) && rows[t].status == SUCCEEDED &&
            forall j :: j in rows && t < j < id && rows[j].status == SUCCEEDED &&
                        rows[j].model == rows[id].model && rows[j].environment == rows[id].environment
                        ==> rows[j].version == rows[id].version
  {
    var c := RollbackCandidates(rows, id);
    assert MaxId(c) in c;
    forall j | j in rows && MaxId(c) < j < id && rows[j].status == SUCCEEDED &&
               rows[j].model == rows[id].model && rows[j].environment == rows[id].environment
      ensures rows[j].version == rows[id].version
    {
      assert j !in c;
    }
  }

  /** With the key constraint in force, a key identifies at most one row. */
  lemma KeyIdentifies(rows: Table, id: Id, key: string)
    requires UniqueKeys(rows) && id in rows && rows[id].key == Some(key)
    ensures WithKey(rows, key) == {id}
  {
    forall j | j in WithKey(rows, key) ensures j == id {
      assert !SharesKey(rows[id], rows[j]) || j == id;
    }
  }

  /** In a table that satisfies the invariant, the re-check fails exactly for retired versions. */
  lemma GateFailsOnlyRetired(rows: Table, versions: VersionTable, id: Id)
    requires VersionsOk(versions) && Governed(rows, versions) && id in rows
    ensures StillDeployable(versions, rows[id]) <==> !versions[rows[id].version].stage.Archived?
  {
    assert RowGoverned(versions, rows[id]);
    V.OnceDeployable(versions[rows[id].version], rows[id].environment);
  }

  lemma EvolvesTransitive(a: Table, b: Table, c: Table)
    requires Evolves(a, b) && Evolves(b, c)
    ensures Evolves(a, c)
  {
    forall i | i in a ensures i in c && RowEvolves(a[i], c[i]) {
      assert RowEvolves(a[i], b[i]) && RowEvolves(b[i], c[i]);
    }
  }
}

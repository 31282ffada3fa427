/** The deployment service (services/deployment_service.py): request, retry, roll back. */
module DeploymentService {
  import opened Common
  import opened DeploymentPolicy
  import opened Store
  import D = Deployments
  import T = Tables

  /** The idempotency lookup; the key constraint makes the answer unique. */
  method FindByKey(db: Database, key: string) returns (d: Deployment?)
    requires db.Valid()
    ensures d == null <==> T.WithKey(db.Rows(), key) == {}
    ensures d != null ==> d.id in db.deployments && db.deployments[d.id] == d && T.WithKey(db.Rows(), key) == {d.id}
  {
    if id :| id in db.deployments && db.deployments[id].key == Some(key) {
      assert db.Rows()[id].key == Some(key);
      T.KeyIdentifies(db.Rows(), id, key);
      d := db.deployments[id];
    } else {
      d := null;
    }
  }

  /** The governance gate. */
  function AssertDeployable(version: ModelVersion, environment: Environment): (r: Option<DomainError>)
    reads version
    ensures r.None? <==> IsDeployable(version.stage, environment)
  {
    if IsDeployable(version.stage, environment) then None else Some(ConflictError)
  }

  /** The part of a request up to the insert: answered by a replay, refused, or admitted. */
  method LookUp(db: Database, data: T.Request) returns (found: T.Lookup)
    requires db.Valid() && db.VersionsKeyed()
    ensures found == T.LookupRequest(db.Rows(), db.VersionRows(), data)
  {
    if data.key.Some? && data.key.value != "" {
      var existing := FindByKey(db, data.key.value);
      if existing != null {
        return T.Replay(existing.id);
      }
    }
    if data.version !in db.versions {
      return T.Refuse(NotFoundError);
    }
    var version := db.versions[data.version];
    var refused := AssertDeployable(version, data.environment);
    if refused.Some? {
      return T.Refuse(refused.value);
    }
    found := T.Proceed(version.model);
  }

  /**
   * Build the row and flush it; if a uniqueness constraint objects, the session is rolled back and nothing is added.
   * The fresh id comes from the id generator.
   */
  method Insert(db: Database, data: T.Request, model: Id, id: Id) returns (r: Result<Deployment>)
    requires db.Valid() && id !in db.deployments
    modifies db`deployments, db`commits
    ensures db.Valid()
    ensures r.Err? <==> T.InsertRequest(old(db.Rows()), data, model, id).Err?
    ensures r.Err? ==> r.error == ConflictError && db.deployments == old(db.deployments) && db.commits == old(db.commits)
    ensures r.Ok? ==>
              && T.InsertRequest(old(db.Rows()), data, model, id) == Ok(db.Rows())
              && fresh(r.value) && db.deployments == old(db.deployments)[id := r.value]
              && db.commits == old(db.commits) + [db.Rows()]
              && Stores(r.value, data, model)
  {
    hide T.ActiveClash, T.KeyClash, Database.Valid, D.NewRow;
    var d := NewDeployment(id, model, data);
    if db.ActiveClash(d) || db.KeyClash(d) {
      return Err(ConflictError);
    }
    db.deployments := db.deployments[id := d];
    db.Commit();
    db.RowAdded(d);
    r := Ok(d);
  }

  method NewDeployment(id: Id, model: Id, data: T.Request) returns (d: Deployment)
    ensures fresh(d) && d.id == id
    ensures d.Value() == D.NewRow(model, data.version, data.environment, data.key, data.simulateFailure)
    ensures Stores(d, data, model)
  {
    d := new Deployment(id, model, data.version, data.environment, data.key, data.simulateFailure);
    d.RecordEvent(D.Requested);
  }

  /** The object is a queued deployment of exactly what was asked for. */
  predicate Stores(d: Deployment, data: T.Request, model: Id)
    reads d
  {
    && d.model == model && d.version == data.version && d.environment == data.environment
    && d.key == data.key && d.simulateFailure == data.simulateFailure
    && d.status == D.REQUESTED && d.attempts == 0 && d.worker == None && d.lockedAt == None
    && d.error == None && d.rolledBackTo == None && d.events == [D.Event(D.REQUESTED, D.Requested)]
  }

  /** Request a deployment: replay a known key, refuse, or insert. The flag tells whether a row was created. */
  method RequestDeployment(db: Database, data: T.Request, id: Id) returns (r: Result<(Deployment, bool)>)
    requires db.Valid() && db.VersionsKeyed() && id !in db.deployments
    modifies db`deployments, db`commits
    ensures db.Valid()
    ensures match T.LookupRequest(old(db.Rows()), old(db.VersionRows()), data)
            case Replay(i) =>
              i in db.deployments && r == Ok((db.deployments[i], false)) &&
              db.deployments == old(db.deployments) && db.commits == old(db.commits)
            case Refuse(e) => r == Err(e) && db.deployments == old(db.deployments) && db.commits == old(db.commits)
            case Proceed(m) =>
              match T.InsertRequest(old(db.Rows()), data, m, id)
              case Err(e) => r == Err(e) && db.deployments == old(db.deployments) && db.commits == old(db.commits)
              case Ok(rows) =>
                id in db.deployments && r == Ok((db.deployments[id], true)) && db.Rows() == rows &&
                db.commits == old(db.commits) + [rows] && Stores(r.value.0, data, m)
  {
    hide Database.Valid, T.LookupRequest, T.InsertRequest;
    var found := LookUp(db, data);
    match found
    case Replay(i) =>
      ReplayExists(db.Rows(), db.VersionRows(), data);
      r := Ok((db.deployments[i], false));
    case Refuse(e) =>
      r := Err(e);
    case Proceed(m) =>
      InsertError(db.Rows(), data, m, id);
      var inserted := Insert(db, data, m, id);
      match inserted
      case Err(e) => r := Err(e);
      case Ok(d) => r := Ok((d, true));
  }

  lemma ReplayExists(rows: T.Table, versions: T.VersionTable, data: T.Request)
    ensures var found := T.LookupRequest(rows, versions, data);
            found.Replay? ==> found.id in rows && data.key.Some? && rows[found.id].key == data.key
  {
    var found := T.LookupRequest(rows, versions, data);
    if found.Replay? {
      assert found.id in T.WithKey(rows, data.key.value);
    }
  }

  lemma InsertError(rows: T.Table, data: T.Request, model: Id, id: Id)
    ensures T.InsertRequest(rows, data, model, id).Err? ==> T.InsertRequest(rows, data, model, id).error == ConflictError
  {
  }

  /** The assignments of a retry. */
  method Requeue(d: Deployment)
    modifies d
    ensures d.Value() == D.RetryRow(old(d.Value()))
    ensures d.status == D.REQUESTED && d.error == None && d.worker == None && d.lockedAt == None
    ensures d.attempts == old(d.attempts) && d.events == old(d.events) + [D.Event(D.REQUESTED, D.RetryRequested)]
  {
    d.status := D.REQUESTED;
    d.error := None;
    d.worker := None;
    d.lockedAt := None;
    d.RecordEvent(D.RetryRequested);
  }

  /** Re-queue a FAILED deployment; if the commit meets the index, every assignment is rolled back. */
  method RetryDeployment(db: Database, id: Id) returns (r: Result<Deployment>)
    requires db.Valid()
    modifies db`commits, db.deployments.Values
    ensures db.Valid()
    ensures match T.RetryDeployment(old(db.Rows()), id)
            case Err(e) => r == Err(e) && db.Rows() == old(db.Rows()) && db.commits == old(db.commits)
            case Ok(rows) =>
              id in db.deployments && r == Ok(db.deployments[id]) && db.Rows() == rows && db.commits == old(db.commits) + [rows]
    ensures r.Ok? <==>
            id in old(db.Rows()) && old(db.Rows())[id].status == D.FAILED && T.PlaceFree(old(db.Rows()), id)
    ensures r.Err? ==> r.error == if id in db.deployments then ConflictError else NotFoundError
    ensures r.Ok? ==>
              && r.value.status == D.REQUESTED && r.value.error == None && r.value.worker == None && r.value.lockedAt == None
              && r.value.attempts == old(r.value.attempts)
  {
    T.RetrySucceedsIff(db.Rows(), id);
    if id !in db.deployments {
      return Err(NotFoundError);
    }
    var d := db.deployments[id];
    assert d.Value() == db.Rows()[id];
    if d.status != D.FAILED {
      return Err(ConflictError);
    }
    r := RetryFailed(db, d);
  }

  method RetryFailed(db: Database, d: Deployment) returns (r: Result<Deployment>)
    requires db.Valid() && d.id in db.deployments && db.deployments[d.id] == d && d.status == D.FAILED
    modifies db`commits, d
    ensures db.Valid() && d.id in old(db.Rows())
    ensures r == if T.ActiveClash(old(db.Rows()), d.id, D.RetryRow(old(db.Rows())[d.id])) then Err(ConflictError) else Ok(d)
    ensures r.Err? ==> db.Rows() == old(db.Rows()) && db.commits == old(db.commits)
    ensures r.Ok? ==> db.Rows() == old(db.Rows())[d.id := D.RetryRow(old(db.Rows())[d.id])] &&
                      db.commits == old(db.commits) + [db.Rows()]
  {
    hide T.ActiveClash, Database.Constrained, D.RetryRow;
    var committed := d.Value();
    assert committed == db.Rows()[d.id];
    Requeue(d);
    db.CheckedWriteKeepsValid(d);
    if db.ActiveClash(d) {
      d.Refresh(committed);
      db.RestoredRow(d);
      return Err(ConflictError);
    }
    db.Commit();
    db.CheckedWriteKeepsValid(d);
    r := Ok(d);
  }

  /** The assignments of a rollback. */
  method MarkRolledBack(d: Deployment, target: Id)
    modifies d
    ensures d.Value() == D.RollbackRow(old(d.Value()), target)
    ensures d.status == D.ROLLED_BACK && d.rolledBackTo == Some(target)
    ensures d.events == old(d.events) + [D.Event(D.ROLLED_BACK, D.RolledBack)]
  {
    d.status := D.ROLLED_BACK;
    d.rolledBackTo := Some(target);
    d.RecordEvent(D.RolledBack);
  }

  /** The rollback target's query. */
  method PreviousGood(db: Database, d: Deployment) returns (target: Option<Id>)
    requires db.Valid() && d.id in db.deployments && db.deployments[d.id] == d
    ensures target == if T.RollbackCandidates(db.Rows(), d.id) == {} then None
                      else Some(T.MaxId(T.RollbackCandidates(db.Rows(), d.id)))
  {
    hide T.UniqueActive, T.UniqueKeys, T.MaxId;
    assert db.Rows()[d.id] == d.Value();
    var candidates := set i | i in db.deployments && i < d.id && db.deployments[i].status == D.SUCCEEDED &&
                              db.deployments[i].environment == d.environment && db.deployments[i].model == d.model &&
                              db.deployments[i].version != d.version;
    assert candidates == T.RollbackCandidates(db.Rows(), d.id);
    hide T.RollbackCandidates;
    target := if candidates == {} then None else Some(Greatest(candidates));
  }

  predicate IsGreatest(ids: set<Id>, m: Id) {
    m in ids && forall i :: i in ids ==> i <= m
  }

  /** ORDER BY id DESC LIMIT 1, computed. */
  function Greatest(ids: set<Id>): (m: Id)
    requires ids != {}
    ensures m == T.MaxId(ids) && m in ids
  {
    assert IsGreatest(ids, T.MaxId(ids));
    var m :| IsGreatest(ids, m);
    m
  }

  /** Roll a SUCCEEDED deployment back to the previous good one: the row itself is rewritten, none is created. */
  method RollbackDeployment(db: Database, id: Id) returns (r: Result<Deployment>)
    requires db.Valid()
    modifies db`commits, db.deployments.Values
    ensures db.Valid()
    ensures match T.RollbackTarget(old(db.Rows()), id)
            case Err(e) => r == Err(e) && db.Rows() == old(db.Rows()) && db.commits == old(db.commits)
            case Ok(target) =>
              && id in db.deployments && r == Ok(db.deployments[id]) && id in old(db.Rows())
              && db.Rows() == old(db.Rows())[id := D.RollbackRow(old(db.Rows())[id], target)]
              && db.commits == old(db.commits) + [db.Rows()]
              && r.value.status == D.ROLLED_BACK && r.value.rolledBackTo == Some(target)
    ensures r.Err? ==> r.error == if id in db.deployments then ConflictError else NotFoundError
  {
    hide T.UniqueActive, T.UniqueKeys, T.MaxId, D.RollbackRow, T.RollbackCandidates;
    if id !in db.deployments {
      return Err(NotFoundError);
    }
    var d := db.deployments[id];
    assert d.Value() == db.Rows()[id];
    if d.status != D.SUCCEEDED {
      return Err(ConflictError);
    }
    var target := PreviousGood(db, d);
    if target.None? {
      return Err(ConflictError);
    }
    RolledBackNotInFlight(d.Value(), target.value);
    MarkRolledBack(d, target.value);
    db.Commit();
    db.WriteKeepsValid(d);
    r := Ok(d);
  }

  lemma RolledBackNotInFlight(r: D.Row, target: Id)
    ensures !D.InFlight(D.RollbackRow(r, target))
  {
  }
}

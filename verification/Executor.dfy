/** The executor (worker/executor.py): a claimed deployment is advanced by a series of separate commits. */
module Executor {
  import opened Common
  import opened DeploymentPolicy
  import opened Store
  import D = Deployments
  import T = Tables
  import P = Protocol

  /** The tables the executor commits, in order, for one row. */
  ghost function ExecutorCommits(rows: T.Table, versions: T.VersionTable, id: Id): seq<T.Table>
    requires id in rows
  {
    var started := rows[id := D.StartRow(rows[id])];
    if !T.StillDeployable(versions, rows[id]) then
      [started, started[id := D.FailRow(started[id], D.ApprovalValidationFailed)]]
    else
      var deploying := started[id := D.DeployRow(started[id])];
      [started, deploying, deploying[id := D.FinishRow(deploying[id])]]
  }

  ghost predicate Attached(db: Database, d: Deployment)
    reads db`deployments
  {
    d.id in db.deployments && db.deployments[d.id] == d
  }

  method Start(db: Database, d: Deployment)
    requires db.Valid() && Attached(db, d) && d.status == D.VALIDATING
    modifies db`commits, d
    ensures db.Valid() && d.id in old(db.Rows()) && d.status == D.VALIDATING
    ensures db.Rows() == old(db.Rows())[d.id := D.StartRow(old(db.Rows())[d.id])]
    ensures db.commits == old(db.commits) + [db.Rows()]
  {
    hide T.UniqueActive, T.UniqueKeys;
    assert db.Rows()[d.id] == d.Value();
    d.RecordEvent(D.ValidationStarted);
    db.Commit();
    db.WriteKeepsValid(d);
  }

  method Deploy(db: Database, d: Deployment)
    requires db.Valid() && Attached(db, d) && d.status == D.VALIDATING
    modifies db`commits, d
    ensures db.Valid() && d.id in old(db.Rows()) && d.status == D.DEPLOYING
    ensures db.Rows() == old(db.Rows())[d.id := D.DeployRow(old(db.Rows())[d.id])]
    ensures db.commits == old(db.commits) + [db.Rows()]
  {
    hide T.UniqueActive, T.UniqueKeys;
    assert db.Rows()[d.id] == d.Value();
    d.status := D.DEPLOYING;
    d.RecordEvent(D.DeploymentStarted);
    db.Commit();
    db.WriteKeepsValid(d);
  }

  /** _fail */
  method Fail(db: Database, d: Deployment, event: D.EventName)
    requires db.Valid() && Attached(db, d)
    modifies db`commits, d
    ensures db.Valid() && d.id in old(db.Rows())
    ensures db.Rows() == old(db.Rows())[d.id := D.FailRow(old(db.Rows())[d.id], event)]
    ensures db.commits == old(db.commits) + [db.Rows()]
  {
    hide T.UniqueActive, T.UniqueKeys;
    assert db.Rows()[d.id] == d.Value();
    d.status := D.FAILED;
    d.error := Some(event);
    d.lockedAt := None;
    d.RecordEvent(event);
    db.Commit();
    db.WriteKeepsValid(d);
  }

  method Succeed(db: Database, d: Deployment)
    requires db.Valid() && Attached(db, d)
    modifies db`commits, d
    ensures db.Valid() && d.id in old(db.Rows())
    ensures db.Rows() == old(db.Rows())[d.id := D.SucceedRow(old(db.Rows())[d.id])]
    ensures db.commits == old(db.commits) + [db.Rows()]
  {
    hide T.UniqueActive, T.UniqueKeys;
    assert db.Rows()[d.id] == d.Value();
    d.status := D.SUCCEEDED;
    d.error := None;
    d.lockedAt := None;
    d.RecordEvent(D.DeploymentCompleted);
    db.Commit();
    db.WriteKeepsValid(d);
  }

  /** The worker's re-check: the version must still exist and be eligible. */
  method CheckGate(db: Database, d: Deployment) returns (deployable: bool)
    ensures deployable <==> T.StillDeployable(db.VersionRows(), d.Value())
  {
    deployable := d.version in db.versions && IsDeployable(db.versions[d.version].stage, d.environment);
  }

  /** Advance a claimed deployment to SUCCEEDED or FAILED, one commit at a time. */
  method ProcessDeployment(db: Database, d: Deployment)
    requires db.Valid() && Attached(db, d) && d.status == D.VALIDATING
    modifies db`commits, d
    ensures db.Valid() && d.id in old(db.Rows())
    ensures db.commits == old(db.commits) + ExecutorCommits(old(db.Rows()), old(db.VersionRows()), d.id)
    ensures db.Rows() == db.commits[|db.commits| - 1]
  {
    hide Database.Valid, D.StartRow, D.DeployRow, D.FailRow, D.FinishRow, D.SucceedRow, T.StillDeployable;
    ghost var id, before, versions := d.id, db.Rows(), db.VersionRows();
    Start(db, d);
    ghost var started := db.Rows();
    assert d.Value() == started[id];
    assert db.VersionRows() == versions by { db.VersionsUntouched(); }
    var deployable := CheckGate(db, d);
    SameGate(versions, before[id]);
    if !deployable {
      Fail(db, d, D.ApprovalValidationFailed);
      TwoCommits(old(db.commits), started, db.Rows());
      return;
    }
    Deploy(db, d);
    ghost var deploying := db.Rows();
    assert d.Value() == deploying[id];
    if d.simulateFailure {
      Fail(db, d, D.RuntimeTimeout);
    } else {
      Succeed(db, d);
    }
    FinishCases(deploying[id]);
    ThreeCommits(old(db.commits), started, deploying, db.Rows());
  }

  lemma SameGate(versions: T.VersionTable, r: D.Row)
    ensures T.StillDeployable(versions, D.StartRow(r)) == T.StillDeployable(versions, r)
  {
  }

  lemma FinishCases(r: D.Row)
    ensures D.FinishRow(r) == if r.simulateFailure then D.FailRow(r, D.RuntimeTimeout) else D.SucceedRow(r)
  {
  }

  lemma TwoCommits(commits: seq<T.Table>, a: T.Table, b: T.Table)
    ensures commits + [a] + [b] == commits + [a, b]
  {
  }

  lemma ThreeCommits(commits: seq<T.Table>, a: T.Table, b: T.Table, c: T.Table)
    ensures commits + [a] + [b] + [c] == commits + [a, b, c]
  {
  }

  /** The protocol state after validation started, the gate was read, and the decision was committed. */
  ghost function Decision(s: P.State, w: Id): P.State
    requires w in s.workers && s.workers[w].Claimed? && s.workers[w].id in s.rows
  {
    P.Apply(P.Apply(P.Apply(s, P.StartValidation(w)), P.CheckGate(w)), P.CommitDecision(w))
  }

  /** Each table the executor commits is the table of the protocol after the matching step of a worker. */
  lemma CommitsAreSteps(s: P.State, w: Id, id: Id)
    requires w in s.workers && s.workers[w] == P.Claimed(id) && id in s.rows
    ensures P.Apply(s, P.StartValidation(w)).rows == ExecutorCommits(s.rows, s.versions, id)[0]
    ensures Decision(s, w).rows == ExecutorCommits(s.rows, s.versions, id)[1]
    ensures P.Enabled(Decision(s, w), P.Finish(w)) <==> |ExecutorCommits(s.rows, s.versions, id)| == 3
    ensures P.Enabled(Decision(s, w), P.Finish(w)) ==>
              P.Apply(Decision(s, w), P.Finish(w)).rows == ExecutorCommits(s.rows, s.versions, id)[2]
  {
    hide D.StartRow, D.DeployRow, D.FailRow, D.FinishRow, T.StillDeployable, Decision;
    DecisionState(s, w, id);
  }

  lemma DecisionState(s: P.State, w: Id, id: Id)
    requires w in s.workers && s.workers[w] == P.Claimed(id) && id in s.rows
    ensures var commits := ExecutorCommits(s.rows, s.versions, id);
            Decision(s, w) == s.(rows := commits[1],
                                 workers := if |commits| == 3 then s.workers[w := P.Running(id)] else s.workers - {w})
  {
    hide D.StartRow, D.DeployRow, D.FailRow, T.StillDeployable;
    GateState(s, w, id);
    var decided := P.Apply(P.Apply(s, P.StartValidation(w)), P.CheckGate(w));
    assert Decision(s, w) == P.Apply(decided, P.CommitDecision(w));
  }

  lemma GateState(s: P.State, w: Id, id: Id)
    requires w in s.workers && s.workers[w] == P.Claimed(id) && id in s.rows
    ensures P.Apply(P.Apply(s, P.StartValidation(w)), P.CheckGate(w)) ==
            s.(rows := s.rows[id := D.StartRow(s.rows[id])],
               workers := s.workers[w := P.Decided(id, T.StillDeployable(s.versions, s.rows[id]))])
  {
    hide D.StartRow, T.StillDeployable;
    SameGate(s.versions, s.rows[id]);
  }
}

/** The queue primitives of worker/queue.py. */
module Queue {
  import opened Common
  import opened Store
  import D = Deployments
  import T = Tables

  predicate IsLeast(ids: set<Id>, m: Id) {
    m in ids && forall i :: i in ids ==> m <= i
  }

  /** ORDER BY id LIMIT 1, computed. */
  function Least(ids: set<Id>): (m: Id)
    requires ids != {}
    ensures m == T.MinId(ids) && m in ids
  {
    assert IsLeast(ids, T.MinId(ids));
    var m :| IsLeast(ids, m);
    m
  }

  /** The claim's query. A single session sees no other claimer's row locks. */
  method OldestRequested(db: Database) returns (d: Deployment?)
    requires db.Valid()
    ensures d == null <==> T.Claimable(db.Rows(), {}) == {}
    ensures d != null ==> d.id == T.MinId(T.Claimable(db.Rows(), {})) && d.id in db.deployments && db.deployments[d.id] == d
  {
    hide Database.Constrained, T.MinId;
    var requested := db.RequestedIds();
    assert forall i :: i in requested ==> i in db.Rows();
    hide T.Claimable;
    d := if requested == {} then null else db.deployments[Least(requested)];
  }

  /** The assignments of a claim. */
  method Stamp(d: Deployment, worker: Id, now: nat)
    modifies d
    ensures d.Value() == D.ClaimRow(old(d.Value()), worker, now)
    ensures d.status == D.VALIDATING && d.worker == Some(worker) && d.lockedAt == Some(now)
    ensures d.attempts == old(d.attempts) + 1 && d.events == old(d.events)
  {
    d.status := D.VALIDATING;
    d.worker := Some(worker);
    d.lockedAt := Some(now);
    d.attempts := d.attempts + 1;
  }

  /**
   * Claim the oldest requested row, or nothing. Claiming needs no help from the uniqueness constraints to keep them.
   */
  method ClaimOne(db: Database, worker: Id, now: nat) returns (d: Deployment?)
    requires db.Valid()
    modifies db`commits, db.deployments.Values
    ensures db.Valid()
    ensures d == null <==> T.Claimable(old(db.Rows()), {}) == {}
    ensures d == null ==> db.Rows() == old(db.Rows()) && db.commits == old(db.commits)
    ensures d != null ==>
              && d.id == T.MinId(T.Claimable(old(db.Rows()), {})) && d.id in db.deployments && db.deployments[d.id] == d
              && d.id in old(db.Rows())
              && db.Rows() == old(db.Rows())[d.id := D.ClaimRow(old(db.Rows())[d.id], worker, now)]
              && db.commits == old(db.commits) + [db.Rows()]
    ensures d != null ==>
              && d.status == D.VALIDATING && d.worker == Some(worker) && d.lockedAt == Some(now)
              && d.attempts == old(db.Rows())[d.id].attempts + 1 && d.events == old(db.Rows())[d.id].events
  {
    hide T.UniqueActive, T.UniqueKeys, T.MinId, T.Claimable, D.ClaimRow;
    d := OldestRequested(db);
    if d != null {
      assert db.Rows()[d.id] == d.Value();
      RequestedStatus(db.Rows(), d.id);
      Stamp(d, worker, now);
      db.Commit();
      ClaimedInFlight(old(d.Value()), worker, now);
      db.WriteKeepsValid(d);
    }
  }

  lemma RequestedStatus(rows: T.Table, id: Id)
    requires T.Claimable(rows, {}) != {} && id == T.MinId(T.Claimable(rows, {}))
    ensures id in rows && rows[id].status == D.REQUESTED
  {
    assert id in T.Claimable(rows, {});
  }

  lemma ClaimedInFlight(r: D.Row, worker: Id, now: nat)
    ensures D.InFlight(D.ClaimRow(r, worker, now))
  {
  }

  /** The assignments of the reaper to one stuck row. */
  method Reclaim(d: Deployment)
    modifies d
    ensures d.Value() == D.ReapRow(old(d.Value()))
    ensures old(d.attempts) < 3 ==>
              d.status == D.REQUESTED && d.worker == None && d.lockedAt == None &&
              d.events == old(d.events) + [D.Event(D.REQUESTED, D.Requeued)]
    ensures old(d.attempts) >= 3 ==>
              d.status == D.FAILED && d.error == Some(D.WorkerLost) &&
              d.events == old(d.events) + [D.Event(D.FAILED, D.WorkerLost)]
  {
    if d.attempts >= D.MAX_ATTEMPTS {
      d.status := D.FAILED;
      d.error := Some(D.WorkerLost);
      d.RecordEvent(D.WorkerLost);
    } else {
      d.status := D.REQUESTED;
      d.worker := None;
      d.lockedAt := None;
      d.RecordEvent(D.Requeued);
    }
  }

  /** The table with some of its rows reaped. */
  ghost function ReapedAmong(rows: T.Table, done: set<Id>): T.Table {
    map i | i in rows :: if i in done then D.ReapRow(rows[i]) else rows[i]
  }

  lemma ReapOneMore(rows: T.Table, done: set<Id>, id: Id)
    requires id in rows && id !in done
    ensures ReapedAmong(rows, done)[id] == rows[id]
    ensures ReapedAmong(rows, done)[id := D.ReapRow(rows[id])] == ReapedAmong(rows, done + {id})
  {
    hide D.ReapRow;
  }

  /** The batch keeps both constraints, so no check is needed at its commit. */
  lemma ReapedStuck(rows: T.Table, cutoff: int)
    requires T.UniqueActive(rows) && T.UniqueKeys(rows)
    ensures ReapedAmong(rows, T.StuckIds(rows, cutoff)) == T.ReapTable(rows, cutoff)
    ensures T.UniqueActive(T.ReapTable(rows, cutoff)) && T.UniqueKeys(T.ReapTable(rows, cutoff))
  {
    T.ConstraintsKept(rows, T.ReapTable(rows, cutoff));
  }

  /** The reaper's loop over the rows it selected. */
  method ReclaimAll(db: Database, stuck: set<Id>)
    requires db.Keyed() && stuck <= db.deployments.Keys
    modifies db.deployments.Values
    ensures db.Rows() == ReapedAmong(old(db.Rows()), stuck)
  {
    hide D.ReapRow;
    ghost var before := db.Rows();
    assert ReapedAmong(before, {}) == before;
    var todo := stuck;
    while todo != {}
      invariant todo <= stuck
      invariant db.Rows() == ReapedAmong(before, stuck - todo)
      decreases |todo|
    {
      hide ReapedAmong;
      var id :| id in todo;
      assert id in before && id in db.Rows();
      ReapOneMore(before, stuck - todo, id);
      var d := db.deployments[id];
      assert d.Value() == db.Rows()[id];
      label L:
      Reclaim(d);
      db.OneRowChanged@L(d);
      assert stuck - todo + {id} == stuck - (todo - {id});
      todo := todo - {id};
    }
    assert stuck - todo == stuck;
  }

  /** Recover every row stuck past the timeout in one commit; commit nothing if there is none. */
  method ReapStuck(db: Database, now: nat, timeoutSeconds: int := D.TIMEOUT) returns (count: nat)
    requires db.Valid()
    modifies db`commits, db.deployments.Values
    ensures db.Valid()
    ensures count == |T.StuckIds(old(db.Rows()), now - timeoutSeconds)|
    ensures db.Rows() == T.ReapTable(old(db.Rows()), now - timeoutSeconds)
    ensures db.commits == if count == 0 then old(db.commits) else old(db.commits) + [db.Rows()]
  {
    var cutoff := now - timeoutSeconds;
    hide D.ReapRow, T.ReapTable, D.Stuck, ReapedAmong, T.UniqueActive, T.UniqueKeys;
    ReapedStuck(db.Rows(), cutoff);
    var stuck := db.StuckIds(cutoff);
    assert stuck <= db.Rows().Keys;
    ReclaimAll(db, stuck);
    if stuck != {} {
      db.Commit();
    }
    count := |stuck|;
  }
}

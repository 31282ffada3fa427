/** The worker loop (worker/runner.py). */
module Runner {
  import opened Common
  import opened Store
  import D = Deployments
  import T = Tables
  import Queue
  import Executor
  import Recovery

  const REAP_EVERY_SECONDS: nat := 30

  /** Claiming a row and executing it leaves the row's outcome in the table. */
  lemma PassOutcome(rows: T.Table, versions: T.VersionTable, id: Id, worker: Id, now: nat)
    requires id in rows && rows[id].status == D.REQUESTED && rows[id].error.None?
    ensures var tables := Executor.ExecutorCommits(rows[id := D.ClaimRow(rows[id], worker, now)], versions, id);
            |tables| > 0 && tables[|tables| - 1] == rows[id := D.ProcessedRow(rows[id], worker, T.StillDeployable(versions, rows[id]))]
  {
    var claimed, deployable := D.ClaimRow(rows[id], worker, now), T.StillDeployable(versions, rows[id]);
    Recovery.SameGate(versions, rows[id], claimed);
    D.ProcessedRowIsTheCommits(rows[id], worker, now, deployable);
    hide D.ClaimRow, D.StartRow, D.DeployRow, D.FinishRow, D.FailRow, D.ProcessedRow, T.StillDeployable;
  }

  function Elements(ids: seq<Id>): set<Id> {
    set i | i in ids
  }

  ghost predicate Ascending(ids: seq<Id>) {
    forall j, k :: 0 <= j < k < |ids| ==> ids[j] < ids[k]
  }

  /** The tables committed by one pass: the claim, and then the executor's. */
  ghost function PassCommits(rows: T.Table, versions: T.VersionTable, id: Id, worker: Id, now: nat): seq<T.Table>
    requires id in rows
  {
    var claimed := rows[id := D.ClaimRow(rows[id], worker, now)];
    [claimed] + Executor.ExecutorCommits(claimed, versions, id)
  }

  /** The table once some of its rows are done. */
  ghost function DoneTable(rows: T.Table, versions: T.VersionTable, worker: Id, done: seq<Id>): T.Table {
    map i | i in rows :: if i in done then D.ProcessedRow(rows[i], worker, T.StillDeployable(versions, rows[i])) else rows[i]
  }

  /** All tables committed while passing over these rows, in this order; the i-th pass reads the i-th clock value. */
  ghost function DrainCommits(rows: T.Table, versions: T.VersionTable, worker: Id, clock: nat -> nat, claimed: seq<Id>): seq<T.Table>
    requires Elements(claimed) <= rows.Keys
  {
    if claimed == [] then []
    else
      var n := |claimed| - 1;
      assert claimed[n] in claimed;
      DrainCommits(rows, versions, worker, clock, claimed[..n]) +
      PassCommits(DoneTable(rows, versions, worker, claimed[..n]), versions, claimed[n], worker, clock(n))
  }

  /** The ids were taken from the set in ascending order, and come before all that are left. */
  ghost predicate TakenInOrder(requested: set<Id>, claimed: seq<Id>) {
    && Elements(claimed) <= requested && Ascending(claimed)
    && forall i, c :: i in requested && i !in claimed && c in claimed ==> c < i
  }

  lemma TakesNext(requested: set<Id>, claimed: seq<Id>, id: Id)
    requires TakenInOrder(requested, claimed)
    requires var left := requested - Elements(claimed); id in left && forall i :: i in left ==> id <= i
    ensures TakenInOrder(requested, claimed + [id])
  {
    assert id in requested && id !in claimed;
    forall i, c | i in requested && i !in claimed + [id] && c in claimed + [id] ensures c < i {
      assert i in requested - Elements(claimed) && i != id;
      assert c in claimed || c == id;
    }
    assert forall j :: 0 <= j < |claimed| ==> claimed[j] in claimed;
    assert forall c :: c in claimed + [id] ==> c in claimed || c == id;
  }

  /** How far a drain has come: the claimed rows are done, in ascending order and before all others, each by one pass. */
  ghost predicate Drained(before: T.Table, versions: T.VersionTable, worker: Id, clock: nat -> nat, claimed: seq<Id>,
                          rows: T.Table, commits: seq<T.Table>)
  {
    && TakenInOrder(T.Claimable(before, {}), claimed)
    && rows == DoneTable(before, versions, worker, claimed)
    && Elements(claimed) <= before.Keys
    && commits == DrainCommits(before, versions, worker, clock, claimed)
  }

  lemma DrainBegins(before: T.Table, versions: T.VersionTable, worker: Id, clock: nat -> nat)
    ensures Drained(before, versions, worker, clock, [], before, [])
  {
  }

  /** The rows still requested are untouched. */
  lemma DoneLeaves(before: T.Table, versions: T.VersionTable, worker: Id, done: seq<Id>)
    requires Elements(done) <= T.Claimable(before, {})
    ensures var rows := DoneTable(before, versions, worker, done);
            && T.Claimable(rows, {}) == T.Claimable(before, {}) - Elements(done)
            && rows.Keys == before.Keys && forall i :: i in before && i !in done ==> rows[i] == before[i]
  {
    hide T.StillDeployable;
    forall i | i in before ensures D.ProcessedRow(before[i], worker, T.StillDeployable(versions, before[i])).status != D.REQUESTED {
    }
    hide D.ProcessedRow;
  }

  lemma DoneOneMore(rows: T.Table, versions: T.VersionTable, worker: Id, done: seq<Id>, id: Id)
    requires id in rows
    ensures DoneTable(rows, versions, worker, done)[id := D.ProcessedRow(rows[id], worker, T.StillDeployable(versions, rows[id]))]
         == DoneTable(rows, versions, worker, done + [id])
  {
    hide D.ProcessedRow, T.StillDeployable;
  }

  lemma OneMorePass(rows: T.Table, versions: T.VersionTable, worker: Id, clock: nat -> nat, claimed: seq<Id>, id: Id)
    requires Elements(claimed) <= rows.Keys && id in rows
    ensures Elements(claimed + [id]) == Elements(claimed) + {id} <= rows.Keys
    ensures DoneTable(rows, versions, worker, claimed).Keys == rows.Keys
    ensures DrainCommits(rows, versions, worker, clock, claimed + [id]) ==
            DrainCommits(rows, versions, worker, clock, claimed) +
            PassCommits(DoneTable(rows, versions, worker, claimed), versions, id, worker, clock(|claimed|))
  {
    assert (claimed + [id])[..|claimed|] == claimed;
    hide PassCommits;
  }

  /** The pass over the oldest requested row takes the drain one row further. */
  lemma DrainContinues(before: T.Table, versions: T.VersionTable, worker: Id, clock: nat -> nat, claimed: seq<Id>,
                       rows: T.Table, commits: seq<T.Table>, id: Id)
    requires Drained(before, versions, worker, clock, claimed, rows, commits)
    requires T.Claimable(rows, {}) != {} && id == T.MinId(T.Claimable(rows, {}))
    ensures id in rows && rows[id].status == D.REQUESTED
    ensures var rows' := rows[id := D.ProcessedRow(rows[id], worker, T.StillDeployable(versions, rows[id]))];
            && Drained(before, versions, worker, clock, claimed + [id],
                       rows', commits + PassCommits(rows, versions, id, worker, clock(|claimed|)))
            && |T.Claimable(rows', {})| < |T.Claimable(rows, {})|
  {
    var requested, left := T.Claimable(before, {}), T.Claimable(rows, {});
    RequestedIsThere(before, id);
    hide T.Claimable, DoneTable, DrainCommits, PassCommits, D.ProcessedRow, T.StillDeployable, TakenInOrder;
    TakenAmong(requested, claimed);
    DoneLeaves(before, versions, worker, claimed);
    assert left == requested - Elements(claimed);
    TakesNext(requested, claimed, id);
    TakenAmong(requested, claimed + [id]);
    OneMorePass(before, versions, worker, clock, claimed, id);
    DoneOneMore(before, versions, worker, claimed, id);
    DoneLeaves(before, versions, worker, claimed + [id]);
    hide Elements;
    assert requested - (Elements(claimed) + {id}) == left - {id};
  }

  ghost predicate Joined(earlier: seq<T.Table>, later: seq<T.Table>, commits: seq<T.Table>) {
    commits == earlier + later
  }

  lemma JoinMore(earlier: seq<T.Table>, later: seq<T.Table>, more: seq<T.Table>)
    ensures forall commits :: Joined(earlier, later, commits) ==> Joined(earlier, later + more, commits + more)
  {
  }

  lemma JoinEnds(earlier: seq<T.Table>, later: seq<T.Table>, commits: seq<T.Table>)
    requires Joined(earlier, later, commits)
    ensures commits == earlier + later
  {
  }

  lemma TakenAmong(requested: set<Id>, claimed: seq<Id>)
    requires TakenInOrder(requested, claimed)
    ensures Elements(claimed) <= requested
  {
  }

  lemma RequestedIsThere(rows: T.Table, id: Id)
    ensures id in T.Claimable(rows, {}) ==> id in rows && rows[id].status == D.REQUESTED
  {
  }

  /**
   * Claim and process until the queue is empty. Run alone, it terminates, claims exactly the rows that were requested,
   * in ascending id order, counts them, and leaves the table that DrainedTable describes. Its commits are those of one
   * pass over each of these rows, in that order; the i-th claim reads the i-th value of the clock.
   */
  method DrainAll(db: Database, worker: Id, clock: nat -> nat) returns (processed: nat, ghost claimed: seq<Id>)
    requires db.Valid() && T.RowsOk(db.Rows())
    modifies db`commits, db.deployments.Values
    ensures db.Valid()
    ensures db.Rows() == T.DrainedTable(old(db.Rows()), old(db.VersionRows()), worker)
    ensures Elements(claimed) == T.Claimable(old(db.Rows()), {}) && Ascending(claimed)
    ensures processed == |claimed| == |T.Claimable(old(db.Rows()), {})|
    ensures Elements(claimed) <= old(db.Rows()).Keys
    ensures db.commits == old(db.commits) + DrainCommits(old(db.Rows()), old(db.VersionRows()), worker, clock, claimed)
  {
    hide Database.Valid, D.ProcessedRow, T.StillDeployable, Drained, T.Claimable, T.MinId, DrainCommits, PassCommits;
    hide T.DrainedTable, Elements, Ascending;
    ghost var before, versions, earlier, commits := db.Rows(), db.VersionRows(), db.commits, [];
    processed, claimed := 0, [];
    DrainBegins(before, versions, worker, clock);
    assert Joined(earlier, commits, db.commits);
    hide Joined;
    while true
      invariant db.Valid() && db.VersionRows() == versions
      invariant Drained(before, versions, worker, clock, claimed, db.Rows(), commits)
      invariant processed == |claimed| && Joined(earlier, commits, db.commits)
      decreases |T.Claimable(db.Rows(), {})|
    {
      ghost var rows := db.Rows();
      RequestedRowsOk(before, versions, worker, clock, claimed, rows, commits);
      var d := ClaimAndProcess(db, worker, clock(processed));
      if d == null {
        DrainEnds(before, versions, worker, clock, claimed, rows, commits);
        JoinEnds(earlier, commits, db.commits);
        return;
      }
      DrainContinues(before, versions, worker, clock, claimed, rows, commits, d.id);
      JoinMore(earlier, commits, PassCommits(rows, versions, d.id, worker, clock(processed)));
      commits := commits + PassCommits(rows, versions, d.id, worker, clock(processed));
      claimed := claimed + [d.id];
      processed := processed + 1;
    }
  }

  /** One turn of the drain loop: nothing is requested, or the oldest requested row gets its outcome. */
  method ClaimAndProcess(db: Database, worker: Id, now: nat) returns (d: Deployment?)
    requires db.Valid() && NoStaleErrors(db.Rows())
    modifies db`commits, db.deployments.Values
    ensures db.Valid() && db.VersionRows() == old(db.VersionRows())
    ensures d == null <==> T.Claimable(old(db.Rows()), {}) == {}
    ensures d == null ==> db.Rows() == old(db.Rows()) && db.commits == old(db.commits)
    ensures d != null ==>
              && d.id == T.MinId(T.Claimable(old(db.Rows()), {})) && d.id in old(db.Rows())
              && db.Rows() == old(db.Rows())[d.id :=
                   D.ProcessedRow(old(db.Rows())[d.id], worker, T.StillDeployable(old(db.VersionRows()), old(db.Rows())[d.id]))]
              && db.commits == old(db.commits) + PassCommits(old(db.Rows()), old(db.VersionRows()), d.id, worker, now)
  {
    hide Database.Valid, D.ProcessedRow, D.ClaimRow, T.StillDeployable, T.Claimable, T.MinId, Executor.ExecutorCommits, NoStaleErrors;
    ghost var rows, versions := db.Rows(), db.VersionRows();
    d := Queue.ClaimOne(db, worker, now);
    if d != null {
      ClaimedStatus(rows, d.id, worker, now);
      PassOutcome(rows, versions, d.id, worker, now);
      assert d.Value() == db.Rows()[d.id];
      db.VersionsUntouched();
      Executor.ProcessDeployment(db, d);
    }
    db.VersionsUntouched();
  }

  /** Requested rows carry no error. */
  ghost predicate NoStaleErrors(rows: T.Table) {
    forall i :: i in T.Claimable(rows, {}) ==> rows[i].error.None?
  }

  lemma ClaimedStatus(rows: T.Table, id: Id, worker: Id, now: nat)
    requires NoStaleErrors(rows) && T.Claimable(rows, {}) != {} && id == T.MinId(T.Claimable(rows, {}))
    ensures id in rows && rows[id].status == D.REQUESTED && rows[id].error.None?
    ensures D.ClaimRow(rows[id], worker, now).status == D.VALIDATING
  {
    assert id in T.Claimable(rows, {});
  }

  lemma RequestedRowsOk(before: T.Table, versions: T.VersionTable, worker: Id, clock: nat -> nat, claimed: seq<Id>,
                        rows: T.Table, commits: seq<T.Table>)
    requires T.RowsOk(before) && Drained(before, versions, worker, clock, claimed, rows, commits)
    ensures NoStaleErrors(rows)
  {
    DoneLeaves(before, versions, worker, claimed);
    forall i | i in T.Claimable(rows, {}) ensures rows[i].error.None? {
      assert D.RowOk(before[i]);
    }
  }

  lemma DrainEnds(before: T.Table, versions: T.VersionTable, worker: Id, clock: nat -> nat, claimed: seq<Id>,
                  rows: T.Table, commits: seq<T.Table>)
    requires Drained(before, versions, worker, clock, claimed, rows, commits) && T.Claimable(rows, {}) == {}
    ensures rows == T.DrainedTable(before, versions, worker)
    ensures Elements(claimed) == T.Claimable(before, {}) && |claimed| == |T.Claimable(before, {})| && Ascending(claimed)
    ensures Elements(claimed) <= before.Keys && commits == DrainCommits(before, versions, worker, clock, claimed)
  {
    hide D.ProcessedRow, T.StillDeployable, DrainCommits;
    DoneLeaves(before, versions, worker, claimed);
    assert T.Claimable(before, {}) <= Elements(claimed);
    AscendingCount(claimed);
    forall i | i in before ensures i in claimed <==> before[i].status == D.REQUESTED {
      assert i in Elements(claimed) <==> i in T.Claimable(before, {});
    }
  }

  /** Distinct elements: as many as the list is long. */
  lemma {:induction false} AscendingCount(ids: seq<Id>)
    requires Ascending(ids)
    ensures |Elements(ids)| == |ids|
  {
    if ids != [] {
      var n := |ids| - 1;
      AscendingCount(ids[..n]);
      assert ids == ids[..n] + [ids[n]];
      assert Elements(ids) == Elements(ids[..n]) + {ids[n]};
      assert ids[n] !in Elements(ids[..n]);
    }
  }

  /** One turn of the worker's loop: drain first, then reap if the last reap is long enough ago. */
  method Turn(db: Database, worker: Id, clock: nat -> nat, monotonic: nat, lastReap: nat, reapClock: nat)
    returns (reapedAt: nat, ghost claimed: seq<Id>)
    requires db.Valid() && T.RowsOk(db.Rows())
    modifies db`commits, db.deployments.Values
    ensures db.Valid()
    ensures Elements(claimed) == T.Claimable(old(db.Rows()), {}) && Ascending(claimed)
    ensures Elements(claimed) <= old(db.Rows()).Keys
    ensures var drained := T.DrainedTable(old(db.Rows()), old(db.VersionRows()), worker);
            var passes := DrainCommits(old(db.Rows()), old(db.VersionRows()), worker, clock, claimed);
            if monotonic > lastReap + 30
            then
              && db.Rows() == T.ReapTable(drained, D.Cutoff(reapClock)) && reapedAt == monotonic
              && db.commits == old(db.commits) + passes + if T.StuckIds(drained, D.Cutoff(reapClock)) == {} then [] else [db.Rows()]
            else db.Rows() == drained && reapedAt == lastReap && db.commits == old(db.commits) + passes
  {
    hide Database.Valid, T.RowsOk, T.ReapTable, T.DrainedTable, T.StuckIds, T.Claimable, DrainCommits, Ascending;
    var _, drainedIds := DrainAll(db, worker, clock);
    claimed := drainedIds;
    reapedAt := lastReap;
    if monotonic - lastReap > REAP_EVERY_SECONDS {
      var count := Queue.ReapStuck(db, reapClock);
      reapedAt := monotonic;
    }
  }
}

/** Draining the queue, and recovery after every worker died. */
module Recovery {
  import opened Common
  import opened Deployments
  import opened Tables
  import opened Protocol
  import opened Invariants

  /** The steps recovery may use: deaths, time, the reaper, and the one surviving worker. */
  predicate RecoveryStep(step: Step, w: Id) {
    match step
    case Crash(_) => true
    case Tick(_) => true
    case Reap => true
    case ClaimSelect(u) => u == w
    case ClaimCommit(u) => u == w
    case StartValidation(u) => u == w
    case CheckGate(u) => u == w
    case CommitDecision(u) => u == w
    case Finish(u) => u == w
    case _ => false
  }

  /** A run of recovery steps leads from s to t. */
  ghost predicate Recovers(s: State, t: State, w: Id) {
    exists steps :: Run(s, steps) == Some(t) && forall k :: 0 <= k < |steps| ==> RecoveryStep(steps[k], w)
  }

  lemma RecoversRefl(s: State, w: Id)
    ensures Recovers(s, s, w)
  {
    assert Run(s, []) == Some(s);
  }

  lemma RecoversStep(s: State, t: State, step: Step, w: Id)
    requires Recovers(s, t, w) && Enabled(t, step) && RecoveryStep(step, w)
    ensures Recovers(s, Apply(t, step), w)
  {
    hide Enabled, Apply;
    var steps :| Run(s, steps) == Some(t) && forall k :: 0 <= k < |steps| ==> RecoveryStep(steps[k], w);
    RunSnoc(s, steps, step);
    assert forall k :: 0 <= k < |steps + [step]| ==> RecoveryStep((steps + [step])[k], w);
  }

  lemma RecoversInv(s: State, t: State, w: Id)
    requires Inv(s) && Recovers(s, t, w)
    ensures Inv(t)
  {
    hide Inv;
    var steps :| Run(s, steps) == Some(t) && forall k :: 0 <= k < |steps| ==> RecoveryStep(steps[k], w);
    assert Reaches(s, t);
    ReachesInv(s, t);
  }

  lemma ReachesInv(s: State, t: State)
    requires Inv(s) && Reaches(s, t)
    ensures Inv(t)
  {
    ReachesAdvances(s, t);
  }

  // ---------- One pass of a worker that is not interrupted ----------

  lemma Overwrite<T>(m: map<Id, T>, id: Id, first: T, second: T)
    ensures m[id := first][id := second] == m[id := second]
    ensures map[id := first][id := second] == map[id := second] && map[id := first] - {id} == map[]
  {
  }

  /** The oldest requested row, claimed and processed: the claim. */
  lemma ClaimPass(s0: State, s: State, w: Id, id: Id)
    requires Recovers(s0, s, w) && s.workers == map[]
    requires Claimable(s.rows, {}) != {} && id == MinId(Claimable(s.rows, {}))
    ensures Recovers(s0, s.(rows := s.rows[id := ClaimRow(s.rows[id], w, s.clock)], workers := map[w := Claimed(id)]), w)
  {
    hide Recovers;
    assert Locked(s) == {};
    var s1 := s.(workers := map[w := Selecting(id)]);
    assert Apply(s, ClaimSelect(w)) == s1;
    RecoversStep(s0, s, ClaimSelect(w), w);
    assert Apply(s1, ClaimCommit(w)) ==
           s.(rows := s.rows[id := ClaimRow(s.rows[id], w, s.clock)], workers := map[w := Claimed(id)]);
    RecoversStep(s0, s1, ClaimCommit(w), w);
  }

  /** From a committed claim to the outcome of the gate. */
  lemma GatePass(s0: State, s: State, w: Id, id: Id)
    requires Recovers(s0, s, w) && s.workers == map[w := Claimed(id)] && id in s.rows
    ensures Recovers(s0, s.(rows := s.rows[id := StartRow(s.rows[id])],
                            workers := map[w := Decided(id, StillDeployable(s.versions, s.rows[id]))]), w)
  {
    hide Recovers, StartRow, StillDeployable;
    var started := StartRow(s.rows[id]);
    assert StillDeployable(s.versions, started) == StillDeployable(s.versions, s.rows[id]) by {
      SameGate(s.versions, s.rows[id], started) by { StartKeepsIdentity(s.rows[id]); }
    }
    Overwrite(s.workers, w, Claimed(id), Validating(id));
    Overwrite(s.workers, w, Validating(id), Decided(id, StillDeployable(s.versions, started)));
    var s1 := s.(rows := s.rows[id := started], workers := map[w := Validating(id)]);
    assert Apply(s, StartValidation(w)) == s1;
    RecoversStep(s0, s, StartValidation(w), w);
    assert Apply(s1, CheckGate(w)) == s1.(workers := map[w := Decided(id, StillDeployable(s.versions, s.rows[id]))]);
    RecoversStep(s0, s1, CheckGate(w), w);
  }

  /** From the decision to the end. */
  lemma FinishPass(s0: State, s: State, w: Id, id: Id, deployable: bool)
    requires Recovers(s0, s, w) && s.workers == map[w := Decided(id, deployable)] && id in s.rows
    ensures Recovers(s0, s.(workers := map[], rows := s.rows[id :=
              if deployable then FinishRow(DeployRow(s.rows[id])) else FailRow(s.rows[id], ApprovalValidationFailed)]), w)
  {
    hide Recovers, DeployRow, FinishRow, FailRow;
    Overwrite(s.workers, w, Decided(id, deployable), Running(id));
    if deployable {
      Overwrite(s.rows, id, DeployRow(s.rows[id]), FinishRow(DeployRow(s.rows[id])));
      var s1 := s.(rows := s.rows[id := DeployRow(s.rows[id])], workers := map[w := Running(id)]);
      assert Apply(s, CommitDecision(w)) == s1;
      RecoversStep(s0, s, CommitDecision(w), w);
      LastCommit(s0, s1, w, id);
    } else {
      var s1 := s.(rows := s.rows[id := FailRow(s.rows[id], ApprovalValidationFailed)], workers := map[]);
      assert Apply(s, CommitDecision(w)) == s1;
      RecoversStep(s0, s, CommitDecision(w), w);
    }
  }

  lemma LastCommit(s0: State, s: State, w: Id, id: Id)
    requires Recovers(s0, s, w) && s.workers == map[w := Running(id)] && id in s.rows
    ensures Recovers(s0, s.(workers := map[], rows := s.rows[id := FinishRow(s.rows[id])]), w)
  {
    hide Recovers, FinishRow;
    Overwrite(s.workers, w, Running(id), Running(id));
    assert Apply(s, Finish(w)) == s.(workers := map[], rows := s.rows[id := FinishRow(s.rows[id])]);
    RecoversStep(s0, s, Finish(w), w);
  }

  /** A whole uninterrupted pass turns the oldest requested row into its outcome and touches nothing else. */
  lemma OnePass(s0: State, s: State, w: Id, id: Id)
    requires Recovers(s0, s, w) && s.workers == map[] && RowsOk(s.rows)
    requires Claimable(s.rows, {}) != {} && id == MinId(Claimable(s.rows, {}))
    ensures Recovers(s0, s.(rows := s.rows[id := ProcessedRow(s.rows[id], w, StillDeployable(s.versions, s.rows[id]))]), w)
  {
    var r := s.rows[id];
    hide Recovers, ProcessedRow, StillDeployable, FinishRow, FailRow, DeployRow, StartRow;
    assert r.status == REQUESTED && r.error.None? by {
      assert id in Claimable(s.rows, {});
      assert RowOk(r);
    }
    hide RowsOk, Claimable;
    var claimed, deployable := ClaimRow(r, w, s.clock), StillDeployable(s.versions, r);
    ProcessedRowIsTheCommits(r, w, s.clock, deployable);
    ClaimPass(s0, s, w, id);
    SameGate(s.versions, r, claimed);
    GatePass(s0, s.(rows := s.rows[id := claimed], workers := map[w := Claimed(id)]), w, id);
    Overwrite(s.rows, id, claimed, StartRow(claimed));
    var s2 := s.(rows := s.rows[id := StartRow(claimed)], workers := map[w := Decided(id, deployable)]);
    FinishPass(s0, s2, w, id, deployable);
    var done := ProcessedRow(r, w, deployable);
    Overwrite(s.rows, id, StartRow(claimed), done);
    assert s2.(workers := map[], rows := s2.rows[id := done]) == s.(rows := s.rows[id := done]);
  }

  lemma SameGate(versions: VersionTable, r: Row, r': Row)
    requires SameIdentity(r, r')
    ensures StillDeployable(versions, r) == StillDeployable(versions, r')
  {
  }

  lemma StartKeepsIdentity(r: Row)
    ensures SameIdentity(r, StartRow(r))
  {
  }

  // ---------- Draining ----------

  /** What is left for later passes after one pass. */
  lemma PassLeavesRest(rows: Table, versions: VersionTable, w: Id, id: Id)
    requires id in rows && rows[id].status == REQUESTED
    ensures var rows' := rows[id := ProcessedRow(rows[id], w, StillDeployable(versions, rows[id]))];
            Claimable(rows', {}) == Claimable(rows, {}) - {id} && DrainedTable(rows', versions, w) == DrainedTable(rows, versions, w)
  {
    hide StillDeployable;
    var done := ProcessedRow(rows[id], w, StillDeployable(versions, rows[id]));
    assert done.status != REQUESTED;
    hide ProcessedRow;
  }

  /**
   * One worker, uninterrupted, empties the queue: the run of passes over the oldest requested row ends in exactly the
   * row-by-row outcome of DrainedTable.
   */
  lemma {:induction false} DrainIsARun(s0: State, s: State, w: Id)
    requires Inv(s0) && Recovers(s0, s, w) && s.workers == map[]
    ensures Recovers(s0, s.(rows := DrainedTable(s.rows, s.versions, w)), w)
    decreases |Claimable(s.rows, {})|
  {
    hide Recovers, RowOk, VersionsOk, WorkersOk, CallsOk, ShapeOk, Governed, ProcessedRow, StillDeployable;
    RecoversInv(s0, s, w);
    if Claimable(s.rows, {}) == {} {
      forall i | i in s.rows ensures s.rows[i].status != REQUESTED {
        assert i !in Claimable(s.rows, {});
      }
      assert DrainedTable(s.rows, s.versions, w) == s.rows;
    } else {
      var id := MinId(Claimable(s.rows, {}));
      assert id in Claimable(s.rows, {});
      OnePass(s0, s, w, id);
      PassLeavesRest(s.rows, s.versions, w, id);
      var done := ProcessedRow(s.rows[id], w, StillDeployable(s.versions, s.rows[id]));
      var s' := s.(rows := s.rows[id := done]);
      DrainIsARun(s0, s', w);
      assert s'.(rows := DrainedTable(s.rows, s.versions, w)) == s.(rows := DrainedTable(s.rows, s.versions, w));
    }
  }

  /**
   * The outcome of a drain in any reachable state: every requested row is claimed once and ends SUCCEEDED exactly if its version
   * is not archived and no failure is simulated, otherwise FAILED; every other row is untouched.
   */
  lemma DrainOutcome(s: State, w: Id, id: Id)
    requires Reachable(s) && id in s.rows
    ensures var r, r' := s.rows[id], DrainedTable(s.rows, s.versions, w)[id];
            && (r.status != REQUESTED ==> r' == r)
            && (r.status == REQUESTED ==>
                  r.version in s.versions && r'.worker == Some(w) && r'.attempts == r.attempts + 1 &&
                  r'.status == if s.versions[r.version].stage.Archived? || r.simulateFailure then FAILED else SUCCEEDED)
  {
    ReachableInv(s);
    GateFailsOnlyRetired(s.rows, s.versions, id);
    assert RowGoverned(s.versions, s.rows[id]);
    hide Inv, Reachable;
  }

  // ---------- Crash recovery ----------

  lemma {:induction false} EveryoneDies(s0: State, s: State, w: Id)
    requires Recovers(s0, s, w)
    ensures Recovers(s0, s.(workers := map[]), w)
    decreases |s.workers|
  {
    hide Recovers;
    if u :| u in s.workers {
      RecoversStep(s0, s, Crash(u), w);
      var s' := Apply(s, Crash(u));
      assert s'.workers.Keys == s.workers.Keys - {u};
      assert |s'.workers.Keys| == |s.workers.Keys| - 1;
      EveryoneDies(s0, s', w);
      assert s'.(workers := map[]) == s.(workers := map[]);
    } else {
      assert s.workers == map[];
    }
  }

  /** After the timeout, the reaper misses no held row, because a held row always has its lock time set. */
  lemma ReapedAndDrained(rows: Table, versions: VersionTable, now: nat, w: Id)
    requires RowsOk(rows)
    requires forall i :: i in rows && Held(rows[i]) && rows[i].lockedAt.Some? ==> rows[i].lockedAt.value + TIMEOUT < now
    ensures forall i :: i in rows ==> !Held(ReapTable(rows, Cutoff(now))[i])
    ensures forall i :: i in rows ==> i in DrainedTable(ReapTable(rows, Cutoff(now)), versions, w) &&
                                      !InFlight(DrainedTable(ReapTable(rows, Cutoff(now)), versions, w)[i])
  {
    hide StillDeployable;
    forall i | i in rows ensures !Held(ReapTable(rows, Cutoff(now))[i]) {
      HeldIsLocked(rows[i]) by { assert RowOk(rows[i]); }
    }
    hide RowsOk, ReapTable, Held;
    DrainLeavesNone(ReapTable(rows, Cutoff(now)), versions, w);
  }

  lemma HeldIsLocked(r: Row)
    requires RowOk(r)
    ensures Held(r) ==> r.lockedAt.Some?
    ensures !Held(ReapRow(r))
  {
  }

  lemma DrainLeavesNone(rows: Table, versions: VersionTable, w: Id)
    requires forall i :: i in rows ==> !Held(rows[i])
    ensures forall i :: i in rows ==> i in DrainedTable(rows, versions, w) && !InFlight(DrainedTable(rows, versions, w)[i])
  {
    hide StillDeployable;
  }

  /**
   * Crash recovery. From every reachable state, if all workers die and the clock passes every lease, one reap and
   * one uninterrupted drain by a single worker reach a state where nothing is in flight. No row is lost, and the final
   * table is the drained, reaped table.
   */
  lemma CrashRecovery(s: State, now: nat, w: Id)
    requires Reachable(s) && s.clock <= now
    requires forall i :: i in s.rows && Held(s.rows[i]) && s.rows[i].lockedAt.Some? ==> s.rows[i].lockedAt.value + TIMEOUT < now
    ensures var rows := DrainedTable(ReapTable(s.rows, Cutoff(now)), s.versions, w);
            && Recovers(s, s.(workers := map[], clock := now, rows := rows), w)
            && (forall i :: i in s.rows ==> i in rows && !InFlight(rows[i]))
  {
    ReachableInv(s);
    ReapedAndDrained(s.rows, s.versions, now, w);
    hide Inv, Recovers, Reachable, RowsOk, ReapTable, DrainedTable;
    DieAndReap(s, now, w);
    var reaped := s.(workers := map[], clock := now, rows := ReapTable(s.rows, Cutoff(now)));
    DrainIsARun(s, reaped, w);
    assert reaped.(rows := DrainedTable(reaped.rows, s.versions, w)) ==
           s.(workers := map[], clock := now, rows := DrainedTable(ReapTable(s.rows, Cutoff(now)), s.versions, w));
  }

  lemma DieAndReap(s: State, now: nat, w: Id)
    requires s.clock <= now
    ensures Recovers(s, s.(workers := map[], clock := now, rows := ReapTable(s.rows, Cutoff(now))), w)
  {
    hide Recovers, ReapTable;
    RecoversRefl(s, w);
    EveryoneDies(s, s, w);
    var dead := s.(workers := map[]);
    RecoversStep(s, dead, Tick(now), w);
    assert Apply(dead, Tick(now)) == dead.(clock := now);
    RecoversStep(s, dead.(clock := now), Reap, w);
    assert Apply(dead.(clock := now), Reap) == s.(workers := map[], clock := now, rows := ReapTable(s.rows, Cutoff(now)));
  }
}

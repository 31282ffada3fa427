/** Every step of the protocol keeps the invariant, and what each step may do to the tables. */
module Invariants {
  import opened Common
  import opened Deployments
  import opened Tables
  import opened Protocol
  import V = Versions

  /** What every step achieves: the invariant again, and tables that only evolve. */
  ghost predicate Advances(s: State, s': State) {
    Inv(s') && Evolves(s.rows, s'.rows) && VersionsGrow(s.versions, s'.versions)
  }

  lemma AdvancesInPlace(s: State, s': State)
    requires Inv(s') && s'.rows == s.rows && s'.versions == s.versions
    ensures Advances(s, s')
  {
    hide VersionsOk, TableOk, WorkersOk, CallsOk;
  }

  // ---------- Frames ----------

  lemma VersionsGrowRefl(versions: VersionTable)
    ensures VersionsGrow(versions, versions)
  {
  }

  lemma EvolvesRefl(rows: Table)
    ensures Evolves(rows, rows)
  {
  }

  /** Calls keep what they rely on while the tables evolve around them. */
  lemma CallsFrame(s: State, s': State)
    requires CallsOk(s) && s'.calls.Keys <= s.calls.Keys && (forall c :: c in s'.calls ==> s'.calls[c] == s.calls[c])
    requires Evolves(s.rows, s'.rows) && VersionsGrow(s.versions, s'.versions)
    ensures CallsOk(s')
  {
    forall c | c in s'.calls ensures CallOk(s'.rows, s'.versions, s'.calls[c]) {
      assert CallOk(s.rows, s.versions, s.calls[c]);
      match s.calls[c]
      case Registering(_) =>
      case Creating(_, _, _) =>
      case Inserting(q, m) =>
        V.EverDeployableGrows(s.versions[q.version], s'.versions[q.version], q.environment);
      case RollingBack(id, target) =>
        assert RowEvolves(s.rows[id], s'.rows[id]) && RowEvolves(s.rows[target], s'.rows[target]);
    }
  }

  /** A worker keeps what it relies on when its own row and the clock are left alone. */
  lemma WorkerFrame(s: State, s': State, w: Id)
    requires w in s.workers && w in s'.workers && s'.workers[w] == s.workers[w] && WorkerOk(s, w)
    requires s'.clock == s.clock && VersionsGrow(s.versions, s'.versions)
    requires s.workers[w].id in s'.rows && s'.rows[s.workers[w].id] == s.rows[s.workers[w].id]
    ensures WorkerOk(s', w)
  {
  }

  lemma WorkersFrame(s: State, s': State)
    requires WorkersOk(s) && s'.workers == s.workers && s'.clock == s.clock && VersionsGrow(s.versions, s'.versions)
    requires forall w :: w in s.workers ==> s.workers[w].id in s'.rows && s'.rows[s.workers[w].id] == s.rows[s.workers[w].id]
    ensures WorkersOk(s')
  {
    forall w | w in s'.workers ensures WorkerOk(s', w) {
      WorkerFrame(s, s', w);
    }
  }

  /**
   * Exclusive execution: no two live workers are at the same row, whether selecting it or executing it.
   * Worker identity stamped on the row separates executors, the row lock separates claimers, the status separates both.
   */
  lemma ExclusiveWorkers(s: State, w: Id, u: Id)
    requires WorkersOk(s) && w in s.workers && u in s.workers && w != u
    ensures s.workers[w].id != s.workers[u].id
  {
    assert WorkerOk(s, w) && WorkerOk(s, u);
  }

  // ---------- Registry steps ----------

  /** Any growth of the registry keeps the invariant. */
  lemma RegistryGrows(s: State, s': State)
    requires Inv(s) && s' == s.(models := s'.models, versions := s'.versions, calls := s'.calls)
    requires VersionsOk(s'.versions) && VersionsGrow(s.versions, s'.versions)
    requires s'.calls.Keys <= s.calls.Keys && (forall c :: c in s'.calls ==> s'.calls[c] == s.calls[c])
    ensures Advances(s, s')
  {
    EvolvesRefl(s.rows);
    GovernedGrows(s.rows, s.versions, s'.versions);
    HeldRowsExist(s);
    WorkersFrame(s, s');
    CallsFrame(s, s');
  }

  lemma HeldRowsExist(s: State)
    requires WorkersOk(s)
    ensures forall w :: w in s.workers ==> s.workers[w].id in s.rows
  {
    forall w | w in s.workers ensures s.workers[w].id in s.rows {
      assert WorkerOk(s, w);
    }
  }

  lemma VersionWritten(versions: VersionTable, v: Id, after: V.Version)
    requires VersionsOk(versions) && V.VersionOk(after)
    requires v in versions ==> V.Grows(versions[v], after)
    ensures VersionsOk(versions[v := after]) && VersionsGrow(versions, versions[v := after])
  {
  }

  /** Starting a call that may rely on what it read. */
  lemma CallStep(s: State, s': State, c: Id)
    requires Inv(s) && c in s'.calls && s' == s.(calls := s.calls[c := s'.calls[c]])
    requires CallOk(s.rows, s.versions, s'.calls[c])
    ensures Advances(s, s')
  {
    VersionsGrowRefl(s.versions);
    EvolvesRefl(s.rows);
    HeldRowsExist(s);
    WorkersFrame(s, s');
  }

  lemma ModelStepAdvances(s: State, step: Step)
    requires Inv(s) && Enabled(s, step) && (step.ModelProbe? || step.ModelInsert? || step.VersionCheck?)
    ensures Advances(s, Apply(s, step))
  {
    var s' := Apply(s, step);
    if s' == s {
      AdvancesInPlace(s, s');
      return;
    }
    VersionsGrowRefl(s.versions);
    hide VersionsGrow, VersionsOk, TableOk, WorkersOk, CallsOk, Advances, VersionExists;
    match step
    case ModelProbe(c, _) => CallStep(s, s', c);
    case ModelInsert(_, _) => RegistryGrows(s, s');
    case VersionCheck(c, _, _, _) => CallStep(s, s', c);
  }

  /** One version written, and the call that wrote it ended. */
  lemma VersionStep(s: State, s': State, v: Id, after: V.Version)
    requires Inv(s) && V.VersionOk(after) && (v in s.versions ==> V.Grows(s.versions[v], after))
    requires s' == s.(versions := s.versions[v := after], calls := s'.calls)
    requires s'.calls.Keys <= s.calls.Keys && (forall c :: c in s'.calls ==> s'.calls[c] == s.calls[c])
    ensures Advances(s, s')
  {
    hide V.VersionOk, V.Grows, TableOk, WorkersOk, CallsOk, Advances;
    VersionWritten(s.versions, v, after);
    RegistryGrows(s, s');
  }

  lemma OkVersion(s: State, v: Id)
    requires Inv(s) && v in s.versions
    ensures V.VersionOk(s.versions[v])
  {
  }

  lemma VersionInsertAdvances(s: State, c: Id, id: Id)
    requires Inv(s) && Enabled(s, VersionInsert(c, id))
    ensures Advances(s, Apply(s, VersionInsert(c, id)))
  {
    hide Inv, Advances, VersionExists;
    var Creating(m, version, actor) := s.calls[c];
    V.NewVersionOk(m, version, actor);
    if VersionExists(s.versions, m, version) {
      CallEnds(s, c);
    } else {
      VersionStep(s, Apply(s, VersionInsert(c, id)), id, V.NewVersion(m, version, actor));
    }
  }

  lemma VersionStepAdvances(s: State, step: Step)
    requires Inv(s) && Enabled(s, step) && (step.ApproveVersion? || step.TransitionVersion?)
    ensures Advances(s, Apply(s, step))
  {
    var s' := Apply(s, step);
    hide Inv, Advances, V.VersionOk, V.Grows, V.Approve, V.Transition;
    if s' == s {
      AdvancesInPlace(s, s');
      return;
    }
    OkVersion(s, step.versionId);
    var v := s.versions[step.versionId];
    match step
    case ApproveVersion(id, actor) =>
      V.ApproveOk(v, s.clock, actor);
      VersionStep(s, s', id, V.Approve(v, s.clock, actor).value);
    case TransitionVersion(id, target, actor) =>
      V.TransitionOk(v, target, actor);
      VersionStep(s, s', id, V.Transition(v, target, actor).value);
  }

  // ---------- API steps ----------

  /** A change of rows that no live worker holds keeps the invariant. */
  lemma RowsStep(s: State, s': State)
    requires Inv(s) && s' == s.(rows := s'.rows, calls := s'.calls)
    requires TableOk(s'.rows, s.versions) && Evolves(s.rows, s'.rows)
    requires s'.calls.Keys <= s.calls.Keys && (forall c :: c in s'.calls ==> s'.calls[c] == s.calls[c])
    requires forall w :: w in s.workers && s.workers[w].id in s.rows ==>
               s.workers[w].id in s'.rows && s'.rows[s.workers[w].id] == s.rows[s.workers[w].id]
    ensures Advances(s, s')
  {
    VersionsGrowRefl(s.versions);
    HeldRowsExist(s);
    WorkersFrame(s, s');
    CallsFrame(s, s');
  }

  /** Ending a call without a commit. */
  lemma CallEnds(s: State, c: Id)
    requires Inv(s)
    ensures Advances(s, s.(calls := s.calls - {c}))
  {
    EvolvesRefl(s.rows);
    HeldRowsExist(s);
    RowsStep(s, s.(calls := s.calls - {c}));
  }

  /** A row outside REQUESTED, VALIDATING and DEPLOYING is in no worker's hands. */
  lemma NotHeld(s: State, id: Id)
    requires WorkersOk(s) && id in s.rows && !InFlight(s.rows[id])
    ensures forall w :: w in s.workers ==> s.workers[w].id != id
  {
    forall w | w in s.workers ensures s.workers[w].id != id {
      assert WorkerOk(s, w);
    }
  }

  lemma LookupAdvances(s: State, c: Id, q: Request)
    requires Inv(s) && Enabled(s, RequestLookup(c, q))
    ensures Advances(s, Apply(s, RequestLookup(c, q)))
  {
    var s' := Apply(s, RequestLookup(c, q));
    if s' == s {
      AdvancesInPlace(s, s');
    } else {
      LookupProceeds(s.rows, s.versions, q);
      CallStep(s, s', c);
    }
  }

  lemma InsertAdvances(s: State, c: Id, id: Id)
    requires Inv(s) && Enabled(s, RequestInsert(c, id))
    ensures Advances(s, Apply(s, RequestInsert(c, id)))
  {
    hide TableOk, VersionsOk, LocksExclusive, Evolves;
    assert CallOk(s.rows, s.versions, s.calls[c]);
    var q, m := s.calls[c].request, s.calls[c].model;
    if InsertRequest(s.rows, q, m, id).Ok? {
      InsertOk(s.rows, s.versions, q, m, id);
      RowsStep(s, Apply(s, RequestInsert(c, id)));
    } else {
      CallEnds(s, c);
    }
  }

  lemma RetryAdvances(s: State, id: Id)
    requires Inv(s)
    ensures Advances(s, Apply(s, Retry(id)))
  {
    hide TableOk, VersionsOk, CallsOk, Evolves;
    if RetryDeployment(s.rows, id).Ok? {
      RetryOk(s.rows, s.versions, id);
      NotHeld(s, id);
      RowsStep(s, Apply(s, Retry(id)));
    } else {
      AdvancesInPlace(s, Apply(s, Retry(id)));
    }
  }

  lemma RollbackReadAdvances(s: State, c: Id, id: Id)
    requires Inv(s) && Enabled(s, RollbackRead(c, id))
    ensures Advances(s, Apply(s, RollbackRead(c, id)))
  {
    var s' := Apply(s, RollbackRead(c, id));
    if s' == s {
      AdvancesInPlace(s, s');
    } else {
      TargetPointsBack(s.rows, id);
      CallStep(s, s', c);
    }
  }

  lemma RollbackCommitAdvances(s: State, c: Id)
    requires Inv(s) && Enabled(s, RollbackCommit(c))
    ensures Advances(s, Apply(s, RollbackCommit(c)))
  {
    hide TableOk, VersionsOk, LocksExclusive, Evolves;
    assert CallOk(s.rows, s.versions, s.calls[c]);
    RollbackOk(s.rows, s.versions, s.calls[c].id, s.calls[c].target);
    NotHeld(s, s.calls[c].id);
    RowsStep(s, Apply(s, RollbackCommit(c)));
  }

  // ---------- Worker steps ----------

  /** A worker's move on its own row: the other workers are elsewhere. */
  lemma WorkersMoved(s: State, s': State, w: Id)
    requires WorkersOk(s) && w in s.workers && s.workers[w].id in s.rows
    requires s'.clock == s.clock && s'.versions == s.versions
    requires s'.rows.Keys == s.rows.Keys && (forall i :: i in s.rows && i != s.workers[w].id ==> s'.rows[i] == s.rows[i])
    requires s'.workers == (if w in s'.workers then s.workers[w := s'.workers[w]] else s.workers - {w})
    requires w in s'.workers ==> !s'.workers[w].Selecting? && WorkerOk(s', w)
    ensures WorkersOk(s')
  {
    VersionsGrowRefl(s.versions);
    forall u | u in s'.workers ensures WorkerOk(s', u) {
      if u != w {
        ExclusiveWorkers(s, w, u);
        assert WorkerOk(s, u);
        WorkerFrame(s, s', u);
      }
    }
  }

  lemma WorkerStep(s: State, s': State, w: Id)
    requires Inv(s) && w in s.workers && s.workers[w].id in s.rows
    requires s' == s.(rows := s'.rows, workers := s'.workers)
    requires s'.rows.Keys == s.rows.Keys && (forall i :: i in s.rows && i != s.workers[w].id ==> s'.rows[i] == s.rows[i])
    requires TableOk(s'.rows, s.versions) && Evolves(s.rows, s'.rows)
    requires s'.workers == (if w in s'.workers then s.workers[w := s'.workers[w]] else s.workers - {w})
    requires w in s'.workers ==> !s'.workers[w].Selecting? && WorkerOk(s', w)
    ensures Advances(s, s')
  {
    VersionsGrowRefl(s.versions);
    WorkersMoved(s, s', w);
    CallsFrame(s, s');
  }

  lemma RowOfTable(s: State, id: Id)
    requires Inv(s) && id in s.rows
    ensures RowOk(s.rows[id])
  {
  }

  /** The selected row is requested, and nobody else has it locked. */
  lemma SelectedRow(s: State, id: Id)
    requires Claimable(s.rows, Locked(s)) != {} && id == MinId(Claimable(s.rows, Locked(s)))
    ensures id in s.rows && s.rows[id].status == REQUESTED
    ensures forall u :: u in s.workers && s.workers[u].Selecting? ==> s.workers[u].id != id
  {
    assert id in Claimable(s.rows, Locked(s));
    forall u | u in s.workers && s.workers[u].Selecting? ensures s.workers[u].id != id {
      assert s.workers[u].id in Locked(s);
    }
  }

  lemma SelectedWorkers(s: State, w: Id)
    requires WorkersOk(s) && RowsOk(s.rows) && Enabled(s, ClaimSelect(w))
    ensures WorkersOk(Apply(s, ClaimSelect(w)))
  {
    var id := MinId(Claimable(s.rows, Locked(s)));
    SelectedRow(s, id);
    assert RowOk(s.rows[id]);
    WorkerJoins(s, w, id);
  }

  /** A new claimer joins the workers at a requested row nobody else has locked. */
  lemma WorkerJoins(s: State, w: Id, id: Id)
    requires WorkersOk(s) && w !in s.workers
    requires id in s.rows && s.rows[id].status == REQUESTED && |s.rows[id].events| > 0
    requires forall u :: u in s.workers && s.workers[u].Selecting? ==> s.workers[u].id != id
    ensures WorkersOk(s.(workers := s.workers[w := Selecting(id)]))
  {
    var s' := s.(workers := s.workers[w := Selecting(id)]);
    VersionsGrowRefl(s.versions);
    forall u | u in s'.workers ensures WorkerOk(s', u) {
      if u != w {
        assert WorkerOk(s, u);
        WorkerFrame(s, s', u);
      }
    }
  }

  /** SKIP LOCKED keeps the row locks exclusive. */
  lemma SelectAdvances(s: State, w: Id)
    requires Inv(s) && Enabled(s, ClaimSelect(w))
    ensures Advances(s, Apply(s, ClaimSelect(w)))
  {
    SelectedWorkers(s, w);
    AdvancesInPlace(s, Apply(s, ClaimSelect(w)));
  }

  lemma ClaimAdvances(s: State, w: Id)
    requires Inv(s) && Enabled(s, ClaimCommit(w))
    ensures Advances(s, Apply(s, ClaimCommit(w)))
  {
    hide TableOk, VersionsOk, CallsOk, Evolves;
    var id := s.workers[w].id;
    assert WorkerOk(s, w);
    RowOfTable(s, id);
    ClaimRowOk(s.rows[id], w, s.clock);
    ClaimOk(s.rows, s.versions, id, w, s.clock);
    WorkerStep(s, Apply(s, ClaimCommit(w)), w);
  }

  lemma StartAdvances(s: State, w: Id)
    requires Inv(s) && Enabled(s, StartValidation(w))
    ensures Advances(s, Apply(s, StartValidation(w)))
  {
    hide TableOk, VersionsOk, CallsOk, Evolves;
    var id := s.workers[w].id;
    assert WorkerOk(s, w);
    RowOfTable(s, id);
    StartRowOk(s.rows[id]);
    StartOk(s.rows, s.versions, id);
    WorkerStep(s, Apply(s, StartValidation(w)), w);
  }

  lemma GateAdvances(s: State, w: Id)
    requires Inv(s) && Enabled(s, CheckGate(w))
    ensures Advances(s, Apply(s, CheckGate(w)))
  {
    assert WorkerOk(s, w);
    GateFailsOnlyRetired(s.rows, s.versions, s.workers[w].id);
    WorkersMoved(s, Apply(s, CheckGate(w)), w);
    AdvancesInPlace(s, Apply(s, CheckGate(w)));
  }

  lemma DecisionAdvances(s: State, w: Id)
    requires Inv(s) && Enabled(s, CommitDecision(w))
    ensures Advances(s, Apply(s, CommitDecision(w)))
  {
    hide TableOk, VersionsOk, CallsOk, Evolves;
    var id := s.workers[w].id;
    assert WorkerOk(s, w);
    if s.workers[w].deployable {
      DeployOk(s.rows, s.versions, id);
    } else {
      GateFailOk(s.rows, s.versions, id);
    }
    WorkerStep(s, Apply(s, CommitDecision(w)), w);
  }

  lemma FinishAdvances(s: State, w: Id)
    requires Inv(s) && Enabled(s, Finish(w))
    ensures Advances(s, Apply(s, Finish(w)))
  {
    hide TableOk, VersionsOk, CallsOk, Evolves;
    assert WorkerOk(s, w);
    FinishOk(s.rows, s.versions, s.workers[w].id);
    WorkerStep(s, Apply(s, Finish(w)), w);
  }

  lemma CrashAdvances(s: State, w: Id)
    requires Inv(s) && Enabled(s, Crash(w))
    ensures Advances(s, Apply(s, Crash(w)))
  {
    assert WorkerOk(s, w);
    WorkersMoved(s, Apply(s, Crash(w)), w);
    AdvancesInPlace(s, Apply(s, Crash(w)));
  }

  // ---------- Recovery and time ----------

  /** Under the lease, the reaper only takes rows whose worker is gone. */
  lemma ReaperSparesLiveWorkers(s: State, w: Id)
    requires WorkersOk(s) && w in s.workers
    ensures s.workers[w].id in s.rows && s.workers[w].id !in StuckIds(s.rows, Cutoff(s.clock))
  {
    assert WorkerOk(s, w);
  }

  lemma ReapAdvances(s: State)
    requires Inv(s)
    ensures Advances(s, Apply(s, Reap))
  {
    ReapOk(s.rows, s.versions, Cutoff(s.clock));
    hide VersionsOk, TableOk, CallsOk, Evolves, ReapRow;
    forall w | w in s.workers && s.workers[w].id in s.rows ensures !Stuck(s.rows[s.workers[w].id], Cutoff(s.clock)) {
      ReaperSparesLiveWorkers(s, w);
    }
    RowsStep(s, Apply(s, Reap));
  }

  lemma TickAdvances(s: State, now: nat)
    requires Inv(s) && Enabled(s, Tick(now))
    ensures Advances(s, Apply(s, Tick(now)))
  {
    hide VersionsOk, TableOk;
    var s' := Apply(s, Tick(now));
    forall w | w in s'.workers ensures WorkerOk(s', w) {
      assert WorkerOk(s, w);
    }
    AdvancesInPlace(s, s');
  }

  // ---------- The main results ----------

  /**
   * One step: the invariant holds again, rows and versions only evolve.
   * Only the insert and the retry consult the uniqueness index, so every other commit keeps it unaided.
   */
  lemma StepAdvances(s: State, step: Step)
    requires Inv(s) && Enabled(s, step)
    ensures Advances(s, Apply(s, step))
  {
    hide Advances, Inv, Enabled;
    match step
    case ModelProbe(_, _) => ModelStepAdvances(s, step);
    case ModelInsert(_, _) => ModelStepAdvances(s, step);
    case VersionCheck(_, _, _, _) => ModelStepAdvances(s, step);
    case VersionInsert(c, id) => VersionInsertAdvances(s, c, id);
    case ApproveVersion(_, _) => VersionStepAdvances(s, step);
    case TransitionVersion(_, _, _) => VersionStepAdvances(s, step);
    case RequestLookup(c, q) => LookupAdvances(s, c, q);
    case RequestInsert(c, id) => InsertAdvances(s, c, id);
    case Retry(id) => RetryAdvances(s, id);
    case RollbackRead(c, id) => RollbackReadAdvances(s, c, id);
    case RollbackCommit(c) => RollbackCommitAdvances(s, c);
    case Hangup(c) => CallEnds(s, c);
    case ClaimSelect(w) => SelectAdvances(s, w);
    case ClaimCommit(w) => ClaimAdvances(s, w);
    case StartValidation(w) => StartAdvances(s, w);
    case CheckGate(w) => GateAdvances(s, w);
    case CommitDecision(w) => DecisionAdvances(s, w);
    case Finish(w) => FinishAdvances(s, w);
    case Crash(w) => CrashAdvances(s, w);
    case Reap => ReapAdvances(s);
    case Tick(now) => TickAdvances(s, now);
  }

  lemma VersionsGrowTransitive(a: VersionTable, b: VersionTable, c: VersionTable)
    requires VersionsGrow(a, b) && VersionsGrow(b, c)
    ensures VersionsGrow(a, c)
  {
  }

  /** Any run, from any state that satisfies the invariant. */
  lemma {:induction false} RunAdvances(s: State, steps: seq<Step>)
    requires Inv(s) && IsRun(s, steps)
    ensures Advances(s, After(s, steps))
  {
    if steps == [] {
      AdvancesInPlace(s, s);
    } else {
      var n := |steps| - 1;
      RunAdvances(s, steps[..n]);
      var before := After(s, steps[..n]);
      StepAdvances(before, steps[n]);
      EvolvesTransitive(s.rows, before.rows, After(s, steps).rows);
      VersionsGrowTransitive(s.versions, before.versions, After(s, steps).versions);
    }
  }

  lemma ReachesAdvances(s: State, t: State)
    requires Inv(s) && Reaches(s, t)
    ensures Advances(s, t)
  {
    var steps :| Run(s, steps) == Some(t);
    RunAdvances(s, steps);
  }

  /** What any run does to one row. */
  lemma RowAfter(s: State, t: State, id: Id)
    requires Inv(s) && Reaches(s, t) && id in s.rows
    ensures Inv(t) && id in t.rows
    ensures RowOk(s.rows[id]) && RowOk(t.rows[id])
    ensures RowEvolves(s.rows[id], t.rows[id])
  {
    hide Reaches, VersionsOk, WorkersOk, CallsOk, ShapeOk, Governed;
    ReachesAdvances(s, t);
  }

  lemma InitInv()
    ensures Inv(INIT)
  {
  }

  lemma ReachableInv(s: State)
    requires Reachable(s)
    ensures Inv(s)
  {
    InitInv();
    ReachesAdvances(INIT, s);
  }
}

/** What the lifecycle guarantees about deployments, over whole runs of both state machines. */
module Governance {
  import opened Common
  import opened Lifecycle
  import opened DeploymentPolicy
  import opened Deployments
  import opened Tables
  import opened Protocol
  import opened Invariants
  import V = Versions

  /**
   * Every deployment, in any status, belongs to a version of its model whose trail reached the environment's matching
   * stage. Outside development, that version was approved, and its approver is the actor of an approval in the trail.
   */
  lemma DeploymentsAreGoverned(s: State, id: Id)
    requires Reachable(s) && id in s.rows
    ensures var r := s.rows[id];
            && r.version in s.versions && s.versions[r.version].model == r.model
            && V.Reached(s.versions[r.version], MatchingStage(r.environment))
            && (r.environment != DevelopmentEnv ==>
                  s.versions[r.version].approvedBy.Some? &&
                  V.HasApproval(s.versions[r.version], s.versions[r.version].approvedBy.value))
  {
    ReachableInv(s);
    var r := s.rows[id];
    assert RowGoverned(s.versions, r);
    V.EverDeployableReached(s.versions[r.version], r.environment);
    if r.environment != DevelopmentEnv {
      V.EverDeployableApproved(s.versions[r.version], r.environment);
    }
  }

  /** When a worker re-checks the gate, it fails exactly if the version was archived since the request. */
  lemma GateFailsIffArchived(s: State, w: Id)
    requires Reachable(s) && Enabled(s, CheckGate(w))
    ensures var r := s.rows[s.workers[w].id];
            r.version in s.versions &&
            (Apply(s, CheckGate(w)).workers[w] == Decided(s.workers[w].id, s.versions[r.version].stage != Archived))
  {
    ReachableInv(s);
    GateFailsOnlyRetired(s.rows, s.versions, s.workers[w].id);
    assert RowGoverned(s.versions, s.rows[s.workers[w].id]);
  }

  /** A gate failure in a row's history means its version is archived now, and after every later run. */
  lemma GateFailureMeansArchived(s: State, t: State, id: Id, k: nat)
    requires Reachable(s) && id in s.rows && k < |s.rows[id].events|
    requires s.rows[id].events[k].name == ApprovalValidationFailed && Reaches(s, t)
    ensures s.rows[id].version in s.versions && s.versions[s.rows[id].version].stage == Archived
    ensures s.rows[id].version in t.versions
    ensures t.versions[s.rows[id].version] == s.versions[s.rows[id].version]
  {
    ReachableInv(s);
    assert RowGoverned(s.versions, s.rows[id]);
    assert Retired(s.versions, s.rows[id].version);
    ReachesAdvances(s, t);
  }

  /** Every version's trail is a gap-free legal chain that ends at its stage; approval holds iff the trail shows it. */
  lemma TrailReplays(s: State, v: Id)
    requires Reachable(s) && v in s.versions
    ensures V.Replays(s.versions[v])
    ensures s.versions[v].IsApproved() <==> exists a :: V.HasApproval(s.versions[v], a)
    ensures s.versions[v].stage != Archived ==> |s.versions[v].events| == Rank(s.versions[v].stage) + 1
  {
    ReachableInv(s);
    assert V.VersionOk(s.versions[v]);
    V.TrailShape(s.versions[v], |s.versions[v].events| - 1);
  }

  /** Only approve_version ever moves a version into APPROVED: in reachable states the generic transition refuses. */
  lemma OnlyApprovalApproves(s: State, step: Step, v: Id)
    requires Reachable(s) && Enabled(s, step) && v in s.versions && s.versions[v].stage != Approved
    requires v in Apply(s, step).versions && Apply(s, step).versions[v].stage == Approved
    ensures step.ApproveVersion? && step.versionId == v && s.versions[v].stage == Validated
    ensures Apply(s, step).versions[v].approvedBy == Some(step.actor)
  {
    ReachableInv(s);
    assert V.VersionOk(s.versions[v]);
    hide Inv, Reachable, Enabled, Apply, V.VersionOk, V.Approve, V.Transition;
    var before := s.versions[v];
    VersionWrites(s, step, v);
    match step
    case ApproveVersion(_, actor) => V.ApproveOk(before, s.clock, actor);
    case TransitionVersion(_, target, actor) => V.TransitionOk(before, target, actor);
    case _ =>
  }

  /** Only an approval or a transition of a version rewrites it. */
  lemma VersionWrites(s: State, step: Step, v: Id)
    requires Enabled(s, step) && v in s.versions && v in Apply(s, step).versions
    ensures Apply(s, step).versions[v] ==
            match step
            case ApproveVersion(id, actor) =>
              var r := V.Approve(s.versions[v], s.clock, actor);
              if id == v && r.Ok? then r.value else s.versions[v]
            case TransitionVersion(id, target, actor) =>
              var r := V.Transition(s.versions[v], target, actor);
              if id == v && r.Ok? then r.value else s.versions[v]
            case _ => s.versions[v]
  {
    hide InsertRequest, RetryDeployment, RollbackTarget, LookupRequest, ReapTable, LeaseHolds, Claimable, MinId, VersionExists;
    hide V.Approve, V.Transition, V.NewVersion, StillDeployable, ClaimRow, StartRow, DeployRow, FailRow, FinishRow, RollbackRow;
  }

  /**
   * Model keys are distinct and fit their column; every version belongs to a registered model, and no two versions of
   * a model carry the same version string.
   */
  ghost predicate RegistryConsistent(s: State) {
    && KeysOk(s.models)
    && (forall v :: v in s.versions ==> s.versions[v].model in s.models)
    && (forall c :: c in s.calls && s.calls[c].Creating? ==> s.calls[c].model in s.models)
    && (forall u, v :: u in s.versions && v in s.versions && u != v ==>
          s.versions[u].model != s.versions[v].model || s.versions[u].version != s.versions[v].version)
  }

  ghost predicate KeysOk(models: map<Id, string>) {
    && (forall m :: m in models ==> |models[m]| <= MAX_KEY_LENGTH)
    && (forall m, n :: m in models && n in models && m != n ==> models[m] != models[n])
  }

  lemma KeyAdded(models: map<Id, string>, id: Id, key: string)
    requires KeysOk(models) && key !in models.Values && |key| <= MAX_KEY_LENGTH
    ensures KeysOk(models[id := key])
  {
    assert forall m :: m in models ==> models[m] in models.Values;
  }

  /** Outside the two registry inserts, the registry keeps its models and its version ids. */
  lemma RegistryStep(s: State, step: Step)
    requires Enabled(s, step)
    ensures !step.ModelInsert? ==> Apply(s, step).models == s.models
    ensures !step.VersionInsert? ==> Apply(s, step).versions.Keys == s.versions.Keys
  {
    hide InsertRequest, RetryDeployment, RollbackTarget, LookupRequest, ReapTable, LeaseHolds, Claimable, MinId, VersionExists;
    hide V.Approve, V.Transition, V.NewVersion, StillDeployable, ClaimRow, StartRow, DeployRow, FailRow, FinishRow, RollbackRow;
  }

  lemma CheckedCreation(s: State, step: Step, c: Id)
    requires Enabled(s, step) && c in Apply(s, step).calls && Apply(s, step).calls[c].Creating?
    ensures (c in s.calls && Apply(s, step).calls[c] == s.calls[c]) || Apply(s, step).calls[c].model in s.models
  {
    hide InsertRequest, RetryDeployment, RollbackTarget, LookupRequest, ReapTable, LeaseHolds, Claimable, MinId, VersionExists;
  }

  /** The unique key of models, at the insert: the probe before it may be out of date by then. */
  lemma ModelInserted(s: State, c: Id, id: Id)
    requires RegistryConsistent(s) && Enabled(s, ModelInsert(c, id))
    ensures RegistryConsistent(Apply(s, ModelInsert(c, id)))
  {
    var key := s.calls[c].key;
    if key !in s.models.Values && |key| <= MAX_KEY_LENGTH {
      KeyAdded(s.models, id, key);
    }
    hide KeysOk, VersionExists;
  }

  /** The unique (model, version), at the insert: the duplicate check before it may be out of date by then. */
  lemma VersionInserted(s: State, c: Id, id: Id)
    requires RegistryConsistent(s) && Enabled(s, VersionInsert(c, id))
    ensures RegistryConsistent(Apply(s, VersionInsert(c, id)))
  {
    hide KeysOk;
    var s' := Apply(s, VersionInsert(c, id));
    assert s'.models == s.models;
    forall u, v | u in s'.versions && v in s'.versions && u != v
      ensures s'.versions[u].model != s'.versions[v].model || s'.versions[u].version != s'.versions[v].version
    {
    }
  }

  /**
   * In every run from the empty store the registry is consistent, although the checks of two creations can both come
   * before either insert.
   */
  lemma {:induction false} RegistryStaysConsistent(steps: seq<Step>)
    requires IsRun(INIT, steps)
    ensures RegistryConsistent(After(INIT, steps))
  {
    if steps != [] {
      var n := |steps| - 1;
      var before := After(INIT, steps[..n]);
      RegistryStaysConsistent(steps[..n]);
      InitInv();
      RunAdvances(INIT, steps[..n]);
      StepAdvances(before, steps[n]);
      hide Inv, Enabled, Apply, Run, RegistryConsistent;
      match steps[n]
      case ModelInsert(c, id) => ModelInserted(before, c, id);
      case VersionInsert(c, id) => VersionInserted(before, c, id);
      case _ =>
        RegistryStep(before, steps[n]);
        forall c | c in After(INIT, steps).calls && After(INIT, steps).calls[c].Creating?
          ensures (c in before.calls && After(INIT, steps).calls[c] == before.calls[c]) || After(INIT, steps).calls[c].model in before.models
        {
          CheckedCreation(before, steps[n], c);
        }
        hide IsRun;
        ConsistentStep(before, After(INIT, steps));
    }
  }

  /** A step that registers nothing keeps the registry consistent. */
  lemma ConsistentStep(s: State, s': State)
    requires RegistryConsistent(s) && VersionsGrow(s.versions, s'.versions) && s.models == s'.models
    requires s'.versions.Keys == s.versions.Keys
    requires forall c :: c in s'.calls && s'.calls[c].Creating? ==>
               (c in s.calls && s'.calls[c] == s.calls[c]) || s'.calls[c].model in s.models
    ensures RegistryConsistent(s')
  {
    hide KeysOk;
    assert forall v :: v in s.versions ==> V.Grows(s.versions[v], s'.versions[v]);
  }
}

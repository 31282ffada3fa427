/** Where rows, versions and trail entries come from: every one of them goes back to a call made in the run. */
module Provenance {
  import opened Common
  import opened Lifecycle
  import opened Deployments
  import opened Tables
  import opened Protocol
  import opened Invariants
  import opened Effects
  import Governance
  import V = Versions

  // ---------- Calls ----------

  /** The call is the continuation of this step. */
  predicate Begun(step: Step, c: Call) {
    match c
    case Registering(key) => step.ModelProbe? && step.key == key
    case Creating(m, version, actor) =>
      step.VersionCheck? && step.model == m && step.version == version && step.actor == actor
    case Inserting(q, _) => step.RequestLookup? && step.request == q
    case RollingBack(id, _) => step.RollbackRead? && step.id == id
  }

  ghost predicate BegunIn(steps: seq<Step>, c: Call) {
    exists k :: 0 <= k < |steps| && Begun(steps[k], c)
  }

  lemma BegunBefore(steps: seq<Step>, c: Call)
    requires |steps| > 0 && (BegunIn(steps[..|steps| - 1], c) || Begun(steps[|steps| - 1], c))
    ensures BegunIn(steps, c)
  {
    if BegunIn(steps[..|steps| - 1], c) {
      var k :| 0 <= k < |steps| - 1 && Begun(steps[..|steps| - 1][k], c);
      assert steps[k] == steps[..|steps| - 1][k];
    }
  }

  /** A call goes on as it was, or the step begins it; a request is then admitted with the model of its version. */
  lemma CallsBegin(s: State, step: Step, c: Id)
    requires Enabled(s, step) && c in Apply(s, step).calls
    ensures (c in s.calls && Apply(s, step).calls[c] == s.calls[c]) || Begun(step, Apply(s, step).calls[c])
  {
    hide InsertRequest, RetryDeployment, RollbackTarget, LookupRequest, ReapTable, StillDeployable, LeaseHolds, MinId, Claimable, Locked;
    hide ClaimRow, StartRow, DeployRow, FailRow, FinishRow, RollbackRow, V.Approve, V.Transition, V.NewVersion, VersionExists;
  }

  lemma {:induction false} CallsWereBegun(s: State, steps: seq<Step>, c: Id)
    requires IsRun(s, steps) && s.calls == map[] && c in After(s, steps).calls
    ensures BegunIn(steps, After(s, steps).calls[c])
  {
    hide Enabled, Apply, BegunIn, Begun;
    if steps != [] {
      var n := |steps| - 1;
      var before := After(s, steps[..n]);
      CallsBegin(before, steps[n], c);
      if c in before.calls && After(s, steps).calls[c] == before.calls[c] {
        CallsWereBegun(s, steps[..n], c);
      }
      BegunBefore(steps, After(s, steps).calls[c]);
    }
  }

  // ---------- Deployments ----------

  /** What a deployment's row says was asked for. */
  function AskedFor(r: Row): Request {
    Request(r.version, r.environment, r.key, r.simulateFailure)
  }

  ghost predicate AskedIn(steps: seq<Step>, q: Request) {
    exists k :: 0 <= k < |steps| && steps[k].RequestLookup? && steps[k].request == q
  }

  lemma AskedBefore(steps: seq<Step>, q: Request)
    requires |steps| > 0 && AskedIn(steps[..|steps| - 1], q)
    ensures AskedIn(steps, q)
  {
    var k :| 0 <= k < |steps| - 1 && steps[..|steps| - 1][k].RequestLookup? && steps[..|steps| - 1][k].request == q;
    assert steps[k] == steps[..|steps| - 1][k];
  }

  /** Every deployment is the outcome of a request made for exactly its version, environment, key and failure flag. */
  lemma {:induction false} EveryRowWasRequested(steps: seq<Step>, id: Id)
    requires IsRun(INIT, steps) && id in After(INIT, steps).rows
    ensures AskedIn(steps, AskedFor(After(INIT, steps).rows[id]))
  {
    hide Inv, Enabled, Apply, AskedIn, BegunIn;
    if steps != [] {
      var n := |steps| - 1;
      var before := After(INIT, steps[..n]);
      if id in before.rows {
        InitInv();
        RunAdvances(INIT, steps[..n]);
        RowOfStep(before, steps[n], id);
        EveryRowWasRequested(steps[..n], id);
      } else {
        NewRowRequested(before, steps[n], id);
        CallsWereBegun(INIT, steps[..n], steps[n].call);
        RequestBegun(steps[..n], before.calls[steps[n].call]);
      }
      AskedBefore(steps, AskedFor(After(INIT, steps).rows[id]));
    }
  }

  lemma RequestBegun(steps: seq<Step>, c: Call)
    requires BegunIn(steps, c) && c.Inserting?
    ensures AskedIn(steps, c.request)
  {
    var k :| 0 <= k < |steps| && Begun(steps[k], c);
    assert steps[k].RequestLookup? && steps[k].request == c.request;
  }

  // ---------- Versions ----------

  /** The step is the call that put this event into the trail of this version. */
  predicate Authored(step: Step, v: Id, version: V.Version, e: V.VersionEvent) {
    match e.name
    case Created =>
      step.VersionCheck? && step.model == version.model && step.version == version.version && step.actor == e.actor
    case ApprovedEvent => step.ApproveVersion? && step.versionId == v && step.actor == e.actor
    case _ => step.TransitionVersion? && step.versionId == v && step.actor == e.actor && step.target == e.to
  }

  ghost predicate AuthoredIn(steps: seq<Step>, v: Id, version: V.Version, e: V.VersionEvent) {
    exists k :: 0 <= k < |steps| && Authored(steps[k], v, version, e)
  }

  lemma AuthoredBefore(steps: seq<Step>, v: Id, version: V.Version, version': V.Version, e: V.VersionEvent)
    requires |steps| > 0 && version'.model == version.model && version'.version == version.version
    requires AuthoredIn(steps[..|steps| - 1], v, version, e) || Authored(steps[|steps| - 1], v, version, e)
    ensures AuthoredIn(steps, v, version', e)
  {
    if AuthoredIn(steps[..|steps| - 1], v, version, e) {
      var k :| 0 <= k < |steps| - 1 && Authored(steps[..|steps| - 1][k], v, version, e);
      assert steps[k] == steps[..|steps| - 1][k];
      assert Authored(steps[k], v, version', e);
    } else {
      assert Authored(steps[|steps| - 1], v, version', e);
    }
  }

  /** A step that changes a version appends one event in the name of its caller, and approves with the caller and the time. */
  lemma StepSigns(s: State, step: Step, v: Id)
    requires Reachable(s) && Enabled(s, step) && v in s.versions
    ensures v in Apply(s, step).versions
    ensures var before, after := s.versions[v], Apply(s, step).versions[v];
            after == before ||
            ((step.ApproveVersion? || step.TransitionVersion?) && step.versionId == v &&
             V.Moved(before, after, if step.ApproveVersion? then Approved else step.target, step.actor) &&
             after.approvedAt == (if step.ApproveVersion? then Some(s.clock) else before.approvedAt) &&
             after.approvedBy == (if step.ApproveVersion? then Some(step.actor) else before.approvedBy))
  {
    ReachableInv(s);
    hide Reachable;
    VersionSigned(s, step, v);
  }

  lemma VersionSigned(s: State, step: Step, v: Id)
    requires Inv(s) && Enabled(s, step) && v in s.versions
    ensures v in Apply(s, step).versions
    ensures var before, after := s.versions[v], Apply(s, step).versions[v];
            after == before ||
            ((step.ApproveVersion? || step.TransitionVersion?) && step.versionId == v &&
             V.Moved(before, after, if step.ApproveVersion? then Approved else step.target, step.actor) &&
             (step.TransitionVersion? ==> step.target != Approved) &&
             after.approvedAt == (if step.ApproveVersion? then Some(s.clock) else before.approvedAt) &&
             after.approvedBy == (if step.ApproveVersion? then Some(step.actor) else before.approvedBy))
  {
    hide Inv, Apply, Enabled, V.Moved, V.Approve, V.Transition, V.VersionOk;
    OkVersion(s, v);
    StepAdvances(s, step);
    var before := s.versions[v];
    Governance.VersionWrites(s, step, v);
    match step
    case ApproveVersion(_, actor) => V.MoveRecordsCaller(before, Approved, s.clock, actor);
    case TransitionVersion(_, target, actor) =>
      V.TransitionNeverApproves(before, actor);
      V.MoveRecordsCaller(before, target, s.clock, actor);
    case _ =>
  }

  /** A new version is the one a pending creation asked for. */
  lemma NewVersionAsked(s: State, step: Step, v: Id)
    requires Enabled(s, step) && v in Apply(s, step).versions && v !in s.versions
    ensures step.VersionInsert? && step.id == v && step.call in s.calls && s.calls[step.call].Creating?
    ensures var made, asked := Apply(s, step).versions[v], s.calls[step.call];
            && made.model == asked.model && made.version == asked.version && made.stage == Draft
            && made.approvedAt == None && made.approvedBy == None
            && made.events == [V.VersionEvent(V.Created, None, Draft, asked.actor)]
  {
    Governance.RegistryStep(s, step);
    hide VersionExists, V.NewVersion;
    if step.VersionInsert? {
      V.NewVersionIs(s.calls[step.call].model, s.calls[step.call].version, s.calls[step.call].actor);
    }
  }

  /**
   * Every entry of every audit trail was made by a call of the user it names: the creation by whoever asked for this
   * version of this model, an approval by an approver, any other move by whoever asked for that stage.
   */
  lemma {:induction false} EveryEventHasItsAuthor(steps: seq<Step>, v: Id, i: nat)
    requires IsRun(INIT, steps) && v in After(INIT, steps).versions && i < |After(INIT, steps).versions[v].events|
    ensures AuthoredIn(steps, v, After(INIT, steps).versions[v], After(INIT, steps).versions[v].events[i])
  {
    hide Inv, Enabled, Apply, AuthoredIn, Authored, BegunIn;
    if steps != [] {
      var n := |steps| - 1;
      var before, after := After(INIT, steps[..n]), After(INIT, steps).versions[v];
      if v in before.versions {
        InitInv();
        RunAdvances(INIT, steps[..n]);
        VersionSigned(before, steps[n], v);
        if i < |before.versions[v].events| {
          EveryEventHasItsAuthor(steps[..n], v, i);
          assert after.events[i] == before.versions[v].events[i];
        } else {
          LastMoveAuthored(before.versions[v], after, steps[n], v);
        }
        AuthoredBefore(steps, v, before.versions[v], after, after.events[i]);
      } else {
        NewVersionAsked(before, steps[n], v);
        CallsWereBegun(INIT, steps[..n], steps[n].call);
        CreationBegun(steps[..n], before.calls[steps[n].call], v, after);
        AuthoredBefore(steps, v, after, after, after.events[i]);
      }
    }
  }

  lemma LastMoveAuthored(before: V.Version, after: V.Version, step: Step, v: Id)
    requires (step.ApproveVersion? || (step.TransitionVersion? && step.target != Approved)) && step.versionId == v
    requires V.Moved(before, after, if step.ApproveVersion? then Approved else step.target, step.actor)
    ensures |after.events| == |before.events| + 1 && Authored(step, v, before, after.events[|before.events|])
  {
  }

  lemma CreationBegun(steps: seq<Step>, c: Call, v: Id, version: V.Version)
    requires BegunIn(steps, c) && c.Creating? && version.model == c.model && version.version == c.version
    requires version.events == [V.VersionEvent(V.Created, None, Draft, c.actor)]
    ensures AuthoredIn(steps, v, version, version.events[0])
  {
    var k :| 0 <= k < |steps| && Begun(steps[k], c);
    assert Authored(steps[k], v, version, version.events[0]);
  }
}

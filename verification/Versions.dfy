/** Model versions as values, their three updates (services/model_service.py), and what their audit trails say. */
module Versions {
  import opened Common
  import opened Lifecycle
  import opened DeploymentPolicy

  datatype VersionEventName = Created | ValidatedEvent | ApprovedEvent | Promoted | ArchivedEvent

  datatype VersionEvent = VersionEvent(name: VersionEventName, from: Option<Stage>, to: Stage, actor: Id)

  datatype Version = Version(
    model: Id,
    version: string,
    stage: Stage,
    approvedAt: Option<nat>,
    approvedBy: Option<Id>,
    events: seq<VersionEvent>)
  {
    /** The derived approval flag of models/model.py. */
    predicate IsApproved() {
      approvedAt.Some?
    }
  }

  function EventName(from: Option<Stage>, to: Stage): VersionEventName {
    if to == Archived then ArchivedEvent
    else if from.None? then Created
    else if to == Approved then ApprovedEvent
    else if to == Validated then ValidatedEvent
    else Promoted
  }

  function RecordVersionEvent(v: Version, from: Option<Stage>, to: Stage, actor: Id): Version {
    v.(events := v.events + [VersionEvent(EventName(from, to), from, to, actor)])
  }

  function NewVersion(model: Id, version: string, actor: Id): Version {
    RecordVersionEvent(Version(model, version, Draft, None, None, []), None, Draft, actor)
  }

  function Approve(v: Version, now: nat, actor: Id): Result<Version> {
    match ValidateTransition(v.stage, Approved, true)
    case Some(e) => Err(e)
    case None =>
      Ok(RecordVersionEvent(v.(approvedAt := Some(now), approvedBy := Some(actor), stage := Approved),
                            Some(v.stage), Approved, actor))
  }

  function Transition(v: Version, target: Stage, actor: Id): Result<Version> {
    match ValidateTransition(v.stage, target, v.IsApproved())
    case Some(e) => Err(e)
    case None => Ok(RecordVersionEvent(v.(stage := target), Some(v.stage), target, actor))
  }

  // ---------- What a trail must look like ----------

  /** Each event starts where the one before it ended, is a legal move, and carries the name of that move. */
  predicate Follows(previous: VersionEvent, e: VersionEvent) {
    e.from == Some(previous.to) && CanTransition(previous.to, e.to) && e.name == EventName(e.from, e.to)
  }

  /** A gap-free legal chain from creation to the current stage. */
  ghost predicate Replays(v: Version) {
    && |v.events| > 0
    && v.events[0].from == None && v.events[0].to == Draft && v.events[0].name == Created
    && (forall i, j :: 0 <= i < j < |v.events| && j == i + 1 ==> Follows(v.events[i], v.events[j]))
    && v.events[|v.events| - 1].to == v.stage
  }

  ghost predicate HasApproval(v: Version, actor: Id) {
    exists i :: 0 <= i < |v.events| && v.events[i].name == ApprovedEvent && v.events[i].actor == actor
  }

  /** The approval fields are set together, exactly when the trail holds an approval, and name its actor. */
  ghost predicate ApprovalRecorded(v: Version) {
    && v.approvedAt.Some? == v.approvedBy.Some?
    && (v.IsApproved() ==> HasApproval(v, v.approvedBy.value))
    && ((exists a :: HasApproval(v, a)) ==> v.IsApproved())
  }

  ghost predicate VersionOk(v: Version) {
    Replays(v) && ApprovalRecorded(v)
  }

  /** The trail contains a stage from which the environment accepts deployments. */
  ghost predicate EverDeployable(v: Version, environment: Environment) {
    exists i :: 0 <= i < |v.events| && IsDeployable(v.events[i].to, environment)
  }

  ghost predicate Reached(v: Version, stage: Stage) {
    exists i :: 0 <= i < |v.events| && v.events[i].to == stage
  }

  /** What can happen to a version: its trail grows and retirement is final. */
  ghost predicate Grows(v: Version, v': Version) {
    v.model == v'.model && v.version == v'.version && v.events <= v'.events && (v.stage == Archived ==> v' == v)
  }

  // ---------- Lemmas ----------

  /** A legal trail is a prefix of the promotion order, possibly cut short by retirement. */
  lemma {:induction false} TrailShape(v: Version, i: nat)
    requires Replays(v) && i < |v.events|
    ensures v.events[i].to == Archived ==> i == |v.events| - 1
    ensures v.events[i].to != Archived ==> Rank(v.events[i].to) == i && v.events[i].to == ORDER[i]
    ensures v.events[i].to != Archived ==>
              v.events[i].name == [Created, ValidatedEvent, ApprovedEvent, Promoted, Promoted][i]
    ensures v.events[i].to == Archived ==> v.events[i].name == ArchivedEvent
  {
    if i + 1 < |v.events| {
      assert Follows(v.events[i], v.events[i + 1]);
    }
    if i > 0 {
      TrailShape(v, i - 1);
      assert Follows(v.events[i - 1], v.events[i]);
    }
  }

  /** A new version is what was asked for, and its trail names who created it. */
  lemma NewVersionIs(model: Id, version: string, actor: Id)
    ensures var v := NewVersion(model, version, actor);
            && v.model == model && v.version == version && v.stage == Draft && v.approvedAt == None && v.approvedBy == None
            && |v.events| == 1 && v.events[0] == VersionEvent(Created, None, Draft, actor)
  {
  }

  /** The name of the event that a move to the stage leaves in the trail. */
  predicate NamesMove(name: VersionEventName, target: Stage) {
    match name
    case Created => false
    case ValidatedEvent => target == Validated
    case ApprovedEvent => target == Approved
    case Promoted => target == Staging || target == Production
    case ArchivedEvent => target == Archived
  }

  /** One event came: who moved the version, from where, and to where. The stage and the approval are the only other columns touched. */
  ghost predicate Moved(v: Version, v': Version, target: Stage, actor: Id) {
    && v'.model == v.model && v'.version == v.version && v'.stage == target
    && |v'.events| == |v.events| + 1 && v'.events[..|v.events|] == v.events
    && var e := v'.events[|v.events|];
       e.from == Some(v.stage) && e.to == target && e.actor == actor && NamesMove(e.name, target)
  }

  /** A successful move appends one event in the caller's name; only an approval sets the approval, to the caller and the time. */
  lemma MoveRecordsCaller(v: Version, target: Stage, now: nat, actor: Id)
    requires VersionOk(v)
    ensures Transition(v, target, actor).Ok? ==>
              var v' := Transition(v, target, actor).value;
              Moved(v, v', target, actor) && v'.approvedAt == v.approvedAt && v'.approvedBy == v.approvedBy
    ensures Approve(v, now, actor).Ok? ==>
              var v' := Approve(v, now, actor).value;
              Moved(v, v', Approved, actor) && v'.approvedAt == Some(now) && v'.approvedBy == Some(actor)
  {
    TransitionOk(v, target, actor);
    ApproveOk(v, now, actor);
    hide VersionOk, Grows;
  }

  lemma NewVersionOk(model: Id, version: string, actor: Id)
    ensures VersionOk(NewVersion(model, version, actor))
    ensures NewVersion(model, version, actor).stage == Draft
  {
  }

  /** Only a version without any approval sits below Approved. */
  lemma ApprovalNeedsStage(v: Version)
    requires VersionOk(v)
    ensures v.IsApproved() ==> Reached(v, Approved)
    ensures v.IsApproved() ==> v.stage != Draft && v.stage != Validated
    ensures v.stage != Archived ==> (v.IsApproved() <==> Rank(v.stage) >= Rank(Approved))
  {
    var last := |v.events| - 1;
    TrailShape(v, last);
    if v.IsApproved() {
      var i :| 0 <= i < |v.events| && v.events[i].name == ApprovedEvent && v.events[i].actor == v.approvedBy.value;
      assert i != 0;
      assert Follows(v.events[i - 1], v.events[i]);
      assert v.events[i].to == Approved;
      TrailShape(v, i);
    }
    if v.stage != Archived && Rank(v.stage) >= Rank(Approved) {
      TrailShape(v, 2);
      assert Follows(v.events[1], v.events[2]);
      assert HasApproval(v, v.events[2].actor);
    }
  }

  lemma HasApprovalGrows(v: Version, v': Version, actor: Id)
    requires v.events <= v'.events && HasApproval(v, actor)
    ensures HasApproval(v', actor)
  {
    var i :| 0 <= i < |v.events| && v.events[i].name == ApprovedEvent && v.events[i].actor == actor;
    assert v'.events[i] == v.events[i];
  }

  /** Approval is granted exactly from Validated, keeps the trail legal, and records its actor. */
  lemma ApproveOk(v: Version, now: nat, actor: Id)
    requires VersionOk(v)
    ensures Approve(v, now, actor).Ok? <==> v.stage == Validated
    ensures Approve(v, now, actor).Err? ==> Approve(v, now, actor).error == InvalidStateTransition
    ensures Approve(v, now, actor).Ok? ==>
              var v' := Approve(v, now, actor).value;
              VersionOk(v') && Grows(v, v') && v'.stage == Approved && v'.approvedBy == Some(actor)
  {
    if v.stage == Validated {
      var v' := Approve(v, now, actor).value;
      Extended(v, v', VersionEvent(ApprovedEvent, Some(Validated), Approved, actor));
      assert v'.events[|v.events|].name == ApprovedEvent;
      assert HasApproval(v', actor);
    }
  }

  /** The generic transition can never grant approval: it refuses Approved in every reachable version. */
  lemma TransitionNeverApproves(v: Version, actor: Id)
    requires VersionOk(v)
    ensures Transition(v, Approved, actor) == Err(if v.stage == Validated then ApprovalRequired else InvalidStateTransition)
  {
    ApprovalNeedsStage(v);
  }

  /**
   * A generic transition succeeds exactly when it is the next promotion past Validated-or-approved, or a retirement.
   * It keeps the trail legal and leaves the approval untouched.
   */
  lemma TransitionOk(v: Version, target: Stage, actor: Id)
    requires VersionOk(v)
    ensures Transition(v, target, actor).Ok? <==>
            v.stage != Archived &&
            (target == Archived || (Rank(target) == Rank(v.stage) + 1 && target != Approved))
    ensures Transition(v, target, actor).Err? ==>
              Transition(v, target, actor).error ==
              if v.stage == Validated && target == Approved then ApprovalRequired else InvalidStateTransition
    ensures Transition(v, target, actor).Ok? ==>
              var v' := Transition(v, target, actor).value;
              VersionOk(v') && Grows(v, v') && v'.stage == target &&
              v'.approvedAt == v.approvedAt && v'.approvedBy == v.approvedBy
  {
    hide VersionOk, ApprovalRecorded, Replays, Follows;
    ApprovalNeedsStage(v);
    var r := Transition(v, target, actor);
    if r.Ok? {
      Extended(v, r.value, VersionEvent(EventName(Some(v.stage), target), Some(v.stage), target, actor));
      OkParts(v);
      ApprovalUntouched(v, r.value);
      OkParts(r.value);
    }
  }

  lemma OkParts(v: Version)
    ensures VersionOk(v) <==> Replays(v) && ApprovalRecorded(v)
  {
  }

  /** A legal next event extends a legal trail. */
  lemma Extended(v: Version, v': Version, e: VersionEvent)
    requires VersionOk(v) && v'.events == v.events + [e] && v'.stage == e.to
    requires e.from == Some(v.stage) && CanTransition(v.stage, e.to) && e.name == EventName(e.from, e.to)
    ensures Replays(v')
    ensures v'.events[..|v.events|] == v.events && v.events <= v'.events
  {
    var n := |v.events|;
    assert v'.events[..n] == v.events;
    forall i, j | 0 <= i < j < |v'.events| && j == i + 1 ensures Follows(v'.events[i], v'.events[j]) {
      assert j < n ==> Follows(v.events[i], v.events[j]);
    }
  }

  /** Appending an event that is not an approval leaves the recorded approval right. */
  lemma ApprovalUntouched(v: Version, v': Version)
    requires ApprovalRecorded(v) && |v'.events| == |v.events| + 1 && v'.events[..|v.events|] == v.events
    requires v'.events[|v.events|].name != ApprovedEvent
    requires v'.approvedAt == v.approvedAt && v'.approvedBy == v.approvedBy
    ensures ApprovalRecorded(v')
  {
    forall a | HasApproval(v', a) ensures v.IsApproved() {
      var i :| 0 <= i < |v'.events| && v'.events[i].name == ApprovedEvent && v'.events[i].actor == a;
      assert v.events[i] == v'.events[i];
      assert HasApproval(v, a);
    }
    if v.IsApproved() {
      HasApprovalGrows(v, v', v.approvedBy.value);
    }
  }

  /** Forward-only stages meet upward-closed eligibility: once deployable, a version stays so until it is retired. */
  lemma OnceDeployable(v: Version, environment: Environment)
    requires Replays(v)
    ensures EverDeployable(v, environment) ==> IsDeployable(v.stage, environment) || v.stage == Archived
    ensures IsDeployable(v.stage, environment) ==> EverDeployable(v, environment)
  {
    var last := |v.events| - 1;
    TrailShape(v, last);
    if EverDeployable(v, environment) {
      var i :| 0 <= i < |v.events| && IsDeployable(v.events[i].to, environment);
      TrailShape(v, i);
    }
    if IsDeployable(v.stage, environment) {
      assert IsDeployable(v.events[last].to, environment);
    }
  }

  lemma EverDeployableGrows(v: Version, v': Version, environment: Environment)
    requires v.events <= v'.events && EverDeployable(v, environment)
    ensures EverDeployable(v', environment)
  {
    var i :| 0 <= i < |v.events| && IsDeployable(v.events[i].to, environment);
    assert v'.events[i] == v.events[i];
  }

  /** A trail that was ever eligible for an environment passed through that environment's matching stage. */
  lemma EverDeployableReached(v: Version, environment: Environment)
    requires Replays(v) && EverDeployable(v, environment)
    ensures Reached(v, MatchingStage(environment))
  {
    var i :| 0 <= i < |v.events| && IsDeployable(v.events[i].to, environment);
    TrailShape(v, i);
    var k := Rank(MatchingStage(environment));
    TrailShape(v, k);
    assert v.events[k].to == MatchingStage(environment);
  }

  /** Staging and production deployments imply an approval by a recorded approver. */
  lemma EverDeployableApproved(v: Version, environment: Environment)
    requires VersionOk(v) && EverDeployable(v, environment) && environment != DevelopmentEnv
    ensures v.IsApproved() && v.approvedBy.Some? && HasApproval(v, v.approvedBy.value)
  {
    var i :| 0 <= i < |v.events| && IsDeployable(v.events[i].to, environment);
    TrailShape(v, i);
    TrailShape(v, 2);
    assert Follows(v.events[1], v.events[2]);
    assert HasApproval(v, v.events[2].actor);
  }
}

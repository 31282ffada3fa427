/** Counting what workers do over a run, and the exact balance of row locks. */
module Selections {
  import opened Common
  import opened Deployments
  import opened Tables
  import opened Protocol

  /** The steps a worker can take, and the one death that leaves no trace: a claimer dying before its commit. */
  datatype Happening = Selection | Claim | Start | GateRead | Ending | Death | LockDropped

  ghost predicate AtRow(s: State, w: Id, ids: Id -> bool) {
    w in s.workers && ids(s.workers[w].id)
  }

  /** The step is of this kind and concerns one of these rows. */
  ghost predicate Happens(h: Happening, s: State, step: Step, ids: Id -> bool) {
    match h
    case Selection =>
      step.ClaimSelect? && Claimable(s.rows, Locked(s)) != {} && ids(MinId(Claimable(s.rows, Locked(s))))
    case Claim => step.ClaimCommit? && AtRow(s, step.worker, ids)
    case Start => step.StartValidation? && AtRow(s, step.worker, ids)
    case GateRead => step.CheckGate? && AtRow(s, step.worker, ids)
    case Ending => (step.CommitDecision? || step.Finish?) && AtRow(s, step.worker, ids)
    case Death => step.Crash? && AtRow(s, step.worker, ids)
    case LockDropped => step.Crash? && AtRow(s, step.worker, ids) && s.workers[step.worker].Selecting?
  }

  ghost function Once(h: Happening, s: State, step: Step, ids: Id -> bool): nat {
    if Happens(h, s, step, ids) then 1 else 0
  }

  /** How often it happens in a run. */
  ghost function Tally(h: Happening, s: State, steps: seq<Step>, ids: Id -> bool): nat
    requires IsRun(s, steps)
  {
    if steps == [] then 0
    else
      var n := |steps| - 1;
      Tally(h, s, steps[..n], ids) + Once(h, After(s, steps[..n]), steps[n], ids)
  }

  function Below(d: Id): Id -> bool {
    (i: Id) => i < d
  }

  function Above(d: Id): Id -> bool {
    (i: Id) => i > d
  }

  /** The workers in a given situation. */
  ghost function Those(workers: map<Id, Worker>, p: Worker -> bool): set<Id> {
    set w | w in workers && p(workers[w])
  }

  function Locking(ids: Id -> bool): Worker -> bool {
    (p: Worker) => p.Selecting? && ids(p.id)
  }

  function Reading(ids: Id -> bool): Worker -> bool {
    (p: Worker) => p.Validating? && ids(p.id)
  }

  function At(ids: Id -> bool): Worker -> bool {
    (p: Worker) => ids(p.id)
  }

  /** Claimers that hold the lock of one of these rows. */
  ghost function Selectors(s: State, ids: Id -> bool): set<Id> {
    Those(s.workers, Locking(ids))
  }

  lemma WorkerReplaced(workers: map<Id, Worker>, p: Worker -> bool, w: Id, next: Worker)
    ensures |Those(workers[w := next], p)| + (if w in workers && p(workers[w]) then 1 else 0)
         == |Those(workers, p)| + (if p(next) then 1 else 0)
  {
    if p(next) {
      assert Those(workers[w := next], p) == Those(workers, p) + {w};
    } else {
      assert Those(workers[w := next], p) == Those(workers, p) - {w};
    }
  }

  lemma WorkerRemoved(workers: map<Id, Worker>, p: Worker -> bool, w: Id)
    ensures |Those(workers - {w}, p)| + (if w in workers && p(workers[w]) then 1 else 0) == |Those(workers, p)|
  {
    assert Those(workers - {w}, p) == Those(workers, p) - {w};
  }

  /** A step moves at most the worker it names, from one stage of its work to the next. */
  lemma OneWorkerMoves(s: State, step: Step)
    requires Enabled(s, step)
    ensures var ws, ws' := s.workers, Apply(s, step).workers;
            match step
            case ClaimSelect(w) =>
              Claimable(s.rows, Locked(s)) != {} && w !in ws && ws' == ws[w := Selecting(MinId(Claimable(s.rows, Locked(s))))]
            case ClaimCommit(w) => w in ws && ws[w].Selecting? && ws' == ws[w := Claimed(ws[w].id)]
            case StartValidation(w) => w in ws && ws[w].Claimed? && ws' == ws[w := Validating(ws[w].id)]
            case CheckGate(w) => w in ws && ws[w].Validating? && w in ws' && ws'[w].Decided? && ws' == ws[w := ws'[w]] && ws'[w].id == ws[w].id
            case CommitDecision(w) =>
              w in ws && ws[w].Decided? && ws' == if ws[w].deployable then ws[w := Running(ws[w].id)] else ws - {w}
            case Finish(w) => w in ws && ws[w].Running? && ws' == ws - {w}
            case Crash(w) => w in ws && ws' == ws - {w}
            case _ => ws' == ws
  {
    hide InsertRequest, RetryDeployment, RollbackTarget, LookupRequest, ReapTable, StillDeployable, LeaseHolds, MinId, Claimable, Locked;
    hide ClaimRow, StartRow, DeployRow, FailRow, FinishRow, RollbackRow;
  }

  predicate MovesWorker(step: Step) {
    step.ClaimSelect? || step.ClaimCommit? || step.StartValidation? || step.CheckGate? || step.CommitDecision? ||
    step.Finish? || step.Crash?
  }

  /** What a worker counts for in a situation, if it is there at all. */
  ghost function Counts(workers: map<Id, Worker>, w: Id, p: Worker -> bool): nat {
    if w in workers && p(workers[w]) then 1 else 0
  }

  /** A step changes the number of workers in a situation by the one worker it moves. */
  lemma Recounted(s: State, step: Step, p: Worker -> bool)
    requires Enabled(s, step)
    ensures var ws, ws' := s.workers, Apply(s, step).workers;
            if MovesWorker(step)
            then |Those(ws', p)| + Counts(ws, step.worker, p) == |Those(ws, p)| + Counts(ws', step.worker, p)
            else ws' == ws
  {
    OneWorkerMoves(s, step);
    hide Enabled, Apply, MinId, Claimable, Locked, Those;
    if MovesWorker(step) {
      var ws, ws', w := s.workers, Apply(s, step).workers, step.worker;
      if w in ws' {
        WorkerReplaced(ws, p, w, ws'[w]);
      } else {
        WorkerRemoved(ws, p, w);
      }
    }
  }

  /** A lock is taken by a selection, and given up by a claim commit or a death. */
  lemma LockBalanceStep(s: State, step: Step, ids: Id -> bool)
    requires Enabled(s, step)
    ensures |Selectors(Apply(s, step), ids)| + Once(Claim, s, step, ids) + Once(LockDropped, s, step, ids)
         == |Selectors(s, ids)| + Once(Selection, s, step, ids)
  {
    Recounted(s, step, Locking(ids));
    OneWorkerMoves(s, step);
    hide Enabled, Apply, MinId, Claimable, Locked, Those;
  }

  /** Between two gate reads of one worker lies a start of validation. */
  lemma GateBalanceStep(s: State, step: Step, ids: Id -> bool)
    requires Enabled(s, step)
    ensures |Those(Apply(s, step).workers, Reading(ids))| + Once(GateRead, s, step, ids)
         <= |Those(s.workers, Reading(ids))| + Once(Start, s, step, ids)
  {
    Recounted(s, step, Reading(ids));
    OneWorkerMoves(s, step);
    hide Enabled, Apply, MinId, Claimable, Locked, Those;
  }

  /** Workers come by selecting, and die at most once each. */
  lemma WorkerBalanceStep(s: State, step: Step, ids: Id -> bool)
    requires Enabled(s, step)
    ensures |Those(Apply(s, step).workers, At(ids))| + Once(Death, s, step, ids)
         <= |Those(s.workers, At(ids))| + Once(Selection, s, step, ids)
  {
    Recounted(s, step, At(ids));
    OneWorkerMoves(s, step);
    hide Enabled, Apply, MinId, Claimable, Locked, Those;
  }

  /**
   * The lock balance of every run: each selection ends in a claim commit, in the death of the claimer, or is still
   * pending. So a run has more selections than claims only by claimers that died, or sit, between the two.
   */
  lemma {:induction false} LockBalance(s: State, steps: seq<Step>, ids: Id -> bool)
    requires IsRun(s, steps)
    ensures Tally(Claim, s, steps, ids) + Tally(LockDropped, s, steps, ids) + |Selectors(After(s, steps), ids)|
         == Tally(Selection, s, steps, ids) + |Selectors(s, ids)|
  {
    hide Enabled, Apply, Selectors, Once;
    if steps != [] {
      var n := |steps| - 1;
      LockBalance(s, steps[..n], ids);
      LockBalanceStep(After(s, steps[..n]), steps[n], ids);
    }
  }

  lemma {:induction false} GateBalance(s: State, steps: seq<Step>, ids: Id -> bool)
    requires IsRun(s, steps)
    ensures Tally(GateRead, s, steps, ids) <= Tally(Start, s, steps, ids) + |Those(s.workers, Reading(ids))| - |Those(After(s, steps).workers, Reading(ids))|
  {
    hide Enabled, Apply, Those, Once;
    if steps != [] {
      var n := |steps| - 1;
      GateBalance(s, steps[..n], ids);
      GateBalanceStep(After(s, steps[..n]), steps[n], ids);
    }
  }

  lemma {:induction false} WorkerBalance(s: State, steps: seq<Step>, ids: Id -> bool)
    requires IsRun(s, steps)
    ensures Tally(Death, s, steps, ids) <= Tally(Selection, s, steps, ids) + |Those(s.workers, At(ids))| - |Those(After(s, steps).workers, At(ids))|
  {
    hide Enabled, Apply, Those, Once;
    if steps != [] {
      var n := |steps| - 1;
      WorkerBalance(s, steps[..n], ids);
      WorkerBalanceStep(After(s, steps[..n]), steps[n], ids);
    }
  }
}

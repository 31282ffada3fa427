/**
 * Reads and writes that the protocol takes as one step. None of them locks what it reads, so another session can commit
 * in between; each lemma says exactly when the late commit still leaves a legal history.
 */
module Atomicity {
  import opened Common
  import opened Lifecycle
  import opened Deployments
  import V = Versions

  /** An event that may not follow the last one makes the history illegal. */
  lemma IllegalAppend(r: Row, e: Event)
    requires |r.events| > 0 && !MayFollow(LastEvent(r).status, e)
    ensures !LegalTimeline(r.events + [e])
  {
    var events, n := r.events + [e], |r.events|;
    assert events[n - 1] == LastEvent(r) && events[n] == e;
  }

  function Column<T(==)>(current: T, read: T, updated: T): T {
    if updated == read then current else updated
  }

  /**
   * A session's commit onto a row that changed since the session read it: the session sends the columns whose value it
   * changed, and the events it recorded; every other column keeps its current value.
   */
  function LateCommit(r: Row, read: Row, updated: Row): Row
    requires |read.events| <= |updated.events|
  {
    r.(status := Column(r.status, read.status, updated.status),
       worker := Column(r.worker, read.worker, updated.worker),
       lockedAt := Column(r.lockedAt, read.lockedAt, updated.lockedAt),
       attempts := Column(r.attempts, read.attempts, updated.attempts),
       error := Column(r.error, read.error, updated.error),
       rolledBackTo := Column(r.rolledBackTo, read.rolledBackTo, updated.rolledBackTo),
       events := r.events + updated.events[|read.events|..])
  }

  /** On the row it read, a commit is the whole update. */
  lemma PromptCommit(read: Row, updated: Row)
    requires SameIdentity(read, updated) && read.events <= updated.events
    ensures LateCommit(read, read, updated) == updated
  {
  }

  /**
   * A retry that read a FAILED row and commits later: right exactly if the row is FAILED and, should a lost worker
   * have left its lock time there, the retry read such a row too. Otherwise the lock time is not cleared.
   */
  lemma LateRetry(r: Row, read: Row)
    requires RowOk(r) && RowOk(read) && read.status == FAILED
    ensures RowOk(LateCommit(r, read, RetryRow(read))) <==>
            r.status == FAILED && (read.lockedAt.Some? || r.lockedAt.None?)
  {
    var e := Event(REQUESTED, RetryRequested);
    var late := LateCommit(r, read, RetryRow(read));
    assert late.events == r.events + [e];
    if r.status == FAILED {
      assert late == RetryRow(r).(lockedAt := late.lockedAt);
      RetryRowOk(r);
    } else {
      IllegalAppend(r, e);
    }
  }

  /**
   * A reap that read a held row and commits later: right exactly if the row is held, by whomever, and a requeue is
   * still within the limit. The attempts it read decide between requeue and failure.
   */
  lemma LateReap(r: Row, read: Row)
    requires RowOk(r) && RowOk(read) && Held(read)
    ensures RowOk(LateCommit(r, read, ReapRow(read))) <==>
            Held(r) && (read.attempts >= MAX_ATTEMPTS || Requeues(r) < MAX_ATTEMPTS - 1)
  {
    if read.attempts >= MAX_ATTEMPTS {
      LateLoss(r, read);
    } else {
      LateRequeue(r, read);
    }
  }

  lemma LateLoss(r: Row, read: Row)
    requires RowOk(r) && RowOk(read) && Held(read) && read.attempts >= MAX_ATTEMPTS
    ensures RowOk(LateCommit(r, read, ReapRow(read))) <==> Held(r)
  {
    var e := Event(FAILED, WorkerLost);
    var late := LateCommit(r, read, ReapRow(read));
    assert late == r.(status := FAILED, error := Some(WorkerLost), events := r.events + [e]);
    if Held(r) {
      RecordOk(r.(status := FAILED), WorkerLost);
    } else if r.status != REQUESTED {
      IllegalAppend(r, e);
    }
  }

  lemma LateRequeue(r: Row, read: Row)
    requires RowOk(r) && RowOk(read) && Held(read) && read.attempts < MAX_ATTEMPTS
    ensures RowOk(LateCommit(r, read, ReapRow(read))) <==> Held(r) && Requeues(r) < MAX_ATTEMPTS - 1
  {
    var e := Event(REQUESTED, Requeued);
    var late := LateCommit(r, read, ReapRow(read));
    assert late == r.(status := REQUESTED, worker := None, lockedAt := None, events := r.events + [e]);
    CountAppend(r.events, e, Requeued);
    CountAppend(r.events, e, RetryRequested);
    if Held(r) {
      RecordOk(r.(status := REQUESTED), Requeued);
    } else if r.status != REQUESTED {
      IllegalAppend(r, e);
    }
    hide Count, LegalTimeline, LateCommit, ReapRow;
  }

  /** A rollback writes every column it assigns, so its late commit is the whole update of the current row. */
  lemma LateRollback(r: Row, read: Row, target: Id)
    requires RowOk(read) && read.status == SUCCEEDED
    ensures LateCommit(r, read, RollbackRow(read, target)) == RollbackRow(r, target)
  {
    assert RollbackRow(read, target).events[|read.events|..] == [Event(ROLLED_BACK, RolledBack)];
  }

  /** A stage change validated against one stage and committed later, whatever the version's stage is by then. */
  function LateMove(v: V.Version, from: Stage, target: Stage, actor: Id): V.Version {
    V.RecordVersionEvent(v.(stage := target), Some(from), target, actor)
  }

  /** A late move keeps the trail a gap-free legal chain exactly if the version is still in the stage that was validated. */
  lemma LateMoveReplays(v: V.Version, from: Stage, target: Stage, actor: Id)
    requires V.Replays(v) && CanTransition(from, target)
    ensures V.Replays(LateMove(v, from, target, actor)) <==> v.stage == from
  {
    var v', n := LateMove(v, from, target, actor), |v.events|;
    assert v'.events[n - 1] == v.events[n - 1] && v'.events[..n] == v.events;
    if v.stage == from {
      forall i, j | 0 <= i < j < |v'.events| && j == i + 1 ensures V.Follows(v'.events[i], v'.events[j]) {
        assert j < n ==> V.Follows(v.events[i], v.events[j]);
      }
    } else {
      assert !V.Follows(v'.events[n - 1], v'.events[n]);
    }
  }

  /** Two sessions that both read a version in one stage: the second commit always breaks the trail. */
  lemma SecondMoveBreaksTrail(v: V.Version, first: Stage, second: Stage, actor: Id)
    requires V.Replays(v) && CanTransition(v.stage, first) && CanTransition(v.stage, second)
    ensures V.Replays(LateMove(v, v.stage, first, actor))
    ensures !V.Replays(LateMove(LateMove(v, v.stage, first, actor), v.stage, second, actor))
  {
    LateMoveReplays(v, v.stage, first, actor);
    LateMoveReplays(LateMove(v, v.stage, first, actor), v.stage, second, actor);
  }
}

/** In which order rows are claimed, and how long a requested row can wait. */
module Waiting {
  import opened Common
  import opened Deployments
  import opened Tables
  import opened Totals
  import opened Protocol
  import opened Invariants
  import opened Selections

  // ---------- Which row a claim takes ----------

  /**
   * A claim takes the oldest requested row exactly when no other claimer has that row locked. With SKIP LOCKED it
   * otherwise overtakes it, so "the oldest" holds only up to rows that are being claimed at the same time.
   */
  lemma OldestIffUnlocked(s: State, w: Id)
    requires Enabled(s, ClaimSelect(w))
    ensures Claimable(s.rows, {}) != {}
    ensures var oldest := MinId(Claimable(s.rows, {}));
            Apply(s, ClaimSelect(w)).workers[w] == Selecting(oldest) <==> oldest !in Locked(s)
  {
    var m := MinId(Claimable(s.rows, Locked(s)));
    assert m in Claimable(s.rows, {});
    var oldest := MinId(Claimable(s.rows, {}));
    if oldest !in Locked(s) {
      assert oldest in Claimable(s.rows, Locked(s));
    } else {
      assert oldest !in Claimable(s.rows, Locked(s));
    }
  }

  /** With nothing locked, or only the older of two requested rows, a claim selects the older, or the newer. */
  lemma SelectOfTwo(s: State, w: Id, older: Id, newer: Id)
    requires Claimable(s.rows, {}) == {older, newer} && older < newer && w !in s.workers
    ensures Locked(s) == {} ==>
              Enabled(s, ClaimSelect(w)) && Apply(s, ClaimSelect(w)) == s.(workers := s.workers[w := Selecting(older)])
    ensures Locked(s) == {older} ==>
              Enabled(s, ClaimSelect(w)) && Apply(s, ClaimSelect(w)) == s.(workers := s.workers[w := Selecting(newer)])
  {
    assert Claimable(s.rows, {older}) == Claimable(s.rows, {}) - {older} == {newer};
    assert older in {older, newer} && newer in {newer};
  }

  lemma RunOfThree(s: State, a: Step, b: Step, c: Step)
    requires Enabled(s, a) && Enabled(Apply(s, a), b) && Enabled(Apply(Apply(s, a), b), c)
    ensures Run(s, [a, b, c]) == Some(Apply(Apply(Apply(s, a), b), c))
  {
    hide Enabled, Apply;
    assert Run(s, []) == Some(s);
    RunSnoc(s, [], a);
    assert [] + [a] == [a];
    RunSnoc(s, [a], b);
    assert [a] + [b] == [a, b];
    RunSnoc(s, [a, b], c);
    assert [a, b] + [c] == [a, b, c];
  }

  /**
   * Overtaking really happens: with two requested rows and no other worker, a second worker claims the newer row
   * while the older one is still REQUESTED.
   */
  lemma SkipLockedOvertakes(s: State, w: Id, u: Id, older: Id, newer: Id)
    requires s.workers == map[] && w != u
    requires Claimable(s.rows, {}) == {older, newer} && older < newer
    ensures var steps := [ClaimSelect(w), ClaimSelect(u), ClaimCommit(u)];
            && IsRun(s, steps) && After(s, steps).rows == s.rows[newer := ClaimRow(s.rows[newer], u, s.clock)]
            && After(s, steps).rows[older].status == REQUESTED
            && After(s, steps).workers == map[w := Selecting(older), u := Claimed(newer)]
  {
    assert older in Claimable(s.rows, {}) && newer in Claimable(s.rows, {});
    assert Locked(s) == {};
    SelectOfTwo(s, w, older, newer);
    var s1 := s.(workers := map[w := Selecting(older)]);
    assert Apply(s, ClaimSelect(w)) == s1;
    assert Locked(s1) == {older} by {
      assert s1.workers[w].id == older;
    }
    SelectOfTwo(s1, u, older, newer);
    hide MinId, Claimable, Locked, ClaimRow, LeaseHolds;
    var s2 := s1.(workers := map[w := Selecting(older), u := Selecting(newer)]);
    assert Apply(s1, ClaimSelect(u)) == s2;
    assert Apply(s2, ClaimCommit(u)) == s.(rows := s.rows[newer := ClaimRow(s.rows[newer], u, s.clock)],
                                           workers := map[w := Selecting(older), u := Claimed(newer)]);
    RunOfThree(s, ClaimSelect(w), ClaimSelect(u), ClaimCommit(u));
    hide Run, Apply, Enabled;
  }

  // ---------- Bounded waiting ----------

  /** The row is queued, whether or not a claimer holds its lock. */
  ghost predicate Queued(s: State, d: Id) {
    d in s.rows && s.rows[d].status == REQUESTED
  }

  ghost predicate QueuedThroughout(s: State, steps: seq<Step>, d: Id)
    requires IsRun(s, steps)
  {
    Queued(After(s, steps), d) && (steps != [] ==> QueuedThroughout(s, steps[..|steps| - 1], d))
  }

  /** Nobody is claiming the row at any time of the run. */
  ghost predicate UnlockedThroughout(s: State, steps: seq<Step>, d: Id)
    requires IsRun(s, steps)
  {
    d !in Locked(After(s, steps)) && (steps != [] ==> UnlockedThroughout(s, steps[..|steps| - 1], d))
  }

  /** How often a claimer selects a row while another one has d locked. */
  ghost function SelectsWhileLocked(s: State, steps: seq<Step>, d: Id): nat
    requires IsRun(s, steps)
  {
    if steps == [] then 0
    else
      var n := |steps| - 1;
      SelectsWhileLocked(s, steps[..n], d) + (if steps[n].ClaimSelect? && d in Locked(After(s, steps[..n])) then 1 else 0)
  }

  function Attempts(r: Row): nat {
    r.attempts
  }

  /** All the claims a row can ever have used. */
  function Budget(r: Row): nat {
    MAX_ATTEMPTS + Retries(r)
  }

  function Nothing(r: Row): nat {
    0
  }

  /** A claimer passes a queued row by only while another claimer has it locked. */
  lemma PassesOnlyLocked(s: State, step: Step, d: Id)
    requires Enabled(s, step) && Queued(s, d) && Happens(Selection, s, step, Above(d))
    ensures step.ClaimSelect? && d in Locked(s)
  {
    assert d !in Claimable(s.rows, Locked(s));
  }

  lemma {:induction false} PassingSelections(s: State, steps: seq<Step>, d: Id)
    requires IsRun(s, steps) && QueuedThroughout(s, steps, d)
    ensures Tally(Selection, s, steps, Above(d)) <= SelectsWhileLocked(s, steps, d)
  {
    hide Enabled, Apply, Happens, Locked, Above;
    if steps != [] {
      var n := |steps| - 1;
      PassingSelections(s, steps[..n], d);
      if Happens(Selection, After(s, steps[..n]), steps[n], Above(d)) {
        PassesOnlyLocked(After(s, steps[..n]), steps[n], d);
      }
    }
  }

  /** Only a claim adds an attempt. */
  lemma RowAttempts(r: Row, worker: Id, now: nat, target: Id)
    ensures Attempts(ClaimRow(r, worker, now)) == Attempts(r) + 1
    ensures Attempts(StartRow(r)) == Attempts(DeployRow(r)) == Attempts(FinishRow(r)) == Attempts(r)
    ensures Attempts(FailRow(r, ApprovalValidationFailed)) == Attempts(RetryRow(r)) == Attempts(RollbackRow(r, target)) == Attempts(r)
    ensures Attempts(ReapRow(r)) == Attempts(r)
  {
  }

  /** A write below d shows in the sum, a write at or above d does not. */
  lemma AttemptsWritten(rows: Table, d: Id, id: Id, r: Row, claims: nat)
    requires Attempts(r) == Weight(rows, id, Attempts) + claims
    ensures Total(rows[id := r], d, Attempts) == Total(rows, d, Attempts) + (if id < d then claims else 0)
  {
    TotalWritten(rows, d, Attempts, id, r);
  }

  lemma AttemptsReaped(rows: Table, d: Id, cutoff: int)
    ensures Total(ReapTable(rows, cutoff), d, Attempts) == Total(rows, d, Attempts)
  {
    hide Stuck, ReapRow, Attempts;
    forall i | i in rows ensures Attempts(ReapTable(rows, cutoff)[i]) == Attempts(rows[i]) {
      RowAttempts(rows[i], 0, 0, 0);
    }
    TotalEqual(rows, ReapTable(rows, cutoff), d, Attempts);
  }

  /** Attempts count claim commits: below d they rise by one exactly when a row below d is claimed. */
  lemma AttemptsCountClaims(s: State, step: Step, d: Id)
    requires Enabled(s, step)
    ensures Total(Apply(s, step).rows, d, Attempts) == Total(s.rows, d, Attempts) + Once(Claim, s, step, Below(d))
  {
    if step.ClaimCommit? || step.StartValidation? || step.CommitDecision? || step.Finish? {
      WorkerAttempts(s, step, d);
    } else {
      OtherAttempts(s, step, d);
    }
  }

  lemma WorkerAttempts(s: State, step: Step, d: Id)
    requires Enabled(s, step) && (step.ClaimCommit? || step.StartValidation? || step.CommitDecision? || step.Finish?)
    ensures Total(Apply(s, step).rows, d, Attempts) == Total(s.rows, d, Attempts) + Once(Claim, s, step, Below(d))
  {
    hide Attempts, ClaimRow, StartRow, DeployRow, FailRow, FinishRow, Total;
    var w, id := step.worker, s.workers[step.worker].id;
    RowAttempts(s.rows[id], w, s.clock, 0);
    AttemptsWritten(s.rows, d, id, Apply(s, step).rows[id], if step.ClaimCommit? then 1 else 0);
  }

  lemma OtherAttempts(s: State, step: Step, d: Id)
    requires Enabled(s, step) && !step.ClaimCommit? && !step.StartValidation? && !step.CommitDecision? && !step.Finish?
    ensures Total(Apply(s, step).rows, d, Attempts) == Total(s.rows, d, Attempts) && Once(Claim, s, step, Below(d)) == 0
  {
    hide Attempts, RetryRow, RollbackRow, ReapTable, Total;
    hide ActiveClash, KeyClash, RollbackTarget, LookupRequest, LeaseHolds, Claimable, MinId, StillDeployable;
    match step
    case RequestInsert(c, id) => InsertedAttempts(s.rows, d, id, s.calls[c].model, s.calls[c].request);
    case Retry(id) =>
      if id in s.rows {
        RowAttempts(s.rows[id], 0, 0, 0);
        AttemptsWritten(s.rows, d, id, RetryRow(s.rows[id]), 0);
      }
    case RollbackCommit(c) =>
      var r := s.rows[s.calls[c].id];
      RowAttempts(r, 0, 0, s.calls[c].target);
      AttemptsWritten(s.rows, d, s.calls[c].id, RollbackRow(r, s.calls[c].target), 0);
    case Reap => AttemptsReaped(s.rows, d, Cutoff(s.clock));
    case _ =>
  }

  lemma InsertedAttempts(rows: Table, d: Id, id: Id, model: Id, q: Request)
    requires id !in rows
    ensures InsertRequest(rows, q, model, id).Ok? ==>
              Total(InsertRequest(rows, q, model, id).value, d, Attempts) == Total(rows, d, Attempts)
  {
    AttemptsWritten(rows, d, id, NewRow(model, q.version, q.environment, q.key, q.simulateFailure), 0);
  }

  lemma AttemptsWithinBudget(s: State, d: Id)
    requires Inv(s)
    ensures Total(s.rows, d, Attempts) <= Total(s.rows, d, Budget)
  {
    forall i | i in s.rows ensures Attempts(s.rows[i]) + Nothing(s.rows[i]) <= Budget(s.rows[i]) {
      RowOfTable(s, i);
      AttemptsBounded(s.rows[i]);
    }
    hide Inv, Attempts, Budget;
    TotalBounded(s.rows, s.rows, d, Attempts, Nothing, Budget);
  }

  /**
   * Claims of rows older than d, in any run at all: exactly the rise in those rows' attempts, and never more than
   * MAX_ATTEMPTS plus the retries of each.
   */
  lemma {:induction false} OlderClaims(s: State, steps: seq<Step>, d: Id)
    requires Inv(s) && IsRun(s, steps)
    ensures Tally(Claim, s, steps, Below(d)) + Total(s.rows, d, Attempts) == Total(After(s, steps).rows, d, Attempts)
    ensures Tally(Claim, s, steps, Below(d)) + Total(s.rows, d, Attempts) <= Total(After(s, steps).rows, d, Budget)
  {
    RunAdvances(s, steps);
    AttemptsWithinBudget(After(s, steps), d);
    hide Inv, Apply, Enabled, Once, Below, Total;
    if steps != [] {
      var n := |steps| - 1;
      OlderClaims(s, steps[..n], d);
      AttemptsCountClaims(After(s, steps[..n]), steps[n], d);
    }
  }

  /**
   * Claims of rows newer than d while d is queued, whatever crashes, requeues and retries happen, deaths of d's own
   * claimers included: each uses up a lock that was held at the start, or one taken while another claimer had d
   * locked.
   */
  lemma NewerClaims(s: State, steps: seq<Step>, d: Id)
    requires IsRun(s, steps) && QueuedThroughout(s, steps, d)
    ensures Tally(Claim, s, steps, Above(d)) + |Selectors(After(s, steps), Above(d))|
         <= |Selectors(s, Above(d))| + SelectsWhileLocked(s, steps, d)
  {
    LockBalance(s, steps, Above(d));
    PassingSelections(s, steps, d);
  }

  lemma {:induction false} NoneWhileUnlocked(s: State, steps: seq<Step>, d: Id)
    requires IsRun(s, steps) && UnlockedThroughout(s, steps, d)
    ensures SelectsWhileLocked(s, steps, d) == 0
  {
    hide Locked, Enabled, Apply;
    if steps != [] {
      NoneWhileUnlocked(s, steps[..|steps| - 1], d);
    }
  }

  /**
   * Bounded waiting: while d stays queued and nobody locks it, claims of newer rows are commits by claimers that held
   * their lock already, one each; claims of older rows are bounded by the attempts left to them.
   */
  lemma BoundedWaiting(s: State, steps: seq<Step>, d: Id)
    requires Inv(s) && IsRun(s, steps) && QueuedThroughout(s, steps, d) && UnlockedThroughout(s, steps, d)
    ensures Tally(Claim, s, steps, Above(d)) + |Selectors(After(s, steps), Above(d))| <= |Selectors(s, Above(d))|
    ensures Tally(Claim, s, steps, Below(d)) + Total(s.rows, d, Attempts) == Total(After(s, steps).rows, d, Attempts)
    ensures Tally(Claim, s, steps, Below(d)) + Total(s.rows, d, Attempts) <= Total(After(s, steps).rows, d, Budget)
  {
    hide Inv;
    OlderClaims(s, steps, d);
    NewerClaims(s, steps, d);
    NoneWhileUnlocked(s, steps, d);
  }

  /** With time-ordered ids, inserts never join the queue ahead of d: the rows that can delay it are fixed. */
  lemma {:induction false} OlderRowsFixed(s: State, steps: seq<Step>, d: Id, e: Id)
    requires IsRun(s, steps) && e < d
    requires forall k :: 0 <= k < |steps| && steps[k].RequestInsert? ==> steps[k].id > d
    ensures e in After(s, steps).rows <==> e in s.rows
  {
    hide Apply, Enabled;
    if steps != [] {
      var n := |steps| - 1;
      OlderRowsFixed(s, steps[..n], d, e);
      KeysStep(After(s, steps[..n]), steps[n]);
    }
  }

  /** Only an insert adds a row, and none is removed. */
  lemma KeysStep(s: State, step: Step)
    requires Enabled(s, step)
    ensures s.rows.Keys <= Apply(s, step).rows.Keys <= s.rows.Keys + (if step.RequestInsert? then {step.id} else {})
  {
    hide RollbackTarget, LookupRequest, StillDeployable, LeaseHolds, ActiveClash, KeyClash;
  }
}

/** Why the protocol needs the lease: executor writes are not fenced by the worker id. */
module Lease {
  import opened Common
  import opened Deployments
  import opened Tables
  import opened Protocol
  import opened Invariants
  import opened Recovery

  /** Every live executor's row is still in execution, in that executor's name. No clock is involved. */
  ghost predicate ExecutorsOwn(s: State) {
    forall w :: w in s.workers && Executing(s.workers[w]) ==> OwnsRow(s, w)
  }

  ghost predicate OwnsRow(s: State, w: Id)
    requires w in s.workers
  {
    var id := s.workers[w].id;
    id in s.rows && Held(s.rows[id]) && s.rows[id].worker == Some(w)
  }

  /** The live executor has been at its row for longer than the visibility timeout. */
  ghost predicate Overrun(s: State, now: nat, w: Id) {
    && w in s.workers && Executing(s.workers[w]) && s.workers[w].id in s.rows
    && Stuck(s.rows[s.workers[w].id], Cutoff(now))
  }

  lemma LiveRow(s: State, w: Id)
    requires Inv(s) && w in s.workers && Executing(s.workers[w])
    ensures OwnsRow(s, w) && RowOk(s.rows[s.workers[w].id]) && s.rows[s.workers[w].id].lockedAt.Some?
    ensures s.clock <= s.rows[s.workers[w].id].lockedAt.value + TIMEOUT
  {
    assert WorkerOk(s, w);
    RowOfTable(s, s.workers[w].id);
  }

  /** One executor: the reaper leaves its row to it exactly if it has not overrun its lease. */
  lemma ReapSparesWorker(s: State, now: nat, w: Id)
    requires w in s.workers && OwnsRow(s, w) && RowOk(s.rows[s.workers[w].id])
    ensures OwnsRow(s.(clock := now, rows := ReapTable(s.rows, Cutoff(now))), w) <==>
            !Stuck(s.rows[s.workers[w].id], Cutoff(now))
  {
    var id := s.workers[w].id;
    ReapedAt(s.rows, Cutoff(now), id);
    if Stuck(s.rows[id], Cutoff(now)) {
      ReapRowOk(s.rows[id]);
    }
    hide RowOk, ReapRow, ReapTable;
  }

  lemma ReapedAt(rows: Table, cutoff: int, id: Id)
    requires id in rows
    ensures id in ReapTable(rows, cutoff)
    ensures ReapTable(rows, cutoff)[id] == if Stuck(rows[id], cutoff) then ReapRow(rows[id]) else rows[id]
  {
  }

  lemma LeaseIsNoOverrun(s: State, now: nat)
    requires Inv(s)
    ensures LeaseHolds(s, now) <==> forall w :: w in s.workers && Executing(s.workers[w]) ==> !Overrun(s, now, w)
  {
    hide Inv, RowOk;
    forall w | w in s.workers && Executing(s.workers[w])
      ensures OwnsRow(s, w) && s.rows[s.workers[w].id].lockedAt.Some?
    {
      LiveRow(s, w);
    }
  }

  /**
   * Reaping at any later time leaves every live executor in possession of its row exactly if no live executor has
   * overrun its lease by then.
   */
  lemma ReapSafeIffLease(s: State, now: nat)
    requires Inv(s) && s.clock <= now
    ensures ExecutorsOwn(Apply(s.(clock := now), Reap)) <==> LeaseHolds(s, now)
  {
    var t := s.(clock := now, rows := ReapTable(s.rows, Cutoff(now)));
    assert Apply(s.(clock := now), Reap) == t;
    hide LeaseHolds, ReapTable, Apply, Executing, Overrun, OwnsRow, ExecutorsOwn;
    forall w | w in s.workers && Executing(s.workers[w]) ensures OwnsRow(t, w) <==> !Overrun(s, now, w) {
      OwnsIffNoOverrun(s, now, w);
    }
    LeaseIsNoOverrun(s, now);
    hide Inv;
    AllOwn(s, now, t);
  }

  lemma OwnsIffNoOverrun(s: State, now: nat, w: Id)
    requires Inv(s) && w in s.workers && Executing(s.workers[w])
    ensures OwnsRow(s.(clock := now, rows := ReapTable(s.rows, Cutoff(now))), w) <==> !Overrun(s, now, w)
  {
    hide Inv, RowOk, Stuck, ReapTable;
    LiveRow(s, w);
    ReapSparesWorker(s, now, w);
  }

  lemma AllOwn(s: State, now: nat, t: State)
    requires t.workers == s.workers
    requires forall w :: w in s.workers && Executing(s.workers[w]) ==> (OwnsRow(t, w) <==> !Overrun(s, now, w))
    ensures ExecutorsOwn(t) <==> forall w :: w in s.workers && Executing(s.workers[w]) ==> !Overrun(s, now, w)
  {
    hide Executing, Overrun, OwnsRow;
  }

  /** Time passes freely but for the lease: up to 120 seconds from the lock time of each live executor's row. */
  lemma TimePassesIff(s: State, now: nat)
    requires Reachable(s)
    ensures Enabled(s, Tick(now)) <==>
            s.clock <= now &&
            forall w :: w in s.workers && Executing(s.workers[w]) ==>
              var id := s.workers[w].id;
              id in s.rows && s.rows[id].lockedAt.Some? && now <= s.rows[id].lockedAt.value + 120
  {
    hide Reachable, Inv, RowOk;
    ReachableInv(s);
    forall w | w in s.workers && Executing(s.workers[w])
      ensures s.workers[w].id in s.rows && s.rows[s.workers[w].id].lockedAt.Some?
    {
      LiveRow(s, w);
    }
  }

  // ---------- After an overrun ----------

  /** The state right after the reaper ran at the given time. */
  ghost function AfterReap(s: State, now: nat): State {
    s.(clock := now, rows := ReapTable(s.rows, Cutoff(now)))
  }

  /** Two workers execute the same deployment. */
  ghost predicate SameRow(s: State, w: Id, u: Id) {
    && w in s.workers && u in s.workers && w != u && Executing(s.workers[w]) && Executing(s.workers[u])
    && s.workers[w].id == s.workers[u].id
  }

  /** What an overrun makes of the row: back in the queue below the attempt limit, otherwise failed as lost. */
  lemma OverrunRow(s: State, now: nat, w: Id)
    requires Reachable(s) && Overrun(s, now, w)
    ensures Apply(s.(clock := now), Reap) == AfterReap(s, now)
    ensures var r, r' := s.rows[s.workers[w].id], AfterReap(s, now).rows[s.workers[w].id];
            && r'.status == (if r.attempts < MAX_ATTEMPTS then REQUESTED else FAILED)
            && (r'.status == REQUESTED ==> r'.worker == None)
            && (r'.status == FAILED ==> r'.worker == Some(w) && r'.error == Some(WorkerLost))
    ensures s.workers[w].id !in Locked(s)
  {
    hide Reachable, Inv, RowOk, Locked, Stuck;
    ReachableInv(s);
    LiveRow(s, w);
    NotLocked(s, w);
    ReapedAt(s.rows, Cutoff(now), s.workers[w].id);
    hide ReapTable;
  }

  lemma NotLocked(s: State, w: Id)
    requires Inv(s) && w in s.workers && Executing(s.workers[w])
    ensures s.workers[w].id !in Locked(s)
  {
    forall u | u in s.workers && s.workers[u].Selecting? ensures s.workers[u].id != s.workers[w].id {
      ExclusiveWorkers(s, w, u);
    }
    hide Inv;
  }

  /** Another worker locks the oldest row that is free, and commits its claim. */
  lemma OneClaim(s0: State, s: State, u: Id, x: Id) returns (t: State)
    requires Recovers(s0, s, u) && u !in s.workers
    requires Claimable(s.rows, Locked(s)) != {} && x == MinId(Claimable(s.rows, Locked(s)))
    ensures Recovers(s0, t, u)
    ensures x in s.rows && t == s.(rows := s.rows[x := ClaimRow(s.rows[x], u, s.clock)], workers := s.workers[u := Claimed(x)])
  {
    hide Recovers, ClaimRow, LeaseHolds;
    assert x in Claimable(s.rows, Locked(s));
    hide MinId;
    var s1 := s.(workers := s.workers[u := Selecting(x)]);
    assert Apply(s, ClaimSelect(u)) == s1;
    RecoversStep(s0, s, ClaimSelect(u), u);
    t := s.(rows := s.rows[x := ClaimRow(s.rows[x], u, s.clock)], workers := s.workers[u := Claimed(x)]);
    assert Apply(s1, ClaimCommit(u)) == t;
    RecoversStep(s0, s1, ClaimCommit(u), u);
  }

  lemma OneClaimLess(rows: Table, locked: set<Id>, x: Id, r: Row)
    requires x in Claimable(rows, locked) && r.status != REQUESTED
    ensures Claimable(rows[x := r], locked) == Claimable(rows, locked) - {x}
  {
  }

  /** A worker with nothing else to do works off the rows before the given one, and then claims it. */
  lemma {:induction false} ClaimsUpTo(s0: State, s: State, w: Id, u: Id, id: Id) returns (t: State)
    requires Recovers(s0, s, u) && w in s.workers && Executing(s.workers[w]) && s.workers[w].id == id
    requires u !in s.workers && id in Claimable(s.rows, Locked(s))
    ensures Recovers(s0, t, u) && SameRow(t, w, u) && t.workers[w].id == id
    decreases |Claimable(s.rows, Locked(s))|
  {
    hide Recovers, Claimable, Locked;
    var x := MinId(Claimable(s.rows, Locked(s)));
    t := OneClaim(s0, s, u, x);
    if x != id {
      var s' := t.(workers := s.workers);
      assert Apply(t, Crash(u)) == s';
      RecoversStep(s0, t, Crash(u), u);
      assert Locked(s') == Locked(s) by { SameLocks(s, s'); }
      OneClaimLess(s.rows, Locked(s), x, ClaimRow(s.rows[x], u, s.clock));
      t := ClaimsUpTo(s0, s', w, u, id);
    }
  }

  lemma SameLocks(s: State, s': State)
    requires s'.workers == s.workers
    ensures Locked(s') == Locked(s)
  {
  }

  /** The row is failed, its old worker may still be at it, and the other worker is not. */
  ghost predicate FailedUnder(s: State, w: Id, u: Id, id: Id) {
    && id in s.rows && s.rows[id].status == FAILED
    && (w in s.workers ==> s.workers[w].id == id) && (u in s.workers ==> s.workers[u].id != id)
  }

  lemma FailedUnderStep(s: State, step: Step, w: Id, u: Id, id: Id)
    requires FailedUnder(s, w, u, id) && w != u && Enabled(s, step) && RecoveryStep(step, u)
    ensures FailedUnder(Apply(s, step), w, u, id)
  {
    if step.ClaimSelect? {
      assert MinId(Claimable(s.rows, Locked(s))) in Claimable(s.rows, Locked(s));
    }
    hide MinId, StillDeployable, LeaseHolds, ClaimRow, StartRow, DeployRow, FailRow, FinishRow, ReapRow;
  }

  lemma {:induction false} FailedUnderRun(s: State, steps: seq<Step>, w: Id, u: Id, id: Id)
    requires FailedUnder(s, w, u, id) && w != u && IsRun(s, steps)
    requires forall k :: 0 <= k < |steps| ==> RecoveryStep(steps[k], u)
    ensures FailedUnder(After(s, steps), w, u, id)
  {
    hide FailedUnder, Enabled, Apply, RecoveryStep;
    if steps != [] {
      var n := |steps| - 1;
      FailedUnderRun(s, steps[..n], w, u, id);
      FailedUnderStep(After(s, steps[..n]), steps[n], w, u, id);
    }
  }

  /**
   * When an overrun breaks exclusion with nobody's help. Once the reaper took the row of a worker that is still alive,
   * another worker's own steps lead to both executing that row exactly if the row had attempts left. At the limit it
   * takes one retry more: see OverrunAlwaysBreaks.
   */
  lemma OverrunBreaksExclusion(s: State, now: nat, w: Id, u: Id)
    requires Reachable(s) && Overrun(s, now, w) && u !in s.workers
    ensures (exists t :: Recovers(AfterReap(s, now), t, u) && SameRow(t, w, u)) <==>
            s.rows[s.workers[w].id].attempts < MAX_ATTEMPTS
  {
    hide Reachable, AfterReap, Recovers;
    var reaped, id := AfterReap(s, now), s.workers[w].id;
    OverrunRow(s, now, w);
    if s.rows[id].attempts < MAX_ATTEMPTS {
      var t := ClaimedTwice(s, now, w, u);
    } else {
      forall t | Recovers(reaped, t, u) ensures !SameRow(t, w, u) {
        NeverClaimedTwice(s, now, w, u, t);
      }
    }
  }

  /** The row failed under its live worker can be retried: its place in the index is its own. */
  lemma LostRowRetries(s: State, now: nat, w: Id)
    requires Reachable(s) && Overrun(s, now, w) && s.rows[s.workers[w].id].attempts >= MAX_ATTEMPTS
    ensures var t, id := AfterReap(s, now), s.workers[w].id;
            RetryDeployment(t.rows, id) == Ok(t.rows[id := RetryRow(t.rows[id])])
  {
    var t, id := AfterReap(s, now), s.workers[w].id;
    OverrunRow(s, now, w);
    ReachableInv(s);
    hide Reachable;
    PlaceStaysFree(s.rows, Cutoff(now), id);
    hide Inv, ReapTable, Stuck, ActiveClash, RetryRow;
  }

  lemma PlaceStaysFree(rows: Table, cutoff: int, id: Id)
    requires UniqueActive(rows) && id in rows && Stuck(rows[id], cutoff)
    ensures id in ReapTable(rows, cutoff)
    ensures !ActiveClash(ReapTable(rows, cutoff), id, RetryRow(ReapTable(rows, cutoff)[id]))
  {
    var rows' := ReapTable(rows, cutoff);
    hide RetryRow, ReapRow, Stuck;
    ReapKeepsPlace(rows[id], cutoff);
    forall j | j in rows' && j != id ensures !Competes(RetryRow(rows'[id]), rows'[j]) {
      ReapKeepsPlace(rows[j], cutoff);
      assert !Competes(rows[id], rows[j]);
    }
  }

  lemma ReapKeepsPlace(r: Row, cutoff: int)
    ensures Stuck(r, cutoff) ==> InFlight(r) && SameIdentity(r, RetryRow(ReapRow(r)))
    ensures SameIdentity(r, ReapRow(r))
  {
  }

  /**
   * After any overrun, some continuation has two workers executing one row: another worker's own steps suffice below
   * the attempt limit, and at the limit one retry of the failed row before them, which the index always admits.
   */
  lemma OverrunAlwaysBreaks(s: State, now: nat, w: Id, u: Id) returns (t: State)
    requires Reachable(s) && Overrun(s, now, w) && u !in s.workers
    ensures Enabled(AfterReap(s, now), Retry(s.workers[w].id))
    ensures Recovers(if s.rows[s.workers[w].id].attempts < MAX_ATTEMPTS then AfterReap(s, now)
                     else Apply(AfterReap(s, now), Retry(s.workers[w].id)), t, u)
    ensures SameRow(t, w, u) && t.workers[w].id == s.workers[w].id
  {
    if s.rows[s.workers[w].id].attempts < MAX_ATTEMPTS {
      t := ClaimedTwice(s, now, w, u);
    } else {
      t := RetriedTwice(s, now, w, u);
    }
  }

  lemma RetriedTwice(s: State, now: nat, w: Id, u: Id) returns (t: State)
    requires Reachable(s) && Overrun(s, now, w) && u !in s.workers
    requires s.rows[s.workers[w].id].attempts >= MAX_ATTEMPTS
    ensures Recovers(Apply(AfterReap(s, now), Retry(s.workers[w].id)), t, u)
    ensures SameRow(t, w, u) && t.workers[w].id == s.workers[w].id
  {
    var reaped, id := AfterReap(s, now), s.workers[w].id;
    OverrunRow(s, now, w);
    LostRowRetries(s, now, w);
    var retried := reaped.(rows := reaped.rows[id := RetryRow(reaped.rows[id])]);
    assert Apply(reaped, Retry(id)) == retried by { hide RetryDeployment, ReapTable; }
    assert retried.rows[id].status == REQUESTED;
    hide Reachable, Recovers, Stuck, RetryDeployment, ReapTable, Apply, RetryRow;
    RecoversRefl(retried, u);
    SameLocks(s, retried);
    t := ClaimsUpTo(retried, retried, w, u, id);
  }

  lemma ClaimedTwice(s: State, now: nat, w: Id, u: Id) returns (t: State)
    requires Reachable(s) && Overrun(s, now, w) && u !in s.workers
    requires s.rows[s.workers[w].id].attempts < MAX_ATTEMPTS
    ensures Recovers(AfterReap(s, now), t, u) && SameRow(t, w, u) && t.workers[w].id == s.workers[w].id
  {
    hide Reachable, Recovers, Stuck;
    OverrunRow(s, now, w);
    RecoversRefl(AfterReap(s, now), u);
    SameLocks(s, AfterReap(s, now));
    t := ClaimsUpTo(AfterReap(s, now), AfterReap(s, now), w, u, s.workers[w].id);
  }

  lemma NeverClaimedTwice(s: State, now: nat, w: Id, u: Id, t: State)
    requires Reachable(s) && Overrun(s, now, w) && u !in s.workers
    requires s.rows[s.workers[w].id].attempts >= MAX_ATTEMPTS && Recovers(AfterReap(s, now), t, u)
    ensures !SameRow(t, w, u)
  {
    hide Reachable, RecoveryStep, Enabled, Apply, Stuck;
    OverrunRow(s, now, w);
    var steps :| Run(AfterReap(s, now), steps) == Some(t) && forall k :: 0 <= k < |steps| ==> RecoveryStep(steps[k], u);
    FailedUnderRun(AfterReap(s, now), steps, w, u, s.workers[w].id);
  }

  /**
   * At the limit the reaper fails the row under its live worker, and that worker's last commit then writes an outcome
   * over the failure: a history the event automaton does not allow.
   */
  lemma LateFinishBreaksTimeline(s: State, now: nat, w: Id)
    requires Reachable(s) && Overrun(s, now, w) && s.workers[w].Running?
    requires s.rows[s.workers[w].id].attempts >= MAX_ATTEMPTS
    ensures var t := AfterReap(s, now);
            Enabled(t, Finish(w)) && !LegalTimeline(Apply(t, Finish(w)).rows[s.workers[w].id].events)
  {
    hide Reachable;
    OverrunRow(s, now, w);
    hide Overrun;
    var t, id := AfterReap(s, now), s.workers[w].id;
    var r := t.rows[id];
    assert r.events == s.rows[id].events + [Event(FAILED, WorkerLost)];
    var n := |r.events|;
    var events := Apply(t, Finish(w)).rows[id].events;
    assert |events| == n + 1 && events[n - 1].status == FAILED;
    assert !MayFollow(events[n - 1].status, events[n]);
  }
}

/** Who executes what: exclusive execution, the one-in-flight rule, and what must happen between two claims of a row. */
module Execution {
  import opened Common
  import opened Deployments
  import opened Tables
  import opened Protocol
  import opened Invariants
  import Lifecycle

  /** In every reachable state, two live workers are never at the same deployment. */
  lemma ExclusiveExecution(s: State, w: Id, u: Id)
    requires Reachable(s) && w in s.workers && u in s.workers && w != u
    ensures s.workers[w].id != s.workers[u].id
  {
    ReachableInv(s);
    ExclusiveWorkers(s, w, u);
  }

  /** In every reachable state, an executor's row is in execution and carries that executor's id. */
  lemma ExecutorIsStamped(s: State, w: Id)
    requires Reachable(s) && w in s.workers && Executing(s.workers[w])
    ensures s.workers[w].id in s.rows && Held(s.rows[s.workers[w].id]) && s.rows[s.workers[w].id].worker == Some(w)
  {
    ReachableInv(s);
    assert WorkerOk(s, w);
  }

  /** In every reachable state, at most one deployment per model and environment is in flight, and keys are unique. */
  lemma OneInFlight(s: State, i: Id, j: Id)
    requires Reachable(s) && i in s.rows && j in s.rows && i != j
    ensures InFlight(s.rows[i]) && InFlight(s.rows[j]) ==>
              s.rows[i].model != s.rows[j].model || s.rows[i].environment != s.rows[j].environment
    ensures s.rows[i].key.Some? ==> s.rows[i].key != s.rows[j].key
  {
    ReachableInv(s);
    assert !Competes(s.rows[i], s.rows[j]) && !SharesKey(s.rows[i], s.rows[j]);
  }

  /**
   * Apart from the insert and the retry, no commit can be refused by a uniqueness constraint:
   * the rows it leaves behind clash with nothing, although the step consults neither constraint.
   */
  lemma OnlyInsertAndRetryCanClash(s: State, step: Step, id: Id)
    requires Reachable(s) && Enabled(s, step) && !step.RequestInsert? && !step.Retry?
    requires id in Apply(s, step).rows
    ensures !ActiveClash(Apply(s, step).rows, id, Apply(s, step).rows[id])
    ensures !KeyClash(Apply(s, step).rows, id, Apply(s, step).rows[id])
  {
    ReachableInv(s);
    StepAdvances(s, step);
    hide Apply, Enabled, Reachable;
    var rows := Apply(s, step).rows;
    forall j | j in rows && j != id ensures !Competes(rows[id], rows[j]) && !SharesKey(rows[id], rows[j]) {
    }
  }

  /** Equal counts are all a prefix can hide: a larger count means a new event of that name. */
  lemma {:induction false} CountGrowth(before: seq<Event>, after: seq<Event>, name: EventName)
    requires before <= after && Count(after, name) > Count(before, name)
    ensures exists k :: |before| <= k < |after| && after[k].name == name
  {
    if after != before {
      assert |after| > |before|;
      var n := |after| - 1;
      if after[n].name != name {
        CountGrowth(before, after[..n], name);
        var k :| |before| <= k < n && after[..n][k].name == name;
        assert after[k].name == name;
      }
    }
  }

  /** Counts only grow with the list. */
  lemma {:induction false} CountMonotone(before: seq<Event>, after: seq<Event>, name: EventName)
    requires before <= after
    ensures Count(before, name) <= Count(after, name)
  {
    if |after| == |before| {
      assert after == before;
    } else {
      CountMonotone(before, after[..|after| - 1], name);
    }
  }

  /**
   * Between two claims of one row lies a requeue or a retry: from a state where the row has been claimed,
   * through any run, to a state where a worker is about to commit another claim of the same row.
   */
  lemma ReclaimHasACause(s: State, t: State, w: Id, id: Id)
    requires Reachable(s) && id in s.rows && s.rows[id].status != REQUESTED
    requires Reaches(s, t) && w in t.workers && t.workers[w] == Selecting(id) && id in t.rows
    ensures var before, after := s.rows[id].events, t.rows[id].events;
            exists k :: |before| <= k < |after| && (after[k].name == Requeued || after[k].name == RetryRequested)
  {
    hide Inv, Reaches, Reachable, RowOk, RowEvolves;
    ReachableInv(s);
    RowAfter(s, t, id);
    SelectedIsRequested(t, w);
    MoreCauses(s.rows[id], t.rows[id]);
  }

  lemma SelectedIsRequested(s: State, w: Id)
    requires Inv(s) && w in s.workers && s.workers[w].Selecting?
    ensures s.workers[w].id in s.rows && s.rows[s.workers[w].id].status == REQUESTED
  {
    assert WorkerOk(s, w);
  }

  /** A row that was claimed and is requested again has a new requeue or retry in its history. */
  lemma MoreCauses(r: Row, r': Row)
    requires RowOk(r) && RowOk(r') && RowEvolves(r, r') && r.status != REQUESTED && r'.status == REQUESTED
    ensures exists k :: |r.events| <= k < |r'.events| &&
                        (r'.events[k].name == Requeued || r'.events[k].name == RetryRequested)
  {
    var before, after := r.events, r'.events;
    if Count(after, Requeued) > Count(before, Requeued) {
      CountGrowth(before, after, Requeued);
    } else {
      CountMonotone(before, after, Requeued);
      CountGrowth(before, after, RetryRequested);
    }
  }

  /**
   * Exact attempt accounting in every reachable state, and its consequences: at most MAX_ATTEMPTS - 1 requeues in a
   * row's lifetime, and attempts bounded by the limit plus the retries.
   */
  lemma AttemptAccounting(s: State, id: Id)
    requires Reachable(s) && id in s.rows
    ensures var r := s.rows[id];
            && r.attempts + (if r.status == REQUESTED then 1 else 0) == 1 + Requeues(r) + Retries(r)
            && Requeues(r) <= MAX_ATTEMPTS - 1
            && r.attempts <= MAX_ATTEMPTS + Retries(r)
  {
    ReachableInv(s);
    RowOfTable(s, id);
    AttemptsBounded(s.rows[id]);
  }

  // ---------- Nobody gets stuck ----------

  /** In every reachable state, every live worker can take its next step, whatever became of rows and versions meanwhile. */
  lemma WorkersGoOn(s: State, w: Id)
    requires Reachable(s) && w in s.workers
    ensures Enabled(s, match s.workers[w]
                       case Selecting(_) => ClaimCommit(w)
                       case Claimed(_) => StartValidation(w)
                       case Validating(_) => CheckGate(w)
                       case Decided(_, _) => CommitDecision(w)
                       case Running(_) => Finish(w))
  {
    ReachableInv(s);
    assert WorkerOk(s, w);
  }

  /** So can every call, with a fresh id where it inserts. */
  lemma CallsGoOn(s: State, c: Id, id: Id)
    requires Reachable(s) && c in s.calls && id !in s.rows && id !in s.versions && id !in s.models
    ensures Enabled(s, match s.calls[c]
                       case Registering(_) => ModelInsert(c, id)
                       case Creating(_, _, _) => VersionInsert(c, id)
                       case Inserting(_, _) => RequestInsert(c, id)
                       case RollingBack(_, _) => RollbackCommit(c))
  {
    ReachableInv(s);
    assert CallOk(s.rows, s.versions, s.calls[c]);
  }

  /** New calls are always taken, and an idle worker can select exactly if some requested row is not locked. */
  lemma AlwaysOpen(s: State, w: Id, c: Id, q: Request, id: Id, model: Id, version: string, target: Lifecycle.Stage)
    requires w !in s.workers && c !in s.calls
    ensures Enabled(s, ClaimSelect(w)) <==>
            exists i :: i in s.rows && s.rows[i].status == REQUESTED &&
                        forall u :: u in s.workers && s.workers[u].Selecting? ==> s.workers[u].id != i
    ensures Enabled(s, RequestLookup(c, q)) && Enabled(s, RollbackRead(c, id)) && Enabled(s, VersionCheck(c, model, version, w))
    ensures Enabled(s, Retry(id)) && Enabled(s, ApproveVersion(id, w)) && Enabled(s, TransitionVersion(id, target, w))
    ensures Enabled(s, Reap)
    ensures forall key :: key !in s.models.Values ==> Enabled(s, ModelProbe(c, key))
  {
    var free := Claimable(s.rows, Locked(s));
    if free != {} {
      var i :| i in free;
      forall u | u in s.workers && s.workers[u].Selecting? ensures s.workers[u].id != i {
        assert s.workers[u].id in Locked(s);
      }
    }
    forall i | i in s.rows && s.rows[i].status == REQUESTED &&
               forall u :: u in s.workers && s.workers[u].Selecting? ==> s.workers[u].id != i
      ensures i in free
    {
    }
  }
}

/** Rollback chains: where a rolled-back deployment leads, and why an environment is never stranded. */
module Rollbacks {
  import opened Common
  import opened Deployments
  import opened Tables
  import opened Protocol
  import opened Invariants

  predicate SamePlace(r: Row, r': Row) {
    r.model == r'.model && r.environment == r'.environment
  }

  /** A rollback of one row points at another, earlier one. */
  predicate RolledBackOnto(rows: Table, id: Id, target: Id) {
    id in rows && rows[id].status == ROLLED_BACK && rows[id].rolledBackTo == Some(target) && target < id
  }

  /** The rows met by following rolled_back_to from a deployed row. */
  ghost function Chain(rows: Table, id: Id): (path: seq<Id>)
    requires RollbacksOk(rows) && id in rows && Deployed(rows[id])
    ensures |path| > 0 && path[0] == id
    ensures forall k :: 0 <= k < |path| ==> path[k] in rows && path[k] <= id && SamePlace(rows[id], rows[path[k]])
    ensures forall j, k :: 0 <= j < k < |path| && k == j + 1 ==> RolledBackOnto(rows, path[j], path[k])
    ensures rows[path[|path| - 1]].status == SUCCEEDED
    decreases id
  {
    assert RollbackLinked(rows, id);
    if rows[id].status == SUCCEEDED then [id] else [id] + Chain(rows, rows[id].rolledBackTo.value)
  }

  /**
   * In every reachable state, following the rollback pointers from a rolled-back row stays in its model and
   * environment, strictly descends in id, and ends at a SUCCEEDED row. Target selection and commit are separate
   * steps here, so other rollbacks, of the same row or of its target, may come between them.
   */
  lemma RollbackChainEndsInSuccess(s: State, id: Id) returns (path: seq<Id>)
    requires Reachable(s) && id in s.rows && s.rows[id].status == ROLLED_BACK
    ensures |path| > 1 && path[0] == id
    ensures forall k :: 0 <= k < |path| ==> path[k] in s.rows && SamePlace(s.rows[id], s.rows[path[k]])
    ensures forall j, k :: 0 <= j < k < |path| && k == j + 1 ==> RolledBackOnto(s.rows, path[j], path[k])
    ensures s.rows[path[|path| - 1]].status == SUCCEEDED
  {
    hide Reachable, Reaches;
    ReachableInv(s);
    InvRollbacks(s);
    hide Inv, RollbacksOk, SamePlace;
    path := Chain(s.rows, id);
  }

  /** Once an environment has had a successful deployment of a model, it has one after every run. */
  lemma NeverStranded(s: State, t: State, id: Id)
    requires Reachable(s) && Reaches(s, t) && id in s.rows && s.rows[id].status == SUCCEEDED
    ensures exists j :: j in t.rows && j <= id && t.rows[j].status == SUCCEEDED &&
                        SamePlace(s.rows[id], t.rows[j])
  {
    hide Reaches, Reachable, Inv, RowOk;
    ReachableInv(s);
    RowAfter(s, t, id);
    assert RollbacksOk(t.rows) by { InvRollbacks(t); }
    var path := Chain(t.rows, id);
    assert path[|path| - 1] in t.rows;
  }

  lemma InvRollbacks(s: State)
    requires Inv(s)
    ensures RollbacksOk(s.rows)
  {
  }

  /** An earlier success of another version in the same place. */
  ghost predicate EarlierSuccess(rows: Table, id: Id, j: Id)
    requires id in rows
  {
    j in rows && j < id && rows[j].status == SUCCEEDED && SamePlace(rows[id], rows[j]) && rows[j].version != rows[id].version
  }

  /**
   * Reading the target of a rollback: there is one exactly if the row is SUCCEEDED and has an earlier success of
   * another version in its place, and then it is the latest of them.
   */
  lemma RollbackReadsLatest(s: State, c: Id, id: Id)
    requires Enabled(s, RollbackRead(c, id))
    ensures c in Apply(s, RollbackRead(c, id)).calls <==>
            id in s.rows && s.rows[id].status == SUCCEEDED && exists j: Id :: EarlierSuccess(s.rows, id, j)
    ensures c in Apply(s, RollbackRead(c, id)).calls ==>
              var call := Apply(s, RollbackRead(c, id)).calls[c];
              && call.RollingBack? && call.id == id && EarlierSuccess(s.rows, id, call.target)
              && forall j: Id :: EarlierSuccess(s.rows, id, j) ==> j <= call.target
  {
    if id in s.rows {
      forall j: Id ensures EarlierSuccess(s.rows, id, j) <==> j in RollbackCandidates(s.rows, id) {
      }
    }
  }
}

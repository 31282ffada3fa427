/** Idempotency keys over whole runs. */
module Idempotency {
  import opened Common
  import opened Deployments
  import opened Tables
  import opened Protocol
  import opened Invariants

  /**
   * Once a row carries a non-empty key, any later request with that key returns that row and changes nothing,
   * whatever it asks for and whatever happened in between.
   */
  lemma ReplayForever(s: State, t: State, id: Id, q: Request, call: Id)
    requires Reachable(s) && id in s.rows && s.rows[id].key.Some? && s.rows[id].key.value != ""
    requires Reaches(s, t) && q.key == s.rows[id].key && call !in t.calls
    ensures LookupRequest(t.rows, t.versions, q) == Replay(id) && Apply(t, RequestLookup(call, q)) == t
  {
    hide Inv, Reaches, Reachable, LookupRequest;
    ReachableInv(s);
    RowAfter(s, t, id);
    KeptRowReplays(t, id, q);
  }

  lemma KeptRowReplays(s: State, id: Id, q: Request)
    requires Inv(s) && id in s.rows && s.rows[id].key.Some? && s.rows[id].key.value != "" && q.key == s.rows[id].key
    ensures LookupRequest(s.rows, s.versions, q) == Replay(id)
  {
    KeyIdentifies(s.rows, id, q.key.value);
  }

  /**
   * With lookup and insert interleaved, the loser of a race on one key is refused by the constraint, so a key never
   * names two rows: once it names one, no insert with that key can succeed.
   */
  lemma SecondInsertRefused(s: State, t: State, id: Id, call: Id, newId: Id)
    requires Reachable(s) && id in s.rows && s.rows[id].key.Some? && Reaches(s, t)
    requires Enabled(t, RequestInsert(call, newId))
    requires t.calls[call].request.key == s.rows[id].key
    ensures Apply(t, RequestInsert(call, newId)).rows == t.rows
  {
    hide Inv, Reaches, Reachable;
    ReachableInv(s);
    RowAfter(s, t, id);
    KeptRowRefuses(t, id, call, newId);
  }

  lemma KeptRowRefuses(s: State, id: Id, call: Id, newId: Id)
    requires id in s.rows && s.rows[id].key.Some?
    requires Enabled(s, RequestInsert(call, newId)) && s.calls[call].request.key == s.rows[id].key
    ensures Apply(s, RequestInsert(call, newId)).rows == s.rows
  {
    var q, m := s.calls[call].request, s.calls[call].model;
    var r := NewRow(m, q.version, q.environment, q.key, q.simulateFailure);
    assert id != newId && SharesKey(r, s.rows[id]);
  }

  /**
   * The empty key is stored and unique, but never replayed: a second request with it is refused, where a non-empty
   * key would have returned the first row.
   */
  lemma EmptyKeyIsRefused(s: State, id: Id, q: Request, newId: Id)
    requires id in s.rows && s.rows[id].key == Some("") && q.key == Some("") && newId !in s.rows
    ensures !LookupRequest(s.rows, s.versions, q).Replay?
    ensures forall m :: InsertRequest(s.rows, q, m, newId) == Err(ConflictError)
  {
    forall m ensures InsertRequest(s.rows, q, m, newId) == Err(ConflictError) {
      var r := NewRow(m, q.version, q.environment, q.key, q.simulateFailure);
      assert SharesKey(r, s.rows[id]);
    }
  }
}

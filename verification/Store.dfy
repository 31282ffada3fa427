/** The ORM objects of one session and the tables they are loaded from; every field the services assign is mutable. */
module Store {
  import opened Common
  import opened Lifecycle
  import opened DeploymentPolicy
  import D = Deployments
  import T = Tables
  import V = Versions

  class Deployment {
    const id: Id
    const model: Id
    const version: Id
    const environment: Environment
    const key: Option<string>
    const simulateFailure: bool
    var status: D.Status
    var worker: Option<Id>
    var lockedAt: Option<nat>
    var attempts: nat
    var error: Option<D.EventName>
    var rolledBackTo: Option<Id>
    var events: seq<D.Event>

    /** A row with the column defaults. */
    constructor (id: Id, model: Id, version: Id, environment: Environment, key: Option<string>, simulateFailure: bool)
      ensures this.id == id
      ensures Value() == D.Row(model, version, environment, D.REQUESTED, key, simulateFailure, None, None, 0, None, None, [])
    {
      this.id, this.model, this.version, this.environment := id, model, version, environment;
      this.key, this.simulateFailure := key, simulateFailure;
      status, worker, lockedAt, attempts := D.REQUESTED, None, None, 0;
      error, rolledBackTo, events := None, None, [];
    }

    function Value(): D.Row
      reads this
    {
      D.Row(model, version, environment, status, key, simulateFailure, worker, lockedAt, attempts, error, rolledBackTo, events)
    }

    method RecordEvent(name: D.EventName)
      modifies this`events
      ensures Value() == D.RecordEvent(old(Value()), name)
    {
      events := events + [D.Event(status, name)];
    }

    /** Session rollback: back to the committed column values. */
    method Refresh(committed: D.Row)
      requires D.SameIdentity(Value(), committed)
      modifies this
      ensures Value() == committed
    {
      status, worker, lockedAt, attempts := committed.status, committed.worker, committed.lockedAt, committed.attempts;
      error, rolledBackTo, events := committed.error, committed.rolledBackTo, committed.events;
    }
  }

  class ModelVersion {
    const id: Id
    const model: Id
    const version: string
    var stage: Stage
    var approvedAt: Option<nat>
    var approvedBy: Option<Id>
    var events: seq<V.VersionEvent>

    constructor (id: Id, model: Id, version: string)
      ensures this.id == id && Value() == V.Version(model, version, Draft, None, None, [])
    {
      this.id, this.model, this.version := id, model, version;
      stage, approvedAt, approvedBy, events := Draft, None, None, [];
    }

    function Value(): V.Version
      reads this
    {
      V.Version(model, version, stage, approvedAt, approvedBy, events)
    }

    method RecordEvent(from: Option<Stage>, to: Stage, actor: Id)
      modifies this`events
      ensures Value() == V.RecordVersionEvent(old(Value()), from, to, actor)
    {
      events := events + [V.VersionEvent(V.EventName(from, to), from, to, actor)];
    }
  }

  datatype Model = Model(key: string, name: string)

  class Database {
    var models: map<Id, Model>
    var versions: map<Id, ModelVersion>
    var deployments: map<Id, Deployment>
    /** The deployments table after each commit, oldest first. */
    ghost var commits: seq<T.Table>

    constructor ()
      ensures Valid() && models == map[] && versions == map[] && deployments == map[] && commits == []
    {
      models, versions, deployments, commits := map[], map[], map[], [];
    }

    ghost function Rows(): T.Table
      reads this`deployments, deployments.Values
    {
      map i | i in deployments :: deployments[i].Value()
    }

    ghost function VersionRows(): T.VersionTable
      reads this`versions, versions.Values
    {
      map i | i in versions :: versions[i].Value()
    }

    ghost predicate Keyed()
      reads this`deployments
    {
      forall i :: i in deployments ==> deployments[i].id == i
    }

    ghost predicate VersionsKeyed()
      reads this`versions
    {
      forall i :: i in versions ==> versions[i].id == i
    }

    /** The two uniqueness constraints the database enforces on deployments. */
    ghost predicate Constrained()
      reads this`deployments, deployments.Values
    {
      T.UniqueActive(Rows()) && T.UniqueKeys(Rows())
    }

    /** Row objects are keyed by their ids, and the uniqueness constraints hold. */
    ghost predicate Valid()
      reads this`deployments, deployments.Values
    {
      Keyed() && Constrained()
    }

    /** Rewriting one row object rewrites one row of the table. */
    twostate lemma OneRowChanged(d: Deployment)
      requires deployments == old(deployments) && Keyed()
      requires d.id in deployments && deployments[d.id] == d
      requires forall i :: i in deployments && i != d.id ==> unchanged(deployments[i])
      ensures Rows() == old(Rows())[d.id := d.Value()]
    {
    }

    twostate lemma OneVersionChanged(v: ModelVersion)
      requires versions == old(versions) && VersionsKeyed()
      requires v.id in versions && versions[v.id] == v
      requires forall i :: i in versions && i != v.id ==> unchanged(versions[i])
      ensures VersionRows() == old(VersionRows())[v.id := v.Value()]
    {
    }

    twostate lemma VersionsUntouched()
      requires versions == old(versions) && forall i :: i in versions ==> unchanged(versions[i])
      ensures VersionRows() == old(VersionRows())
    {
    }

    /** A rewrite that moves no row into flight keeps the uniqueness constraints, with no check. */
    twostate lemma WriteKeepsValid(d: Deployment)
      requires old(Valid()) && deployments == old(deployments)
      requires d.id in deployments && deployments[d.id] == d
      requires forall i :: i in deployments && i != d.id ==> unchanged(deployments[i])
      requires D.InFlight(d.Value()) ==> old(D.InFlight(d.Value()))
      ensures Valid() && Rows() == old(Rows())[d.id := d.Value()]
    {
      OneRowChanged(d);
      T.ConstraintsKept(old(Rows()), Rows());
    }

    /** A rewrite that moves a row into flight needs the index to admit it. */
    twostate lemma CheckedWriteKeepsValid(d: Deployment)
      requires old(Valid()) && deployments == old(deployments)
      requires d.id in deployments && deployments[d.id] == d
      requires forall i :: i in deployments && i != d.id ==> unchanged(deployments[i])
      ensures Rows() == old(Rows())[d.id := d.Value()]
      ensures T.ActiveClash(Rows(), d.id, d.Value()) == T.ActiveClash(old(Rows()), d.id, d.Value())
      ensures !T.ActiveClash(Rows(), d.id, d.Value()) ==> Valid()
    {
      OneRowChanged(d);
      var rows, id, r := old(Rows()), d.id, d.Value();
      assert r == d.Value() && rows[id].key == r.key by { assert rows[id] == old(d.Value()); }
      T.OwnRowIgnored(rows, id, r);
      if !T.ActiveClash(rows, id, r) {
        T.RewriteChecked(rows, id, r);
      }
    }

    /** Restoring a row object restores the table. */
    twostate lemma RestoredRow(d: Deployment)
      requires old(Valid()) && deployments == old(deployments)
      requires d.id in deployments && deployments[d.id] == d && d.Value() == old(d.Value())
      requires forall i :: i in deployments && i != d.id ==> unchanged(deployments[i])
      ensures Valid() && Rows() == old(Rows())
    {
      OneRowChanged(d);
      assert old(Rows())[d.id := d.Value()] == old(Rows());
    }

    /** Adding a row object adds a row; both constraints must admit it. */
    twostate lemma RowAdded(new d: Deployment)
      requires old(Valid()) && d.id !in old(deployments) && deployments == old(deployments)[d.id := d]
      requires forall i :: i in old(deployments) ==> unchanged(deployments[i])
      ensures Rows() == old(Rows())[d.id := d.Value()]
      ensures !T.ActiveClash(old(Rows()), d.id, d.Value()) && !T.KeyClash(old(Rows()), d.id, d.Value()) ==> Valid()
    {
      var rows, r := old(Rows()), d.Value();
      assert Rows() == rows[d.id := r];
      if !T.ActiveClash(rows, d.id, r) && !T.KeyClash(rows, d.id, r) {
        T.ConstraintsChecked(rows, d.id, r);
      }
    }

    ghost method Commit()
      modifies this`commits
      ensures commits == old(commits) + [Rows()]
    {
      commits := commits + [Rows()];
    }

    /** Some other row keeps this one out of the index on in-flight rows. */
    predicate ActiveClash(d: Deployment)
      reads this`deployments, deployments.Values, d
      ensures ActiveClash(d) == T.ActiveClash(Rows(), d.id, d.Value())
    {
      var r := d.Value();
      assert forall j :: j in deployments ==> Rows()[j] == deployments[j].Value();
      exists j :: j in deployments && j != d.id && T.Competes(r, deployments[j].Value())
    }

    predicate KeyClash(d: Deployment)
      reads this`deployments, deployments.Values, d
      ensures KeyClash(d) == T.KeyClash(Rows(), d.id, d.Value())
    {
      var r := d.Value();
      assert forall j :: j in deployments ==> Rows()[j] == deployments[j].Value();
      exists j :: j in deployments && j != d.id && T.SharesKey(r, deployments[j].Value())
    }

    /** WHERE status = REQUESTED. */
    function RequestedIds(): (ids: set<Id>)
      reads this`deployments, deployments.Values
      ensures ids == T.Claimable(Rows(), {})
    {
      set i | i in deployments && deployments[i].status == D.REQUESTED
    }

    /** WHERE status IN STUCK_STATES AND locked_at < cutoff. */
    function StuckIds(cutoff: int): (ids: set<Id>)
      reads this`deployments, deployments.Values
      ensures ids == T.StuckIds(Rows(), cutoff)
    {
      set i | i in deployments && D.Stuck(deployments[i].Value(), cutoff)
    }
  }
}

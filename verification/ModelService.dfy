/** The model registry (services/model_service.py): unique keys for models, and the lifecycle of their versions. */
module ModelService {
  import opened Common
  import opened Lifecycle
  import opened Store
  import Text
  import V = Versions

  // ---------- Unique keys ----------

  /** Decimal notation, without leading zeros. */
  function Decimal(n: nat): string {
    var digit := [(n % 10 + '0' as int) as char];
    if n < 10 then digit else Decimal(n / 10) + digit
  }

  function Parse(s: string): int {
    if s == "" then 0 else 10 * Parse(s[..|s| - 1]) + (s[|s| - 1] as int - '0' as int)
  }

  /** Reading a number back gives the number, so different numbers have different notations. */
  lemma {:induction false} ParseDecimal(n: nat)
    ensures Decimal(n) != "" && Parse(Decimal(n)) == n
    ensures forall i :: 0 <= i < |Decimal(n)| ==> '0' <= Decimal(n)[i] <= '9'
  {
    var digit := [(n % 10 + '0' as int) as char];
    if n < 10 {
      assert digit[..0] == "";
    } else {
      ParseDecimal(n / 10);
      assert (Decimal(n / 10) + digit)[..|Decimal(n / 10)|] == Decimal(n / 10);
    }
  }

  /** The names tried, in order: base, base-2, base-3, … */
  function Candidate(base: string, k: nat): string {
    if k == 0 then base else base + "-" + Decimal(k + 1)
  }

  lemma CandidateInjective(base: string, j: nat, k: nat)
    requires Candidate(base, j) == Candidate(base, k)
    ensures j == k
  {
    ParseDecimal(j + 1);
    ParseDecimal(k + 1);
    if j > 0 && k > 0 {
      assert Candidate(base, j)[|base + "-"|..] == Decimal(j + 1);
      assert Candidate(base, k)[|base + "-"|..] == Decimal(k + 1);
    }
  }

  /** The second name ends in 2, and from there on the number counts up, in decimal notation. */
  lemma CandidateNumbers(base: string, k: nat)
    ensures Candidate(base, 0) == base && Candidate(base, 1) == base + "-2" && Candidate(base, 9) == base + "-10"
    ensures k > 0 ==>
              var c := Candidate(base, k);
              |c| > |base| + 1 && c[..|base| + 1] == base + "-" && Parse(c[|base| + 1..]) == k + 1
  {
    if k > 0 {
      ParseDecimal(k + 1);
    }
    assert Decimal(2) == "2" && Decimal(1) == "1" && Decimal(10) == Decimal(1) + "0";
    assert "1" + "0" == "10";
  }

  /** The first k names. */
  ghost function Tried(base: string, k: nat): set<string> {
    if k == 0 then {} else Tried(base, k - 1) + {Candidate(base, k - 1)}
  }

  lemma {:induction false} TriedMembers(base: string, k: nat, name: string)
    ensures name in Tried(base, k) <==> exists j :: 0 <= j < k && Candidate(base, j) == name
  {
    if k > 0 {
      TriedMembers(base, k - 1, name);
    }
  }

  lemma {:induction false} TriedCount(base: string, k: nat)
    ensures |Tried(base, k)| == k
  {
    if k > 0 {
      TriedCount(base, k - 1);
      if Candidate(base, k - 1) in Tried(base, k - 1) {
        TriedMembers(base, k - 1, Candidate(base, k - 1));
        var j :| 0 <= j < k - 1 && Candidate(base, j) == Candidate(base, k - 1);
        CandidateInjective(base, j, k - 1);
        assert false;
      }
    }
  }

  /** Pigeonhole: k taken names need k keys. */
  lemma TakenNamesBounded(base: string, k: nat, keys: set<string>)
    requires forall j :: 0 <= j < k ==> Candidate(base, j) in keys
    ensures k <= |keys|
  {
    forall name | name in Tried(base, k) ensures name in keys {
      TriedMembers(base, k, name);
    }
    SubsetCount(Tried(base, k), keys);
    TriedCount(base, k);
  }

  /** The k-th name is the first one free. */
  ghost predicate FirstFree(keys: set<string>, base: string, k: nat) {
    Candidate(base, k) !in keys && forall j :: 0 <= j < k ==> Candidate(base, j) in keys
  }

  /**
   * Probe base, base-2, base-3, … until a name is free. At most one more probe than there are keys; the result is the
   * first free name, and a slug.
   */
  method UniqueKey(keys: set<string>, t: Text.CharTable, name: string) returns (key: string, probes: nat)
    ensures 1 <= probes <= |keys| + 1
    ensures key == Candidate(Text.Slugify(t, name), probes - 1)
    ensures FirstFree(keys, Text.Slugify(t, name), probes - 1)
    ensures Text.IsSlug(key)
  {
    var base := Text.Slugify(t, name);
    key := base;
    var n := 2;
    while key in keys
      invariant n >= 2 && key == Candidate(base, n - 2)
      invariant forall j :: 0 <= j < n - 2 ==> Candidate(base, j) in keys
      decreases |keys| + 2 - n
    {
      TakenNamesBounded(base, n - 1, keys);
      key := base + "-" + Decimal(n);
      n := n + 1;
    }
    probes := n - 1;
    TakenNamesBounded(base, n - 2, keys);
    Text.SlugifyIsSlug(t, name);
    CandidateIsSlug(base, n - 2);
  }

  /** Every suffixed key is a slug again, so slugify leaves it alone. */
  lemma CandidateIsSlug(base: string, k: nat)
    requires Text.IsSlug(base)
    ensures Text.IsSlug(Candidate(base, k))
    ensures forall t :: Text.Sound(t) ==> Text.Slugify(t, Candidate(base, k)) == Candidate(base, k)
  {
    if k > 0 {
      ParseDecimal(k + 1);
      SuffixedIsSlug(base, Decimal(k + 1));
    }
    hide Text.IsSlug, Text.Slugify, Candidate;
    forall t | Text.Sound(t) ensures Text.Slugify(t, Candidate(base, k)) == Candidate(base, k) {
      Text.SlugifyFixesSlugs(t, Candidate(base, k));
    }
  }

  lemma SuffixedIsSlug(base: string, digits: string)
    requires Text.IsSlug(base) && digits != "" && forall i :: 0 <= i < |digits| ==> Text.SlugChar(digits[i])
    ensures Text.IsSlug(base + "-" + digits)
  {
    var c := base + "-" + digits;
    assert c[|base|] == '-';
    assert forall i :: 0 <= i < |base| ==> c[i] == base[i];
    assert forall i :: |base| < i < |c| ==> c[i] == digits[i - |base| - 1] && Text.SlugChar(c[i]);
  }

  // ---------- Models ----------

  /** The unique key column. */
  ghost predicate KeysOk(models: map<Id, Model>) {
    && (forall i :: i in models ==> |models[i].key| <= MAX_KEY_LENGTH)
    && (forall i, j :: i in models && j in models && i != j ==> models[i].key != models[j].key)
  }

  function KeysOf(models: map<Id, Model>): set<string> {
    set i | i in models :: models[i].key
  }

  /**
   * Register a model under the first free key derived from its name. The database refuses a key that does not fit its
   * column; then nothing is stored.
   */
  method CreateModel(db: Database, t: Text.CharTable, name: string, id: Id) returns (r: Option<Model>)
    requires id !in db.models && KeysOk(db.models)
    modifies db`models
    ensures KeysOk(db.models)
    ensures exists k :: FirstFree(KeysOf(old(db.models)), Text.Slugify(t, name), k) &&
                        r == var key := Candidate(Text.Slugify(t, name), k);
                             if |key| <= 128 then Some(Model(key, name)) else None
    ensures r.Some? ==> Text.IsSlug(r.value.key) && db.models == old(db.models)[id := r.value]
    ensures r.None? ==> db.models == old(db.models)
  {
    var key, probes := UniqueKey(KeysOf(db.models), t, name);
    assert FirstFree(KeysOf(db.models), Text.Slugify(t, name), probes - 1);
    if |key| > MAX_KEY_LENGTH {
      return None;
    }
    db.models := db.models[id := Model(key, name)];
    r := Some(Model(key, name));
  }

  // ---------- Versions ----------

  /** A new DRAFT version, unless the model is missing or the version string is taken. */
  method CreateVersion(db: Database, actor: Id, model: Id, version: string, id: Id) returns (r: Result<ModelVersion>)
    requires db.VersionsKeyed() && id !in db.versions
    modifies db`versions
    ensures db.VersionsKeyed()
    ensures r.Err? ==> db.versions == old(db.versions)
    ensures r == Err(NotFoundError) <==> model !in db.models
    ensures r == Err(ConflictError) <==>
              model in db.models && old(VersionTaken(db, model, version))
    ensures r.Ok? || r == Err(NotFoundError) || r == Err(ConflictError)
    ensures r.Ok? ==> db.VersionRows() == old(db.VersionRows())[id := V.NewVersion(model, version, actor)]
    ensures r.Ok? ==>
              && fresh(r.value) && db.versions == old(db.versions)[id := r.value]
              && r.value.id == id && r.value.model == model && r.value.version == version
              && r.value.stage == Draft && r.value.approvedAt == None && r.value.approvedBy == None
              && r.value.events == [V.VersionEvent(V.Created, None, Draft, actor)]
  {
    if model !in db.models {
      return Err(NotFoundError);
    }
    if VersionTaken(db, model, version) {
      return Err(ConflictError);
    }
    var created := new ModelVersion(id, model, version);
    created.RecordEvent(None, Draft, actor);
    db.versions := db.versions[id := created];
    r := Ok(created);
  }

  /** The duplicate query. */
  predicate VersionTaken(db: Database, model: Id, version: string)
    reads db`versions, db.versions.Values
    ensures VersionTaken(db, model, version) <==>
            exists v :: v in db.VersionRows() && db.VersionRows()[v].model == model && db.VersionRows()[v].version == version
  {
    assert forall v :: v in db.versions ==> db.VersionRows()[v] == db.versions[v].Value();
    exists v :: v in db.versions && db.versions[v].model == model && db.versions[v].version == version
  }

  /** Approve: VALIDATED to APPROVED, recording when and by whom. */
  method ApproveVersion(db: Database, actor: Id, id: Id, now: nat) returns (r: Result<ModelVersion>)
    requires db.VersionsKeyed()
    modifies db.versions.Values
    ensures id !in db.versions ==> r == Err(NotFoundError)
    ensures r.Err? ==> db.VersionRows() == old(db.VersionRows())
    ensures id in db.versions ==>
              match V.Approve(old(db.VersionRows())[id], now, actor)
              case Err(e) => r == Err(e)
              case Ok(v) => r == Ok(db.versions[id]) && db.VersionRows() == old(db.VersionRows())[id := v]
    ensures r.Ok? <==> id in db.versions && old(db.versions[id].stage) == Validated
    ensures r.Err? && id in db.versions ==> r.error == InvalidStateTransition
    ensures r.Ok? ==>
              && r.value.stage == Approved && r.value.approvedAt == Some(now) && r.value.approvedBy == Some(actor)
              && r.value.events == old(r.value.events) + [V.VersionEvent(V.ApprovedEvent, Some(Validated), Approved, actor)]
  {
    if id !in db.versions {
      return Err(NotFoundError);
    }
    var version := db.versions[id];
    assert db.VersionRows()[id] == version.Value();
    var from := version.stage;
    var refused := ValidateTransition(from, Approved, true);
    if refused.Some? {
      return Err(refused.value);
    }
    version.approvedAt := Some(now);
    version.approvedBy := Some(actor);
    version.stage := Approved;
    version.RecordEvent(Some(from), Approved, actor);
    db.OneVersionChanged(version);
    r := Ok(version);
  }

  /** Move a version to the target stage if the lifecycle allows it. */
  method TransitionVersion(db: Database, actor: Id, id: Id, target: Stage) returns (r: Result<ModelVersion>)
    requires db.VersionsKeyed()
    modifies db.versions.Values
    ensures id !in db.versions ==> r == Err(NotFoundError)
    ensures r.Err? ==> db.VersionRows() == old(db.VersionRows())
    ensures id in db.versions ==>
              match V.Transition(old(db.VersionRows())[id], target, actor)
              case Err(e) => r == Err(e)
              case Ok(v) => r == Ok(db.versions[id]) && db.VersionRows() == old(db.VersionRows())[id := v]
    ensures r.Ok? ==>
              && r.value.stage == target
              && r.value.approvedAt == old(r.value.approvedAt) && r.value.approvedBy == old(r.value.approvedBy)
              && V.Moved(old(r.value.Value()), r.value.Value(), target, actor)
  {
    if id !in db.versions {
      return Err(NotFoundError);
    }
    var version := db.versions[id];
    assert db.VersionRows()[id] == version.Value();
    var from := version.stage;
    var refused := ValidateTransition(from, target, version.approvedAt.Some?);
    if refused.Some? {
      return Err(refused.value);
    }
    version.stage := target;
    version.RecordEvent(Some(from), target, actor);
    db.OneVersionChanged(version);
    r := Ok(version);
  }
}

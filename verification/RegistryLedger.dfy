/** What the registry tables keep: well-published versions and an append-only,
    gap-free, compatible binding ledger with well-founded rollbacks. */
module RegistryLedger {
  import opened Wrappers
  import opened Semver
  import opened Registry

  // ---- The invariant ----

  ghost predicate GoodDefinition(db: Database, key: Key, d: Definition) {
    && key == (d.agent, d.version) && d.agent in db.agents
    && VersionOf(d.version).Some? && d.spec.isObject
    && (if IsProfileless(d.spec) then d.profileRange == "" else RangeOf(d.profileRange).Some?)
  }

  ghost predicate GoodProfile(key: Key, p: Profile) {
    key == (p.profile, p.version) && VersionOf(p.version).Some?
  }

  ghost predicate WellPublished(db: Database) {
    && (forall k | k in db.definitions :: GoodDefinition(db, k, db.definitions[k]))
    && (forall k | k in db.profiles :: GoodProfile(k, db.profiles[k]))
  }

  /** The stored row is compatible with the two versions it names. */
  ghost predicate Compatible(d: Definition, p: Profile, b: Binding) {
    && !IsProfileless(d.spec)
    && b.profileRange == d.profileRange
    && RangeOf(d.profileRange).Some? && VersionOf(p.version).Some?
    && AdmitsAll(RangeOf(d.profileRange).value.comparators, VersionOf(p.version).value)
  }

  ghost predicate Sound(db: Database, b: Binding) {
    && b.environment in ENVIRONMENTS && b.source != SOURCE_FIXTURE
    && DefinitionKey(b) in db.definitions && ProfileKey(b) in db.profiles
    && Compatible(db.definitions[DefinitionKey(b)], db.profiles[ProfileKey(b)], b)
  }

  function ScopeOf(b: Binding): Scope { (b.agent, b.environment) }

  /** Same scope, definition version, profile pair, range, source and intent. */
  ghost predicate SameContent(a: Binding, b: Binding) {
    && ScopeOf(a) == ScopeOf(b) && DefinitionKey(a) == DefinitionKey(b) && ProfileKey(a) == ProfileKey(b)
    && a.profileRange == b.profileRange && a.source == b.source && a.intent == b.intent
  }

  ghost predicate Restores(b: Binding, target: Binding) {
    b.rollbackOf == Some(target.id) && target.id < b.id && SameContent(b, target)
  }

  /** `b` continues the rows committed before it. */
  ghost predicate Follows(earlier: seq<Binding>, b: Binding) {
    && b.revision == NextRevision(earlier, ScopeOf(b))
    && (forall e | e in earlier :: e.id != b.id && (ScopeOf(e) == ScopeOf(b) ==> e.id < b.id))
    && (b.rollbackOf.Some? ==> exists t :: t in earlier && Restores(b, t))
  }

  ghost predicate Chained(rows: seq<Binding>) {
    forall k {:trigger rows[..k]} | 0 <= k < |rows| :: Follows(rows[..k], rows[k])
  }

  ghost predicate AllSound(db: Database, rows: seq<Binding>) {
    forall k | 0 <= k < |rows| :: Sound(db, rows[k])
  }

  ghost predicate Valid(db: Database) {
    WellPublished(db) && Chained(db.bindings) && AllSound(db, db.bindings)
  }

  // ---- What a chained ledger means ----

  /** The rows of one scope, in commit order. */
  function ScopeRows(rows: seq<Binding>, scope: Scope): seq<Binding> {
    if rows == [] then []
    else
      var rest, last := ScopeRows(rows[..|rows| - 1], scope), rows[|rows| - 1];
      if InScope(last, scope) then rest + [last] else rest
  }

  lemma ChainedPrefix(rows: seq<Binding>, n: nat)
    requires Chained(rows) && n <= |rows|
    ensures Chained(rows[..n])
  {
    forall k | 0 <= k < n ensures Follows(rows[..n][..k], rows[..n][k]) {
      assert rows[..n][..k] == rows[..k];
      assert Follows(rows[..k], rows[k]);
    }
  }

  lemma ChainedExtend(rows: seq<Binding>, b: Binding)
    requires Chained(rows) && Follows(rows, b)
    ensures Chained(rows + [b])
  {
    var all := rows + [b];
    forall k | 0 <= k < |all| ensures Follows(all[..k], all[k]) {
      if k < |rows| {
        assert all[..k] == rows[..k] && all[k] == rows[k];
        assert Follows(rows[..k], rows[k]);
      } else {
        assert all[..k] == rows;
      }
    }
  }

  ghost predicate NumberedFromOne(rows: seq<Binding>) {
    forall i | 0 <= i < |rows| :: rows[i].revision == i + 1
  }

  /** Per scope the revisions are exactly 1..n in commit order, and the next one is n + 1. */
  lemma {:induction false} RevisionsAreExactly(rows: seq<Binding>, scope: Scope)
    requires Chained(rows)
    ensures NumberedFromOne(ScopeRows(rows, scope))
    ensures MaxRevision(rows, scope) == if ScopeRows(rows, scope) == [] then None else Some(|ScopeRows(rows, scope)|)
    ensures NextRevision(rows, scope) == |ScopeRows(rows, scope)| + 1
    decreases |rows|
  {
    if rows != [] {
      var n := |rows| - 1;
      ChainedPrefix(rows, n);
      RevisionsAreExactly(rows[..n], scope);
      assert Follows(rows[..n], rows[n]);
    }
  }

  /** The active binding is the last row committed for its scope. */
  lemma {:induction false} ActiveIsLastCommitted(rows: seq<Binding>, scope: Scope)
    requires Chained(rows)
    ensures var own := ScopeRows(rows, scope);
            Active(rows, scope) == if own == [] then None else Some(own[|own| - 1])
    decreases |rows|
  {
    if rows != [] {
      var n := |rows| - 1;
      ChainedPrefix(rows, n);
      ActiveIsLastCommitted(rows[..n], scope);
      RevisionsAreExactly(rows[..n], scope);
      RevisionsAreExactly(rows, scope);
      assert Follows(rows[..n], rows[n]);
    }
  }

  lemma {:induction false} ScopeRowsMembers(rows: seq<Binding>, scope: Scope)
    ensures forall b :: b in ScopeRows(rows, scope) <==> b in rows && InScope(b, scope)
    decreases |rows|
  {
    if rows != [] {
      ScopeRowsMembers(rows[..|rows| - 1], scope);
      assert rows == rows[..|rows| - 1] + [rows[|rows| - 1]];
    }
  }

  /** A revision number finds exactly the row that took it. */
  lemma {:induction false} AtRevisionExactly(rows: seq<Binding>, scope: Scope, revision: int)
    requires Chained(rows)
    ensures var own := ScopeRows(rows, scope);
            AtRevision(rows, scope, revision) == if 1 <= revision <= |own| then Some(own[revision - 1]) else None
    decreases |rows|
  {
    if rows != [] {
      var n := |rows| - 1;
      ChainedPrefix(rows, n);
      AtRevisionExactly(rows[..n], scope, revision);
      RevisionsAreExactly(rows[..n], scope);
      assert Follows(rows[..n], rows[n]);
    }
  }

  lemma {:induction false} AtRevisionFinds(rows: seq<Binding>, scope: Scope, revision: int)
    ensures var r := AtRevision(rows, scope, revision);
            r.Some? ==> r.value in rows && InScope(r.value, scope) && r.value.revision == revision
    decreases |rows|
  {
    if rows != [] {
      AtRevisionFinds(rows[..|rows| - 1], scope, revision);
      assert rows == rows[..|rows| - 1] + [rows[|rows| - 1]];
    }
  }

  lemma IdsAreUnique(rows: seq<Binding>, i: nat, j: nat)
    requires Chained(rows) && i < j < |rows|
    ensures rows[i].id != rows[j].id
    ensures ScopeOf(rows[i]) == ScopeOf(rows[j]) ==> rows[i].id < rows[j].id
  {
    assert Follows(rows[..j], rows[j]);
    assert rows[i] == rows[..j][i] && rows[..j][i] in rows[..j];
  }

  /** The indices visited by following rollback_of from row k. */
  ghost predicate RollbackPath(rows: seq<Binding>, path: seq<nat>) {
    && path != []
    && (forall i | 0 <= i < |path| :: path[i] < |rows|)
    && (forall i | 0 <= i < |path| - 1 :: Restores(rows[path[i]], rows[path[i + 1]]))
  }

  /** Following rollback_of strictly decreases the id and ends at a created row with the same content. */
  lemma {:induction false} RollbackChainEnds(rows: seq<Binding>, k: nat) returns (path: seq<nat>)
    requires Chained(rows) && k < |rows|
    ensures RollbackPath(rows, path) && path[0] == k
    ensures forall i | 0 <= i < |path| :: SameContent(rows[path[i]], rows[k])
    ensures forall i | 0 < i < |path| :: rows[path[i]].id < rows[path[i - 1]].id
    ensures rows[path[|path| - 1]].rollbackOf.None?
    decreases k
  {
    hide RangeOf;
    hide VersionOf;
    assert Follows(rows[..k], rows[k]);
    if rows[k].rollbackOf.None? {
      path := [k];
    } else {
      var t :| t in rows[..k] && Restores(rows[k], t);
      var j :| 0 <= j < k && rows[j] == t;
      var rest := RollbackChainEnds(rows, j);
      path := [k] + rest;
    }
  }

  // ---- What each operation keeps ----

  /** Versions only gain rows, and a row changes only in its lifecycle, which never goes back. */
  ghost predicate Grows(before: Database, after: Database) {
    && before.agents <= after.agents
    && (forall k | k in before.definitions ::
          && k in after.definitions
          && after.definitions[k].(lifecycle := before.definitions[k].lifecycle) == before.definitions[k]
          && NotRevived(before.definitions[k].lifecycle, after.definitions[k].lifecycle))
    && (forall k | k in before.profiles ::
          && k in after.profiles
          && after.profiles[k].(lifecycle := before.profiles[k].lifecycle) == before.profiles[k]
          && NotRevived(before.profiles[k].lifecycle, after.profiles[k].lifecycle))
    && before.bindings <= after.bindings
  }

  /** How far a version has come. */
  function Age(lifecycle: Lifecycle): nat {
    match lifecycle
    case Published => 0
    case Deprecated => 1
    case Disabled => 2
  }

  predicate NotRevived(before: Lifecycle, after: Lifecycle) {
    Age(before) <= Age(after)
  }

  lemma GrowsTransitive(a: Database, b: Database, c: Database)
    requires Grows(a, b) && Grows(b, c)
    ensures Grows(a, c)
  {
  }

  lemma SoundMonotone(before: Database, after: Database, b: Binding)
    requires Grows(before, after) && Sound(before, b)
    ensures Sound(after, b)
  {
  }

  lemma PublishDefinitionKeeps(db: Database, d: Definition)
    requires Valid(db) && PublishDefinition(db, d).Ok?
    ensures var after := PublishDefinition(db, d).value;
            Valid(after) && Grows(db, after) && after.bindings == db.bindings
  {
    hide Sound;
    hide Chained;
    hide RangeOf;
    hide VersionOf;
    var after := PublishDefinition(db, d).value;
    AllSoundMonotone(db, after);
  }

  lemma PublishProfileKeeps(db: Database, p: Profile)
    requires Valid(db) && PublishProfile(db, p).Ok?
    ensures var after := PublishProfile(db, p).value;
            Valid(after) && Grows(db, after) && after.bindings == db.bindings
  {
    hide Sound;
    hide Chained;
    hide RangeOf;
    hide VersionOf;
    var after := PublishProfile(db, p).value;
    AllSoundMonotone(db, after);
  }

  lemma AllSoundMonotone(before: Database, after: Database)
    requires Grows(before, after) && AllSound(before, before.bindings)
    ensures AllSound(after, before.bindings)
  {
  }

  lemma SetDefinitionLifecycleKeeps(db: Database, key: Key, to: Lifecycle)
    requires Valid(db) && SetDefinitionLifecycle(db, key, to).Ok?
    ensures var after := SetDefinitionLifecycle(db, key, to).value;
            Valid(after) && Grows(db, after) && after.bindings == db.bindings
  {
    hide RangeOf;
    hide VersionOf;
    var after := SetDefinitionLifecycle(db, key, to).value;
    assert GoodDefinition(db, key, db.definitions[key]);
    AllSoundMonotone(db, after);
  }

  lemma SetProfileLifecycleKeeps(db: Database, key: Key, to: Lifecycle)
    requires Valid(db) && SetProfileLifecycle(db, key, to).Ok?
    ensures var after := SetProfileLifecycle(db, key, to).value;
            Valid(after) && Grows(db, after) && after.bindings == db.bindings
  {
    hide RangeOf;
    hide VersionOf;
    var after := SetProfileLifecycle(db, key, to).value;
    assert GoodProfile(key, db.profiles[key]);
    AllSoundMonotone(db, after);
  }

  /** `id` is new, and above every id of the scope. */
  ghost predicate FreshId(rows: seq<Binding>, scope: Scope, id: nat) {
    forall e | e in rows :: e.id != id && (ScopeOf(e) == scope ==> e.id < id)
  }

  /** A row a binding transaction writes continues the ledger and is sound. */
  lemma BoundRowKeeps(db: Database, request: Request, id: nat)
    requires Valid(db) && FreshId(db.bindings, request.scope, id) && Bind(db, request, id).Ok?
    ensures var b := Bind(db, request, id).value;
            && Sound(db, b) && Follows(db.bindings, b) && b.id == id && ScopeOf(b) == request.scope
            && Valid(db.(bindings := db.bindings + [b])) && Grows(db, db.(bindings := db.bindings + [b]))
  {
    hide Sound;
    hide Follows;
    hide Chained;
    hide RangeOf;
    hide VersionOf;
    var b := Bind(db, request, id).value;
    RowIsSound(db, request, id);
    RowFollows(db, request, id);
    ChainedExtend(db.bindings, b);
    var after := db.(bindings := db.bindings + [b]);
    SoundMonotone(db, after, b);
    AllSoundMonotone(db, after);
  }

  lemma RowIsSound(db: Database, request: Request, id: nat)
    requires Valid(db) && Bind(db, request, id).Ok?
    ensures Sound(db, Bind(db, request, id).value)
  {
    hide RangeOf;
    hide VersionOf;
    if request.Rollback? {
      AtRevisionFinds(db.bindings, request.scope, request.revision);
    }
  }

  lemma RowFollows(db: Database, request: Request, id: nat)
    requires Valid(db) && FreshId(db.bindings, request.scope, id) && Bind(db, request, id).Ok?
    ensures Follows(db.bindings, Bind(db, request, id).value)
  {
    hide RangeOf;
    hide VersionOf;
    var b := Bind(db, request, id).value;
    if request.Rollback? {
      AtRevisionFinds(db.bindings, request.scope, request.revision);
      var t := AtRevision(db.bindings, request.scope, request.revision).value;
      assert Sound(db, t);
      assert Restores(b, t);
    }
  }

  /** No insert the transactions attempt breaks a constraint. */
  lemma InsertNeverRefused(db: Database, request: Request, id: nat)
    requires Valid(db) && FreshId(db.bindings, request.scope, id)
    ensures Bind(db, request, id) != Err(UniqueViolation) && Bind(db, request, id) != Err(ForeignKeyViolation)
  {
    hide RangeOf;
    hide VersionOf;
    RevisionsAreExactly(db.bindings, request.scope);
    ScopeRowsMembers(db.bindings, request.scope);
    if DraftOf(db.bindings, request).Ok? {
      var draft := DraftOf(db.bindings, request).value;
      var key := (request.scope.0, draft.definitionVersion);
      if key in db.definitions && (draft.profile, draft.profileVersion) in db.profiles {
        var b := Row(request, draft, db.definitions[key].profileRange, NextRevision(db.bindings, request.scope), id);
        NewRowKeepsUnique(db.bindings, b);
        if request.Rollback? {
          AtRevisionFinds(db.bindings, request.scope, request.revision);
        }
        assert GoodDefinition(db, key, db.definitions[key]);
        assert !BreaksForeignKey(db, b);
      }
    }
  }

  lemma NewRowKeepsUnique(rows: seq<Binding>, b: Binding)
    requires Chained(rows) && FreshId(rows, ScopeOf(b), b.id) && b.revision == NextRevision(rows, ScopeOf(b))
    ensures !BreaksUnique(rows, b)
  {
    var own := ScopeRows(rows, ScopeOf(b));
    RevisionsAreExactly(rows, ScopeOf(b));
    ScopeRowsMembers(rows, ScopeOf(b));
    forall i | 0 <= i < |rows| && InScope(rows[i], ScopeOf(b)) ensures rows[i].revision != b.revision {
      assert rows[i] in own;
    }
    assert forall i | 0 <= i < |rows| :: rows[i] in rows;
  }

  /** Both versions are published when a binding is created, and neither is disabled when one is restored. */
  lemma BoundVersionsAreUsable(db: Database, request: Request, id: nat)
    requires Bind(db, request, id).Ok?
    ensures var b := Bind(db, request, id).value;
            && DefinitionKey(b) in db.definitions && ProfileKey(b) in db.profiles
            && var d, p := db.definitions[DefinitionKey(b)].lifecycle, db.profiles[ProfileKey(b)].lifecycle;
               && d != Disabled && p != Disabled
               && (request.Create? ==> d == Published && p == Published)
  {
  }

  // ---- Resolving ----

  /** Resolving reads the binding, the definition and the profile in three statements, at three
      later and later states. It never fails, is satisfied, and reports the stored range. */
  lemma ResolveAlwaysSatisfied(atBinding: Database, atDefinition: Database, atProfile: Database, scope: Scope)
    requires Valid(atBinding) && Grows(atBinding, atDefinition) && Grows(atDefinition, atProfile)
    requires Active(atBinding.bindings, scope).Some?
    ensures var b := Active(atBinding.bindings, scope).value;
            && DefinitionKey(b) in atDefinition.definitions && ProfileKey(b) in atProfile.profiles
            && var r := Resolve(b, atDefinition.definitions[DefinitionKey(b)], atProfile.profiles[ProfileKey(b)]);
               r.Ok? && r.value.satisfied && r.value.range == b.profileRange
  {
    hide RangeOf;
    hide VersionOf;
    var b := Active(atBinding.bindings, scope).value;
    ActiveIsLastCommitted(atBinding.bindings, scope);
    ScopeRowsMembers(atBinding.bindings, scope);
    assert b in atBinding.bindings;
    assert Sound(atBinding, b);
    GrowsTransitive(atBinding, atDefinition, atProfile);
    SoundMonotone(atBinding, atDefinition, b);
    SoundMonotone(atBinding, atProfile, b);
  }
}

/** The registry store as an object whose methods update its tables: each transaction run to
    completion, proved against the atomic functions of `Registry`. */
module RegistryStore {
  import opened Wrappers
  import opened Semver
  import opened Registry
  import opened RegistryLedger
  import opened RegistryExactly

  lemma MaxOfNone(rows: seq<Binding>, scope: Scope)
    ensures MaxRevision(rows[..0], scope) == None
  {
  }

  lemma MaxOneMore(rows: seq<Binding>, i: nat, scope: Scope)
    requires i < |rows|
    ensures var highest := MaxRevision(rows[..i], scope);
            MaxRevision(rows[..i + 1], scope) ==
              if InScope(rows[i], scope) && (highest.None? || highest.value < rows[i].revision) then Some(rows[i].revision) else highest
  {
    assert rows[..i + 1][..i] == rows[..i];
  }

  lemma NextIsMaxPlusOne(rows: seq<Binding>, scope: Scope)
    ensures NextRevision(rows, scope) == match MaxRevision(rows, scope) { case None => 1 case Some(m) => m + 1 }
  {
  }

  class Store {
    var agents: set<string>
    var definitions: map<Key, Definition>
    var profiles: map<Key, Profile>
    var bindings: seq<Binding>
    var nextId: nat

    ghost function Tables(): Database
      reads this
    {
      Database(agents, definitions, profiles, bindings)
    }

    ghost predicate Consistent()
      reads this
    {
      Valid(Tables()) && forall e | e in bindings :: e.id < nextId
    }

    constructor ()
      ensures Consistent() && Tables() == EMPTY
    {
      agents, definitions, profiles, bindings, nextId := {}, map[], map[], [], 0;
    }

    method CreateDefinition(name: string)
      requires Consistent()
      modifies this
      ensures Consistent() && Tables() == old(Tables()).(agents := old(agents) + {name}) && nextId == old(nextId)
    {
      hide RangeOf;
      hide VersionOf;
      ghost var before := Tables();
      agents := agents + {name};
      AllSoundMonotone(before, Tables());
    }

    method PublishDefinitionVersion(d: Definition) returns (r: Result<Definition, Error>)
      requires Consistent()
      modifies this
      ensures Consistent() && nextId == old(nextId)
      ensures match PublishDefinition(old(Tables()), d)
              case Ok(after) => Tables() == after && r == Ok(d.(lifecycle := Published))
              case Err(e) => Tables() == old(Tables()) && r == Err(e)
    {
      if MissingFields(d.owner, d.manifest) { return Err(MissingRequiredFields); }
      var version := ParseVersion(d.version);
      if version.None? { return Err(InvalidRange); }
      if IsProfileless(d.spec) {
        if d.profileRange != "" { return Err(InvalidRange); }
        if !ValidAssistant(d) { return Err(InvalidSpec); }
      } else {
        var range := ParseRange(d.profileRange);
        if range.None? { return Err(InvalidRange); }
      }
      if !d.spec.isObject { return Err(InvalidSpec); }
      if (d.agent, d.version) in definitions { return Err(VersionConflict); }
      if d.agent !in agents { return Err(DefinitionNotFound); }
      ghost var before := Tables();
      var stored := d.(lifecycle := Published);
      definitions := definitions[(d.agent, d.version) := stored];
      PublishDefinitionKeeps(before, d);
      return Ok(stored);
    }

    method PublishProfileVersion(p: Profile) returns (r: Result<Profile, Error>)
      requires Consistent()
      modifies this
      ensures Consistent() && nextId == old(nextId)
      ensures match PublishProfile(old(Tables()), p)
              case Ok(after) => Tables() == after && r == Ok(p.(lifecycle := Published))
              case Err(e) => Tables() == old(Tables()) && r == Err(e)
    {
      if MissingFields(p.owner, p.manifest) { return Err(MissingRequiredFields); }
      var version := ParseVersion(p.version);
      if version.None? { return Err(InvalidRange); }
      if !p.spec.isObject { return Err(InvalidSpec); }
      if !(REQUIRED_POLICY_FIELDS <= p.spec.policyFields) { return Err(MissingPolicyFields); }
      if (p.profile, p.version) in profiles { return Err(VersionConflict); }
      ghost var before := Tables();
      var stored := p.(lifecycle := Published);
      profiles := profiles[(p.profile, p.version) := stored];
      PublishProfileKeeps(before, p);
      return Ok(stored);
    }

    method SetDefinitionVersionLifecycle(agent: string, version: string, to: string) returns (r: Result<Definition, Error>)
      requires Consistent()
      modifies this
      ensures Consistent() && nextId == old(nextId)
      ensures match SetDefinitionLifecycleTo(old(Tables()), (agent, version), to)
              case Ok(after) => Tables() == after && r == Ok(after.definitions[(agent, version)])
              case Err(e) => Tables() == old(Tables()) && r == Err(e)
      ensures var key := (agent, version);
              && (r.Ok? <==> key in old(definitions) && MovedBy(old(definitions)[key].lifecycle, to).Some?)
              && (r.Ok? ==> r.value == old(definitions)[key].(lifecycle := MovedBy(old(definitions)[key].lifecycle, to).value)
                            && definitions == old(definitions)[key := r.value])
              && (r.Err? ==> r.error == if key in old(definitions) then InvalidLifecycleTransition else DefinitionVersionNotFound)
    {
      hide RangeOf;
      hide VersionOf;
      DefinitionLifecycleExactly(Tables(), (agent, version), to);
      var key := (agent, version);
      if key !in definitions { return Err(DefinitionVersionNotFound); }
      var current := definitions[key];
      var next := LifecycleOf(to);
      if next.None? || !ValidTransition(current.lifecycle, next.value) { return Err(InvalidLifecycleTransition); }
      ghost var before := Tables();
      definitions := definitions[key := current.(lifecycle := next.value)];
      SetDefinitionLifecycleKeeps(before, key, next.value);
      return Ok(definitions[key]);
    }

    method SetProfileVersionLifecycle(profile: string, version: string, to: string) returns (r: Result<Profile, Error>)
      requires Consistent()
      modifies this
      ensures Consistent() && nextId == old(nextId)
      ensures match SetProfileLifecycleTo(old(Tables()), (profile, version), to)
              case Ok(after) => Tables() == after && r == Ok(after.profiles[(profile, version)])
              case Err(e) => Tables() == old(Tables()) && r == Err(e)
      ensures var key := (profile, version);
              && (r.Ok? <==> key in old(profiles) && MovedBy(old(profiles)[key].lifecycle, to).Some?)
              && (r.Ok? ==> r.value == old(profiles)[key].(lifecycle := MovedBy(old(profiles)[key].lifecycle, to).value)
                            && profiles == old(profiles)[key := r.value])
              && (r.Err? ==> r.error == if key in old(profiles) then InvalidLifecycleTransition else ProfileVersionNotFound)
    {
      hide RangeOf;
      hide VersionOf;
      ProfileLifecycleExactly(Tables(), (profile, version), to);
      var key := (profile, version);
      if key !in profiles { return Err(ProfileVersionNotFound); }
      var current := profiles[key];
      var next := LifecycleOf(to);
      if next.None? || !ValidTransition(current.lifecycle, next.value) { return Err(InvalidLifecycleTransition); }
      ghost var before := Tables();
      profiles := profiles[key := current.(lifecycle := next.value)];
      SetProfileLifecycleKeeps(before, key, next.value);
      return Ok(profiles[key]);
    }

    /** SELECT COALESCE(MAX(revision), 0) + 1: on a consistent ledger, one more than the rows of the scope. */
    method ComputeRevision(scope: Scope) returns (revision: int)
      requires Consistent()
      ensures revision == NextRevision(bindings, scope) == |ScopeRows(bindings, scope)| + 1
    {
      assert Chained(bindings);
      hide *;
      MaxOfNone(bindings, scope);
      var highest: Option<int> := None;
      for i := 0 to |bindings|
        invariant highest == MaxRevision(bindings[..i], scope)
      {
        MaxOneMore(bindings, i, scope);
        if InScope(bindings[i], scope) && (highest.None? || highest.value < bindings[i].revision) {
          highest := Some(bindings[i].revision);
        }
      }
      assert bindings[..|bindings|] == bindings;
      RevisionsAreExactly(bindings, scope);
      NextIsMaxPlusOne(bindings, scope);
      revision := if highest.None? then 1 else highest.value + 1;
    }

    /** The part CreateBinding and RollbackBinding share: load and check the pair, number the row, insert it. */
    method InsertBinding(request: Request, draft: Draft) returns (r: Result<Binding, Error>)
      requires Consistent() && Refusal(request).None? && DraftOf(bindings, request) == Ok(draft)
      modifies this
      ensures Consistent() && nextId == old(nextId) + if r.Ok? then 1 else 0
      ensures r == Bind(old(Tables()), request, old(nextId))
      ensures Tables() == old(Tables()).(bindings := old(bindings) + (if r.Ok? then [r.value] else []))
    {
      hide RangeOf;
      hide VersionOf;
      hide Valid;
      hide AdmitsAll;
      ghost var before, id := Tables(), nextId;
      assert FreshId(bindings, request.scope, id);
      InsertNeverRefused(before, request, id);
      var definitionKey, profileKey := (request.scope.0, draft.definitionVersion), (draft.profile, draft.profileVersion);
      if definitionKey !in definitions { return Err(DefinitionVersionNotFound); }
      var d := definitions[definitionKey];
      if IsProfileless(d.spec) { return Err(ProfilelessDefinition); }
      if profileKey !in profiles { return Err(ProfileVersionNotFound); }
      var refusal := CheckPair(request.Rollback?, d, profiles[profileKey]);
      if refusal.Some? { return Err(refusal.value); }
      var revision := ComputeRevision(request.scope);
      var row := Row(request, draft, d.profileRange, revision, nextId);
      assert Bind(before, request, id) == Ok(row);
      BoundRowKeeps(before, request, id);
      bindings := bindings + [row];
      nextId := nextId + 1;
      return Ok(row);
    }

    method CreateBinding(request: Request) returns (r: Result<Binding, Error>)
      requires Consistent() && request.Create?
      modifies this
      ensures Consistent() && nextId == old(nextId) + if r.Ok? then 1 else 0
      ensures r == Bind(old(Tables()), request, old(nextId))
      ensures r.Ok? <==> Creatable(old(Tables()), request)
      ensures r.Ok? ==> IsCreated(old(Tables()), request, old(nextId), r.value)
      ensures Tables() == old(Tables()).(bindings := old(bindings) + (if r.Ok? then [r.value] else []))
    {
      hide RangeOf;
      hide VersionOf;
      hide AdmitsAll;
      CreateExactly(Tables(), request, nextId);
      if request.scope.1 !in ENVIRONMENTS { return Err(InvalidEnvironment); }
      if SourceOf(request) == SOURCE_FIXTURE { return Err(FixtureNotPromotable); }
      r := InsertBinding(request, DraftOfCreate(request));
    }

    method RollbackBinding(request: Request) returns (r: Result<Binding, Error>)
      requires Consistent() && request.Rollback?
      modifies this
      ensures Consistent() && nextId == old(nextId) + if r.Ok? then 1 else 0
      ensures r == Bind(old(Tables()), request, old(nextId))
      ensures r.Ok? <==> Restorable(old(Tables()), request)
      ensures r.Ok? ==> IsRestored(old(Tables()), request, old(nextId), r.value)
      ensures Tables() == old(Tables()).(bindings := old(bindings) + (if r.Ok? then [r.value] else []))
    {
      hide RangeOf;
      hide VersionOf;
      hide AdmitsAll;
      RollbackExactly(Tables(), request, nextId);
      if request.scope.1 !in ENVIRONMENTS { return Err(InvalidEnvironment); }
      var target := AtRevision(bindings, request.scope, request.revision);
      if target.None? { return Err(BindingNotFound); }
      r := InsertBinding(request, DraftOfTarget(target.value));
    }

    /** ResolveBinding: an existing binding always resolves, satisfied, with its stored range. */
    method ResolveBinding(scope: Scope) returns (r: Result<Resolved, Error>)
      requires Consistent()
      ensures r.Ok? <==> scope.1 in ENVIRONMENTS && ScopeRows(bindings, scope) != []
      ensures r.Ok? ==>
                var own := ScopeRows(bindings, scope);
                IsEnvelope(Tables(), own[|own| - 1], r.value) && r.value.satisfied && r.value.revision == |own|
      ensures r.Err? ==> r.error == (if scope.1 !in ENVIRONMENTS then InvalidEnvironment
                                     else if scope.0 in agents then BindingNotFound else DefinitionNotFound)
    {
      hide RangeOf;
      hide VersionOf;
      if scope.1 !in ENVIRONMENTS { return Err(InvalidEnvironment); }
      assert Chained(bindings);
      hide Valid;
      hide Chained;
      var active := Active(bindings, scope);
      ActiveIsLastCommitted(bindings, scope);
      RevisionsAreExactly(bindings, scope);
      if active.None? {
        return Err(if scope.0 in agents then BindingNotFound else DefinitionNotFound);
      }
      var b := active.value;
      ScopeRowsMembers(bindings, scope);
      ResolveExactly(Tables(), b);
      hide AdmitsAll;
      r := Resolve(b, definitions[DefinitionKey(b)], profiles[ProfileKey(b)]);
    }
  }
}

/** What each registry operation accepts, refuses and writes, said in terms of the tables and the request alone. */
module RegistryExactly {
  import opened Wrappers
  import opened Text
  import opened Semver
  import opened Registry
  import opened RegistryLedger

  // ---- Publishing ----

  ghost predicate IsAssistant(spec: Spec) {
    spec.isObject && spec.kind == "TelegramAssistant"
  }

  ghost predicate OnlySpaces(s: string) {
    forall c | c in s :: IsSpace(c)
  }

  ghost predicate Describes(meta: AssistantMetadata, d: Definition) {
    && meta.name == d.agent && meta.version == d.version && (meta.visibility == "public" || meta.visibility == "admin")
    && (meta.status == "draft" || meta.status == "active" || meta.status == "deprecated")
  }

  /** An assistant has no range, anything else one that parses. */
  ghost predicate RangeIsRight(d: Definition) {
    if IsAssistant(d.spec) then d.profileRange == "" else RangeOf(d.profileRange).Some?
  }

  /** And the spec is an object, an assistant's one that describes it. */
  ghost predicate WellFormed(d: Definition) {
    && d.spec.isObject && RangeIsRight(d)
    && (IsAssistant(d.spec) ==> d.spec.assistant.Some? && Describes(d.spec.assistant.value, d))
  }

  ghost predicate Attributed(owner: string, manifest: Manifest) {
    !OnlySpaces(owner) && !OnlySpaces(manifest.gitSha) && !OnlySpaces(manifest.contentHash)
  }

  /** A definition is published exactly when it is attributed, versioned, well formed, new and of a declared agent; it is
      then the only change, and published whatever lifecycle it came with. */
  lemma PublishDefinitionExactly(db: Database, d: Definition)
    ensures var r := PublishDefinition(db, d);
            && (r.Ok? <==> && Attributed(d.owner, d.manifest) && VersionOf(d.version).Some? && WellFormed(d)
                           && (d.agent, d.version) !in db.definitions && d.agent in db.agents)
            && (r.Ok? ==>
                  && r.value == db.(definitions := r.value.definitions)
                  && r.value.definitions == db.definitions[(d.agent, d.version) := r.value.definitions[(d.agent, d.version)]]
                  && r.value.definitions[(d.agent, d.version)].lifecycle == Published
                  && r.value.definitions[(d.agent, d.version)].(lifecycle := d.lifecycle) == d)
    ensures var r := PublishDefinition(db, d);
            r.Err? ==>
              if !Attributed(d.owner, d.manifest) then r.error == MissingRequiredFields
              else if VersionOf(d.version).None? || !RangeIsRight(d) then r.error == InvalidRange
              else if !WellFormed(d) then r.error == InvalidSpec
              else r.error == if (d.agent, d.version) in db.definitions then VersionConflict else DefinitionNotFound
  {
    hide RangeOf;
    hide VersionOf;
    hide Blank;
    BlankExactly(d.owner);
    BlankExactly(d.manifest.gitSha);
    BlankExactly(d.manifest.contentHash);
  }

  /** The same for profile versions, whose spec carries the three policy ceilings. */
  lemma PublishProfileExactly(db: Database, p: Profile)
    ensures var r := PublishProfile(db, p);
            && (r.Ok? <==> && Attributed(p.owner, p.manifest) && VersionOf(p.version).Some? && p.spec.isObject
                           && {"maxTokens", "maxToolCalls", "timeoutSeconds"} <= p.spec.policyFields
                           && (p.profile, p.version) !in db.profiles)
            && (r.Ok? ==>
                  && r.value == db.(profiles := r.value.profiles)
                  && r.value.profiles == db.profiles[(p.profile, p.version) := r.value.profiles[(p.profile, p.version)]]
                  && r.value.profiles[(p.profile, p.version)].lifecycle == Published
                  && r.value.profiles[(p.profile, p.version)].(lifecycle := p.lifecycle) == p)
    ensures var r := PublishProfile(db, p);
            r.Err? ==>
              if !Attributed(p.owner, p.manifest) then r.error == MissingRequiredFields
              else if VersionOf(p.version).None? then r.error == InvalidRange
              else if !p.spec.isObject then r.error == InvalidSpec
              else r.error == if {"maxTokens", "maxToolCalls", "timeoutSeconds"} <= p.spec.policyFields then VersionConflict else MissingPolicyFields
  {
    hide VersionOf;
    hide Blank;
    BlankExactly(p.owner);
    BlankExactly(p.manifest.gitSha);
    BlankExactly(p.manifest.contentHash);
  }

  // ---- Lifecycles ----

  /** Which text moves a version where: "deprecated" and "disabled" from published, "disabled" from deprecated. */
  function MovedBy(from: Lifecycle, text: string): Option<Lifecycle> {
    match (from, text)
    case (Published, "deprecated") => Some(Deprecated)
    case (Published, "disabled") => Some(Disabled)
    case (Deprecated, "disabled") => Some(Disabled)
    case _ => None
  }

  lemma DefinitionLifecycleExactly(db: Database, key: Key, text: string)
    ensures SetDefinitionLifecycleTo(db, key, text) ==
              if key !in db.definitions then Err(DefinitionVersionNotFound)
              else
                match MovedBy(db.definitions[key].lifecycle, text)
                case None => Err(InvalidLifecycleTransition)
                case Some(to) => Ok(db.(definitions := db.definitions[key := db.definitions[key].(lifecycle := to)]))
  {
    TextsDiffer();
  }

  lemma ProfileLifecycleExactly(db: Database, key: Key, text: string)
    ensures SetProfileLifecycleTo(db, key, text) ==
              if key !in db.profiles then Err(ProfileVersionNotFound)
              else
                match MovedBy(db.profiles[key].lifecycle, text)
                case None => Err(InvalidLifecycleTransition)
                case Some(to) => Ok(db.(profiles := db.profiles[key := db.profiles[key].(lifecycle := to)]))
  {
    TextsDiffer();
  }

  lemma TextsDiffer()
    ensures "published" != "deprecated" && "published" != "disabled" && "deprecated" != "disabled"
  {
    assert "published"[0] != "deprecated"[0] && "published"[0] != "disabled"[0] && "deprecated"[1] != "disabled"[1];
  }

  // ---- Binding ----

  /** The parsed range of the definition admits the parsed version of the profile. */
  ghost predicate Fits(d: Definition, p: Profile) {
    && RangeOf(d.profileRange).Some? && VersionOf(p.version).Some?
    && AdmitsAll(RangeOf(d.profileRange).value.comparators, VersionOf(p.version).value)
  }

  ghost predicate KnownEnvironment(environment: string) {
    environment == "production" || environment == "shadow"
  }

  ghost predicate NamesBoth(db: Database, request: Request)
    requires request.Create?
  {
    (request.scope.0, request.definitionVersion) in db.definitions && (request.profile, request.profileVersion) in db.profiles
  }

  /** What a create asks for can be bound. */
  ghost predicate Creatable(db: Database, request: Request)
    requires request.Create?
  {
    && KnownEnvironment(request.scope.1) && request.source != "compatibility-fixture"
    && NamesBoth(db, request)
    && var d, p := db.definitions[(request.scope.0, request.definitionVersion)], db.profiles[(request.profile, request.profileVersion)];
       !IsAssistant(d.spec) && d.lifecycle == Published && p.lifecycle == Published && Fits(d, p)
  }

  /** The row a create writes. */
  ghost predicate IsCreated(db: Database, request: Request, id: nat, b: Binding)
    requires request.Create? && NamesBoth(db, request)
  {
    && b.id == id && b.agent == request.scope.0 && b.environment == request.scope.1
    && b.revision == |ScopeRows(db.bindings, request.scope)| + 1
    && b.definitionVersion == request.definitionVersion && b.profile == request.profile && b.profileVersion == request.profileVersion
    && b.profileRange == db.definitions[(request.scope.0, request.definitionVersion)].profileRange
    && b.source == (if request.source == "" then "registry" else request.source)
    && b.intent == request.intent && b.reason == request.reason && b.actor == request.actor && b.rollbackOf.None?
  }

  /** A create succeeds exactly on a known environment, a source that is not the fixture, and two published versions that
      fit, and then writes the next revision of its scope. */
  lemma CreateExactly(db: Database, request: Request, id: nat)
    requires Valid(db) && request.Create? && FreshId(db.bindings, request.scope, id)
    ensures Bind(db, request, id).Ok? <==> Creatable(db, request)
    ensures Bind(db, request, id).Ok? ==> IsCreated(db, request, id, Bind(db, request, id).value)
  {
    hide RangeOf;
    hide VersionOf;
    hide AdmitsAll;
    hide CheckInsert;
    SourcesDiffer();
    InsertNeverRefused(db, request, id);
    ConstraintsOnly(db, request, id);
    RevisionsAreExactly(db.bindings, request.scope);
  }

  lemma SourcesDiffer()
    ensures "registry" != "compatibility-fixture" && "" != "compatibility-fixture"
  {
  }

  /** What the constraints of the bindings table are. */
  lemma ConstraintsExactly(db: Database, b: Binding)
    ensures CheckInsert(db, b) == Some(UniqueViolation) <==>
              exists e | e in db.bindings ::
                e.id == b.id || (e.agent == b.agent && e.environment == b.environment && e.revision == b.revision)
    ensures CheckInsert(db, b).None? <==>
              && (forall e | e in db.bindings :: e.id != b.id && !(e.agent == b.agent && e.environment == b.environment && e.revision == b.revision))
              && b.agent in db.agents && (b.agent, b.definitionVersion) in db.definitions && (b.profile, b.profileVersion) in db.profiles
              && (b.rollbackOf.Some? ==> exists e | e in db.bindings :: e.id == b.rollbackOf.value)
    ensures CheckInsert(db, b).Some? ==> CheckInsert(db, b).value in {UniqueViolation, ForeignKeyViolation}
  {
    assert forall i | 0 <= i < |db.bindings| :: db.bindings[i] in db.bindings;
    if e :| e in db.bindings && e.id == b.id {
      var i :| 0 <= i < |db.bindings| && db.bindings[i] == e;
    }
  }

  /** The INSERT can only be refused by a constraint. */
  lemma ConstraintsOnly(db: Database, request: Request, id: nat)
    ensures forall b | CheckInsert(db, b).Some? :: CheckInsert(db, b).value in {UniqueViolation, ForeignKeyViolation}
  {
  }

  /** Why a create is refused: the first of these, in this order. */
  lemma CreateRefusedExactly(db: Database, request: Request, id: nat)
    requires Valid(db) && request.Create? && FreshId(db.bindings, request.scope, id) && Bind(db, request, id).Err?
    ensures var definition, profile := (request.scope.0, request.definitionVersion), (request.profile, request.profileVersion);
            Bind(db, request, id).error ==
              if !KnownEnvironment(request.scope.1) then InvalidEnvironment
              else if request.source == "compatibility-fixture" then FixtureNotPromotable
              else if definition !in db.definitions then DefinitionVersionNotFound
              else if IsAssistant(db.definitions[definition].spec) then ProfilelessDefinition
              else if profile !in db.profiles then ProfileVersionNotFound
              else if Deprecated in {db.definitions[definition].lifecycle, db.profiles[profile].lifecycle} then VersionDeprecated
              else if Disabled in {db.definitions[definition].lifecycle, db.profiles[profile].lifecycle} then VersionDisabled
              else IncompatibleProfile
  {
    hide RangeOf;
    hide VersionOf;
    hide AdmitsAll;
    hide CheckInsert;
    SourcesDiffer();
    InsertNeverRefused(db, request, id);
    ConstraintsOnly(db, request, id);
  }

  ghost predicate HasRevision(db: Database, request: Request)
    requires request.Rollback?
  {
    1 <= request.revision <= |ScopeRows(db.bindings, request.scope)|
  }

  /** The row a rollback goes back to. */
  ghost function Target(db: Database, request: Request): Binding
    requires request.Rollback? && HasRevision(db, request)
  {
    ScopeRows(db.bindings, request.scope)[request.revision - 1]
  }

  ghost predicate IsUsable(db: Database, b: Binding) {
    && DefinitionKey(b) in db.definitions && db.definitions[DefinitionKey(b)].lifecycle != Disabled
    && ProfileKey(b) in db.profiles && db.profiles[ProfileKey(b)].lifecycle != Disabled
  }

  /** What a rollback asks for can be restored. That the pair fits need not be asked: it does for ever. */
  ghost predicate Restorable(db: Database, request: Request)
    requires request.Rollback?
  {
    KnownEnvironment(request.scope.1) && HasRevision(db, request) && IsUsable(db, Target(db, request))
  }

  /** The target row again, as the next revision and pointing back at it. */
  ghost predicate IsRestored(db: Database, request: Request, id: nat, b: Binding)
    requires request.Rollback? && HasRevision(db, request)
  {
    var target := Target(db, request);
    b == target.(id := id, revision := |ScopeRows(db.bindings, request.scope)| + 1, rollbackOf := Some(target.id),
                 reason := request.reason, actor := request.actor)
  }

  /** A rollback succeeds exactly on a known environment and an existing revision neither of whose versions is disabled. */
  lemma RollbackExactly(db: Database, request: Request, id: nat)
    requires Valid(db) && request.Rollback? && FreshId(db.bindings, request.scope, id)
    ensures Bind(db, request, id).Ok? <==> Restorable(db, request)
    ensures Bind(db, request, id).Ok? ==> IsRestored(db, request, id, Bind(db, request, id).value)
    ensures Bind(db, request, id).Err? ==>
              Bind(db, request, id).error ==
                if !KnownEnvironment(request.scope.1) then InvalidEnvironment
                else if !HasRevision(db, request) then BindingNotFound
                else VersionDisabled
  {
    hide RangeOf;
    hide VersionOf;
    hide AdmitsAll;
    hide CheckInsert;
    InsertNeverRefused(db, request, id);
    ConstraintsOnly(db, request, id);
    RevisionsAreExactly(db.bindings, request.scope);
    AtRevisionExactly(db.bindings, request.scope, request.revision);
    ScopeRowsMembers(db.bindings, request.scope);
    if HasRevision(db, request) {
      var target := Target(db, request);
      assert target in ScopeRows(db.bindings, request.scope);
      assert Sound(db, target);
    }
  }

  // ---- Resolving ----

  /** The envelope of a binding: what its row and the two versions it names say. */
  ghost predicate IsEnvelope(db: Database, b: Binding, r: Resolved) {
    && DefinitionKey(b) in db.definitions && r.definition == db.definitions[DefinitionKey(b)]
    && ProfileKey(b) in db.profiles && r.profile == db.profiles[ProfileKey(b)]
    && r.definition.agent == b.agent && r.definition.version == b.definitionVersion
    && r.profile.profile == b.profile && r.profile.version == b.profileVersion
    && r.range == b.profileRange && r.satisfied
    && r.environment == b.environment && r.revision == b.revision && r.source == b.source && r.rollbackOf == b.rollbackOf
    && (r.intent.None? <==> b.intent.repo == "" && b.intent.path == "" && b.intent.gitSha == "")
    && (r.intent.Some? ==> r.intent.value == b.intent)
  }

  /** Every stored binding resolves to its envelope. */
  lemma ResolveExactly(db: Database, b: Binding)
    requires Valid(db) && b in db.bindings
    ensures DefinitionKey(b) in db.definitions && ProfileKey(b) in db.profiles
    ensures var r := Resolve(b, db.definitions[DefinitionKey(b)], db.profiles[ProfileKey(b)]);
            r.Ok? && IsEnvelope(db, b, r.value)
  {
    hide RangeOf;
    hide VersionOf;
    hide AdmitsAll;
    assert Sound(db, b);
    assert GoodDefinition(db, DefinitionKey(b), db.definitions[DefinitionKey(b)]);
    assert GoodProfile(ProfileKey(b), db.profiles[ProfileKey(b)]);
  }
}

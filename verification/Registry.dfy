/** The v1alpha2 agent registry: its tables, the publish paths, and each transaction
    as one atomic function of the tables. `RegistryTransactions` interleaves the same
    transactions statement by statement. */
module Registry {
  import opened Wrappers
  import opened Text
  import opened Semver

  // ---- Rows ----

  datatype Lifecycle = Published | Deprecated | Disabled

  /** The one-way lifecycle. */
  predicate ValidTransition(from: Lifecycle, to: Lifecycle) {
    || (from == Published && (to == Deprecated || to == Disabled))
    || (from == Deprecated && to == Disabled)
  }

  /** The stored spelling of a lifecycle; any other text names none. */
  function LifecycleOf(text: string): Option<Lifecycle> {
    if text == "published" then Some(Published)
    else if text == "deprecated" then Some(Deprecated)
    else if text == "disabled" then Some(Disabled)
    else None
  }

  const ENVIRONMENTS := {"production", "shadow"}
  const SOURCE_REGISTRY := "registry"
  const SOURCE_FIXTURE := "compatibility-fixture"
  const KIND_TELEGRAM_ASSISTANT := "TelegramAssistant"

  datatype Manifest = Manifest(repo: string, path: string, gitSha: string, contentHash: string)

  datatype AssistantMetadata = AssistantMetadata(name: string, version: string, visibility: string, status: string)

  /** What the registry reads of a spec_json document; the rest stays opaque.
      `assistant` is present when the document decodes as an assistant document. */
  datatype Spec = Spec(isObject: bool, kind: string, policyFields: set<string>, assistant: Option<AssistantMetadata>)

  predicate IsProfileless(spec: Spec) {
    spec.isObject && spec.kind == KIND_TELEGRAM_ASSISTANT
  }

  datatype Definition = Definition(agent: string, version: string, spec: Spec, owner: string,
                                   manifest: Manifest, profileRange: string, lifecycle: Lifecycle)

  datatype Profile = Profile(profile: string, version: string, spec: Spec, owner: string,
                             manifest: Manifest, lifecycle: Lifecycle)

  datatype Intent = Intent(repo: string, path: string, gitSha: string)

  datatype Binding = Binding(id: nat, agent: string, environment: string, revision: int,
                             definitionVersion: string, profile: string, profileVersion: string, profileRange: string,
                             source: string, intent: Intent, rollbackOf: Option<nat>, reason: string, actor: string)

  /** A unique (name, version) pair. */
  type Key = (string, string)

  /** An (agent, environment) pair. */
  type Scope = (string, string)

  datatype Database = Database(agents: set<string>, definitions: map<Key, Definition>,
                               profiles: map<Key, Profile>, bindings: seq<Binding>)

  const EMPTY := Database({}, map[], map[], [])

  datatype Error =
    | InvalidEnvironment | FixtureNotPromotable | DefinitionNotFound | VersionConflict
    | DefinitionVersionNotFound | ProfileVersionNotFound | ProfilelessDefinition | BindingNotFound
    | VersionDeprecated | VersionDisabled | InvalidRange | IncompatibleProfile
    | InvalidLifecycleTransition | MissingRequiredFields | MissingPolicyFields | InvalidSpec
    | UniqueViolation | ForeignKeyViolation

  // ---- Publishing ----

  predicate MissingFields(owner: string, manifest: Manifest) {
    Blank(owner) || Blank(manifest.gitSha) || Blank(manifest.contentHash)
  }

  predicate ValidAssistant(d: Definition) {
    && d.spec.assistant.Some?
    && var meta := d.spec.assistant.value;
       && meta.name == d.agent && meta.version == d.version
       && meta.visibility in {"public", "admin"}
       && meta.status in {"draft", "active", "deprecated"}
  }

  /** PublishDefinitionVersion: validate, then insert once under (agent, version). */
  function PublishDefinition(db: Database, d: Definition): Result<Database, Error> {
    if MissingFields(d.owner, d.manifest) then Err(MissingRequiredFields)
    else if VersionOf(d.version).None? then Err(InvalidRange)
    else if IsProfileless(d.spec) && d.profileRange != "" then Err(InvalidRange)
    else if IsProfileless(d.spec) && !ValidAssistant(d) then Err(InvalidSpec)
    else if !IsProfileless(d.spec) && RangeOf(d.profileRange).None? then Err(InvalidRange)
    else if !d.spec.isObject then Err(InvalidSpec)
    else if (d.agent, d.version) in db.definitions then Err(VersionConflict)
    else if d.agent !in db.agents then Err(DefinitionNotFound)
    else Ok(db.(definitions := db.definitions[(d.agent, d.version) := d.(lifecycle := Published)]))
  }

  const REQUIRED_POLICY_FIELDS := {"maxTokens", "maxToolCalls", "timeoutSeconds"}

  /** PublishProfileVersion: validate, then insert once under (profile, version). */
  function PublishProfile(db: Database, p: Profile): Result<Database, Error> {
    if MissingFields(p.owner, p.manifest) then Err(MissingRequiredFields)
    else if VersionOf(p.version).None? then Err(InvalidRange)
    else if !p.spec.isObject then Err(InvalidSpec)
    else if !(REQUIRED_POLICY_FIELDS <= p.spec.policyFields) then Err(MissingPolicyFields)
    else if (p.profile, p.version) in db.profiles then Err(VersionConflict)
    else Ok(db.(profiles := db.profiles[(p.profile, p.version) := p.(lifecycle := Published)]))
  }

  // ---- Lifecycle transactions ----

  function SetDefinitionLifecycle(db: Database, key: Key, to: Lifecycle): Result<Database, Error> {
    if key !in db.definitions then Err(DefinitionVersionNotFound)
    else if !ValidTransition(db.definitions[key].lifecycle, to) then Err(InvalidLifecycleTransition)
    else Ok(db.(definitions := db.definitions[key := db.definitions[key].(lifecycle := to)]))
  }

  function SetProfileLifecycle(db: Database, key: Key, to: Lifecycle): Result<Database, Error> {
    if key !in db.profiles then Err(ProfileVersionNotFound)
    else if !ValidTransition(db.profiles[key].lifecycle, to) then Err(InvalidLifecycleTransition)
    else Ok(db.(profiles := db.profiles[key := db.profiles[key].(lifecycle := to)]))
  }

  /** The transition asked for by text. A version that is missing is reported before the text is looked at. */
  function SetDefinitionLifecycleTo(db: Database, key: Key, to: string): Result<Database, Error> {
    match LifecycleOf(to)
    case Some(lifecycle) => SetDefinitionLifecycle(db, key, lifecycle)
    case None => Err(if key in db.definitions then InvalidLifecycleTransition else DefinitionVersionNotFound)
  }

  function SetProfileLifecycleTo(db: Database, key: Key, to: string): Result<Database, Error> {
    match LifecycleOf(to)
    case Some(lifecycle) => SetProfileLifecycle(db, key, lifecycle)
    case None => Err(if key in db.profiles then InvalidLifecycleTransition else ProfileVersionNotFound)
  }

  // ---- Binding queries ----

  predicate InScope(b: Binding, scope: Scope) {
    b.agent == scope.0 && b.environment == scope.1
  }

  /** SELECT MAX(revision) over the rows of one scope. */
  function MaxRevision(rows: seq<Binding>, scope: Scope): Option<int> {
    if rows == [] then None
    else
      var last, rest := rows[|rows| - 1], MaxRevision(rows[..|rows| - 1], scope);
      if !InScope(last, scope) then rest
      else if rest.Some? && rest.value >= last.revision then rest
      else Some(last.revision)
  }

  function NextRevision(rows: seq<Binding>, scope: Scope): int {
    match MaxRevision(rows, scope)
    case None => 1
    case Some(m) => m + 1
  }

  /** ActiveBinding: ORDER BY revision DESC LIMIT 1. */
  function Active(rows: seq<Binding>, scope: Scope): Option<Binding> {
    if rows == [] then None
    else
      var last, rest := rows[|rows| - 1], Active(rows[..|rows| - 1], scope);
      if !InScope(last, scope) then rest
      else if rest.Some? && rest.value.revision >= last.revision then rest
      else Some(last)
  }

  /** GetBinding: the row of one exact (agent, environment, revision). */
  function AtRevision(rows: seq<Binding>, scope: Scope, revision: int): Option<Binding> {
    if rows == [] then None
    else if InScope(rows[|rows| - 1], scope) && rows[|rows| - 1].revision == revision then Some(rows[|rows| - 1])
    else AtRevision(rows[..|rows| - 1], scope, revision)
  }

  // ---- Binding transactions ----

  /** validateBindingPairNotDisabled. */
  function CheckNotDisabled(d: Definition, p: Profile): Option<Error> {
    if IsProfileless(d.spec) then Some(ProfilelessDefinition)
    else if d.lifecycle == Disabled then Some(VersionDisabled)
    else if p.lifecycle == Disabled then Some(VersionDisabled)
    else
      match (RangeOf(d.profileRange), VersionOf(p.version))
      case (None, _) => Some(InvalidRange)
      case (_, None) => Some(InvalidRange)
      case (Some(range), Some(version)) =>
        if AdmitsAll(range.comparators, version) then None else Some(IncompatibleProfile)
  }

  /** validateBindingPair for a new binding; a rollback only refuses disabled versions. */
  function CheckPair(rollback: bool, d: Definition, p: Profile): Option<Error> {
    if !rollback && d.lifecycle == Deprecated then Some(VersionDeprecated)
    else if !rollback && p.lifecycle == Deprecated then Some(VersionDeprecated)
    else CheckNotDisabled(d, p)
  }

  datatype Request =
    | Create(scope: Scope, definitionVersion: string, profile: string, profileVersion: string,
             source: string, intent: Intent, reason: string, actor: string)
    | Rollback(scope: Scope, revision: int, reason: string, actor: string)

  /** What a binding transaction is about to write, before its row is numbered. */
  datatype Draft = Draft(definitionVersion: string, profile: string, profileVersion: string,
                         source: string, intent: Intent, rollbackOf: Option<nat>)

  function SourceOf(request: Request): string
    requires request.Create?
  {
    if request.source == "" then SOURCE_REGISTRY else request.source
  }

  /** The refusals made before the transaction begins. */
  function Refusal(request: Request): Option<Error> {
    if request.scope.1 !in ENVIRONMENTS then Some(InvalidEnvironment)
    else if request.Create? && SourceOf(request) == SOURCE_FIXTURE then Some(FixtureNotPromotable)
    else None
  }

  function DraftOfCreate(request: Request): Draft
    requires request.Create?
  {
    Draft(request.definitionVersion, request.profile, request.profileVersion, SourceOf(request), request.intent, None)
  }

  /** A rollback copies its target row. */
  function DraftOfTarget(target: Binding): Draft {
    Draft(target.definitionVersion, target.profile, target.profileVersion, target.source, target.intent, Some(target.id))
  }

  function DraftOf(rows: seq<Binding>, request: Request): Result<Draft, Error> {
    if request.Create? then Ok(DraftOfCreate(request))
    else
      match AtRevision(rows, request.scope, request.revision)
      case None => Err(BindingNotFound)
      case Some(target) => Ok(DraftOfTarget(target))
  }

  function Row(request: Request, draft: Draft, range: string, revision: int, id: nat): Binding {
    Binding(id, request.scope.0, request.scope.1, revision, draft.definitionVersion, draft.profile,
            draft.profileVersion, range, draft.source, draft.intent, draft.rollbackOf, request.reason, request.actor)
  }

  function DefinitionKey(b: Binding): Key { (b.agent, b.definitionVersion) }
  function ProfileKey(b: Binding): Key { (b.profile, b.profileVersion) }

  predicate BreaksUnique(rows: seq<Binding>, b: Binding) {
    exists i | 0 <= i < |rows| :: rows[i].id == b.id || (InScope(rows[i], (b.agent, b.environment)) && rows[i].revision == b.revision)
  }

  predicate BreaksForeignKey(db: Database, b: Binding) {
    || b.agent !in db.agents
    || DefinitionKey(b) !in db.definitions
    || ProfileKey(b) !in db.profiles
    || (b.rollbackOf.Some? && forall i | 0 <= i < |db.bindings| :: db.bindings[i].id != b.rollbackOf.value)
  }

  /** The INSERT's constraint checks: the primary key, UNIQUE (agent, environment, revision) and the foreign keys. */
  function CheckInsert(db: Database, b: Binding): Option<Error> {
    if BreaksUnique(db.bindings, b) then Some(UniqueViolation)
    else if BreaksForeignKey(db, b) then Some(ForeignKeyViolation)
    else None
  }

  /** CreateBinding and RollbackBinding run alone: the row they write, or their refusal. `id` is the SERIAL value drawn. */
  function Bind(db: Database, request: Request, id: nat): Result<Binding, Error> {
    match (Refusal(request), DraftOf(db.bindings, request))
    case (Some(e), _) => Err(e)
    case (_, Err(e)) => Err(e)
    case (None, Ok(draft)) =>
      var definitionKey, profileKey := (request.scope.0, draft.definitionVersion), (draft.profile, draft.profileVersion);
      if definitionKey !in db.definitions then Err(DefinitionVersionNotFound)
      else
        var d := db.definitions[definitionKey];
        if IsProfileless(d.spec) then Err(ProfilelessDefinition)
        else if profileKey !in db.profiles then Err(ProfileVersionNotFound)
        else
          match CheckPair(request.Rollback?, d, db.profiles[profileKey])
          case Some(e) => Err(e)
          case None =>
            var row := Row(request, draft, d.profileRange, NextRevision(db.bindings, request.scope), id);
            match CheckInsert(db, row)
            case Some(e) => Err(e)
            case None => Ok(row)
  }

  // ---- Resolving ----

  datatype Resolved = Resolved(definition: Definition, profile: Profile, range: string, satisfied: bool,
                               environment: string, revision: int, source: string, intent: Option<Intent>,
                               rollbackOf: Option<nat>)

  /** buildResolvedBinding, for a binding and the two version rows it names. */
  function Resolve(b: Binding, d: Definition, p: Profile): Result<Resolved, Error> {
    if IsProfileless(d.spec) then Err(ProfilelessDefinition)
    else
      match (RangeOf(d.profileRange), VersionOf(p.version))
      case (None, _) => Err(InvalidRange)
      case (_, None) => Err(InvalidRange)
      case (Some(range), Some(version)) =>
        Ok(Resolved(d, p, d.profileRange, AdmitsAll(range.comparators, version), b.environment, b.revision, b.source,
                    if b.intent == Intent("", "", "") then None else Some(b.intent), b.rollbackOf))
  }
}

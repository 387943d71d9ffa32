/** The registry's transactions interleaved statement by statement: the advisory lock, the
    FOR SHARE and FOR UPDATE row locks, the INSERT or UPDATE, and COMMIT, over READ COMMITTED
    reads. A transaction may abort at any point; locks last to its end. */
module RegistryTransactions {
  import opened Wrappers
  import opened Semver
  import opened Registry
  import opened RegistryLedger

  // ---- Transactions in progress ----

  datatype Work =
    | BindWork(request: Request)
    | DefinitionWork(key: Key, to: Lifecycle)
    | ProfileWork(key: Key, to: Lifecycle)

  /** How far a transaction has come, with what it has read. */
  datatype Phase =
    | Begun
    | Guarded                                                          // holds the advisory lock
    | Drafted(draft: Draft)                                            // knows what it will write
    | HasDefinition(draft: Draft, definition: Definition)              // FOR SHARE on the definition
    | HasPair(draft: Draft, definition: Definition, profile: Profile)  // FOR SHARE on both, validated
    | Numbered(draft: Draft, definition: Definition, profile: Profile, revision: int)
    | Inserted(draft: Draft, definition: Definition, profile: Profile, row: Binding)
    | RowLocked                                                        // FOR UPDATE, transition checked
    | Updated                                                          // lifecycle written, not committed

  datatype Transaction = Transaction(work: Work, phase: Phase)

  /** `nextId` is the SERIAL sequence: it is not rolled back. */
  datatype System = System(db: Database, open: map<nat, Transaction>, nextId: nat)

  const INITIAL := System(EMPTY, map[], 0)

  // ---- Locks ----

  datatype Lock =
    | Advisory(hash: int)
    | ShareDefinition(key: Key) | UpdateDefinition(key: Key)
    | ShareProfile(key: Key) | UpdateProfile(key: Key)

  predicate Conflict(a: Lock, b: Lock) {
    match (a, b)
    case (Advisory(x), Advisory(y)) => x == y
    case (ShareDefinition(x), UpdateDefinition(y)) => x == y
    case (UpdateDefinition(x), ShareDefinition(y)) => x == y
    case (UpdateDefinition(x), UpdateDefinition(y)) => x == y
    case (ShareProfile(x), UpdateProfile(y)) => x == y
    case (UpdateProfile(x), ShareProfile(y)) => x == y
    case (UpdateProfile(x), UpdateProfile(y)) => x == y
    case _ => false
  }

  /** `hashtext`: any function of the lock name, collisions included. */
  type Hash = string -> int

  function AdvisoryLock(hash: Hash, scope: Scope): Lock {
    Advisory(hash(scope.0 + "/" + scope.1))
  }

  function DefinitionKeyOf(request: Request, draft: Draft): Key { (request.scope.0, draft.definitionVersion) }
  function ProfileKeyOf(draft: Draft): Key { (draft.profile, draft.profileVersion) }

  predicate HoldsAdvisory(t: Transaction) {
    t.work.BindWork? && !t.phase.Begun?
  }

  predicate HoldsDefinition(t: Transaction) {
    t.work.BindWork? && (t.phase.HasDefinition? || HoldsProfile(t))
  }

  predicate HoldsProfile(t: Transaction) {
    t.work.BindWork? && (t.phase.HasPair? || t.phase.Numbered? || t.phase.Inserted?)
  }

  predicate HoldsRow(t: Transaction) {
    !t.work.BindWork? && (t.phase.RowLocked? || t.phase.Updated?)
  }

  predicate Holds(hash: Hash, t: Transaction, lock: Lock) {
    match lock
    case Advisory(h) => HoldsAdvisory(t) && lock == AdvisoryLock(hash, t.work.request.scope)
    case ShareDefinition(key) => HoldsDefinition(t) && key == DefinitionKeyOf(t.work.request, t.phase.draft)
    case ShareProfile(key) => HoldsProfile(t) && key == ProfileKeyOf(t.phase.draft)
    case UpdateDefinition(key) => HoldsRow(t) && t.work == DefinitionWork(key, t.work.to)
    case UpdateProfile(key) => HoldsRow(t) && t.work == ProfileWork(key, t.work.to)
  }

  /** The lock a transaction's next statement needs. */
  function Wants(hash: Hash, t: Transaction): Option<Lock> {
    match t.work
    case BindWork(request) =>
      if t.phase.Begun? then Some(AdvisoryLock(hash, request.scope))
      else if t.phase.Drafted? then Some(ShareDefinition(DefinitionKeyOf(request, t.phase.draft)))
      else if t.phase.HasDefinition? then Some(ShareProfile(ProfileKeyOf(t.phase.draft)))
      else None
    case DefinitionWork(key, _) => if t.phase.Begun? then Some(UpdateDefinition(key)) else None
    case ProfileWork(key, _) => if t.phase.Begun? then Some(UpdateProfile(key)) else None
  }

  ghost predicate Available(hash: Hash, s: System, me: nat, lock: Lock) {
    forall other, held | other in s.open && other != me && Holds(hash, s.open[other], held) :: !Conflict(lock, held)
  }

  // ---- Steps ----

  datatype Step =
    | Declare(agent: string)
    | PublishDefinitionStep(definition: Definition)
    | PublishProfileStep(profile: Profile)
    | Begin(id: nat, work: Work)
    | Advance(id: nat)
    | Commit(id: nat)
    | Abort(id: nat)

  /** One statement of a binding transaction, once its lock is granted; None is an error that aborts it. */
  function NextPhase(db: Database, nextId: nat, request: Request, phase: Phase): Option<Phase> {
    match phase
    case Begun => Some(Guarded)
    case Guarded =>
      (match DraftOf(db.bindings, request)
       case Ok(draft) => Some(Drafted(draft))
       case Err(_) => None)
    case Drafted(draft) =>
      var key := DefinitionKeyOf(request, draft);
      if key !in db.definitions || IsProfileless(db.definitions[key].spec) then None
      else Some(HasDefinition(draft, db.definitions[key]))
    case HasDefinition(draft, d) =>
      var key := ProfileKeyOf(draft);
      if key !in db.profiles || CheckPair(request.Rollback?, d, db.profiles[key]).Some? then None
      else Some(HasPair(draft, d, db.profiles[key]))
    case HasPair(draft, d, p) => Some(Numbered(draft, d, p, NextRevision(db.bindings, request.scope)))
    case Numbered(draft, d, p, revision) =>
      var row := Row(request, draft, d.profileRange, revision, nextId);
      if CheckInsert(db, row).Some? then None else Some(Inserted(draft, d, p, row))
    case _ => None
  }

  /** One statement of a lifecycle transaction. */
  function NextRowPhase(db: Database, work: Work, phase: Phase): Option<Phase>
    requires !work.BindWork?
  {
    match phase
    case Begun =>
      var ok := if work.DefinitionWork? then SetDefinitionLifecycle(db, work.key, work.to).Ok?
                else SetProfileLifecycle(db, work.key, work.to).Ok?;
      if ok then Some(RowLocked) else None
    case RowLocked => Some(Updated)
    case _ => None
  }

  function Next(s: System, t: Transaction): Option<Phase> {
    if t.work.BindWork? then NextPhase(s.db, s.nextId, t.work.request, t.phase)
    else NextRowPhase(s.db, t.work, t.phase)
  }

  predicate ReadyToCommit(t: Transaction) {
    if t.work.BindWork? then t.phase.Inserted? else t.phase.Updated?
  }

  /** What a commit makes visible. */
  function Committed(db: Database, t: Transaction): Database
    requires ReadyToCommit(t)
  {
    match t.work
    case BindWork(_) => db.(bindings := db.bindings + [t.phase.row])
    case DefinitionWork(key, to) =>
      if key in db.definitions then db.(definitions := db.definitions[key := db.definitions[key].(lifecycle := to)]) else db
    case ProfileWork(key, to) =>
      if key in db.profiles then db.(profiles := db.profiles[key := db.profiles[key].(lifecycle := to)]) else db
  }

  ghost predicate Enabled(hash: Hash, s: System, step: Step) {
    match step
    case Declare(_) => true
    case PublishDefinitionStep(d) => PublishDefinition(s.db, d).Ok?
    case PublishProfileStep(p) => PublishProfile(s.db, p).Ok?
    case Begin(id, work) => id !in s.open && (work.BindWork? ==> Refusal(work.request).None?)
    case Advance(id) =>
      && id in s.open && Next(s, s.open[id]).Some?
      && (Wants(hash, s.open[id]).Some? ==> Available(hash, s, id, Wants(hash, s.open[id]).value))
    case Commit(id) => id in s.open && ReadyToCommit(s.open[id])
    case Abort(id) => id in s.open
  }

  ghost function Apply(hash: Hash, s: System, step: Step): System
    requires Enabled(hash, s, step)
  {
    match step
    case Declare(agent) => s.(db := s.db.(agents := s.db.agents + {agent}))
    case PublishDefinitionStep(d) => s.(db := PublishDefinition(s.db, d).value)
    case PublishProfileStep(p) => s.(db := PublishProfile(s.db, p).value)
    case Begin(id, work) => s.(open := s.open[id := Transaction(work, Begun)])
    case Advance(id) =>
      var phase := Next(s, s.open[id]).value;
      s.(open := s.open[id := s.open[id].(phase := phase)],
         nextId := if phase.Inserted? then s.nextId + 1 else s.nextId)
    case Commit(id) => s.(db := Committed(s.db, s.open[id]), open := s.open - {id})
    case Abort(id) => s.(open := s.open - {id})
  }

  /** A run: states joined by steps, from the empty registry. */
  ghost predicate Run(hash: Hash, states: seq<System>, steps: seq<Step>) {
    && |states| == |steps| + 1 && states[0] == INITIAL
    && forall i | 0 <= i < |steps| :: Enabled(hash, states[i], steps[i]) && states[i + 1] == Apply(hash, states[i], steps[i])
  }

  // ---- The invariant ----

  /** No two transactions hold conflicting locks. */
  ghost predicate Exclusive(hash: Hash, s: System) {
    forall a, b, x, y | a in s.open && b in s.open && a != b && Holds(hash, s.open[a], x) && Holds(hash, s.open[b], y) ::
      !Conflict(x, y)
  }

  ghost predicate GoodDraft(db: Database, request: Request, draft: Draft) {
    DraftOf(db.bindings, request) == Ok(draft)
  }

  ghost predicate GoodPair(db: Database, request: Request, draft: Draft, d: Definition, p: Profile) {
    && GoodDraft(db, request, draft)
    && GoodShare(db, request, draft, d)
    && ProfileKeyOf(draft) in db.profiles && db.profiles[ProfileKeyOf(draft)] == p
    && CheckPair(request.Rollback?, d, p).None?
  }

  ghost predicate GoodShare(db: Database, request: Request, draft: Draft, d: Definition) {
    var key := DefinitionKeyOf(request, draft);
    key in db.definitions && db.definitions[key] == d && !IsProfileless(d.spec)
  }

  /** Everything a binding transaction has read still holds of the committed tables. */
  ghost predicate GoodPhase(s: System, request: Request, phase: Phase) {
    && Refusal(request).None?
    && match phase
       case Drafted(draft) => GoodDraft(s.db, request, draft)
       case HasDefinition(draft, d) => GoodDraft(s.db, request, draft) && GoodShare(s.db, request, draft, d)
       case HasPair(draft, d, p) => GoodPair(s.db, request, draft, d, p)
       case Numbered(draft, d, p, revision) =>
         GoodPair(s.db, request, draft, d, p) && revision == NextRevision(s.db.bindings, request.scope)
       case Inserted(draft, d, p, row) =>
         && GoodPair(s.db, request, draft, d, p) && row.id < s.nextId && FreshId(s.db.bindings, request.scope, row.id)
         && row == Row(request, draft, d.profileRange, NextRevision(s.db.bindings, request.scope), row.id)
       case RowLocked => false
       case Updated => false
       case _ => true
  }

  ghost predicate GoodTransaction(s: System, t: Transaction) {
    match t.work
    case BindWork(request) => GoodPhase(s, request, t.phase)
    case DefinitionWork(key, to) => t.phase.Begun? || (HoldsRow(t) && SetDefinitionLifecycle(s.db, key, to).Ok?)
    case ProfileWork(key, to) => t.phase.Begun? || (HoldsRow(t) && SetProfileLifecycle(s.db, key, to).Ok?)
  }

  ghost predicate DistinctRows(s: System) {
    forall a, b | a in s.open && b in s.open && a != b && s.open[a].phase.Inserted? && s.open[b].phase.Inserted? ::
      s.open[a].phase.row.id != s.open[b].phase.row.id
  }

  ghost predicate IdsDrawn(s: System) {
    forall e | e in s.db.bindings :: e.id < s.nextId
  }

  ghost predicate Invariant(hash: Hash, s: System) {
    && Valid(s.db) && IdsDrawn(s) && DistinctRows(s) && Exclusive(hash, s)
    && forall id | id in s.open :: GoodTransaction(s, s.open[id])
  }
}

/** The customer-deletion saga as a state machine. Invocations of prepare, begin, resources, complete and
    cancel interleave across tenants and replicas. Each `Go` is the next call of one handler, made and answered. An
    invocation may end between any two of them (`Quit`), so a refusal, a failed call and a crash are covered; and a
    call to the portal, the identity provider or the begin transaction may end unknown (`Send`), its effect landing at
    any later time or never. */
module Deletion {
  import opened Wrappers
  import opened Memberships
  import Text

  /** Tenant name and principal id. */
  type Target = (string, string)

  datatype Status = Prepared | Deleting | Complete

  datatype Identity = Identity(github: string, login: string, subject: string)

  /** A manifest row. `instance` numbers the insertions, since a cancelled row is deleted and its key may be
      inserted again. */
  datatype Manifest = Manifest(identity: Identity, status: Status, cancelled: bool, released: bool, instance: nat)

  /** `identity` is the pair of live login identities, when the principal has exactly those. */
  datatype Principal = Principal(active: bool, identity: Option<Identity>)

  /** What external systems still hold about a customer. */
  datatype Leftover =
    | IdpUser(subject: string)
    | SiteSessions(github: string, subject: string)
    | PortalData(target: Target)
    | Sessions(principal: string)

  datatype World = World(manifests: map<Target, Manifest>, principals: map<string, Principal>, frozen: set<Target>,
                         leftovers: set<Leftover>, directory: seq<Tenant>, platform: set<string>, nextInstance: nat)

  datatype Job = Prepare | Begin | Resources | Finish | Cancel

  /** `owned` and `confirmed` are the places in the log of the pass's ownership check and of the identity provider's
      confirmation. */
  datatype Phase =
    | Arrived
    | Waiting
    | Locked
    | Approving(approved: Identity)
    | Vouching(approved: Identity, owned: nat)
    | Inserting(approved: Identity, owned: nat, confirmed: nat)
    | Looking(manifest: Manifest)
    | Owning(manifest: Manifest, demanded: bool)
    | Confirming(manifest: Manifest, owned: nat)
    | Freezing(manifest: Manifest, owned: nat)
    | Beginning(manifest: Manifest, owned: nat, confirmed: nat)
    | Revoking
    | Checking(manifest: Manifest, saw: seq<nat>)
    | Erasing(manifest: Manifest, saw: seq<nat>, erased: nat)
    | Releasing(acknowledged: bool, locked: bool)
    | Stamping
    | Thawing
    | Dropping

  datatype Invocation = Invocation(job: Job, target: Target, phase: Phase)

  datatype Event =
    /** The membership check of that login passed, with the exclusive owner demanded when `demanded`. */
    | SawOwnership(call: nat, target: Target, demanded: bool, login: string)
    /** The identity provider knew the customer by that subject. */
    | SawCustomer(call: nat, target: Target, subject: string)
    /** `approved` is the identity the pass acts for. */
    | Filed(call: nat, target: Target, instance: nat, approved: Identity)
    /** The portal froze. */
    | Froze(call: nat, target: Target, instance: nat, approved: Identity)
    /** `first` when the manifest was still prepared. */
    | Began(call: nat, target: Target, instance: nat, first: bool, approved: Identity)
    /** `clear` when no freeze of that manifest was on its way. */
    | Cancelled(call: nat, target: Target, instance: nat, clear: bool)
    | SawNoAccess(call: nat, target: Target, login: string)
    | SawNoTenant(call: nat, target: Target)
    | SawPlatformGone(call: nat, target: Target)
    /** The call to the identity provider, with the manifest and the lock holder at that moment. */
    | ErasedIdp(call: nat, target: Target, manifest: Option<Manifest>, holder: Option<nat>)

  /** What a call that ended unknown may still do. */
  datatype Effect =
    | FreezeOf(target: Target, instance: nat, owned: nat, approved: Identity)
    | ThawOf(target: Target)
    | EraseOf(leftover: Leftover)
    | BeginOf(target: Target, first: bool, owned: nat, confirmed: nat, approved: Identity)

  /** `air` holds the effects on their way, by the call that sent them. `exposed` is history: the targets whose portal
      was last thawed while a freeze of theirs was on its way. */
  datatype State = State(world: World, locks: map<string, nat>, calls: map<nat, Invocation>, nextCall: nat,
                         air: map<nat, Effect>, exposed: set<Target>, log: seq<Event>)

  ghost function Initial(w: World): State {
    State(w.(manifests := map[], frozen := {}, nextInstance := 0), map[], map[], 0, map[], {}, [])
  }

  /** A freeze of the target's portal is on its way. */
  predicate FreezeInFlight(air: map<nat, Effect>, t: Target) {
    exists c | c in air :: air[c].FreezeOf? && air[c].target == t
  }

  /** A freeze of that very manifest is on its way. */
  predicate InstanceInFlight(air: map<nat, Effect>, instance: nat) {
    exists c | c in air :: air[c].FreezeOf? && air[c].instance == instance
  }

  // ---- Store transactions ----

  /** CustomerTenantDeletionPending: tenant creation is refused while this holds. */
  ghost predicate NamePending(w: World, tenant: string) {
    exists t | t in w.manifests :: t.0 == tenant && HoldsName(w.manifests[t])
  }

  predicate HoldsName(m: Manifest) {
    m.status != Complete || !m.released
  }

  /** The partial unique index on the GitHub id of live manifests. */
  predicate Live(m: Manifest) {
    m.status != Complete && !m.cancelled
  }

  ghost predicate GithubTaken(w: World, github: string) {
    exists t | t in w.manifests :: Live(w.manifests[t]) && w.manifests[t].identity.github == github
  }

  predicate SameIdentity(current: Identity, approved: Identity) {
    current.github == approved.github && current.subject == approved.subject && Text.EqualFold(current.login, approved.login)
  }

  /** PrepareCustomerDeletion's second transaction. */
  ghost function InsertManifest(w: World, t: Target, approved: Identity): Option<World> {
    if t in w.manifests || t.1 !in w.principals || !w.principals[t.1].active
       || w.principals[t.1].identity != Some(approved) || GithubTaken(w, approved.github)
    then None
    else Some(w.(manifests := w.manifests[t := Manifest(approved, Prepared, false, false, w.nextInstance)],
                 nextInstance := w.nextInstance + 1))
  }

  function BeginManifest(w: World, t: Target): Option<World> {
    if t !in w.manifests || w.manifests[t].cancelled then None
    else
      var m := w.manifests[t];
      if m.status == Complete then Some(w)
      else if t.1 !in w.principals then None
      else
        var p := w.principals[t.1];
        if m.status == Prepared && (p.identity.None? || !SameIdentity(p.identity.value, m.identity)) then None
        else Some(w.(manifests := w.manifests[t := m.(status := Deleting)],
                     principals := w.principals[t.1 := p.(active := false)]))
  }

  function FinishManifest(w: World, t: Target): Option<World> {
    if t !in w.manifests then None
    else
      var m := w.manifests[t];
      if m.status == Complete then Some(w)
      else if m.status == Prepared || t.1 !in w.principals || w.principals[t.1].active then None
      else Some(w.(manifests := w.manifests[t := m.(status := Complete)], principals := w.principals - {t.1}))
  }

  function ReleaseManifest(w: World, t: Target): Option<World> {
    if t !in w.manifests || w.manifests[t].status != Complete then None
    else Some(w.(manifests := w.manifests[t := w.manifests[t].(released := true)]))
  }

  function CancelManifest(w: World, t: Target): Option<World> {
    if t !in w.manifests || w.manifests[t].status != Prepared then None
    else Some(w.(manifests := w.manifests[t := w.manifests[t].(cancelled := true)]))
  }

  function DropManifest(w: World, t: Target): Option<World> {
    if t !in w.manifests || w.manifests[t].status != Prepared || !w.manifests[t].cancelled then None
    else Some(w.(manifests := w.manifests - {t}))
  }

  // ---- One invocation ----

  predicate HoldsLock(p: Phase) {
    !(p.Arrived? || p.Waiting? || (p.Releasing? && !p.locked))
  }

  function In(s: State, call: nat, phase: Phase): State
    requires call in s.calls
  {
    s.(calls := s.calls[call := s.calls[call].(phase := phase)])
  }

  /** The invocation returns or dies; a held lock ends with its session. */
  function End(s: State, call: nat): State
    requires call in s.calls
  {
    var c := s.calls[call];
    s.(calls := s.calls - {call}, locks := if HoldsLock(c.phase) then s.locks - {c.target.0} else s.locks)
  }

  function Logged(s: State, e: Event): State {
    s.(log := s.log + [e])
  }

  function TryLock(s: State, call: nat): Option<State>
    requires call in s.calls
  {
    var tenant := s.calls[call].target.0;
    if tenant in s.locks then None else Some(In(s, call, Locked).(locks := s.locks[tenant := call]))
  }

  function CustomerOf(t: Target, login: string): Customer {
    Customer(t.0, t.1, login)
  }

  /** The unlocked first read of the workflow callbacks. */
  function FirstRead(s: State, call: nat): Option<State>
    requires call in s.calls
  {
    var c := s.calls[call];
    if c.target !in s.world.manifests || s.world.manifests[c.target].cancelled then None
    else if s.world.manifests[c.target].status == Complete then
      (if c.job == Resources then None else Some(In(s, call, Releasing(false, false))))
    else Some(In(s, call, Waiting))
  }

  /** The read under the lock decides what the pass does. */
  ghost function LockedRead(s: State, call: nat): Option<State>
    requires call in s.calls
  {
    var c, w := s.calls[call], s.world;
    if c.target !in w.manifests then
      if c.job == Prepare && c.target.1 in w.principals && w.principals[c.target.1].active
         && w.principals[c.target.1].identity.Some?
      then Some(In(s, call, Approving(w.principals[c.target.1].identity.value)))
      else None
    else
      var m := w.manifests[c.target];
      if c.job == Cancel then (if m.status == Prepared then Some(In(s, call, Stamping)) else None)
      else if m.cancelled || c.job == Resources then None
      else if m.status == Complete then Some(In(s, call, Releasing(false, true)))
      else if c.job == Finish then (if m.status == Deleting then Some(In(s, call, Checking(m, []))) else None)
      else Some(In(s, call, Looking(m)))
  }

  /** Prepare and begin on a live manifest: does the tenant exist, who has access, and before a first begin, does the
      identity provider know the customer. Each is a separate read. */
  ghost function Survey(s: State, call: nat): Option<State>
    requires call in s.calls && (s.calls[call].phase.Looking? || s.calls[call].phase.Owning? || s.calls[call].phase.Confirming?)
  {
    var c, w := s.calls[call], s.world;
    match c.phase
    case Looking(m) =>
      if TenantExists(w.directory, c.target.0) then Some(In(s, call, Owning(m, true)))
      else Some(In(Logged(s, SawNoTenant(call, c.target)), call, Owning(m, false)))
    case Owning(m, demanded) =>
      if !Passes(w.directory, CustomerOf(c.target, m.identity.login), demanded) then None
      else
        var seen := Logged(s, SawOwnership(call, c.target, demanded, m.identity.login));
        if c.job == Prepare then Some(In(seen, call, Freezing(m, |s.log|)))
        else if m.status == Prepared then Some(In(seen, call, Confirming(m, |s.log|)))
        else Some(In(seen, call, Beginning(m, |s.log|, 0)))
    case Confirming(m, owned) =>
      if IdpUser(m.identity.subject) !in w.leftovers then None
      else Some(In(Logged(s, SawCustomer(call, c.target, m.identity.subject)), call, Beginning(m, owned, |s.log|)))
  }

  /** The two checks of a first preparation. */
  ghost function Vouch(s: State, call: nat): Option<State>
    requires call in s.calls && (s.calls[call].phase.Approving? || s.calls[call].phase.Vouching?)
  {
    var c, w := s.calls[call], s.world;
    match c.phase
    case Approving(approved) =>
      if !Passes(w.directory, CustomerOf(c.target, approved.login), true) then None
      else Some(In(Logged(s, SawOwnership(call, c.target, true, approved.login)), call, Vouching(approved, |s.log|)))
    case Vouching(approved, owned) =>
      if IdpUser(approved.subject) !in w.leftovers then None
      else Some(In(Logged(s, SawCustomer(call, c.target, approved.subject)), call, Inserting(approved, owned, |s.log|)))
  }

  /** Complete's three observations, in order. */
  ghost function Observe(s: State, call: nat): Option<State>
    requires call in s.calls && s.calls[call].phase.Checking?
  {
    var c, w := s.calls[call], s.world;
    var m, saw := c.phase.manifest, c.phase.saw + [|s.log|];
    if |saw| == 1 then
      if Passes(w.directory, CustomerOf(c.target, m.identity.login), false)
      then Some(In(Logged(s, SawNoAccess(call, c.target, m.identity.login)), call, Checking(m, saw))) else None
    else if |saw| == 2 then
      if !TenantExists(w.directory, c.target.0)
      then Some(In(Logged(s, SawNoTenant(call, c.target)), call, Checking(m, saw))) else None
    else if c.target.0 !in w.platform
    then Some(In(Logged(s, SawPlatformGone(call, c.target)), call, Erasing(m, saw, 0))) else None
  }

  /** What complete erases, in order. */
  function LeftoversOf(t: Target, i: Identity): seq<Leftover> {
    [IdpUser(i.subject), SiteSessions(i.github, i.subject), PortalData(t), Sessions(t.1)]
  }

  function HolderOf(s: State, tenant: string): Option<nat> {
    if tenant in s.locks then Some(s.locks[tenant]) else None
  }

  function ManifestOf(w: World, t: Target): Option<Manifest> {
    if t in w.manifests then Some(w.manifests[t]) else None
  }

  // ---- Effects ----

  /** The effect of the call an invocation is about to make, where that call may end unknown. */
  function EffectOf(c: Invocation): Option<Effect> {
    match c.phase
    case Freezing(m, owned) => Some(FreezeOf(c.target, m.instance, owned, m.identity))
    case Beginning(m, owned, confirmed) => Some(BeginOf(c.target, m.status == Prepared, owned, confirmed, m.identity))
    case Revoking => Some(EraseOf(Sessions(c.target.1)))
    case Erasing(m, _, n) => if n < 4 then Some(EraseOf(LeftoversOf(c.target, m.identity)[n])) else None
    case Releasing(acknowledged, _) => if acknowledged then None else Some(ThawOf(c.target))
    case Thawing => Some(ThawOf(c.target))
    case _ => None
  }

  /** The effect of a call's statement or request, when it happens. */
  function Landed(s: State, call: nat, e: Effect): State {
    var w := s.world;
    match e
    case FreezeOf(t, instance, _, approved) => Logged(s, Froze(call, t, instance, approved)).(world := w.(frozen := w.frozen + {t}))
    case ThawOf(t) => s.(world := w.(frozen := w.frozen - {t}))
    case EraseOf(l) => s.(world := w.(leftovers := w.leftovers - {l}))
    case BeginOf(t, _, _, _, approved) =>
      match BeginManifest(w, t)
      case None => s
      case Some(w') =>
        if w.manifests[t].status == Complete then s
        else Logged(s, Began(call, t, w.manifests[t].instance, w.manifests[t].status == Prepared, approved)).(world := w')
  }

  /** The call to the identity provider is on record from when it is made. */
  function Noted(s: State, call: nat): State
    requires call in s.calls
  {
    var c := s.calls[call];
    if c.phase.Erasing? && c.phase.erased == 0
    then Logged(s, ErasedIdp(call, c.target, ManifestOf(s.world, c.target), HolderOf(s, c.target.0)))
    else s
  }

  /** A call that ends unknown takes its invocation with it. */
  function Sent(s: State, call: nat): Option<State>
    requires call in s.calls
  {
    match EffectOf(s.calls[call])
    case None => None
    case Some(e) => Some(End(Noted(s, call), call).(air := s.air[call := e]))
  }

  /** An acknowledged thaw. */
  function Thawed(s: State, t: Target): State {
    s.(world := s.world.(frozen := s.world.frozen - {t}),
       exposed := if FreezeInFlight(s.air, t) then s.exposed + {t} else s.exposed - {t})
  }

  /** The next call of an invocation, made with success; None where the handler refuses. */
  ghost function Proceed(s: State, call: nat): Option<State>
    requires call in s.calls
  {
    var c, w := s.calls[call], s.world;
    match c.phase
    case Arrived => if c.job == Prepare || c.job == Cancel then TryLock(s, call) else FirstRead(s, call)
    case Waiting => TryLock(s, call)
    case Locked => LockedRead(s, call)
    case Approving(_) => Vouch(s, call)
    case Vouching(_, _) => Vouch(s, call)
    case Inserting(approved, owned, _) =>
      (match InsertManifest(w, c.target, approved)
       case None => None
       case Some(w') =>
         Some(In(Logged(s, Filed(call, c.target, w.nextInstance, approved)).(world := w'), call, Freezing(w'.manifests[c.target], owned))))
    case Looking(_) => Survey(s, call)
    case Owning(_, _) => Survey(s, call)
    case Confirming(_, _) => Survey(s, call)
    case Freezing(_, _) => Some(End(Landed(s, call, EffectOf(c).value), call))
    case Beginning(_, _, _) =>
      if BeginManifest(w, c.target).None? then None else Some(In(Landed(s, call, EffectOf(c).value), call, Revoking))
    case Revoking => Some(End(Landed(s, call, EffectOf(c).value), call))
    case Checking(_, _) => Observe(s, call)
    case Erasing(m, saw, n) =>
      if n < 4 then Some(In(Landed(Noted(s, call), call, EffectOf(c).value), call, Erasing(m, saw, n + 1)))
      else
        (match FinishManifest(w, c.target)
         case None => None
         case Some(w') => Some(In(s.(world := w'), call, Releasing(false, true))))
    case Releasing(acknowledged, locked) =>
      if !acknowledged then Some(In(Thawed(s, c.target), call, Releasing(true, locked)))
      else
        (match ReleaseManifest(w, c.target)
         case None => None
         case Some(w') => Some(End(s.(world := w'), call)))
    case Stamping =>
      (match CancelManifest(w, c.target)
       case None => None
       case Some(w') =>
         var instance := w'.manifests[c.target].instance;
         Some(In(Logged(s, Cancelled(call, c.target, instance, !InstanceInFlight(s.air, instance))).(world := w'), call, Thawing)))
    case Thawing => Some(In(Thawed(s, c.target), call, Dropping))
    case Dropping =>
      (match DropManifest(w, c.target)
       case None => None
       case Some(w') => Some(End(s.(world := w'), call)))
  }

  // ---- The rest of the system ----

  /** Changes by other parties: sign-ups, identity administration, GitOps commits, new sessions and data. */
  datatype Change =
    | SignUp(principal: string, identity: Option<Identity>)
    | Relink(principal: string, identity: Option<Identity>)
    | Disable(principal: string)
    | Appear(leftover: Leftover)
    | Vanish(leftover: Leftover)
    | Commit(directory: seq<Tenant>)
    | Platform(platform: set<string>)

  ghost predicate PrincipalFenced(w: World, principal: string) {
    exists t | t in w.manifests :: t.1 == principal && !w.manifests[t].cancelled
  }

  ghost predicate SubjectFenced(w: World, subject: string) {
    exists t | t in w.manifests :: w.manifests[t].identity.subject == subject && !w.manifests[t].cancelled
  }

  /** Nothing new is made for a fenced customer, principal ids and subjects are never reused, and only an
      active principal's identities move. */
  ghost predicate Permitted(w: World, change: Change) {
    match change
    case SignUp(p, _) => p !in w.principals && forall t | t in w.manifests :: t.1 != p
    case Relink(p, _) => p in w.principals && w.principals[p].active
    case Disable(p) => p in w.principals
    case Appear(IdpUser(subject)) => !SubjectFenced(w, subject)
    case Appear(SiteSessions(_, subject)) => !SubjectFenced(w, subject)
    case Appear(PortalData(t)) => !PrincipalFenced(w, t.1)
    case Appear(Sessions(p)) => !PrincipalFenced(w, p)
    case _ => true
  }

  function Changed(w: World, change: Change): World {
    match change
    case SignUp(p, identity) => w.(principals := w.principals[p := Principal(true, identity)])
    case Relink(p, identity) =>
      if p in w.principals then w.(principals := w.principals[p := w.principals[p].(identity := identity)]) else w
    case Disable(p) =>
      if p in w.principals then w.(principals := w.principals[p := w.principals[p].(active := false)]) else w
    case Appear(l) => w.(leftovers := w.leftovers + {l})
    case Vanish(l) => w.(leftovers := w.leftovers - {l})
    case Commit(directory) => w.(directory := directory)
    case Platform(platform) => w.(platform := platform)
  }

  datatype Action =
    | Arrive(job: Job, target: Target)
    | Go(call: nat)
    | Quit(call: nat)
    | Send(call: nat)
    | Land(call: nat)
    | Lose(call: nat)
    | Other(change: Change)

  ghost function Step(s: State, a: Action): Option<State> {
    match a
    case Arrive(job, target) =>
      Some(s.(calls := s.calls[s.nextCall := Invocation(job, target, Arrived)], nextCall := s.nextCall + 1))
    case Go(call) => if call in s.calls then Proceed(s, call) else None
    case Quit(call) => if call in s.calls then Some(End(s, call)) else None
    case Send(call) => if call in s.calls then Sent(s, call) else None
    case Land(call) => if call in s.air then Some(Landed(s.(air := s.air - {call}), call, s.air[call])) else None
    case Lose(call) => if call in s.air then Some(s.(air := s.air - {call})) else None
    case Other(change) => if Permitted(s.world, change) then Some(s.(world := Changed(s.world, change))) else None
  }

  /** The state after a run, or None when some action was not possible. */
  ghost function Run(s: State, actions: seq<Action>): Option<State> {
    if actions == [] then Some(s)
    else
      match Run(s, actions[..|actions| - 1])
      case None => None
      case Some(mid) => Step(mid, actions[|actions| - 1])
  }
}

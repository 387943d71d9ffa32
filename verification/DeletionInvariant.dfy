/** What every state of the customer-deletion saga satisfies, and what keeps it. */
module DeletionInvariant {
  import opened Wrappers
  import opened Memberships
  import opened Deletion

  // ---- Rows ----

  ghost predicate Erased(w: World, t: Target, i: Identity, n: nat) {
    n <= 4 && forall k | 0 <= k < n :: LeftoversOf(t, i)[k] !in w.leftovers
  }

  ghost predicate Disabled(w: World, t: Target, i: Identity) {
    && t.1 in w.principals && !w.principals[t.1].active
    && w.principals[t.1].identity.Some? && SameIdentity(w.principals[t.1].identity.value, i)
  }

  ghost predicate RowSound(w: World, t: Target)
    requires t in w.manifests
  {
    var m := w.manifests[t];
    && m.instance < w.nextInstance
    && (m.cancelled ==> m.status == Prepared)
    && (m.released ==> m.status == Complete)
    && (m.status == Deleting ==> Disabled(w, t, m.identity))
    && (m.status == Complete ==> t.1 !in w.principals && Erased(w, t, m.identity, 4))
  }

  ghost predicate RowsDiffer(w: World, t: Target, u: Target)
    requires t in w.manifests && u in w.manifests
  {
    var m, n := w.manifests[t], w.manifests[u];
    m.instance != n.instance && (Live(m) && Live(n) ==> m.identity.github != n.identity.github)
  }

  ghost predicate WorldSound(w: World) {
    && (forall t | t in w.manifests :: RowSound(w, t))
    && (forall t, u | t in w.manifests && u in w.manifests && t != u :: RowsDiffer(w, t, u))
  }

  // ---- The portal ----

  /** A manifest holds the target's tenant name, or its portal was last thawed while a freeze was on its way. */
  ghost predicate Accounted(s: State, t: Target) {
    t in s.exposed || (t in s.world.manifests && HoldsName(s.world.manifests[t]))
  }

  ghost predicate FrozenSound(s: State) {
    forall t | t in s.world.frozen :: Accounted(s, t)
  }

  /** The portal is thawed for good. */
  ghost predicate ThawedForGood(s: State, t: Target) {
    t in s.exposed || (t !in s.world.frozen && !FreezeInFlight(s.air, t))
  }

  // ---- The log ----

  function Observation(k: nat, call: nat, t: Target, login: string): Event {
    if k == 0 then SawNoAccess(call, t, login) else if k == 1 then SawNoTenant(call, t) else SawPlatformGone(call, t)
  }

  /** The pass has logged its first |saw| observations, in order. */
  ghost predicate SawInOrder(log: seq<Event>, call: nat, t: Target, login: string, saw: seq<nat>) {
    && (forall k | 0 <= k < |saw| :: saw[k] < |log| && log[saw[k]] == Observation(k, call, t, login))
    && (forall j, k | 0 <= j < k < |saw| :: saw[j] < saw[k])
  }

  /** The pass has logged that there was no GitOps tenant, before the n-th entry. */
  ghost predicate SawAbsent(log: seq<Event>, call: nat, t: Target, n: nat) {
    exists j | 0 <= j < n <= |log| :: log[j] == SawNoTenant(call, t)
  }

  /** The pass has logged a passed ownership check of the login, with the owner demanded unless the tenant was gone. */
  ghost predicate SawOwned(log: seq<Event>, call: nat, t: Target, login: string, owned: nat) {
    && owned < |log| && log[owned].SawOwnership? && log[owned].call == call && log[owned].target == t && log[owned].login == login
    && (log[owned].demanded || SawAbsent(log, call, t, owned))
  }

  /** And after it the identity provider's confirmation. */
  ghost predicate SawConfirmed(log: seq<Event>, call: nat, t: Target, subject: string, owned: nat, confirmed: nat) {
    owned < confirmed < |log| && log[confirmed] == SawCustomer(call, t, subject)
  }

  /** A cancelled instance stays cancelled or gone. */
  ghost predicate CancelledStays(w: World, log: seq<Event>) {
    forall k | 0 <= k < |log| && log[k].Cancelled? ::
      && log[k].instance < w.nextInstance
      && forall t | t in w.manifests && w.manifests[t].instance == log[k].instance :: w.manifests[t].cancelled
  }

  /** No cancellation of the instance is on record that was clear of its freezes. */
  ghost predicate NotClearlyCancelled(log: seq<Event>, instance: nat) {
    forall k | 0 <= k < |log| && log[k].Cancelled? && log[k].clear :: log[k].instance != instance
  }

  /** No begin of an instance follows its cancellation, and no freeze follows a clear one. */
  ghost predicate NothingAfterCancel(log: seq<Event>) {
    forall i, j | 0 <= i < j < |log| && log[i].Cancelled? && (log[j].Began? || (log[j].Froze? && log[i].clear)) ::
      log[j].instance != log[i].instance
  }

  /** The identity provider was asked under the lock, for a deleting manifest, after the same pass saw no
      remaining access, no GitOps tenant and no platform resources, in that order. */
  ghost predicate ErasureJustified(log: seq<Event>, k: nat)
    requires k < |log| && log[k].ErasedIdp?
  {
    var e := log[k];
    && e.manifest.Some? && e.manifest.value.status == Deleting && !e.manifest.value.cancelled
    && e.holder == Some(e.call)
    && exists i, j, l :: SawAllThree(log, k, e.call, e.target, e.manifest.value.identity.login, i, j, l)
  }

  ghost predicate SawAllThree(log: seq<Event>, k: nat, call: nat, t: Target, login: string, i: int, j: int, l: int) {
    && 0 <= i < j < l < k <= |log|
    && log[i] == SawNoAccess(call, t, login) && log[j] == SawNoTenant(call, t) && log[l] == SawPlatformGone(call, t)
  }

  ghost predicate ErasuresJustified(log: seq<Event>) {
    forall k: nat | k < |log| && log[k].ErasedIdp? :: ErasureJustified(log, k)
  }

  predicate IsAct(e: Event) {
    e.Filed? || e.Froze? || e.Began?
  }

  predicate NeedsConfirmed(e: Event) {
    e.Filed? || (e.Began? && e.first)
  }

  ghost predicate Vouched(log: seq<Event>, e: Event, owned: nat, confirmed: nat)
    requires IsAct(e)
  {
    && SawOwned(log, e.call, e.target, e.approved.login, owned)
    && (NeedsConfirmed(e) ==> SawConfirmed(log, e.call, e.target, e.approved.subject, owned, confirmed))
  }

  /** The pass behind the act had seen ownership, and then, where it was the first act on the customer, the identity
      provider's confirmation. */
  ghost predicate ActJustified(log: seq<Event>, k: nat)
    requires k < |log| && IsAct(log[k])
  {
    exists owned: nat, confirmed: nat :: Vouched(log[..k], log[k], owned, confirmed)
  }

  ghost predicate ActsJustified(log: seq<Event>) {
    forall k: nat | k < |log| && IsAct(log[k]) :: ActJustified(log, k)
  }

  ghost predicate LogSound(w: World, log: seq<Event>) {
    CancelledStays(w, log) && NothingAfterCancel(log) && ErasuresJustified(log) && ActsJustified(log)
  }

  // ---- Invocations and effects on their way ----

  /** Which handler reaches which phase. */
  predicate FitsJob(c: Invocation) {
    match c.phase
    case Approving(_) => c.job == Prepare
    case Vouching(_, _) => c.job == Prepare
    case Inserting(_, _, _) => c.job == Prepare
    case Looking(_) => c.job == Prepare || c.job == Begin
    case Owning(_, _) => c.job == Prepare || c.job == Begin
    case Confirming(_, _) => c.job == Begin
    case Freezing(_, _) => c.job == Prepare
    case Beginning(_, _, _) => c.job == Begin
    case Revoking => c.job == Begin
    case Checking(_, _) => c.job == Finish
    case Erasing(_, _, _) => c.job == Finish
    case Releasing(_, _) => c.job != Resources && c.job != Cancel
    case Stamping => c.job == Cancel
    case Thawing => c.job == Cancel
    case Dropping => c.job == Cancel
    case _ => true
  }

  /** The manifest read is still live; at most a late begin has moved it on. */
  ghost predicate IsLiveRow(w: World, t: Target, m: Manifest) {
    && t in w.manifests && w.manifests[t].instance == m.instance && w.manifests[t].identity == m.identity && Live(w.manifests[t])
    && (w.manifests[t].status == Prepared ==> m.status == Prepared)
  }

  ghost predicate IsDeletingRow(w: World, t: Target, m: Manifest) {
    t in w.manifests && w.manifests[t] == m && m.status == Deleting
  }

  ghost predicate IsCancelledRow(w: World, t: Target) {
    t in w.manifests && w.manifests[t].status == Prepared && w.manifests[t].cancelled
  }

  ghost predicate IsCompleteRow(w: World, t: Target) {
    t in w.manifests && w.manifests[t].status == Complete
  }

  /** What an invocation in each phase can rely on. */
  ghost predicate Knows(s: State, call: nat, c: Invocation) {
    var t, w := c.target, s.world;
    match c.phase
    case Vouching(approved, owned) => SawOwned(s.log, call, t, approved.login, owned)
    case Inserting(approved, owned, confirmed) =>
      SawOwned(s.log, call, t, approved.login, owned) && SawConfirmed(s.log, call, t, approved.subject, owned, confirmed)
    case Looking(m) => IsLiveRow(w, t, m)
    case Owning(m, demanded) => IsLiveRow(w, t, m) && (demanded || SawAbsent(s.log, call, t, |s.log|))
    case Confirming(m, owned) => IsLiveRow(w, t, m) && SawOwned(s.log, call, t, m.identity.login, owned)
    case Freezing(m, owned) => IsLiveRow(w, t, m) && SawOwned(s.log, call, t, m.identity.login, owned)
    case Beginning(m, owned, confirmed) =>
      && IsLiveRow(w, t, m) && SawOwned(s.log, call, t, m.identity.login, owned)
      && (m.status == Prepared ==> SawConfirmed(s.log, call, t, m.identity.subject, owned, confirmed))
    case Checking(m, saw) => IsDeletingRow(w, t, m) && |saw| < 3 && SawInOrder(s.log, call, t, m.identity.login, saw)
    case Erasing(m, saw, n) =>
      IsDeletingRow(w, t, m) && |saw| == 3 && SawInOrder(s.log, call, t, m.identity.login, saw) && Erased(w, t, m.identity, n)
    case Releasing(acknowledged, _) => IsCompleteRow(w, t) && (acknowledged ==> ThawedForGood(s, t))
    case Thawing => IsCancelledRow(w, t)
    case Dropping => IsCancelledRow(w, t) && ThawedForGood(s, t)
    case _ => true
  }

  ghost predicate CallSound(s: State, id: nat)
    requires id in s.calls
  {
    && id < s.nextCall && FitsJob(s.calls[id]) && Knows(s, id, s.calls[id])
    && (HoldsLock(s.calls[id].phase) ==> HolderOf(s, s.calls[id].target.0) == Some(id))
  }

  ghost predicate CallsSound(s: State) {
    forall id | id in s.calls :: CallSound(s, id)
  }

  ghost predicate LocksSound(s: State) {
    forall tenant | tenant in s.locks ::
      && s.locks[tenant] in s.calls
      && s.calls[s.locks[tenant]].target.0 == tenant && HoldsLock(s.calls[s.locks[tenant]].phase)
  }

  /** What an effect can rely on until it lands. */
  ghost predicate EffectSound(s: State, call: nat, e: Effect) {
    match e
    case FreezeOf(t, instance, owned, approved) =>
      && Accounted(s, t) && instance < s.world.nextInstance && SawOwned(s.log, call, t, approved.login, owned)
      && NotClearlyCancelled(s.log, instance)
    case BeginOf(t, first, owned, confirmed, approved) =>
      && SawOwned(s.log, call, t, approved.login, owned)
      && (if first then SawConfirmed(s.log, call, t, approved.subject, owned, confirmed)
          else t in s.world.manifests && s.world.manifests[t].status != Prepared)
    case _ => true
  }

  ghost predicate AirSound(s: State) {
    forall c | c in s.air :: c < s.nextCall && c !in s.calls && EffectSound(s, c, s.air[c])
  }

  ghost predicate Invariant(s: State) {
    && WorldSound(s.world) && FrozenSound(s) && LogSound(s.world, s.log)
    && CallsSound(s) && LocksSound(s) && AirSound(s)
  }

  lemma Facts(s: State, call: nat)
    requires Invariant(s) && call in s.calls
    ensures WorldSound(s.world) && LogSound(s.world, s.log) && CallSound(s, call)
  {
  }

  lemma InitialIsSound(w: World)
    ensures Invariant(Initial(w))
  {
  }

  // ---- Adding to the log ----

  lemma SawGrows(log: seq<Event>, log': seq<Event>, call: nat, t: Target, login: string, saw: seq<nat>)
    requires SawInOrder(log, call, t, login, saw) && log <= log'
    ensures SawInOrder(log', call, t, login, saw)
  {
  }

  lemma AbsentGrows(log: seq<Event>, log': seq<Event>, call: nat, t: Target, n: nat, n': nat)
    requires SawAbsent(log, call, t, n) && log <= log' && n <= n' <= |log'|
    ensures SawAbsent(log', call, t, n')
  {
    var j :| 0 <= j < n <= |log| && log[j] == SawNoTenant(call, t);
    assert log'[j] == SawNoTenant(call, t);
  }

  lemma OwnedGrows(log: seq<Event>, log': seq<Event>, call: nat, t: Target, login: string, owned: nat)
    requires SawOwned(log, call, t, login, owned) && log <= log'
    ensures SawOwned(log', call, t, login, owned)
  {
    hide SawAbsent;
    if !log[owned].demanded { AbsentGrows(log, log', call, t, owned, owned); }
  }

  /** What an invocation knows from the log it still knows from a longer one. */
  lemma KnowsGrows(s: State, log: seq<Event>, id: nat, c: Invocation)
    requires Knows(s, id, c) && s.log <= log
    ensures Knows(s.(log := log), id, c)
  {
    hide SawAbsent;
    hide SawOwned;
    hide SawInOrder;
    hide FreezeInFlight;
    match c.phase
    case Vouching(approved, owned) => OwnedGrows(s.log, log, id, c.target, approved.login, owned);
    case Inserting(approved, owned, _) => OwnedGrows(s.log, log, id, c.target, approved.login, owned);
    case Owning(_, demanded) => if !demanded { AbsentGrows(s.log, log, id, c.target, |s.log|, |log|); }
    case Confirming(m, owned) => OwnedGrows(s.log, log, id, c.target, m.identity.login, owned);
    case Freezing(m, owned) => OwnedGrows(s.log, log, id, c.target, m.identity.login, owned);
    case Beginning(m, owned, _) => OwnedGrows(s.log, log, id, c.target, m.identity.login, owned);
    case Checking(m, saw) => SawGrows(s.log, log, id, c.target, m.identity.login, saw);
    case Erasing(m, saw, _) => SawGrows(s.log, log, id, c.target, m.identity.login, saw);
    case _ =>
  }

  /** A change of the rows that gives out no old instance and revives no cancelled row. */
  lemma LogKeeps(w: World, w': World, log: seq<Event>)
    requires LogSound(w, log) && w.nextInstance <= w'.nextInstance
    requires forall t | t in w'.manifests && (t !in w.manifests || w'.manifests[t].instance != w.manifests[t].instance) ::
               w'.manifests[t].instance >= w.nextInstance
    requires forall t | t in w'.manifests && t in w.manifests && w.manifests[t].cancelled :: w'.manifests[t].cancelled
    ensures LogSound(w', log)
  {
  }

  lemma ErasurePrefix(log: seq<Event>, e: Event, k: nat)
    requires k < |log| && log[k].ErasedIdp? && ErasureJustified(log, k)
    ensures (log + [e])[k].ErasedIdp? && ErasureJustified(log + [e], k)
  {
    var log', x := log + [e], log[k];
    var login := x.manifest.value.identity.login;
    var i, j, l :| SawAllThree(log, k, x.call, x.target, login, i, j, l);
    assert SawAllThree(log', k, x.call, x.target, login, i, j, l);
  }

  lemma ActPrefix(log: seq<Event>, e: Event, k: nat)
    requires k < |log| && IsAct(log[k]) && ActJustified(log, k)
    ensures IsAct((log + [e])[k]) && ActJustified(log + [e], k)
  {
    assert (log + [e])[..k] == log[..k];
  }

  lemma ErasuresGrow(log: seq<Event>, e: Event)
    requires ErasuresJustified(log) && !e.ErasedIdp?
    ensures ErasuresJustified(log + [e])
  {
    forall k: nat | k < |log + [e]| && (log + [e])[k].ErasedIdp? ensures ErasureJustified(log + [e], k) {
      ErasurePrefix(log, e, k);
    }
  }

  lemma ActsGrow(log: seq<Event>, e: Event)
    requires ActsJustified(log) && (IsAct(e) ==> exists owned: nat, confirmed: nat :: Vouched(log, e, owned, confirmed))
    ensures ActsJustified(log + [e])
  {
    forall k: nat | k < |log + [e]| && IsAct((log + [e])[k]) ensures ActJustified(log + [e], k) {
      if k < |log| {
        ActPrefix(log, e, k);
      } else {
        assert (log + [e])[..k] == log;
      }
    }
  }

  /** An observation is no act. */
  lemma ObservationLogged(w: World, log: seq<Event>, e: Event)
    requires LogSound(w, log) && !IsAct(e) && !e.Cancelled? && !e.ErasedIdp?
    ensures LogSound(w, log + [e])
  {
    hide ActsJustified;
    hide ErasuresJustified;
    ErasuresGrow(log, e);
    ActsGrow(log, e);
  }

  lemma ActLogged(w: World, log: seq<Event>, e: Event, owned: nat, confirmed: nat)
    requires LogSound(w, log) && IsAct(e) && Vouched(log, e, owned, confirmed)
    requires e.Began? ==> e.target in w.manifests && w.manifests[e.target].instance == e.instance && !w.manifests[e.target].cancelled
    requires e.Froze? ==> NotClearlyCancelled(log, e.instance)
    ensures LogSound(w, log + [e])
  {
    hide ActsJustified;
    hide ErasuresJustified;
    ErasuresGrow(log, e);
    ActsGrow(log, e);
  }

  lemma CancelLogged(w: World, log: seq<Event>, e: Event)
    requires LogSound(w, log) && e.Cancelled? && WorldSound(w)
    requires e.target in w.manifests && w.manifests[e.target].instance == e.instance && w.manifests[e.target].cancelled
    ensures LogSound(w, log + [e])
  {
    hide ActsJustified;
    hide ErasuresJustified;
    ErasuresGrow(log, e);
    ActsGrow(log, e);
    assert RowSound(w, e.target);
    forall u | u in w.manifests && w.manifests[u].instance == e.instance ensures u == e.target {
      assert u != e.target ==> RowsDiffer(w, e.target, u);
    }
  }

  lemma ErasureLogged(w: World, log: seq<Event>, e: Event, saw: seq<nat>)
    requires LogSound(w, log) && e.ErasedIdp? && |saw| == 3 && e.manifest.Some?
    requires SawInOrder(log, e.call, e.target, e.manifest.value.identity.login, saw)
    requires e.manifest.value.status == Deleting && !e.manifest.value.cancelled && e.holder == Some(e.call)
    ensures LogSound(w, log + [e])
  {
    hide ActsJustified;
    var log' := log + [e];
    ActsGrow(log, e);
    forall k: nat | k < |log'| && log'[k].ErasedIdp? ensures ErasureJustified(log', k) {
      if k < |log| {
        ErasurePrefix(log, e, k);
      } else {
        assert SawAllThree(log', k, e.call, e.target, e.manifest.value.identity.login, saw[0], saw[1], saw[2]);
      }
    }
  }

  // ---- Each transaction keeps the rows sound ----

  lemma InsertKeeps(w: World, t: Target, approved: Identity)
    requires WorldSound(w) && InsertManifest(w, t, approved).Some?
    ensures WorldSound(InsertManifest(w, t, approved).value)
  {
  }

  lemma BeginKeeps(w: World, t: Target)
    requires WorldSound(w) && t in w.manifests && BeginManifest(w, t).Some?
    ensures WorldSound(BeginManifest(w, t).value)
  {
    var w' := BeginManifest(w, t).value;
    assert RowSound(w, t);
    forall u | u in w'.manifests ensures RowSound(w', u) {
      assert RowSound(w, u);
    }
    forall u, v | u in w'.manifests && v in w'.manifests && u != v ensures RowsDiffer(w', u, v) {
      assert RowsDiffer(w, u, v);
    }
  }

  lemma FinishKeeps(w: World, t: Target)
    requires WorldSound(w) && t in w.manifests && Erased(w, t, w.manifests[t].identity, 4) && FinishManifest(w, t).Some?
    ensures WorldSound(FinishManifest(w, t).value)
  {
    var w' := FinishManifest(w, t).value;
    assert RowSound(w, t);
    forall u | u in w'.manifests ensures RowSound(w', u) {
      assert RowSound(w, u);
      assert u != t ==> RowsDiffer(w, u, t);
    }
    forall u, v | u in w'.manifests && v in w'.manifests && u != v ensures RowsDiffer(w', u, v) {
      assert RowsDiffer(w, u, v);
    }
  }

  /** Stamping a row as released or cancelled. */
  lemma StampKeeps(w: World, t: Target, m: Manifest)
    requires WorldSound(w) && t in w.manifests
    requires m == w.manifests[t].(released := m.released, cancelled := m.cancelled)
    requires (m.cancelled ==> m.status == Prepared) && (m.released ==> m.status == Complete)
    requires w.manifests[t].cancelled ==> m.cancelled
    ensures WorldSound(w.(manifests := w.manifests[t := m]))
  {
    var w' := w.(manifests := w.manifests[t := m]);
    forall u | u in w'.manifests ensures RowSound(w', u) {
      assert RowSound(w, u);
    }
    forall u, v | u in w'.manifests && v in w'.manifests && u != v ensures RowsDiffer(w', u, v) {
      assert RowsDiffer(w, u, v);
    }
  }

  lemma DropKeeps(w: World, t: Target)
    requires WorldSound(w) && DropManifest(w, t).Some?
    ensures WorldSound(DropManifest(w, t).value)
  {
  }

  /** Freezing, thawing and erasing change no manifest and no principal. */
  lemma OutsideKeeps(w: World, w': World)
    requires WorldSound(w) && w'.manifests == w.manifests && w'.principals == w.principals
    requires w'.nextInstance == w.nextInstance && w'.leftovers <= w.leftovers
    ensures WorldSound(w')
  {
  }

  // ---- What a step may touch ----

  /** The step changed no other target's manifest, freeze or freezes on their way, added no leftover, forgot no log
      entry and no exposure, and left a complete manifest complete and its portal no more frozen than before. */
  ghost predicate Touches(s: State, s': State, t: Target) {
    var w, w' := s.world, s'.world;
    && (forall u | u != t :: (u in w'.manifests <==> u in w.manifests) && (u in w'.frozen <==> u in w.frozen))
    && (forall u | u != t && u in w.manifests :: w'.manifests[u] == w.manifests[u])
    && (forall u | u != t && FreezeInFlight(s'.air, u) :: FreezeInFlight(s.air, u))
    && w'.leftovers <= w.leftovers && s.log <= s'.log && s.exposed <= s'.exposed
    && (IsCompleteRow(w, t) ==>
          && IsCompleteRow(w', t) && (t in w'.frozen ==> t in w.frozen)
          && (FreezeInFlight(s'.air, t) ==> FreezeInFlight(s.air, t)))
  }

  lemma OtherKnows(s: State, s': State, t: Target, id: nat, c: Invocation)
    requires Knows(s, id, c) && Touches(s, s', t)
    requires c.target != t || !HoldsLock(c.phase) || IsCompleteRow(s.world, t)
    ensures Knows(s', id, c)
  {
    hide FreezeInFlight;
    hide SawAbsent;
    hide SawOwned;
    hide SawInOrder;
    KnowsGrows(s, s'.log, id, c);
  }

  /** The effects on their way stay sound. */
  lemma AirKeeps(s: State, s': State)
    requires AirSound(s) && s'.nextCall == s.nextCall && s'.calls.Keys <= s.calls.Keys && s'.air == s.air
    requires s.log <= s'.log && s.exposed <= s'.exposed && s.world.nextInstance <= s'.world.nextInstance
    requires forall t | FreezeInFlight(s.air, t) && Accounted(s, t) :: Accounted(s', t)
    requires forall t | t in s.world.manifests && s.world.manifests[t].status != Prepared ::
               t in s'.world.manifests && s'.world.manifests[t].status != Prepared
    requires forall k | |s.log| <= k < |s'.log| && s'.log[k].Cancelled? && s'.log[k].clear :: !InstanceInFlight(s.air, s'.log[k].instance)
    ensures AirSound(s')
  {
    hide Accounted;
    hide SawOwned;
    forall c | c in s'.air ensures EffectSound(s', c, s'.air[c]) {
      assert EffectSound(s, c, s.air[c]);
      var e := s.air[c];
      if e.FreezeOf? || e.BeginOf? { OwnedGrows(s.log, s'.log, c, e.target, e.approved.login, e.owned); }
      if s.air[c].FreezeOf? {
        assert FreezeInFlight(s.air, s.air[c].target) && InstanceInFlight(s.air, s.air[c].instance);
      }
    }
  }

  /** An invocation changes the world under the lock, or on a complete manifest, and is still where it was. */
  lemma ChangeKeeps(s: State, s': State, call: nat)
    requires Invariant(s) && call in s.calls
    requires HoldsLock(s.calls[call].phase) || IsCompleteRow(s.world, s.calls[call].target)
    requires Touches(s, s', s.calls[call].target)
    requires s'.calls == s.calls && s'.locks == s.locks && s'.nextCall == s.nextCall
    requires WorldSound(s'.world) && FrozenSound(s') && LogSound(s'.world, s'.log) && AirSound(s')
    requires Knows(s', call, s.calls[call])
    ensures Invariant(s')
  {
    hide LogSound;
    hide WorldSound;
    hide FrozenSound;
    hide AirSound;
    hide Touches;
    hide Knows;
    var c := s.calls[call];
    forall id | id in s'.calls ensures CallSound(s', id) {
      assert CallSound(s, id) && CallSound(s, call);
      if id != call {
        OtherKnows(s, s', c.target, id, s.calls[id]);
      }
    }
  }

  /** Invocations know the world, the portal, the log and the effects on their way, not each other. */
  lemma KnowsTheSame(s: State, s': State, id: nat, c: Invocation)
    requires s'.world == s.world && s'.log == s.log && s'.air == s.air && s'.exposed == s.exposed
    ensures Knows(s', id, c) <==> Knows(s, id, c)
  {
  }

  /** An invocation moves to another phase and nothing else changes. */
  lemma MoveKeeps(s: State, call: nat, phase: Phase)
    requires Invariant(s) && call in s.calls
    requires HoldsLock(phase) <==> HoldsLock(s.calls[call].phase)
    requires FitsJob(s.calls[call].(phase := phase)) && Knows(s, call, s.calls[call].(phase := phase))
    ensures Invariant(In(s, call, phase))
  {
    hide LogSound;
    hide WorldSound;
    hide Knows;
    var s' := In(s, call, phase);
    assert AirSound(s') by { AirKeeps(s, s'); }
    forall id | id in s'.calls ensures CallSound(s', id) {
      assert CallSound(s, id);
      KnowsTheSame(s, s', id, s'.calls[id]);
    }
  }

  lemma LockKeeps(s: State, call: nat)
    requires Invariant(s) && call in s.calls && !HoldsLock(s.calls[call].phase) && TryLock(s, call).Some?
    ensures Invariant(TryLock(s, call).value)
  {
    hide LogSound;
    hide WorldSound;
    var s' := TryLock(s, call).value;
    assert Knows(s', call, s'.calls[call]);
    hide Knows;
    assert AirSound(s') by { AirKeeps(s, s'); }
    forall id | id in s'.calls ensures CallSound(s', id) {
      assert CallSound(s, id) && CallSound(s, call);
      KnowsTheSame(s, s', id, s.calls[id]);
    }
  }

  lemma EndKeeps(s: State, call: nat)
    requires Invariant(s) && call in s.calls
    ensures Invariant(End(s, call))
  {
    hide LogSound;
    hide WorldSound;
    hide Knows;
    var s' := End(s, call);
    assert AirSound(s') by { AirKeeps(s, s'); }
    forall id | id in s'.calls ensures CallSound(s', id) {
      assert CallSound(s, id) && CallSound(s, call);
      KnowsTheSame(s, s', id, s.calls[id]);
    }
  }

  /** Only the log grows. */
  lemma LoggedKeeps(s: State, e: Event)
    requires Invariant(s) && LogSound(s.world, s.log + [e])
    requires e.Cancelled? && e.clear ==> !InstanceInFlight(s.air, e.instance)
    ensures Invariant(Logged(s, e))
  {
    hide LogSound;
    hide WorldSound;
    var s' := Logged(s, e);
    assert AirSound(s') by { AirKeeps(s, s'); }
    forall id | id in s'.calls ensures CallSound(s', id) {
      assert CallSound(s, id);
      KnowsGrows(s, s'.log, id, s.calls[id]);
    }
  }

  /** A transaction rewrites the row of its own target and nobody else's. */
  ghost predicate RewritesRow(w: World, w': World, t: Target) {
    && (forall u | u != t :: (u in w'.manifests <==> u in w.manifests) && (u in w.manifests ==> w'.manifests[u] == w.manifests[u]))
    && w'.frozen == w.frozen && w'.leftovers == w.leftovers && w.nextInstance <= w'.nextInstance
    && (t in w.manifests && w.manifests[t].status != Prepared ==> t in w'.manifests && w'.manifests[t].status != Prepared)
    && (IsCompleteRow(w, t) ==> IsCompleteRow(w', t))
  }

  /** A row may give up the tenant name only once its portal is thawed for good. */
  lemma RewriteKeeps(s: State, call: nat, w': World)
    requires Invariant(s) && call in s.calls && RewritesRow(s.world, w', s.calls[call].target)
    requires HoldsLock(s.calls[call].phase) || IsCompleteRow(s.world, s.calls[call].target)
    requires WorldSound(w') && LogSound(w', s.log) && Knows(s.(world := w'), call, s.calls[call])
    requires var t := s.calls[call].target;
             ThawedForGood(s, t) || (t in s.world.manifests && HoldsName(s.world.manifests[t]) ==> t in w'.manifests && HoldsName(w'.manifests[t]))
    ensures Invariant(s.(world := w'))
  {
    hide LogSound;
    hide WorldSound;
    hide Knows;
    hide FreezeInFlight;
    var s', t := s.(world := w'), s.calls[call].target;
    forall u | u in w'.frozen ensures Accounted(s', u) {
      assert Accounted(s, u);
    }
    assert AirSound(s') by { AirKeeps(s, s'); }
    ChangeKeeps(s, s', call);
  }

  /** A portal that is thawed with no freeze on its way is exposed no more. */
  lemma UnexposeKeeps(s: State, t: Target)
    requires Invariant(s) && t !in s.world.frozen && !FreezeInFlight(s.air, t)
    ensures Invariant(s.(exposed := s.exposed - {t}))
  {
    hide LogSound;
    hide WorldSound;
    var s' := s.(exposed := s.exposed - {t});
    forall c | c in s'.air ensures EffectSound(s', c, s'.air[c]) {
      assert EffectSound(s, c, s.air[c]);
      assert s.air[c].FreezeOf? ==> s.air[c].target != t;
    }
    hide FreezeInFlight;
    forall id | id in s'.calls ensures CallSound(s', id) {
      assert CallSound(s, id);
    }
  }

  lemma ExposeKeeps(s: State, t: Target)
    requires Invariant(s)
    ensures Invariant(s.(exposed := s.exposed + {t}))
  {
    hide LogSound;
    hide WorldSound;
    hide FreezeInFlight;
    var s' := s.(exposed := s.exposed + {t});
    assert AirSound(s') by { AirKeeps(s, s'); }
    forall id | id in s'.calls ensures CallSound(s', id) {
      assert CallSound(s, id);
    }
  }
}

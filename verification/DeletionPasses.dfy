/** What each stage of a customer deletion achieves when nobody is in its way, and the whole way from a customer with
    everything to one of whom nothing is left. */
module DeletionPasses {
  import opened Wrappers
  import opened Memberships
  import opened Deletion
  import opened DeletionInvariant
  import opened DeletionSafety
  import opened DeletionConvergence
  import Text

  // ---- The store transactions ----

  /** The principal's live identities are the approved ones, the login up to case. */
  ghost predicate StillIs(current: Identity, approved: Identity) {
    current.github == approved.github && current.subject == approved.subject && Text.EqualFold(current.login, approved.login)
  }

  /** A manifest is filed exactly for an active principal with just these identities, under a free key and a GitHub id that
      no live manifest has. */
  lemma InsertExactly(w: World, t: Target, approved: Identity)
    ensures InsertManifest(w, t, approved).Some? <==>
              && t !in w.manifests && t.1 in w.principals && w.principals[t.1].active && w.principals[t.1].identity == Some(approved)
              && forall u | u in w.manifests && w.manifests[u].identity.github == approved.github ::
                   w.manifests[u].status == Complete || w.manifests[u].cancelled
    ensures InsertManifest(w, t, approved).Some? ==>
              InsertManifest(w, t, approved).value ==
                w.(manifests := w.manifests[t := Manifest(approved, Prepared, false, false, w.nextInstance)], nextInstance := w.nextInstance + 1)
  {
  }

  /** A begin is refused exactly without a manifest, on a cancelled one, without the principal, or when a prepared one's
      principal is no longer who was approved. It disables the principal and changes nothing else but the status. */
  lemma BeginExactly(w: World, t: Target)
    ensures BeginManifest(w, t).Some? <==>
              && t in w.manifests && !w.manifests[t].cancelled
              && (|| w.manifests[t].status == Complete
                  || (t.1 in w.principals && w.manifests[t].status == Deleting)
                  || (t.1 in w.principals && w.principals[t.1].identity.Some?
                      && StillIs(w.principals[t.1].identity.value, w.manifests[t].identity)))
    ensures BeginManifest(w, t).Some? ==>
              BeginManifest(w, t).value ==
                if w.manifests[t].status == Complete then w
                else w.(manifests := w.manifests[t := w.manifests[t].(status := Deleting)],
                        principals := w.principals[t.1 := w.principals[t.1].(active := false)])
  {
  }

  /** A deletion is finished exactly from deleting with its principal disabled, which goes; a complete one stays. */
  lemma FinishExactly(w: World, t: Target)
    ensures FinishManifest(w, t).Some? <==>
              && t in w.manifests
              && (|| w.manifests[t].status == Complete
                  || (w.manifests[t].status == Deleting && t.1 in w.principals && !w.principals[t.1].active))
    ensures FinishManifest(w, t).Some? ==>
              FinishManifest(w, t).value ==
                if w.manifests[t].status == Complete then w
                else w.(manifests := w.manifests[t := w.manifests[t].(status := Complete)], principals := w.principals - {t.1})
  {
  }

  /** Releasing is for complete manifests, cancelling for prepared ones, removing for cancelled ones. */
  lemma StampsExactly(w: World, t: Target)
    ensures ReleaseManifest(w, t) ==
              if t in w.manifests && w.manifests[t].status == Complete
              then Some(w.(manifests := w.manifests[t := w.manifests[t].(released := true)])) else None
    ensures CancelManifest(w, t) ==
              if t in w.manifests && w.manifests[t].status == Prepared
              then Some(w.(manifests := w.manifests[t := w.manifests[t].(cancelled := true)])) else None
    ensures DropManifest(w, t) ==
              if t in w.manifests && w.manifests[t].status == Prepared && w.manifests[t].cancelled
              then Some(w.(manifests := w.manifests - {t})) else None
  {
  }

  /** Which calls may end unknown, and what of them may still happen. */
  lemma SendsExactly(s: State, call: nat)
    requires call in s.calls
    ensures var c := s.calls[call]; var p := c.phase;
            && (Sent(s, call).Some? <==> || p.Freezing? || p.Beginning? || p.Revoking? || p.Thawing?
                                         || (p.Erasing? && p.erased < 4) || (p.Releasing? && !p.acknowledged))
            && (Sent(s, call).Some? ==>
                  && Sent(s, call).value.world == s.world && call !in Sent(s, call).value.calls && call in Sent(s, call).value.air
                  && match Sent(s, call).value.air[call]
                     case FreezeOf(t, instance, _, approved) =>
                       p.Freezing? && t == c.target && instance == p.manifest.instance && approved == p.manifest.identity
                     case BeginOf(t, first, _, _, approved) =>
                       && p.Beginning? && t == c.target && first == (p.manifest.status == Prepared)
                       && approved == p.manifest.identity
                     case ThawOf(t) => (p.Thawing? || p.Releasing?) && t == c.target
                     case EraseOf(l) =>
                       || (p.Revoking? && l == Sessions(c.target.1))
                       || (p.Erasing? && l == match p.erased
                                              case 0 => IdpUser(p.manifest.identity.subject)
                                              case 1 => SiteSessions(p.manifest.identity.github, p.manifest.identity.subject)
                                              case 2 => PortalData(c.target)
                                              case _ => Sessions(c.target.1)))
  {
  }

  /** An effect on its way happens at most once. */
  lemma LandsOnce(s: State, call: nat)
    requires call in s.air
    ensures call !in Step(s, Land(call)).value.air && call !in Step(s, Lose(call)).value.air
    ensures Step(s, Lose(call)).value.world == s.world
  {
    hide BeginManifest;
  }

  /** The tenant name is held exactly from the filing of a manifest to its recorded release. */
  lemma NamePendingExactly(w: World, tenant: string)
    ensures NamePending(w, tenant) <==>
              exists principal | (tenant, principal) in w.manifests ::
                !(w.manifests[(tenant, principal)].status == Complete && w.manifests[(tenant, principal)].released)
  {
    if t :| t in w.manifests && t.0 == tenant && HoldsName(w.manifests[t]) {
      assert (tenant, t.1) in w.manifests;
    }
  }

  /** What others may do: nothing new for a principal or subject of a manifest that is not cancelled, no second sign-up of
      a principal, no relinking of a disabled one. */
  lemma PermittedExactly(w: World, change: Change)
    ensures Permitted(w, change) <==>
              match change
              case SignUp(p, _) => p !in w.principals && forall t | t in w.manifests :: t.1 != p
              case Relink(p, _) => p in w.principals && w.principals[p].active
              case Disable(p) => p in w.principals
              case Appear(l) =>
                forall t | t in w.manifests && !w.manifests[t].cancelled ::
                  (match l
                   case IdpUser(subject) => w.manifests[t].identity.subject != subject
                   case SiteSessions(_, subject) => w.manifests[t].identity.subject != subject
                   case PortalData(u) => t.1 != u.1
                   case Sessions(p) => t.1 != p)
              case _ => true
  {
  }

  /** What others change is changed. */
  lemma ChangesExactly(w: World, change: Change)
    requires Permitted(w, change)
    ensures var w' := Changed(w, change);
            match change
            case SignUp(p, identity) => w'.principals == w.principals[p := Principal(true, identity)]
            case Relink(p, identity) => p in w'.principals && w'.principals[p].identity == identity && w'.principals[p].active
            case Disable(p) => p in w'.principals && !w'.principals[p].active && w'.principals[p].identity == w.principals[p].identity
            case Appear(l) => w'.leftovers == w.leftovers + {l}
            case Vanish(l) => w'.leftovers == w.leftovers - {l}
            case Commit(directory) => w'.directory == directory
            case Platform(platform) => w'.platform == platform
  {
  }

  // ---- Preparing ----

  /** A first preparation will find what it needs. */
  ghost predicate CanPrepare(w: World, t: Target, i: Identity) {
    && t.1 in w.principals && w.principals[t.1].active && w.principals[t.1].identity == Some(i)
    && Passes(w.directory, Customer(t.0, t.1, i.login), true) && IdpUser(i.subject) in w.leftovers
    && InsertManifest(w, t, i).Some?
  }

  /** The pass up to its filing. */
  ghost function Preparing(s: State, call: nat, i: Identity, k: nat): State
    requires call in s.calls && k <= 4
  {
    var t, n := s.calls[call].target, |s.log|;
    var held := s.(locks := s.locks[t.0 := call]);
    if k == 0 then s
    else if k == 1 then In(held, call, Locked)
    else if k == 2 then In(held, call, Approving(i))
    else if k == 3 then In(held.(log := s.log + [SawOwnership(call, t, true, i.login)]), call, Vouching(i, n))
    else In(held.(log := s.log + [SawOwnership(call, t, true, i.login), SawCustomer(call, t, i.subject)]), call, Inserting(i, n, n + 1))
  }

  lemma PreparingStep(s: State, call: nat, i: Identity, k: nat)
    requires call in s.calls && s.calls[call].job == Prepare && s.calls[call].phase == Arrived && s.calls[call].target.0 !in s.locks
    requires CanPrepare(s.world, s.calls[call].target, i) && k < 4
    ensures Proceed(Preparing(s, call, i, k), call) == Some(Preparing(s, call, i, k + 1))
  {
    hide Passes;
    hide TenantExists;
    hide Landed;
    hide Noted;
    hide BeginManifest;
    hide FinishManifest;
    hide ReleaseManifest;
    hide CancelManifest;
    hide DropManifest;
    hide FreezeInFlight;
    hide InstanceInFlight;
    hide LeftoversOf;
    hide GithubTaken;
    var at, next := Preparing(s, call, i, k), Preparing(s, call, i, k + 1);
    assert at.calls[call := next.calls[call]] == next.calls;
    assert k == 3 ==> at.log + [SawCustomer(call, s.calls[call].target, i.subject)] == next.log;
  }

  lemma {:induction false} PreparingGoes(s: State, call: nat, i: Identity, k: nat)
    requires call in s.calls && s.calls[call].job == Prepare && s.calls[call].phase == Arrived && s.calls[call].target.0 !in s.locks
    requires CanPrepare(s.world, s.calls[call].target, i) && k <= 4
    ensures Goes(s, call, k) == Some(Preparing(s, call, i, k))
  {
    hide Proceed;
    hide CanPrepare;
    if k > 0 {
      PreparingGoes(s, call, i, k - 1);
      PreparingStep(s, call, i, k - 1);
    }
  }

  lemma FilingStep(s: State, call: nat)
    requires call in s.calls && s.calls[call].phase.Inserting?
    requires InsertManifest(s.world, s.calls[call].target, s.calls[call].phase.approved).Some?
    ensures var t, i := s.calls[call].target, s.calls[call].phase.approved;
            var w' := InsertManifest(s.world, t, i).value;
            && t in w'.manifests
            && Proceed(s, call) == Some(In(s.(log := s.log + [Filed(call, t, s.world.nextInstance, i)], world := w'), call,
                                           Freezing(w'.manifests[t], s.calls[call].phase.owned)))
  {
    hide Passes;
    hide TenantExists;
    hide Landed;
    hide Noted;
    hide GithubTaken;
  }

  lemma FreezingStep(s: State, call: nat)
    requires call in s.calls && s.calls[call].phase.Freezing?
    ensures Over(s, Proceed(s, call), call, s.world.(frozen := s.world.frozen + {s.calls[call].target}), s.locks - {s.calls[call].target.0})
  {
    hide Passes;
    hide TenantExists;
  }

  /** A preparation that nobody disturbs files the manifest of the principal's identities and freezes the portal. */
  lemma PreparePassFreezes(s: State, call: nat, i: Identity)
    requires call in s.calls && s.calls[call].job == Prepare && s.calls[call].phase == Arrived && s.calls[call].target.0 !in s.locks
    requires CanPrepare(s.world, s.calls[call].target, i)
    ensures var t, w := s.calls[call].target, s.world;
            Over(s, Goes(s, call, 6), call,
                 w.(manifests := w.manifests[t := Manifest(i, Prepared, false, false, w.nextInstance)], nextInstance := w.nextInstance + 1,
                    frozen := w.frozen + {t}), s.locks)
  {
    hide Proceed;
    hide Passes;
    var t := s.calls[call].target;
    PreparingGoes(s, call, i, 4);
    InsertExactly(s.world, t, i);
    FilingStep(Preparing(s, call, i, 4), call);
    var filed := Goes(s, call, 5).value;
    FreezingStep(filed, call);
    assert Goes(s, call, 6) == Proceed(filed, call);
    assert filed.locks - {t.0} == s.locks && filed.calls - {call} == s.calls - {call};
  }

  // ---- Beginning ----

  /** A begin will find what it needs. */
  ghost predicate CanBegin(w: World, t: Target) {
    && t in w.manifests && Live(w.manifests[t]) && BeginManifest(w, t).Some?
    && Passes(w.directory, Customer(t.0, t.1, w.manifests[t].identity.login), exists k | 0 <= k < |w.directory| :: w.directory[k].name == t.0)
    && (w.manifests[t].status == Prepared ==> IdpUser(w.manifests[t].identity.subject) in w.leftovers)
  }

  ghost function Seen(s: State, call: nat): seq<Event>
    requires call in s.calls && s.calls[call].target in s.world.manifests
  {
    var t := s.calls[call].target;
    s.log + if TenantExists(s.world.directory, t.0) then [] else [SawNoTenant(call, t)]
  }

  /** The pass up to its begin transaction: k == 5 of a prepared manifest awaits the confirmation. */
  ghost function Starting(s: State, call: nat, k: nat): State
    requires call in s.calls && s.calls[call].target in s.world.manifests && k <= 6
  {
    var t := s.calls[call].target;
    var m, seen := s.world.manifests[t], Seen(s, call);
    var n, demanded := |seen|, TenantExists(s.world.directory, t.0);
    var held := s.(locks := s.locks[t.0 := call]);
    var owned := held.(log := seen + [SawOwnership(call, t, demanded, m.identity.login)]);
    if k == 0 then s
    else if k == 1 then In(s, call, Waiting)
    else if k == 2 then In(held, call, Locked)
    else if k == 3 then In(held, call, Looking(m))
    else if k == 4 then In(held.(log := seen), call, Owning(m, demanded))
    else if k == 5 then In(owned, call, if m.status == Prepared then Confirming(m, n) else Beginning(m, n, 0))
    else In(owned.(log := owned.log + [SawCustomer(call, t, m.identity.subject)]), call, Beginning(m, n, n + 1))
  }

  lemma StartingReads(s: State, call: nat, k: nat)
    requires call in s.calls && s.calls[call].job == Begin && s.calls[call].phase == Arrived && s.calls[call].target.0 !in s.locks
    requires CanBegin(s.world, s.calls[call].target) && k < 3
    ensures Proceed(Starting(s, call, k), call) == Some(Starting(s, call, k + 1))
  {
    hide Passes;
    hide Landed;
    hide Noted;
    hide BeginManifest;
    hide InsertManifest;
    hide FinishManifest;
    hide ReleaseManifest;
    hide CancelManifest;
    hide DropManifest;
    hide FreezeInFlight;
    hide InstanceInFlight;
    hide LeftoversOf;
    hide Survey;
    hide Vouch;
    hide Observe;
    var at, next := Starting(s, call, k), Starting(s, call, k + 1);
    assert at.calls[call := next.calls[call]] == next.calls;
  }

  lemma StartingSurveys(s: State, call: nat, k: nat)
    requires call in s.calls && s.calls[call].job == Begin && s.calls[call].phase == Arrived && s.calls[call].target.0 !in s.locks
    requires CanBegin(s.world, s.calls[call].target) && 3 <= k < 6
    requires k == 5 ==> s.world.manifests[s.calls[call].target].status == Prepared
    ensures Proceed(Starting(s, call, k), call) == Some(Starting(s, call, k + 1))
  {
    hide Passes;
    hide Landed;
    hide Noted;
    hide BeginManifest;
    hide InsertManifest;
    hide FinishManifest;
    hide ReleaseManifest;
    hide CancelManifest;
    hide DropManifest;
    hide FreezeInFlight;
    hide InstanceInFlight;
    hide LeftoversOf;
    hide LockedRead;
    hide FirstRead;
    hide Vouch;
    hide Observe;
    var at, next := Starting(s, call, k), Starting(s, call, k + 1);
    assert at.calls[call := next.calls[call]] == next.calls;
    assert k == 3 ==> s.log + [] == s.log;
  }

  lemma StartingStep(s: State, call: nat, k: nat)
    requires call in s.calls && s.calls[call].job == Begin && s.calls[call].phase == Arrived && s.calls[call].target.0 !in s.locks
    requires CanBegin(s.world, s.calls[call].target) && k < 6
    requires k == 5 ==> s.world.manifests[s.calls[call].target].status == Prepared
    ensures Proceed(Starting(s, call, k), call) == Some(Starting(s, call, k + 1))
  {
    hide Proceed;
    hide Starting;
    hide CanBegin;
    if k < 3 { StartingReads(s, call, k); } else { StartingSurveys(s, call, k); }
  }

  lemma {:induction false} StartingGoes(s: State, call: nat, k: nat)
    requires call in s.calls && s.calls[call].job == Begin && s.calls[call].phase == Arrived && s.calls[call].target.0 !in s.locks
    requires CanBegin(s.world, s.calls[call].target) && k <= 6
    requires k == 6 ==> s.world.manifests[s.calls[call].target].status == Prepared
    ensures Goes(s, call, k) == Some(Starting(s, call, k))
  {
    hide Proceed;
    hide Seen;
    hide BeginManifest;
    hide Passes;
    if k > 0 {
      StartingGoes(s, call, k - 1);
      StartingStep(s, call, k - 1);
    }
  }

  lemma BeginningStep(s: State, call: nat)
    requires call in s.calls && s.calls[call].phase.Beginning? && BeginManifest(s.world, s.calls[call].target).Some?
    requires s.world.manifests[s.calls[call].target].status != Complete
    ensures At(s, Proceed(s, call), call, Revoking, BeginManifest(s.world, s.calls[call].target).value, s.locks)
  {
    hide Passes;
    hide TenantExists;
    hide SameIdentity;
  }

  lemma RevokingStep(s: State, call: nat)
    requires call in s.calls && s.calls[call].phase.Revoking?
    ensures Over(s, Proceed(s, call), call, s.world.(leftovers := s.world.leftovers - {Sessions(s.calls[call].target.1)}),
                 s.locks - {s.calls[call].target.0})
  {
    hide Passes;
    hide TenantExists;
  }

  /** A begin that nobody disturbs moves the manifest to deleting, disables the principal and revokes the sessions; with the
      tenant gone, too, when it is a retry. */
  lemma BeginPassBegins(s: State, call: nat)
    requires call in s.calls && s.calls[call].job == Begin && s.calls[call].phase == Arrived && s.calls[call].target.0 !in s.locks
    requires CanBegin(s.world, s.calls[call].target)
    ensures var t, w := s.calls[call].target, s.world; var m := w.manifests[t];
            && t.1 in w.principals
            && Over(s, Goes(s, call, if m.status == Prepared then 8 else 7), call,
                    w.(manifests := w.manifests[t := m.(status := Deleting)], principals := w.principals[t.1 := w.principals[t.1].(active := false)],
                       leftovers := w.leftovers - {Sessions(t.1)}), s.locks)
  {
    hide Proceed;
    hide Passes;
    var t := s.calls[call].target;
    var k := if s.world.manifests[t].status == Prepared then 6 else 5;
    StartingGoes(s, call, k);
    BeginExactly(s.world, t);
    var start := Starting(s, call, k);
    BeginningStep(start, call);
    var begun := Goes(s, call, k + 1).value;
    RevokingStep(begun, call);
    assert Goes(s, call, k + 2) == Proceed(begun, call);
    assert begun.locks - {t.0} == s.locks && begun.calls - {call} == s.calls - {call};
  }

  // ---- Cancelling ----

  /** The cancellation's states, once it holds the lock. */
  lemma CancellingSteps(s: State, call: nat)
    requires call in s.calls && s.calls[call].job == Cancel && s.calls[call].phase == Arrived && s.calls[call].target.0 !in s.locks
    requires s.calls[call].target in s.world.manifests && s.world.manifests[s.calls[call].target].status == Prepared
    ensures var t := s.calls[call].target;
            var held := s.(locks := s.locks[t.0 := call]);
            Goes(s, call, 2) == Some(In(held, call, Stamping))
  {
    hide Passes;
    hide TenantExists;
    hide Landed;
    hide Noted;
    hide InsertManifest;
    hide BeginManifest;
    hide FinishManifest;
    hide ReleaseManifest;
    hide CancelManifest;
    hide DropManifest;
    hide FreezeInFlight;
    hide InstanceInFlight;
    hide LeftoversOf;
    hide Survey;
    hide Vouch;
    hide Observe;
    var t := s.calls[call].target;
    var held := s.(locks := s.locks[t.0 := call]);
    assert Goes(s, call, 0) == Some(s) && Goes(s, call, 1) == Some(In(held, call, Locked));
    assert In(held, call, Locked).calls[call := s.calls[call].(phase := Stamping)] == In(held, call, Stamping).calls;
  }

  lemma StampingStep(s: State, call: nat)
    requires call in s.calls && s.calls[call].phase.Stamping? && CancelManifest(s.world, s.calls[call].target).Some?
    ensures At(s, Proceed(s, call), call, Thawing, CancelManifest(s.world, s.calls[call].target).value, s.locks)
  {
    hide Passes;
    hide TenantExists;
    hide InstanceInFlight;
    hide FreezeInFlight;
  }

  lemma ThawingStep(s: State, call: nat)
    requires call in s.calls && s.calls[call].phase.Thawing?
    ensures At(s, Proceed(s, call), call, Dropping, s.world.(frozen := s.world.frozen - {s.calls[call].target}), s.locks)
  {
    hide Passes;
    hide TenantExists;
    hide InstanceInFlight;
    hide FreezeInFlight;
  }

  lemma DroppingStep(s: State, call: nat)
    requires call in s.calls && s.calls[call].phase.Dropping? && DropManifest(s.world, s.calls[call].target).Some?
    ensures Over(s, Proceed(s, call), call, DropManifest(s.world, s.calls[call].target).value, s.locks - {s.calls[call].target.0})
  {
    hide Passes;
    hide TenantExists;
    hide InstanceInFlight;
    hide FreezeInFlight;
  }

  /** A cancellation that nobody disturbs thaws the portal and removes the manifest, and nothing else. */
  lemma CancelPassRemoves(s: State, call: nat)
    requires call in s.calls && s.calls[call].job == Cancel && s.calls[call].phase == Arrived && s.calls[call].target.0 !in s.locks
    requires s.calls[call].target in s.world.manifests && s.world.manifests[s.calls[call].target].status == Prepared
    ensures var t, w := s.calls[call].target, s.world;
            Over(s, Goes(s, call, 5), call, w.(manifests := w.manifests - {t}, frozen := w.frozen - {t}), s.locks)
  {
    hide Proceed;
    var t, w := s.calls[call].target, s.world;
    CancellingSteps(s, call);
    var s2 := Goes(s, call, 2).value;
    StampingStep(s2, call);
    var s3 := Goes(s, call, 3).value;
    ThawingStep(s3, call);
    var s4 := Goes(s, call, 4).value;
    DroppingStep(s4, call);
    assert Goes(s, call, 5) == Proceed(s4, call);
    assert s4.world.manifests - {t} == w.manifests - {t};
    assert s4.locks - {t.0} == s.locks && s4.calls - {call} == s.calls - {call};
  }

  /** So a preparation that is cancelled leaves the world as it found it, but for the number of the next manifest. */
  lemma CancelUndoesPrepare(s: State, call: nat, i: Identity)
    requires call in s.calls && s.calls[call].job == Prepare && s.calls[call].phase == Arrived && s.calls[call].target.0 !in s.locks
    requires CanPrepare(s.world, s.calls[call].target, i) && s.calls[call].target !in s.world.frozen && s.nextCall !in s.calls
    ensures Goes(s, call, 6).Some?
    ensures var t, mid := s.calls[call].target, Goes(s, call, 6).value;
            var arrived := Step(mid, Arrive(Cancel, t)).value;
            Over(arrived, Goes(arrived, s.nextCall, 5), s.nextCall, s.world.(nextInstance := s.world.nextInstance + 1), s.locks)
  {
    hide Goes;
    hide CanPrepare;
    PreparePassFreezes(s, call, i);
    var t, mid := s.calls[call].target, Goes(s, call, 6).value;
    var arrived := Step(mid, Arrive(Cancel, t)).value;
    CancelPassRemoves(arrived, s.nextCall);
    KeyWasFree(s.world, t, i);
    assert arrived.world.manifests - {t} == s.world.manifests && arrived.world.frozen - {t} == s.world.frozen;
  }

  lemma KeyWasFree(w: World, t: Target, i: Identity)
    requires CanPrepare(w, t, i)
    ensures t !in w.manifests
  {
    hide Passes;
    InsertExactly(w, t, i);
  }

  // ---- The whole way ----

  function Gos(call: nat, n: nat): seq<Action> {
    seq(n, _ => Go(call))
  }

  lemma {:induction false} GoesIsRun(s: State, call: nat, n: nat)
    requires Goes(s, call, n).Some?
    ensures Run(s, Gos(call, n)) == Goes(s, call, n)
  {
    hide Proceed;
    if n > 0 {
      GoesIsRun(s, call, n - 1);
      assert Gos(call, n)[..n - 1] == Gos(call, n - 1);
    }
  }

  lemma {:induction false} RunOn(s: State, first: seq<Action>, then': seq<Action>)
    requires Run(s, first).Some?
    ensures Run(s, first + then') == Run(Run(s, first).value, then')
  {
    hide Step;
    if then' == [] {
      assert first + then' == first;
    } else {
      var n := |then'| - 1;
      RunOn(s, first, then'[..n]);
      assert (first + then')[..|first| + n] == first + then'[..n];
    }
  }

  /** An invocation arrives and goes through its n calls. */
  lemma PassRuns(s: State, job: Job, t: Target, n: nat) returns (actions: seq<Action>)
    requires Goes(Step(s, Arrive(job, t)).value, s.nextCall, n).Some?
    ensures Run(s, actions) == Goes(Step(s, Arrive(job, t)).value, s.nextCall, n)
  {
    hide Goes;
    var arrived := Step(s, Arrive(job, t)).value;
    GoesIsRun(arrived, s.nextCall, n);
    actions := [Arrive(job, t)] + Gos(s.nextCall, n);
    assert [Arrive(job, t)][..0] == [];
    assert Run(s, [Arrive(job, t)]) == Some(arrived);
    RunOn(s, [Arrive(job, t)], Gos(s.nextCall, n));
  }

  /** Nobody is at work. */
  ghost predicate Idle(s: State) {
    s.calls == map[] && s.locks == map[]
  }

  /** The manifest as filed, the principal disabled, the sessions gone, the portal frozen. */
  ghost function BegunFrom(w: World, t: Target, i: Identity): World
    requires t.1 in w.principals
  {
    w.(manifests := w.manifests[t := Manifest(i, Deleting, false, false, w.nextInstance)], nextInstance := w.nextInstance + 1,
       frozen := w.frozen + {t}, principals := w.principals[t.1 := w.principals[t.1].(active := false)],
       leftovers := w.leftovers - {Sessions(t.1)})
  }

  lemma OwnedTenantExists(directory: seq<Tenant>, c: Customer)
    requires Passes(directory, c, true)
    ensures exists k | 0 <= k < |directory| :: directory[k].name == c.tenant
  {
    PassWithOwnerMeansExclusive(directory, c);
    var k :| 0 <= k < |directory| && IsExclusive(directory[k], c);
    assert directory[k].name == c.tenant;
  }

  /** Prepare and begin. */
  lemma BeginsFromIdle(s: State, t: Target, i: Identity) returns (actions: seq<Action>)
    requires Idle(s) && CanPrepare(s.world, t, i)
    ensures Run(s, actions).Some? && Idle(Run(s, actions).value)
    ensures t.1 in s.world.principals && Run(s, actions).value.world == BegunFrom(s.world, t, i)
  {
    hide Goes;
    hide Run;
    hide Passes;
    var w, arrived := s.world, Step(s, Arrive(Prepare, t)).value;
    PreparePassFreezes(arrived, s.nextCall, i);
    var first := PassRuns(s, Prepare, t, 6);
    var mid := Run(s, first).value;
    assert arrived.calls - {s.nextCall} == map[];
    FiledCanBegin(w, t, i);
    BeginPassBegins(Step(mid, Arrive(Begin, t)).value, mid.nextCall);
    var second := PassRuns(mid, Begin, t, 8);
    var end := Run(mid, second).value;
    assert Step(mid, Arrive(Begin, t)).value.calls - {mid.nextCall} == map[];
    RunOn(s, first, second);
    actions := first + second;
    assert end.world.manifests == BegunFrom(w, t, i).manifests;
  }

  lemma FiledCanBegin(w: World, t: Target, i: Identity)
    requires CanPrepare(w, t, i)
    ensures CanBegin(w.(manifests := w.manifests[t := Manifest(i, Prepared, false, false, w.nextInstance)],
                        nextInstance := w.nextInstance + 1, frozen := w.frozen + {t}), t)
  {
    hide Passes;
    var w' := w.(manifests := w.manifests[t := Manifest(i, Prepared, false, false, w.nextInstance)],
                 nextInstance := w.nextInstance + 1, frozen := w.frozen + {t});
    OwnedTenantExists(w.directory, Customer(t.0, t.1, i.login));
    assert StillIs(i, i);
    BeginExactly(w', t);
  }

  /** For every customer whose deletion can be prepared there is a run, through prepare, begin, the removal of the tenant
      and complete, after which nothing of the customer is left and nothing else has changed. */
  lemma DeletionCanBeDone(s: State, t: Target, i: Identity, directory: seq<Tenant>, platform: set<string>) returns (actions: seq<Action>)
    requires Invariant(s) && Idle(s) && CanPrepare(s.world, t, i)
    requires Passes(directory, Customer(t.0, t.1, i.login), false) && t.0 !in platform
    requires forall k | 0 <= k < |directory| :: directory[k].name != t.0
    ensures Run(s, actions).Some? && Idle(Run(s, actions).value)
    ensures var w, end := s.world, Run(s, actions).value.world;
            && end.manifests == w.manifests[t := Manifest(i, Complete, false, true, w.nextInstance)]
            && end.principals == w.principals - {t.1} && end.frozen == w.frozen - {t}
            && end.leftovers == w.leftovers - {IdpUser(i.subject), SiteSessions(i.github, i.subject), PortalData(t), Sessions(t.1)}
            && end.directory == directory && end.platform == platform
  {
    hide Goes;
    hide Run;
    hide Passes;
    hide CanPrepare;
    hide Invariant;
    var first := BeginsFromIdle(s, t, i);
    var mid := Run(s, first).value;
    var second := TenantGoes(mid, directory, platform);
    var gone := Run(mid, second).value;
    RunOn(s, first, second);
    RunIsSafe(s, first + second);
    RowsAreSound(gone, t);
    var arrived := Step(gone, Arrive(Finish, t)).value;
    DeletingPassReleases(arrived, gone.nextCall);
    var third := PassRuns(gone, Finish, t, 13);
    assert arrived.calls - {gone.nextCall} == map[];
    RunOn(s, first + second, third);
    actions := first + second + third;
    var end := Run(s, actions).value.world;
    assert end.principals == s.world.principals - {t.1} && end.frozen == s.world.frozen - {t};
  }

  /** The GitOps repository and the platform lose the tenant. */
  lemma TenantGoes(s: State, directory: seq<Tenant>, platform: set<string>) returns (actions: seq<Action>)
    ensures Run(s, actions) == Some(s.(world := s.world.(directory := directory, platform := platform)))
  {
    actions := [Other(Commit(directory)), Other(Platform(platform))];
    assert actions[..1] == [Other(Commit(directory))] && actions[..1][..0] == [];
    assert Run(s, actions[..1]) == Some(s.(world := s.world.(directory := directory)));
  }
}

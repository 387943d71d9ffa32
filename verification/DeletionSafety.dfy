/** Every action of the customer-deletion saga keeps the invariant, and what that means for whole runs. */
module DeletionSafety {
  import opened Wrappers
  import opened Memberships
  import opened Deletion
  import opened DeletionInvariant

  // ---- Effects, when they happen ----

  /** Nobody counts on the target's portal staying thawed. */
  ghost predicate NobodyReliesOnThaw(s: State, t: Target) {
    forall id | id in s.calls && s.calls[id].target == t ::
      (s.calls[id].phase.Dropping? || (s.calls[id].phase.Releasing? && s.calls[id].phase.acknowledged)) ==> t in s.exposed
  }

  lemma FreezeKeeps(s: State, call: nat, e: Effect)
    requires Invariant(s) && e.FreezeOf? && EffectSound(s, call, e) && NobodyReliesOnThaw(s, e.target)
    ensures Invariant(Landed(s, call, e))
  {
    hide LogSound;
    hide WorldSound;
    var act := Froze(call, e.target, e.instance, e.approved);
    assert Vouched(s.log, act, e.owned, 0);
    ActLogged(s.world, s.log, act, e.owned, 0);
    LoggedKeeps(s, act);
    var mid, s' := Logged(s, act), Landed(s, call, e);
    OutsideKeeps(mid.world, s'.world);
    LogKeeps(mid.world, s'.world, mid.log);
    assert AirSound(s') by { AirKeeps(mid, s'); }
    forall id | id in s'.calls ensures CallSound(s', id) {
      assert CallSound(mid, id);
    }
  }

  lemma ThawKeeps(s: State, call: nat, t: Target)
    requires Invariant(s)
    ensures Invariant(Landed(s, call, ThawOf(t)))
  {
    hide LogSound;
    hide WorldSound;
    var s' := Landed(s, call, ThawOf(t));
    OutsideKeeps(s.world, s'.world);
    LogKeeps(s.world, s'.world, s.log);
    assert AirSound(s') by { AirKeeps(s, s'); }
    forall id | id in s'.calls ensures CallSound(s', id) {
      assert CallSound(s, id);
    }
  }

  lemma EraseKeeps(s: State, call: nat, l: Leftover)
    requires Invariant(s)
    ensures Invariant(Landed(s, call, EraseOf(l)))
  {
    hide LogSound;
    hide WorldSound;
    var s' := Landed(s, call, EraseOf(l));
    OutsideKeeps(s.world, s'.world);
    LogKeeps(s.world, s'.world, s.log);
    assert AirSound(s') by { AirKeeps(s, s'); }
    forall id | id in s'.calls ensures CallSound(s', id) {
      assert CallSound(s, id);
    }
  }

  /** A begin moves a live row on under whatever anybody knows about it. */
  lemma BeginKnows(s: State, s': State, t: Target, id: nat, c: Invocation)
    requires Knows(s, id, c) && BeginManifest(s.world, t).Some? && WorldSound(s.world)
    requires s'.world == BeginManifest(s.world, t).value && s'.log == s.log && s'.air == s.air && s'.exposed == s.exposed
    ensures Knows(s', id, c)
  {
    hide FreezeInFlight;
    hide SawInOrder;
    assert t in s.world.manifests && RowSound(s.world, t);
  }

  lemma BeginEffectKeeps(s: State, call: nat, e: Effect)
    requires Invariant(s) && e.BeginOf? && EffectSound(s, call, e)
    ensures Invariant(Landed(s, call, e))
  {
    var t, w := e.target, s.world;
    if BeginManifest(w, t).Some? && w.manifests[t].status != Complete {
      hide LogSound;
      var act := Began(call, t, w.manifests[t].instance, w.manifests[t].status == Prepared, e.approved);
      assert Vouched(s.log, act, e.owned, e.confirmed);
      ActLogged(w, s.log, act, e.owned, e.confirmed);
      LoggedKeeps(s, act);
      BegunWorldKeeps(Logged(s, act), t);
    }
  }

  lemma BegunWorldKeeps(s: State, t: Target)
    requires Invariant(s) && BeginManifest(s.world, t).Some?
    ensures Invariant(s.(world := BeginManifest(s.world, t).value))
  {
    hide LogSound;
    var w' := BeginManifest(s.world, t).value;
    var s' := s.(world := w');
    BeginKeeps(s.world, t);
    LogKeeps(s.world, w', s.log);
    assert FrozenSound(s');
    assert AirSound(s') by { AirKeeps(s, s'); }
    forall id | id in s'.calls ensures CallSound(s', id) {
      assert CallSound(s, id);
      BeginKnows(s, s', t, id, s.calls[id]);
    }
  }

  lemma LandedKeeps(s: State, call: nat, e: Effect)
    requires Invariant(s) && EffectSound(s, call, e) && (e.FreezeOf? ==> NobodyReliesOnThaw(s, e.target))
    ensures Invariant(Landed(s, call, e))
  {
    hide Invariant;
    match e
    case FreezeOf(_, _, _, _) => FreezeKeeps(s, call, e);
    case ThawOf(t) => ThawKeeps(s, call, t);
    case EraseOf(l) => EraseKeeps(s, call, l);
    case BeginOf(_, _, _, _, _) => BeginEffectKeeps(s, call, e);
  }

  /** The effect of the call an invocation is about to make is sound. */
  lemma OwnEffectIsSound(s: State, call: nat)
    requires Invariant(s) && call in s.calls && EffectOf(s.calls[call]).Some?
    ensures EffectSound(s, call, EffectOf(s.calls[call]).value)
    ensures s.calls[call].phase.Freezing? ==> NobodyReliesOnThaw(s, s.calls[call].target)
  {
    hide ErasuresJustified;
    hide ActsJustified;
    hide NothingAfterCancel;
    var c := s.calls[call];
    assert CallSound(s, call);
    if c.phase.Freezing? {
      assert RowSound(s.world, c.target);
      forall id | id in s.calls && s.calls[id].target == c.target
        ensures (s.calls[id].phase.Dropping? || (s.calls[id].phase.Releasing? && s.calls[id].phase.acknowledged)) ==> c.target in s.exposed
      {
        assert CallSound(s, id);
      }
    }
  }

  lemma LoseKeeps(s: State, call: nat)
    requires Invariant(s) && call in s.air
    ensures Invariant(s.(air := s.air - {call}))
  {
    hide LogSound;
    hide WorldSound;
    var s' := s.(air := s.air - {call});
    forall id | id in s'.calls ensures CallSound(s', id) {
      assert CallSound(s, id);
    }
  }

  lemma LandingEffectIsSound(s: State, call: nat)
    requires Invariant(s) && call in s.air
    ensures EffectSound(s.(air := s.air - {call}), call, s.air[call])
    ensures s.air[call].FreezeOf? ==> NobodyReliesOnThaw(s.(air := s.air - {call}), s.air[call].target)
  {
    hide LogSound;
    hide WorldSound;
    var e := s.air[call];
    assert EffectSound(s, call, e);
    if e.FreezeOf? {
      assert FreezeInFlight(s.air, e.target);
      forall id | id in s.calls && s.calls[id].target == e.target
        ensures (s.calls[id].phase.Dropping? || (s.calls[id].phase.Releasing? && s.calls[id].phase.acknowledged)) ==> e.target in s.exposed
      {
        assert CallSound(s, id);
      }
    }
  }

  lemma LandKeeps(s: State, call: nat)
    requires Invariant(s) && call in s.air
    ensures Invariant(Step(s, Land(call)).value)
  {
    hide Invariant;
    var mid, e := s.(air := s.air - {call}), s.air[call];
    LoseKeeps(s, call);
    LandingEffectIsSound(s, call);
    LandedKeeps(mid, call, e);
  }

  /** The call to the identity provider is justified when it is noted. */
  lemma NotedKeeps(s: State, call: nat)
    requires Invariant(s) && call in s.calls
    ensures Invariant(Noted(s, call))
  {
    hide LogSound;
    var c := s.calls[call];
    if c.phase.Erasing? && c.phase.erased == 0 {
      assert CallSound(s, call) && RowSound(s.world, c.target);
      var e := ErasedIdp(call, c.target, ManifestOf(s.world, c.target), HolderOf(s, c.target.0));
      ErasureLogged(s.world, s.log, e, c.phase.saw);
      LoggedKeeps(s, e);
    }
  }

  /** An ended call's effect joins those on their way. */
  lemma LaunchKeeps(s: State, call: nat, e: Effect)
    requires Invariant(s) && call !in s.calls && call < s.nextCall && EffectSound(s, call, e)
    requires e.FreezeOf? ==> NobodyReliesOnThaw(s, e.target)
    ensures Invariant(s.(air := s.air[call := e]))
  {
    hide LogSound;
    hide WorldSound;
    var s' := s.(air := s.air[call := e]);
    assert forall t | FreezeInFlight(s'.air, t) :: FreezeInFlight(s.air, t) || (e.FreezeOf? && e.target == t);
    forall c | c in s'.air ensures EffectSound(s', c, s'.air[c]) {
      assert c != call ==> EffectSound(s, c, s.air[c]);
    }
    forall id | id in s'.calls ensures CallSound(s', id) {
      assert CallSound(s, id);
    }
  }

  lemma SendKeeps(s: State, call: nat)
    requires Invariant(s) && call in s.calls && Sent(s, call).Some?
    ensures Invariant(Sent(s, call).value)
  {
    var e := EffectOf(s.calls[call]).value;
    var noted := Noted(s, call);
    NotedKeeps(s, call);
    OwnEffectIsSound(noted, call);
    var ended := End(noted, call);
    EndKeeps(noted, call);
    assert CallSound(s, call);
    hide Invariant;
    assert e.FreezeOf? ==> NobodyReliesOnThaw(ended, e.target);
    LaunchKeeps(ended, call, e);
  }

  // ---- Reads and checks ----

  lemma ReadKeeps(s: State, call: nat)
    requires Invariant(s) && call in s.calls && s.calls[call].phase == Arrived && s.calls[call].job != Cancel
    requires FirstRead(s, call).Some?
    ensures Invariant(FirstRead(s, call).value)
  {
    hide LogSound;
    hide WorldSound;
    MoveKeeps(s, call, FirstRead(s, call).value.calls[call].phase);
  }

  lemma LockedReadKeeps(s: State, call: nat)
    requires Invariant(s) && call in s.calls && s.calls[call].phase == Locked && LockedRead(s, call).Some?
    ensures Invariant(LockedRead(s, call).value)
  {
    hide LogSound;
    var t := s.calls[call].target;
    assert t in s.world.manifests ==> RowSound(s.world, t);
    MoveKeeps(s, call, LockedRead(s, call).value.calls[call].phase);
  }

  /** An invocation notes an observation and goes on. */
  lemma SeeKeeps(s: State, call: nat, e: Event, phase: Phase)
    requires Invariant(s) && call in s.calls && !IsAct(e) && !e.Cancelled? && !e.ErasedIdp?
    requires HoldsLock(phase) <==> HoldsLock(s.calls[call].phase)
    requires FitsJob(s.calls[call].(phase := phase)) && Knows(Logged(s, e), call, s.calls[call].(phase := phase))
    ensures Invariant(In(Logged(s, e), call, phase))
  {
    hide Invariant;
    hide LogSound;
    hide Knows;
    hide FitsJob;
    Facts(s, call);
    ObservationLogged(s.world, s.log, e);
    LoggedKeeps(s, e);
    MoveKeeps(Logged(s, e), call, phase);
  }

  lemma SurveyKeeps(s: State, call: nat)
    requires Invariant(s) && call in s.calls && Survey.requires(s, call) && Survey(s, call).Some?
    ensures Invariant(Survey(s, call).value)
  {
    hide Invariant;
    hide LogSound;
    hide WorldSound;
    hide Passes;
    hide TenantExists;
    var c, s' := s.calls[call], Survey(s, call).value;
    Facts(s, call);
    if c.phase.Looking? && s'.log == s.log {
      MoveKeeps(s, call, s'.calls[call].phase);
    } else {
      hide SawAbsent;
      KnowsGrows(s, s'.log, call, c);
      if c.phase.Looking? {
        JustSawAbsent(s.log, call, c.target);
      } else if c.phase.Owning? && !c.phase.demanded {
        AbsentGrows(s.log, s'.log, call, c.target, |s.log|, |s.log|);
      }
      SeeKeeps(s, call, s'.log[|s.log|], s'.calls[call].phase);
    }
  }

  lemma JustSawAbsent(log: seq<Event>, call: nat, t: Target)
    ensures SawAbsent(log + [SawNoTenant(call, t)], call, t, |log| + 1)
  {
    assert (log + [SawNoTenant(call, t)])[|log|] == SawNoTenant(call, t);
  }

  lemma VouchKeeps(s: State, call: nat)
    requires Invariant(s) && call in s.calls && (s.calls[call].phase.Approving? || s.calls[call].phase.Vouching?) && Vouch(s, call).Some?
    ensures Invariant(Vouch(s, call).value)
  {
    hide Invariant;
    hide LogSound;
    hide WorldSound;
    hide Passes;
    var s' := Vouch(s, call).value;
    Facts(s, call);
    KnowsGrows(s, s'.log, call, s.calls[call]);
    SeeKeeps(s, call, s'.log[|s.log|], s'.calls[call].phase);
  }

  lemma SawOneMore(log: seq<Event>, call: nat, t: Target, login: string, saw: seq<nat>)
    requires SawInOrder(log, call, t, login, saw)
    ensures SawInOrder(log + [Observation(|saw|, call, t, login)], call, t, login, saw + [|log|])
  {
  }

  lemma ObserveKeeps(s: State, call: nat)
    requires Invariant(s) && call in s.calls && s.calls[call].phase.Checking? && Observe(s, call).Some?
    ensures Invariant(Observe(s, call).value)
  {
    hide Invariant;
    hide LogSound;
    hide WorldSound;
    hide Passes;
    hide TenantExists;
    hide SawInOrder;
    var c, s' := s.calls[call], Observe(s, call).value;
    Facts(s, call);
    var login := c.phase.manifest.identity.login;
    SawOneMore(s.log, call, c.target, login, c.phase.saw);
    SeeKeeps(s, call, Observation(|c.phase.saw|, call, c.target, login), s'.calls[call].phase);
  }

  // ---- Changes ----

  lemma InsertStepKeeps(s: State, call: nat)
    requires Invariant(s) && call in s.calls && s.calls[call].phase.Inserting?
    requires InsertManifest(s.world, s.calls[call].target, s.calls[call].phase.approved).Some?
    ensures var t, w' := s.calls[call].target, InsertManifest(s.world, s.calls[call].target, s.calls[call].phase.approved).value;
            var filed := Filed(call, t, s.world.nextInstance, s.calls[call].phase.approved);
            Invariant(In(Logged(s, filed).(world := w'), call, Freezing(w'.manifests[t], s.calls[call].phase.owned)))
  {
    hide Invariant;
    hide LogSound;
    hide WorldSound;
    hide FreezeInFlight;
    var c := s.calls[call];
    var t, w := c.target, s.world;
    var w' := InsertManifest(w, t, c.phase.approved).value;
    var act := Filed(call, t, w.nextInstance, c.phase.approved);
    Facts(s, call);
    assert Vouched(s.log, act, c.phase.owned, c.phase.confirmed);
    ActLogged(w, s.log, act, c.phase.owned, c.phase.confirmed);
    LoggedKeeps(s, act);
    var mid := Logged(s, act);
    KnowsGrows(s, mid.log, call, c);
    InsertKeeps(w, t, c.phase.approved);
    LogKeeps(w, w', mid.log);
    RewriteKeeps(mid, call, w');
    MoveKeeps(mid.(world := w'), call, Freezing(w'.manifests[t], c.phase.owned));
  }

  /** The call whose effect happens at once. */
  lemma EffectStepKeeps(s: State, call: nat)
    requires Invariant(s) && call in s.calls && EffectOf(s.calls[call]).Some?
    ensures Invariant(Landed(s, call, EffectOf(s.calls[call]).value))
  {
    hide Invariant;
    OwnEffectIsSound(s, call);
    LandedKeeps(s, call, EffectOf(s.calls[call]).value);
  }

  lemma FreezeStepKeeps(s: State, call: nat)
    requires Invariant(s) && call in s.calls && (s.calls[call].phase.Freezing? || s.calls[call].phase.Revoking?)
    ensures Invariant(End(Landed(s, call, EffectOf(s.calls[call]).value), call))
  {
    hide Invariant;
    EffectStepKeeps(s, call);
    EndKeeps(Landed(s, call, EffectOf(s.calls[call]).value), call);
  }

  lemma BeginStepKeeps(s: State, call: nat)
    requires Invariant(s) && call in s.calls && s.calls[call].phase.Beginning?
    ensures Invariant(In(Landed(s, call, EffectOf(s.calls[call]).value), call, Revoking))
  {
    hide Invariant;
    hide BeginManifest;
    EffectStepKeeps(s, call);
    Facts(s, call);
    MoveKeeps(Landed(s, call, EffectOf(s.calls[call]).value), call, Revoking);
  }

  lemma EraseStepKeeps(s: State, call: nat)
    requires Invariant(s) && call in s.calls && s.calls[call].phase.Erasing? && s.calls[call].phase.erased < 4
    ensures var c := s.calls[call];
            Invariant(In(Landed(Noted(s, call), call, EffectOf(c).value), call, c.phase.(erased := c.phase.erased + 1)))
  {
    hide Invariant;
    hide LogSound;
    hide WorldSound;
    hide SawInOrder;
    var c, noted := s.calls[call], Noted(s, call);
    NotedKeeps(s, call);
    EffectStepKeeps(noted, call);
    var landed := Landed(noted, call, EffectOf(c).value);
    Facts(landed, call);
    MoveKeeps(landed, call, c.phase.(erased := c.phase.erased + 1));
  }

  lemma FinishRewrites(w: World, t: Target, log: seq<Event>)
    requires WorldSound(w) && LogSound(w, log) && t in w.manifests && w.manifests[t].status == Deleting
    requires Erased(w, t, w.manifests[t].identity, 4) && FinishManifest(w, t).Some?
    ensures var w' := FinishManifest(w, t).value;
            WorldSound(w') && LogSound(w', log) && RewritesRow(w, w', t) && IsCompleteRow(w', t) && HoldsName(w'.manifests[t])
  {
    hide LogSound;
    assert RowSound(w, t);
    hide WorldSound;
    FinishKeeps(w, t);
    LogKeeps(w, FinishManifest(w, t).value, log);
  }

  lemma FinishStepKeeps(s: State, call: nat)
    requires Invariant(s) && call in s.calls && s.calls[call].phase.Erasing? && s.calls[call].phase.erased == 4
    requires FinishManifest(s.world, s.calls[call].target).Some?
    ensures Invariant(In(s.(world := FinishManifest(s.world, s.calls[call].target).value), call, Releasing(false, true)))
  {
    hide Invariant;
    hide LogSound;
    hide WorldSound;
    hide FinishManifest;
    hide RewritesRow;
    hide FreezeInFlight;
    hide SawInOrder;
    var c, at := s.calls[call], In(s, call, Locked);
    Facts(s, call);
    FinishRewrites(s.world, c.target, s.log);
    var w' := FinishManifest(s.world, c.target).value;
    StandBackKeeps(s, call);
    RewriteKeeps(at, call, w');
    MoveKeeps(at.(world := w'), call, Releasing(false, true));
    assert In(at.(world := w'), call, Releasing(false, true)) == In(s.(world := w'), call, Releasing(false, true));
  }

  /** An invocation under the lock that forgets what it knows. */
  lemma StandBackKeeps(s: State, call: nat)
    requires Invariant(s) && call in s.calls && HoldsLock(s.calls[call].phase)
    ensures Invariant(In(s, call, Locked))
  {
    hide Invariant;
    MoveKeeps(s, call, Locked);
  }

  /** An acknowledged thaw. */
  lemma ThawedKeeps(s: State, t: Target)
    requires Invariant(s)
    ensures Invariant(Thawed(s, t)) && ThawedForGood(Thawed(s, t), t)
  {
    hide Invariant;
    var s1 := Landed(s, 0, ThawOf(t));
    ThawKeeps(s, 0, t);
    if FreezeInFlight(s.air, t) { ExposeKeeps(s1, t); } else { UnexposeKeeps(s1, t); }
  }

  /** It is of a cancelled or of a complete manifest. */
  lemma ThawStepKeeps(s: State, call: nat, phase: Phase)
    requires Invariant(s) && call in s.calls
    requires || (s.calls[call].phase.Thawing? && phase == Dropping)
             || (s.calls[call].phase.Releasing? && phase == Releasing(true, s.calls[call].phase.locked))
    ensures Invariant(In(Thawed(s, s.calls[call].target), call, phase))
  {
    hide Invariant;
    hide LogSound;
    hide WorldSound;
    Facts(s, call);
    ThawedKeeps(s, s.calls[call].target);
    MoveKeeps(Thawed(s, s.calls[call].target), call, phase);
  }

  lemma ReleaseRewrites(w: World, t: Target, log: seq<Event>)
    requires WorldSound(w) && LogSound(w, log) && ReleaseManifest(w, t).Some?
    ensures var w' := ReleaseManifest(w, t).value; WorldSound(w') && LogSound(w', log) && RewritesRow(w, w', t)
  {
    hide LogSound;
    assert RowSound(w, t);
    StampKeeps(w, t, w.manifests[t].(released := true));
    LogKeeps(w, ReleaseManifest(w, t).value, log);
  }

  lemma CancelRewrites(w: World, t: Target, log: seq<Event>)
    requires WorldSound(w) && LogSound(w, log) && CancelManifest(w, t).Some?
    ensures var w' := CancelManifest(w, t).value;
            && WorldSound(w') && LogSound(w', log) && RewritesRow(w, w', t)
            && (HoldsName(w.manifests[t]) ==> HoldsName(w'.manifests[t]))
  {
    hide LogSound;
    assert RowSound(w, t);
    StampKeeps(w, t, w.manifests[t].(cancelled := true));
    LogKeeps(w, CancelManifest(w, t).value, log);
  }

  /** Release may run without the lock: the manifest it touches is complete and stays so. */
  lemma ReleaseStepKeeps(s: State, call: nat)
    requires Invariant(s) && call in s.calls && s.calls[call].phase.Releasing? && s.calls[call].phase.acknowledged
    requires ReleaseManifest(s.world, s.calls[call].target).Some?
    ensures Invariant(End(s.(world := ReleaseManifest(s.world, s.calls[call].target).value), call))
  {
    hide Invariant;
    hide LogSound;
    hide FreezeInFlight;
    var c := s.calls[call];
    var t, w := c.target, s.world;
    var w' := ReleaseManifest(w, t).value;
    Facts(s, call);
    ReleaseRewrites(w, t, s.log);
    RewriteKeeps(s, call, w');
    EndKeeps(s.(world := w'), call);
  }

  lemma StampStepKeeps(s: State, call: nat)
    requires Invariant(s) && call in s.calls && s.calls[call].phase.Stamping? && CancelManifest(s.world, s.calls[call].target).Some?
    ensures var t, w' := s.calls[call].target, CancelManifest(s.world, s.calls[call].target).value;
            var instance := w'.manifests[t].instance;
            Invariant(In(Logged(s, Cancelled(call, t, instance, !InstanceInFlight(s.air, instance))).(world := w'), call, Thawing))
  {
    hide Invariant;
    hide LogSound;
    hide WorldSound;
    hide FreezeInFlight;
    hide InstanceInFlight;
    var t, w := s.calls[call].target, s.world;
    var w' := CancelManifest(w, t).value;
    var instance := w.manifests[t].instance;
    var e := Cancelled(call, t, instance, !InstanceInFlight(s.air, instance));
    Facts(s, call);
    CancelRewrites(w, t, s.log);
    CancelLogged(w', s.log, e);
    RewriteKeeps(s, call, w');
    LoggedKeeps(s.(world := w'), e);
    MoveKeeps(Logged(s.(world := w'), e), call, Thawing);
    assert Logged(s.(world := w'), e) == Logged(s, e).(world := w');
  }

  lemma DropRewrites(w: World, t: Target, log: seq<Event>)
    requires WorldSound(w) && LogSound(w, log) && DropManifest(w, t).Some?
    ensures var w' := DropManifest(w, t).value; WorldSound(w') && LogSound(w', log) && RewritesRow(w, w', t)
  {
    hide LogSound;
    hide WorldSound;
    DropKeeps(w, t);
    LogKeeps(w, DropManifest(w, t).value, log);
  }

  lemma DropStepKeeps(s: State, call: nat)
    requires Invariant(s) && call in s.calls && s.calls[call].phase.Dropping? && DropManifest(s.world, s.calls[call].target).Some?
    ensures Invariant(End(s.(world := DropManifest(s.world, s.calls[call].target).value), call))
  {
    hide Invariant;
    hide LogSound;
    hide WorldSound;
    hide DropManifest;
    hide RewritesRow;
    hide FreezeInFlight;
    var c, at := s.calls[call], In(s, call, Locked);
    Facts(s, call);
    DropRewrites(s.world, c.target, s.log);
    var w' := DropManifest(s.world, c.target).value;
    StandBackKeeps(s, call);
    RewriteKeeps(at, call, w');
    EndKeeps(at.(world := w'), call);
    assert End(at.(world := w'), call) == End(s.(world := w'), call);
  }

  lemma ErasedCountBounded(s: State, call: nat)
    requires Invariant(s) && call in s.calls && s.calls[call].phase.Erasing?
    ensures s.calls[call].phase.erased <= 4
  {
    assert CallSound(s, call);
  }

  lemma ProceedKeeps(s: State, call: nat)
    requires Invariant(s) && call in s.calls && Proceed(s, call).Some?
    ensures Invariant(Proceed(s, call).value)
  {
    hide Invariant;
    var c := s.calls[call];
    match c.phase
    case Arrived => if c.job == Prepare || c.job == Cancel { LockKeeps(s, call); } else { ReadKeeps(s, call); }
    case Waiting => LockKeeps(s, call);
    case Locked => LockedReadKeeps(s, call);
    case Approving(_) => VouchKeeps(s, call);
    case Vouching(_, _) => VouchKeeps(s, call);
    case Inserting(_, _, _) => InsertStepKeeps(s, call);
    case Looking(_) => SurveyKeeps(s, call);
    case Owning(_, _) => SurveyKeeps(s, call);
    case Confirming(_, _) => SurveyKeeps(s, call);
    case Freezing(_, _) => FreezeStepKeeps(s, call);
    case Beginning(_, _, _) => BeginStepKeeps(s, call);
    case Revoking => FreezeStepKeeps(s, call);
    case Checking(_, _) => ObserveKeeps(s, call);
    case Erasing(_, _, n) =>
      ErasedCountBounded(s, call);
      if n < 4 { EraseStepKeeps(s, call); } else { FinishStepKeeps(s, call); }
    case Releasing(acknowledged, locked) =>
      if acknowledged { ReleaseStepKeeps(s, call); } else { ThawStepKeeps(s, call, Releasing(true, locked)); }
    case Stamping => StampStepKeeps(s, call);
    case Thawing => ThawStepKeeps(s, call, Dropping);
    case Dropping => DropStepKeeps(s, call);
  }

  // ---- Arrivals and the rest of the system ----

  lemma ArriveKeeps(s: State, job: Job, t: Target)
    requires Invariant(s)
    ensures Invariant(Step(s, Arrive(job, t)).value)
  {
    hide LogSound;
    hide WorldSound;
    var s' := Step(s, Arrive(job, t)).value;
    assert s.nextCall !in s.calls by { assert s.nextCall in s.calls ==> CallSound(s, s.nextCall); }
    forall c | c in s'.air ensures EffectSound(s', c, s'.air[c]) {
      assert EffectSound(s, c, s.air[c]);
    }
    forall id | id in s'.calls ensures CallSound(s', id) {
      if id != s.nextCall {
        assert CallSound(s, id);
        KnowsTheSame(s, s', id, s.calls[id]);
      }
    }
  }

  /** A leftover of a fenced customer cannot appear. */
  lemma FencedStaysErased(w: World, change: Change, t: Target, n: nat)
    requires t in w.manifests && !w.manifests[t].cancelled && Permitted(w, change)
    requires Erased(w, t, w.manifests[t].identity, n)
    ensures Erased(Changed(w, change), t, w.manifests[t].identity, n)
  {
  }

  lemma ChangeIsSound(w: World, change: Change)
    requires WorldSound(w) && Permitted(w, change)
    ensures WorldSound(Changed(w, change))
  {
    var w' := Changed(w, change);
    forall u | u in w'.manifests ensures RowSound(w', u) {
      assert RowSound(w, u);
      if w.manifests[u].status == Complete {
        FencedStaysErased(w, change, u, 4);
      }
    }
    forall u, v | u in w'.manifests && v in w'.manifests && u != v ensures RowsDiffer(w', u, v) {
      assert RowsDiffer(w, u, v);
    }
  }

  lemma ChangeTouchesNoRow(w: World, change: Change)
    ensures var w' := Changed(w, change); w'.manifests == w.manifests && w'.frozen == w.frozen && w'.nextInstance == w.nextInstance
  {
  }

  lemma OtherKnowsAll(s: State, change: Change, id: nat, c: Invocation)
    requires Knows(s, id, c) && WorldSound(s.world) && Permitted(s.world, change)
    ensures Knows(s.(world := Changed(s.world, change)), id, c)
  {
    hide SawInOrder;
    hide FreezeInFlight;
    ChangeTouchesNoRow(s.world, change);
    if c.phase.Erasing? {
      assert RowSound(s.world, c.target);
      FencedStaysErased(s.world, change, c.target, c.phase.erased);
    }
    hide Changed;
  }

  lemma OtherKeeps(s: State, change: Change)
    requires Invariant(s) && Permitted(s.world, change)
    ensures Invariant(Step(s, Other(change)).value)
  {
    hide LogSound;
    hide FreezeInFlight;
    var w, s' := s.world, s.(world := Changed(s.world, change));
    ChangeIsSound(w, change);
    ChangeTouchesNoRow(w, change);
    LogKeeps(w, s'.world, s.log);
    assert FrozenSound(s');
    assert AirSound(s') by { AirKeeps(s, s'); }
    forall id | id in s'.calls ensures CallSound(s', id) {
      assert CallSound(s, id);
      OtherKnowsAll(s, change, id, s.calls[id]);
    }
  }

  lemma StepKeeps(s: State, a: Action)
    requires Invariant(s) && Step(s, a).Some?
    ensures Invariant(Step(s, a).value)
  {
    hide Invariant;
    match a
    case Arrive(job, t) => ArriveKeeps(s, job, t);
    case Go(call) => ProceedKeeps(s, call);
    case Quit(call) => EndKeeps(s, call);
    case Send(call) => SendKeeps(s, call);
    case Land(call) => LandKeeps(s, call);
    case Lose(call) => LoseKeeps(s, call);
    case Other(change) => OtherKeeps(s, change);
  }

  // ---- Whole runs ----

  /** The invariant holds after every interleaving of invocations, with refusals and crashes anywhere, calls that end
      unknown, and their effects landing at any time or never. */
  lemma {:induction false} RunIsSafe(s: State, actions: seq<Action>)
    requires Invariant(s) && Run(s, actions).Some?
    ensures Invariant(Run(s, actions).value)
  {
    hide Invariant;
    hide Step;
    if actions != [] {
      RunIsSafe(s, actions[..|actions| - 1]);
      StepKeeps(Run(s, actions[..|actions| - 1]).value, actions[|actions| - 1]);
    }
  }

  lemma ReachableIsSound(w: World, actions: seq<Action>)
    requires Run(Initial(w), actions).Some?
    ensures Invariant(Run(Initial(w), actions).value)
  {
    InitialIsSound(w);
    RunIsSafe(Initial(w), actions);
  }

  /** A frozen portal has a manifest row that holds the tenant name, so creating that tenant is refused; the only
      exception is a target whose portal was last thawed while a freeze of it was on its way. */
  lemma FrozenNameIsPending(w: World, actions: seq<Action>, t: Target)
    requires Run(Initial(w), actions).Some?
    requires var s := Run(Initial(w), actions).value; t in s.world.frozen && t !in s.exposed
    ensures NamePending(Run(Initial(w), actions).value.world, t.0)
  {
    ReachableIsSound(w, actions);
    hide Run;
    var s := Run(Initial(w), actions).value;
    assert Accounted(s, t);
  }

  /** Once a cancellation of a manifest is on record it is never begun, even by a begin that was on its way; and if no
      freeze of it was on its way at that moment, its portal is never frozen for it again. */
  lemma CancellationIsFinal(w: World, actions: seq<Action>, i: nat, j: nat)
    requires Run(Initial(w), actions).Some?
    requires var log := Run(Initial(w), actions).value.log;
             i < j < |log| && log[i].Cancelled? && (log[j].Began? || (log[j].Froze? && log[i].clear))
    ensures var log := Run(Initial(w), actions).value.log; log[j].instance != log[i].instance
  {
    ReachableIsSound(w, actions);
  }

  /** Every call that deletes the customer at the identity provider was made under the tenant's lock, for a
      manifest in deleting, after the same pass saw no membership, no GitOps tenant and no platform. */
  lemma IdpDeletionIsJustified(w: World, actions: seq<Action>, k: nat)
    requires Run(Initial(w), actions).Some?
    requires var log := Run(Initial(w), actions).value.log; k < |log| && log[k].ErasedIdp?
    ensures ErasureJustified(Run(Initial(w), actions).value.log, k)
  {
    ReachableIsSound(w, actions);
  }

  /** A manifest is filed, a portal frozen and a deletion begun only for a pass that had seen the customer's exclusive
      ownership, or with the tenant gone no access at all; filing and a first begin only after the identity provider
      then confirmed the customer. */
  lemma ActsAreJustified(w: World, actions: seq<Action>, k: nat)
    requires Run(Initial(w), actions).Some?
    requires var log := Run(Initial(w), actions).value.log; k < |log| && IsAct(log[k])
    ensures ActJustified(Run(Initial(w), actions).value.log, k)
  {
    ReachableIsSound(w, actions);
  }
}

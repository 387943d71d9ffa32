/** Freezes that land late: exactly when one can follow a cancellation, and exactly when one can leave a frozen portal
    without a manifest that holds its name. */
module DeletionLate {
  import opened Wrappers
  import opened Memberships
  import opened Deletion
  import opened DeletionInvariant
  import opened DeletionSafety

  // ---- After a cancellation ----

  /** Between the two states a freeze of the instance was logged. */
  ghost predicate FrozeSince(s: State, s': State, instance: nat) {
    exists k | |s.log| <= k < |s'.log| :: s'.log[k].Froze? && s'.log[k].instance == instance
  }

  lemma ProceedLogs(s: State, call: nat)
    requires call in s.calls && Proceed(s, call).Some?
    ensures s.log <= Proceed(s, call).value.log
  {
    hide Passes;
    hide TenantExists;
    hide FreezeInFlight;
    hide InstanceInFlight;
    hide GithubTaken;
    hide SameIdentity;
  }

  lemma StepLogs(s: State, a: Action)
    requires Step(s, a).Some?
    ensures s.log <= Step(s, a).value.log
  {
    hide Proceed;
    hide Permitted;
    hide Changed;
    if a.Go? { ProceedLogs(s, a.call); }
  }

  lemma {:induction false} RunLogs(s: State, actions: seq<Action>)
    requires Run(s, actions).Some?
    ensures s.log <= Run(s, actions).value.log
  {
    hide Step;
    if actions != [] {
      RunLogs(s, actions[..|actions| - 1]);
      StepLogs(Run(s, actions[..|actions| - 1]).value, actions[|actions| - 1]);
    }
  }

  lemma NothingFollows(s: State)
    requires Invariant(s)
    ensures NothingAfterCancel(s.log)
  {
  }

  /** The state in which a cancellation has just been recorded. */
  ghost predicate JustCancelled(s: State, call: nat, t: Target, instance: nat) {
    && Invariant(s) && s.log != []
    && s.log[|s.log| - 1] == Cancelled(call, t, instance, !InstanceInFlight(s.air, instance))
  }

  /** Some continuation freezes the portal for a manifest whose cancellation was just recorded exactly when a freeze of
      it was on its way at that moment. */
  lemma FreezeFollowsCancelExactly(s: State, call: nat, t: Target, instance: nat)
    requires JustCancelled(s, call, t, instance)
    ensures (exists actions :: Run(s, actions).Some? && FrozeSince(s, Run(s, actions).value, instance))
            <==> InstanceInFlight(s.air, instance)
  {
    hide Invariant;
    if InstanceInFlight(s.air, instance) {
      var c :| c in s.air && s.air[c].FreezeOf? && s.air[c].instance == instance;
      LandIsOneStep(s, c);
      var after := Run(s, [Land(c)]).value;
      assert after.log[|s.log|] == Froze(c, s.air[c].target, instance, s.air[c].approved);
      assert FrozeSince(s, after, instance);
    } else {
      forall actions | Run(s, actions).Some? ensures !FrozeSince(s, Run(s, actions).value, instance) {
        ClearStaysUnfrozen(s, call, t, instance, actions);
      }
    }
  }

  lemma ClearStaysUnfrozen(s: State, call: nat, t: Target, instance: nat, actions: seq<Action>)
    requires JustCancelled(s, call, t, instance) && !InstanceInFlight(s.air, instance) && Run(s, actions).Some?
    ensures !FrozeSince(s, Run(s, actions).value, instance)
  {
    hide Invariant;
    hide Run;
    var after := Run(s, actions).value;
    RunIsSafe(s, actions);
    RunLogs(s, actions);
    NothingFollows(after);
    assert after.log[|s.log| - 1] == s.log[|s.log| - 1];
  }

  lemma LandIsOneStep(s: State, call: nat)
    requires call in s.air
    ensures Run(s, [Land(call)]) == Some(Landed(s.(air := s.air - {call}), call, s.air[call]))
  {
    assert [Land(call)][..0] == [];
  }

  /** Stamping a manifest records its cancellation. */
  lemma StampIsJustCancelled(s: State, call: nat)
    requires Invariant(s) && call in s.calls && s.calls[call].phase.Stamping? && CancelManifest(s.world, s.calls[call].target).Some?
    ensures Proceed(s, call).Some?
    ensures JustCancelled(Proceed(s, call).value, call, s.calls[call].target, s.world.manifests[s.calls[call].target].instance)
  {
    hide Invariant;
    ProceedKeeps(s, call);
  }

  // ---- What a call touches ----

  /** A step leaves the target's row, freeze and freezes on their way alone. */
  ghost predicate LeavesAlone(s: State, s': State, t: Target) {
    && (t in s'.world.manifests <==> t in s.world.manifests)
    && (t in s.world.manifests ==> s'.world.manifests[t] == s.world.manifests[t])
    && (t in s'.world.frozen ==> t in s.world.frozen)
    && (FreezeInFlight(s'.air, t) ==> FreezeInFlight(s.air, t))
  }

  /** Only its own call moves, or ends. */
  ghost predicate Moves(s: State, s': State, call: nat)
    requires call in s.calls
  {
    && s'.nextCall == s.nextCall
    && (|| s'.calls == s.calls - {call}
        || (call in s'.calls && s'.calls == s.calls[call := s.calls[call].(phase := s'.calls[call].phase)]))
  }

  /** The call is not about to give a row or a name up. */
  predicate Stands(s: State, call: nat) {
    call in s.calls ==> var p := s.calls[call].phase; !p.Dropping? && !(p.Releasing? && p.acknowledged)
  }

  predicate Reads(p: Phase) {
    p.Arrived? || p.Waiting? || p.Locked? || p.Approving? || p.Vouching? || p.Looking? || p.Owning? || p.Confirming? || p.Checking?
  }

  predicate Asks(p: Phase) {
    p.Freezing? || p.Beginning? || p.Revoking? || (p.Erasing? && p.erased < 4)
  }

  lemma ReadTouchesNothing(s: State, call: nat)
    requires call in s.calls && Reads(s.calls[call].phase) && Proceed(s, call).Some?
    ensures var s' := Proceed(s, call).value; s'.world == s.world && s'.air == s.air && Moves(s, s', call) && Stands(s', call)
  {
    hide Survey;
    hide Vouch;
    hide Observe;
    var p := s.calls[call].phase;
    if p.Approving? || p.Vouching? {
      VouchTouches(s, call);
    } else if p.Checking? {
      ObserveTouches(s, call);
    } else if p.Looking? || p.Owning? || p.Confirming? {
      SurveyTouches(s, call);
    }
  }

  lemma VouchTouches(s: State, call: nat)
    requires call in s.calls && (s.calls[call].phase.Approving? || s.calls[call].phase.Vouching?) && Vouch(s, call).Some?
    ensures var s' := Vouch(s, call).value; s'.world == s.world && s'.air == s.air && Moves(s, s', call) && Stands(s', call)
  {
    hide Passes;
  }

  lemma ObserveTouches(s: State, call: nat)
    requires call in s.calls && s.calls[call].phase.Checking? && Observe(s, call).Some?
    ensures var s' := Observe(s, call).value; s'.world == s.world && s'.air == s.air && Moves(s, s', call) && Stands(s', call)
  {
    hide Passes;
    hide TenantExists;
  }

  lemma SurveyTouches(s: State, call: nat)
    requires call in s.calls && (s.calls[call].phase.Looking? || s.calls[call].phase.Owning? || s.calls[call].phase.Confirming?)
    requires Survey(s, call).Some?
    ensures var s' := Survey(s, call).value; s'.world == s.world && s'.air == s.air && Moves(s, s', call) && Stands(s', call)
  {
    hide Passes;
    hide TenantExists;
  }

  lemma AskTouches(s: State, call: nat)
    requires call in s.calls && Asks(s.calls[call].phase) && Proceed(s, call).Some?
    ensures EffectOf(s.calls[call]).Some?
    ensures var s' := Proceed(s, call).value;
            s'.world == Landed(s, call, EffectOf(s.calls[call]).value).world && s'.air == s.air && Moves(s, s', call) && Stands(s', call)
  {
    hide Landed;
    hide BeginManifest;
    hide LeftoversOf;
    hide Noted;
    hide Survey;
    hide Vouch;
    hide Observe;
    var e := EffectOf(s.calls[call]).value;
    NotingTouches(s, call);
    LandingTouches(s, call, e);
    LandingTouches(Noted(s, call), call, e);
    LandingOfNoted(s, Noted(s, call), call, e);
  }

  lemma NotingTouches(s: State, call: nat)
    requires call in s.calls
    ensures Noted(s, call) == s.(log := Noted(s, call).log)
  {
  }

  lemma LandingTouches(s: State, call: nat, e: Effect)
    ensures var s' := Landed(s, call, e); s'.calls == s.calls && s'.locks == s.locks && s'.air == s.air && s'.nextCall == s.nextCall
  {
    hide BeginManifest;
  }

  lemma LandingOfNoted(s: State, n: State, call: nat, e: Effect)
    requires n.world == s.world
    ensures Landed(n, call, e).world == Landed(s, call, e).world
  {
    hide BeginManifest;
  }

  lemma WriteMovesOne(s: State, call: nat)
    requires call in s.calls && !Reads(s.calls[call].phase) && !Asks(s.calls[call].phase) && Proceed(s, call).Some?
    ensures Moves(s, Proceed(s, call).value, call)
  {
    hide InsertManifest;
    hide BeginManifest;
    hide FinishManifest;
    hide ReleaseManifest;
    hide CancelManifest;
    hide DropManifest;
    hide FreezeInFlight;
    hide InstanceInFlight;
    hide LeftoversOf;
  }

  lemma FilingLeavesAlone(s: State, call: nat, t: Target)
    requires call in s.calls && (s.calls[call].phase.Inserting? || (s.calls[call].phase.Erasing? && s.calls[call].phase.erased >= 4))
    requires s.calls[call].target != t && Proceed(s, call).Some?
    ensures LeavesAlone(s, Proceed(s, call).value, t)
  {
    hide FreezeInFlight;
    hide InstanceInFlight;
    hide GithubTaken;
    hide Landed;
    hide EffectOf;
  }

  lemma CancelLeavesAlone(s: State, call: nat, t: Target)
    requires call in s.calls && (s.calls[call].phase.Stamping? || s.calls[call].phase.Thawing? || s.calls[call].phase.Dropping?)
    requires s.calls[call].target != t && Proceed(s, call).Some?
    ensures LeavesAlone(s, Proceed(s, call).value, t)
  {
    hide FreezeInFlight;
    hide InstanceInFlight;
    hide GithubTaken;
    hide Landed;
    hide EffectOf;
  }

  lemma ReleaseLeavesAlone(s: State, call: nat, t: Target)
    requires call in s.calls && s.calls[call].phase.Releasing? && s.calls[call].target != t && Proceed(s, call).Some?
    ensures LeavesAlone(s, Proceed(s, call).value, t)
  {
    hide FreezeInFlight;
    hide InstanceInFlight;
    hide GithubTaken;
    hide Landed;
    hide EffectOf;
  }

  lemma GoMovesOne(s: State, call: nat)
    requires call in s.calls && Proceed(s, call).Some?
    ensures Moves(s, Proceed(s, call).value, call)
  {
    hide Proceed;
    hide Moves;
    hide Landed;
    var p := s.calls[call].phase;
    if Reads(p) { ReadTouchesNothing(s, call); } else if Asks(p) { AskTouches(s, call); } else { WriteMovesOne(s, call); }
  }

  lemma GoLeavesAlone(s: State, call: nat, t: Target)
    requires call in s.calls && s.calls[call].target != t && Proceed(s, call).Some?
    ensures LeavesAlone(s, Proceed(s, call).value, t)
  {
    hide Proceed;
    hide FreezeInFlight;
    hide Moves;
    hide Landed;
    var p := s.calls[call].phase;
    if Reads(p) {
      ReadTouchesNothing(s, call);
    } else if Asks(p) {
      AskTouches(s, call);
      LandingLeavesAlone(s, call, EffectOf(s.calls[call]).value, t);
      LandingTouches(s, call, EffectOf(s.calls[call]).value);
    } else if p.Releasing? {
      ReleaseLeavesAlone(s, call, t);
    } else if p.Stamping? || p.Thawing? || p.Dropping? {
      CancelLeavesAlone(s, call, t);
    } else {
      FilingLeavesAlone(s, call, t);
    }
  }

  /** So does any landing but a freeze of the target, or the begin of its live manifest. */
  lemma LandingLeavesAlone(s: State, call: nat, e: Effect, t: Target)
    requires !(e.FreezeOf? && e.target == t)
    requires !(e.BeginOf? && e.target == t && t in s.world.manifests && Live(s.world.manifests[t]))
    ensures LeavesAlone(s, Landed(s, call, e), t)
  {
    hide FreezeInFlight;
    hide SameIdentity;
  }

  ghost predicate FiledSince(s: State, s': State, t: Target) {
    exists k | |s.log| <= k < |s'.log| :: s'.log[k].Filed? && s'.log[k].target == t
  }

  // ---- After the thaw of a cancellation ----

  /** No freeze of the target is on its way, its row is cancelled or gone, and nobody removes the row, nor has, while the
      portal is frozen. */
  ghost predicate Calm(s: State, t: Target) {
    && !FreezeInFlight(s.air, t)
    && if t in s.world.manifests
       then
         && IsCancelledRow(s.world, t)
         && forall id | id in s.calls && s.calls[id].target == t && s.calls[id].phase.Dropping? :: t !in s.world.frozen
       else t !in s.world.frozen
  }

  lemma CalmStays(s: State, s': State, t: Target)
    requires Calm(s, t) && LeavesAlone(s, s', t)
    requires forall id | id in s'.calls && s'.calls[id].target == t && s'.calls[id].phase.Dropping? ::
               id in s.calls && s.calls[id].target == t && s.calls[id].phase.Dropping?
    ensures Calm(s', t)
  {
    hide FreezeInFlight;
  }

  lemma InsertFiles(s: State, call: nat)
    requires call in s.calls && Proceed(s, call).Some?
    ensures s.calls[call].phase.Inserting? ==> FiledSince(s, Proceed(s, call).value, s.calls[call].target)
  {
    hide InsertManifest;
    var s' := Proceed(s, call).value;
    assert s.calls[call].phase.Inserting? ==>
        |s'.log| == |s.log| + 1 && s'.log[|s.log|].Filed? && s'.log[|s.log|].target == s.calls[call].target;
  }

  /** Stamping, thawing and dropping. Releasing and finishing know a complete or a deleting row, and there is none. */
  lemma CalmOwnWrite(s: State, call: nat, t: Target)
    requires call in s.calls && CallSound(s, call) && Calm(s, t) && s.calls[call].target == t && Proceed(s, call).Some?
    requires var p := s.calls[call].phase; !Reads(p) && !Asks(p) && !p.Inserting?
    ensures Calm(Proceed(s, call).value, t)
  {
    hide FreezeInFlight;
    hide InstanceInFlight;
    hide SawInOrder;
    hide Erased;
    hide FinishManifest;
    hide InsertManifest;
    hide BeginManifest;
  }

  lemma CalmOwnAsk(s: State, call: nat, t: Target)
    requires call in s.calls && CallSound(s, call) && Calm(s, t) && s.calls[call].target == t && Asks(s.calls[call].phase)
    ensures !(EffectOf(s.calls[call]).value.FreezeOf?)
  {
    hide SawInOrder;
    hide Erased;
    hide FreezeInFlight;
    hide LeftoversOf;
  }

  lemma CalmOwnGo(s: State, call: nat, t: Target)
    requires call in s.calls && CallSound(s, call) && Calm(s, t) && s.calls[call].target == t && Proceed(s, call).Some?
    requires !FiledSince(s, Proceed(s, call).value, t)
    ensures Calm(Proceed(s, call).value, t)
  {
    hide Proceed;
    hide CallSound;
    hide Landed;
    hide EffectOf;
    hide FreezeInFlight;
    var p, s' := s.calls[call].phase, Proceed(s, call).value;
    InsertFiles(s, call);
    if Reads(p) {
      ReadTouchesNothing(s, call);
    } else if Asks(p) {
      AskTouches(s, call);
      var e := EffectOf(s.calls[call]).value;
      CalmOwnAsk(s, call, t);
      LandingLeavesAlone(s, call, e, t);
      LandingTouches(s, call, e);
    } else {
      CalmOwnWrite(s, call, t);
    }
  }

  lemma CalmGo(s: State, call: nat, t: Target)
    requires Invariant(s) && Calm(s, t) && call in s.calls && Proceed(s, call).Some?
    requires !FiledSince(s, Proceed(s, call).value, t)
    ensures Calm(Proceed(s, call).value, t)
  {
    hide Invariant;
    hide Proceed;
    hide LogSound;
    hide WorldSound;
    hide Calm;
    hide Knows;
    Facts(s, call);
    if s.calls[call].target == t {
      CalmOwnGo(s, call, t);
    } else {
      GoLeavesAlone(s, call, t);
      GoMovesOne(s, call);
      CalmStays(s, Proceed(s, call).value, t);
    }
  }

  lemma CalmSend(s: State, call: nat, t: Target)
    requires Invariant(s) && Calm(s, t) && call in s.calls && Sent(s, call).Some?
    ensures Calm(Sent(s, call).value, t)
  {
    hide Invariant;
    hide LogSound;
    hide WorldSound;
    hide SawInOrder;
    Facts(s, call);
    var e := EffectOf(s.calls[call]).value;
    assert !(e.FreezeOf? && e.target == t);
    assert FreezeInFlight(Sent(s, call).value.air, t) ==> FreezeInFlight(s.air, t);
  }

  lemma CalmStep(s: State, a: Action, t: Target)
    requires Invariant(s) && Calm(s, t) && Step(s, a).Some? && !FiledSince(s, Step(s, a).value, t)
    ensures Calm(Step(s, a).value, t)
  {
    hide Invariant;
    hide Proceed;
    hide Sent;
    hide Permitted;
    hide BeginManifest;
    match a
    case Go(call) => CalmGo(s, call, t);
    case Send(call) => CalmSend(s, call, t);
    case Land(call) =>
      var mid, e := s.(air := s.air - {call}), s.air[call];
      assert Calm(mid, t);
      LandingLeavesAlone(mid, call, e, t);
      LandingTouches(mid, call, e);
      CalmStays(mid, Landed(mid, call, e), t);
    case Other(change) => ChangeTouchesNoRow(s.world, change);
    case _ =>
  }

  lemma {:induction false} CalmRun(s: State, actions: seq<Action>, t: Target)
    requires Invariant(s) && Calm(s, t) && Run(s, actions).Some? && !FiledSince(s, Run(s, actions).value, t)
    ensures Calm(Run(s, actions).value, t)
  {
    hide Invariant;
    hide Step;
    hide Calm;
    if actions != [] {
      var n := |actions| - 1;
      var mid, end := Run(s, actions[..n]).value, Run(s, actions).value;
      RunLogs(s, actions[..n]);
      StepLogs(mid, actions[n]);
      assert forall k | |s.log| <= k < |mid.log| :: end.log[k] == mid.log[k];
      CalmRun(s, actions[..n], t);
      RunIsSafe(s, actions[..n]);
      CalmStep(mid, actions[n], t);
    }
  }

  lemma OneHolder(s: State, id: nat, call: nat)
    requires Invariant(s) && id in s.calls && call in s.calls && s.calls[id].target == s.calls[call].target
    requires HoldsLock(s.calls[id].phase) && HoldsLock(s.calls[call].phase)
    ensures id == call
  {
    hide LogSound;
    hide WorldSound;
    hide Knows;
    assert CallSound(s, id) && CallSound(s, call);
  }

  lemma ThawingIsCalm(s: State, call: nat)
    requires Invariant(s) && call in s.calls && s.calls[call].phase.Thawing? && !FreezeInFlight(s.air, s.calls[call].target)
    ensures Calm(s, s.calls[call].target)
  {
    hide Invariant;
    hide LogSound;
    hide WorldSound;
    hide FreezeInFlight;
    var t := s.calls[call].target;
    Facts(s, call);
    forall id | id in s.calls && s.calls[id].target == t && HoldsLock(s.calls[id].phase) ensures id == call {
      OneHolder(s, id, call);
    }
  }

  /** The thaw, the removal of the row, and then the freeze. */
  lemma FreezeLandsAfterDrop(s: State, call: nat, c: nat)
    requires call in s.calls && s.calls[call].phase.Thawing? && IsCancelledRow(s.world, s.calls[call].target)
    requires c in s.air && s.air[c].FreezeOf? && s.air[c].target == s.calls[call].target
    ensures var t, end := s.calls[call].target, Run(s, [Go(call), Go(call), Land(c)]);
            end.Some? && t in end.value.world.frozen && t !in end.value.world.manifests && !FiledSince(s, end.value, t)
  {
    var t := s.calls[call].target;
    var s1 := In(Thawed(s, t), call, Dropping);
    var s2 := End(s1.(world := DropManifest(s1.world, t).value), call);
    ThawThenDrop(s, call);
    RunThree(s, Go(call), Go(call), Land(c), s1, s2);
  }

  lemma ThawThenDrop(s: State, call: nat)
    requires call in s.calls && s.calls[call].phase.Thawing? && IsCancelledRow(s.world, s.calls[call].target)
    ensures var t := s.calls[call].target;
            var s1 := In(Thawed(s, t), call, Dropping);
            && DropManifest(s1.world, t).Some? && Step(s, Go(call)) == Some(s1)
            && Step(s1, Go(call)) == Some(End(s1.(world := DropManifest(s1.world, t).value), call))
  {
    hide Passes;
    hide TenantExists;
    hide FreezeInFlight;
  }

  lemma RunThree(s: State, a: Action, b: Action, c: Action, s1: State, s2: State)
    requires Step(s, a) == Some(s1) && Step(s1, b) == Some(s2)
    ensures Run(s, [a, b, c]) == Step(s2, c)
  {
    hide Step;
    assert [a, b, c][..2] == [a, b] && [a, b][..1] == [a] && [a][..0] == [];
    assert Run(s, [a]) == Some(s1) && Run(s, [a, b]) == Some(s2);
  }

  /** From a cancellation about to thaw, some continuation without a new filing leaves the portal frozen and no row, exactly
      when a freeze of the target is on its way. */
  lemma DropStrandsExactly(s: State, call: nat)
    requires Invariant(s) && call in s.calls && s.calls[call].phase.Thawing?
    ensures var t := s.calls[call].target;
            (exists actions :: Run(s, actions).Some? && !FiledSince(s, Run(s, actions).value, t)
                               && t in Run(s, actions).value.world.frozen && t !in Run(s, actions).value.world.manifests)
            <==> FreezeInFlight(s.air, t)
  {
    hide Invariant;
    hide Run;
    hide LogSound;
    hide WorldSound;
    var t := s.calls[call].target;
    Facts(s, call);
    if FreezeInFlight(s.air, t) {
      var c :| c in s.air && s.air[c].FreezeOf? && s.air[c].target == t;
      FreezeLandsAfterDrop(s, call, c);
    } else {
      ThawingIsCalm(s, call);
      forall actions | Run(s, actions).Some? && !FiledSince(s, Run(s, actions).value, t) && t in Run(s, actions).value.world.frozen
        ensures t in Run(s, actions).value.world.manifests
      {
        CalmRun(s, actions, t);
      }
    }
  }

  // ---- After the release of a complete manifest ----

  /** Somebody has the portal's thaw acknowledged and has yet to record the release. */
  ghost predicate ReleaseDue(s: State, t: Target) {
    exists id | id in s.calls :: s.calls[id].target == t && s.calls[id].phase.Releasing? && s.calls[id].phase.acknowledged
  }

  /** The portal is frozen although the name is given up, or will be without another thaw. */
  ghost predicate Stranding(s: State, t: Target)
    requires t in s.world.manifests
  {
    t in s.world.frozen && (!HoldsName(s.world.manifests[t]) || ReleaseDue(s, t))
  }

  /** The manifest is complete, no freeze is on its way, and the portal is not stranded. */
  ghost predicate Closed(s: State, t: Target) {
    IsCompleteRow(s.world, t) && !FreezeInFlight(s.air, t) && !Stranding(s, t)
  }

  lemma ClosedStays(s: State, s': State, t: Target)
    requires Closed(s, t) && LeavesAlone(s, s', t)
    requires ReleaseDue(s', t) ==> ReleaseDue(s, t)
    ensures Closed(s', t)
  {
    hide FreezeInFlight;
    hide ReleaseDue;
  }

  lemma DueOfOthers(s: State, s': State, call: nat, t: Target)
    requires call in s.calls && Moves(s, s', call)
    requires s.calls[call].target != t
    ensures ReleaseDue(s', t) ==> ReleaseDue(s, t)
  {
  }

  lemma ClosedOwnGo(s: State, call: nat, t: Target)
    requires call in s.calls && CallSound(s, call) && Closed(s, t) && s.calls[call].target == t && Proceed(s, call).Some?
    ensures Closed(Proceed(s, call).value, t)
  {
    hide Passes;
    hide TenantExists;
    hide FreezeInFlight;
    hide InstanceInFlight;
    hide SawInOrder;
    hide ReleaseDue;
    var c, s' := s.calls[call], Proceed(s, call).value;
    if c.phase.Releasing? && c.phase.acknowledged {
      assert ReleaseDue(s, t) by { DueBy(s, call); }
    } else if !c.phase.Releasing? {
      GoMovesOne(s, call);
      NotNewlyDue(s, s', call, t);
    }
  }

  lemma DueBy(s: State, call: nat)
    requires call in s.calls && s.calls[call].phase.Releasing? && s.calls[call].phase.acknowledged
    ensures ReleaseDue(s, s.calls[call].target)
  {
  }

  lemma NotNewlyDue(s: State, s': State, call: nat, t: Target)
    requires call in s.calls && Moves(s, s', call)
    requires call in s'.calls ==> !(s'.calls[call].phase.Releasing? && s'.calls[call].phase.acknowledged)
    ensures ReleaseDue(s', t) ==> ReleaseDue(s, t)
  {
  }

  lemma ClosedGo(s: State, call: nat, t: Target)
    requires Invariant(s) && Closed(s, t) && call in s.calls && Proceed(s, call).Some?
    ensures Closed(Proceed(s, call).value, t)
  {
    hide Invariant;
    hide Proceed;
    hide LogSound;
    hide WorldSound;
    hide Closed;
    hide Knows;
    Facts(s, call);
    if s.calls[call].target == t {
      ClosedOwnGo(s, call, t);
    } else {
      GoLeavesAlone(s, call, t);
      GoMovesOne(s, call);
      DueOfOthers(s, Proceed(s, call).value, call, t);
      ClosedStays(s, Proceed(s, call).value, t);
    }
  }

  lemma ClosedSend(s: State, call: nat, t: Target)
    requires Invariant(s) && Closed(s, t) && call in s.calls && Sent(s, call).Some?
    ensures Closed(Sent(s, call).value, t)
  {
    hide Invariant;
    hide LogSound;
    hide WorldSound;
    hide SawInOrder;
    Facts(s, call);
    var e := EffectOf(s.calls[call]).value;
    assert !(e.FreezeOf? && e.target == t);
    assert FreezeInFlight(Sent(s, call).value.air, t) ==> FreezeInFlight(s.air, t);
    assert ReleaseDue(Sent(s, call).value, t) ==> ReleaseDue(s, t);
  }

  lemma ClosedStep(s: State, a: Action, t: Target)
    requires Invariant(s) && Closed(s, t) && Step(s, a).Some?
    ensures Closed(Step(s, a).value, t)
  {
    hide Invariant;
    hide Proceed;
    hide Sent;
    hide Permitted;
    hide BeginManifest;
    match a
    case Go(call) => ClosedGo(s, call, t);
    case Send(call) => ClosedSend(s, call, t);
    case Land(call) =>
      var mid, e := s.(air := s.air - {call}), s.air[call];
      assert Closed(mid, t);
      LandingLeavesAlone(mid, call, e, t);
      LandingTouches(mid, call, e);
      ClosedStays(mid, Landed(mid, call, e), t);
    case Other(change) => ChangeTouchesNoRow(s.world, change);
    case _ => assert ReleaseDue(Step(s, a).value, t) ==> ReleaseDue(s, t);
  }

  lemma {:induction false} ClosedRun(s: State, actions: seq<Action>, t: Target)
    requires Invariant(s) && Closed(s, t) && Run(s, actions).Some?
    ensures Closed(Run(s, actions).value, t)
  {
    hide Invariant;
    hide Step;
    hide Closed;
    if actions != [] {
      var n := |actions| - 1;
      ClosedRun(s, actions[..n], t);
      RunIsSafe(s, actions[..n]);
      ClosedStep(Run(s, actions[..n]).value, actions[n], t);
    }
  }

  ghost predicate Stranded(w: World, t: Target) {
    t in w.frozen && t in w.manifests && !HoldsName(w.manifests[t])
  }

  /** One more complete invocation, from its arrival to its recorded release, and then the freeze. */
  lemma FreezeLandsAfterRelease(s: State, t: Target, c: nat)
    requires IsCompleteRow(s.world, t) && !s.world.manifests[t].cancelled && s.nextCall !in s.calls
    requires c in s.air && s.air[c].FreezeOf? && s.air[c].target == t
    ensures var id := s.nextCall; var end := Run(s, [Arrive(Finish, t), Go(id), Go(id), Go(id), Land(c)]);
            end.Some? && Stranded(end.value.world, t)
  {
    hide Run;
    hide Proceed;
    hide FreezeInFlight;
    hide Sent;
    hide BeginManifest;
    hide Permitted;
    var id := s.nextCall;
    var s1 := Step(s, Arrive(Finish, t)).value;
    var s2 := In(s1, id, Releasing(false, false));
    var s3 := In(Thawed(s2, t), id, Releasing(true, false));
    ReleaseSteps(s, t);
    var s4 := End(s3.(world := ReleaseManifest(s3.world, t).value), id);
    RunFive(s, Arrive(Finish, t), Go(id), Land(c), s1, s2, s3, s4);
  }

  lemma ReleaseSteps(s: State, t: Target)
    requires IsCompleteRow(s.world, t) && !s.world.manifests[t].cancelled && s.nextCall !in s.calls
    ensures var id, s1 := s.nextCall, Step(s, Arrive(Finish, t)).value;
            var s2 := In(s1, id, Releasing(false, false));
            var s3 := In(Thawed(s2, t), id, Releasing(true, false));
            && Step(s1, Go(id)) == Some(s2) && Step(s2, Go(id)) == Some(s3) && ReleaseManifest(s3.world, t).Some?
            && Step(s3, Go(id)) == Some(End(s3.(world := ReleaseManifest(s3.world, t).value), id))
  {
    hide Passes;
    hide TenantExists;
    hide FreezeInFlight;
  }

  lemma RunFive(s: State, a: Action, b: Action, c: Action, s1: State, s2: State, s3: State, s4: State)
    requires Step(s, a) == Some(s1) && Step(s1, b) == Some(s2) && Step(s2, b) == Some(s3) && Step(s3, b) == Some(s4)
    ensures Run(s, [a, b, b, b, c]) == Step(s4, c)
  {
    hide Step;
    assert [a, b, b, b, c][..4] == [a, b, b, b] && [a, b, b, b][..3] == [a, b, b] && [a, b, b][..2] == [a, b];
    assert [a, b][..1] == [a] && [a][..0] == [];
    assert Run(s, [a]) == Some(s1) && Run(s, [a, b]) == Some(s2) && Run(s, [a, b, b]) == Some(s3) && Run(s, [a, b, b, b]) == Some(s4);
  }

  lemma StrandedAtOnce(s: State, t: Target)
    requires Stranded(s.world, t)
    ensures exists actions :: Run(s, actions).Some? && Stranded(Run(s, actions).value.world, t)
  {
    var none: seq<Action> := [];
    assert Run(s, none) == Some(s);
  }

  lemma DueReleaseStrands(s: State, t: Target)
    requires IsCompleteRow(s.world, t) && t in s.world.frozen && ReleaseDue(s, t)
    ensures exists actions :: Run(s, actions).Some? && Stranded(Run(s, actions).value.world, t)
  {
    var id :| id in s.calls && s.calls[id].target == t && s.calls[id].phase.Releasing? && s.calls[id].phase.acknowledged;
    assert [Go(id)][..0] == [];
    assert Run(s, [Go(id)]) == Step(s, Go(id));
    assert Stranded(Run(s, [Go(id)]).value.world, t);
  }

  /** For a complete manifest some continuation leaves the portal frozen and the name given up exactly when a freeze of the
      target is on its way, or the portal is frozen and its release is recorded or due without another thaw. */
  lemma ReleaseStrandsExactly(s: State, t: Target)
    requires Invariant(s) && IsCompleteRow(s.world, t)
    ensures (exists actions :: Run(s, actions).Some? && Stranded(Run(s, actions).value.world, t))
            <==> FreezeInFlight(s.air, t) || Stranding(s, t)
  {
    hide Invariant;
    hide Step;
    if FreezeInFlight(s.air, t) {
      var c :| c in s.air && s.air[c].FreezeOf? && s.air[c].target == t;
      CompleteFacts(s, t);
      FreezeLandsAfterRelease(s, t, c);
    } else if Stranding(s, t) {
      if HoldsName(s.world.manifests[t]) {
        DueReleaseStrands(s, t);
      } else {
        StrandedAtOnce(s, t);
      }
    } else {
      forall actions | Run(s, actions).Some? ensures !Stranded(Run(s, actions).value.world, t) {
        ClosedRun(s, actions, t);
      }
    }
  }

  lemma CompleteFacts(s: State, t: Target)
    requires Invariant(s) && IsCompleteRow(s.world, t)
    ensures !s.world.manifests[t].cancelled && s.nextCall !in s.calls
  {
    hide LogSound;
    assert RowSound(s.world, t);
    assert s.nextCall in s.calls ==> CallSound(s, s.nextCall);
  }

  // ---- The run ----

  /** A world in which the customer can be deleted. */
  ghost predicate Deletable(w: World, t: Target) {
    && t.1 in w.principals && w.principals[t.1].active && w.principals[t.1].identity.Some?
    && Passes(w.directory, CustomerOf(t, w.principals[t.1].identity.value.login), true)
    && IdpUser(w.principals[t.1].identity.value.subject) in w.leftovers
  }

  /** Prepare up to its freeze, which ends unknown; then a whole cancellation; then the freeze lands. */
  function LateRun(t: Target): seq<Action> {
    [Arrive(Prepare, t), Go(0), Go(0), Go(0), Go(0), Go(0), Send(0),
     Arrive(Cancel, t), Go(1), Go(1), Go(1), Go(1), Go(1), Land(0)]
  }

  /** The run's states up to the freeze on its way. */
  ghost function PrepareAt(w: World, t: Target, k: nat): State
    requires Deletable(w, t) && k <= 7
  {
    var i, start := w.principals[t.1].identity.value, Initial(w);
    var m := Manifest(i, Prepared, false, false, 0);
    var filed := start.world.(manifests := map[t := m], nextInstance := 1);
    var held := start.(locks := map[t.0 := 0], nextCall := 1);
    if k == 0 then start
    else if k == 1 then start.(calls := map[0 := Invocation(Prepare, t, Arrived)], nextCall := 1)
    else if k == 2 then held.(calls := map[0 := Invocation(Prepare, t, Locked)])
    else if k == 3 then held.(calls := map[0 := Invocation(Prepare, t, Approving(i))])
    else if k == 4 then held.(calls := map[0 := Invocation(Prepare, t, Vouching(i, 0))], log := [SawOwnership(0, t, true, i.login)])
    else if k == 5 then
      held.(calls := map[0 := Invocation(Prepare, t, Inserting(i, 0, 1))], log := [SawOwnership(0, t, true, i.login), SawCustomer(0, t, i.subject)])
    else if k == 6 then
      held.(calls := map[0 := Invocation(Prepare, t, Freezing(m, 0))], world := filed,
            log := [SawOwnership(0, t, true, i.login), SawCustomer(0, t, i.subject), Filed(0, t, 0, i)])
    else
      start.(nextCall := 1, log := [SawOwnership(0, t, true, i.login), SawCustomer(0, t, i.subject), Filed(0, t, 0, i)], world := filed,
             air := map[0 := FreezeOf(t, 0, 0, i)])
  }

  lemma PrepareArrives(w: World, t: Target, k: nat)
    requires Deletable(w, t) && k < 3
    ensures Step(PrepareAt(w, t, k), LateRun(t)[k]) == Some(PrepareAt(w, t, k + 1))
  {
    hide Passes;
    hide TenantExists;
    var s, s' := PrepareAt(w, t, k), PrepareAt(w, t, k + 1);
    assert s.world.principals == w.principals;
    assert k == 1 ==> s.locks[t.0 := 0] == s'.locks;
    assert s.calls[0 := s'.calls[0]] == s'.calls;
  }

  lemma PrepareOwns(w: World, t: Target)
    requires Deletable(w, t)
    ensures Step(PrepareAt(w, t, 3), Go(0)) == Some(PrepareAt(w, t, 4))
  {
    hide Passes;
    hide TenantExists;
    hide Survey;
    hide Observe;
    hide LockedRead;
    hide Landed;
    hide Sent;
    hide InsertManifest;
    var s, s' := PrepareAt(w, t, 3), PrepareAt(w, t, 4);
    assert s.world.directory == w.directory && s.log + [s'.log[0]] == s'.log && s.calls[0 := s'.calls[0]] == s'.calls;
  }

  lemma PrepareConfirms(w: World, t: Target)
    requires Deletable(w, t)
    ensures Step(PrepareAt(w, t, 4), Go(0)) == Some(PrepareAt(w, t, 5))
  {
    hide Passes;
    hide TenantExists;
    hide Survey;
    hide Observe;
    hide LockedRead;
    hide Landed;
    hide Sent;
    hide InsertManifest;
    var s, s' := PrepareAt(w, t, 4), PrepareAt(w, t, 5);
    assert s.world.leftovers == w.leftovers && s.log + [s'.log[1]] == s'.log && s.calls[0 := s'.calls[0]] == s'.calls;
  }

  lemma PrepareFiles(w: World, t: Target)
    requires Deletable(w, t)
    ensures Step(PrepareAt(w, t, 5), Go(0)) == Some(PrepareAt(w, t, 6))
  {
    hide Passes;
    hide TenantExists;
    var s, s' := PrepareAt(w, t, 5), PrepareAt(w, t, 6);
    assert !GithubTaken(s.world, w.principals[t.1].identity.value.github);
    assert s.world.manifests[t := s'.world.manifests[t]] == s'.world.manifests;
    assert s.log + [s'.log[|s.log|]] == s'.log && s.calls[0 := s'.calls[0]] == s'.calls;
  }

  lemma PrepareSends(w: World, t: Target)
    requires Deletable(w, t)
    ensures Step(PrepareAt(w, t, 6), Send(0)) == Some(PrepareAt(w, t, 7))
  {
    hide Passes;
    hide Proceed;
    var s, s' := PrepareAt(w, t, 6), PrepareAt(w, t, 7);
    assert s.calls - {0} == map[] && s.locks - {t.0} == map[] && s.air[0 := FreezeOf(t, 0, 0, w.principals[t.1].identity.value)] == s'.air;
  }

  lemma PrepareStep(w: World, t: Target, k: nat)
    requires Deletable(w, t) && k < 7
    ensures Step(PrepareAt(w, t, k), LateRun(t)[k]) == Some(PrepareAt(w, t, k + 1))
  {
    hide PrepareAt;
    hide Step;
    hide Deletable;
    if k < 3 {
      PrepareArrives(w, t, k);
    } else if k < 5 {
      PrepareOwns(w, t);
      PrepareConfirms(w, t);
    } else {
      PrepareFiles(w, t);
      PrepareSends(w, t);
    }
  }

  /** And on: nothing is left of the prepared deletion but the freeze. */
  ghost function CancelAt(w: World, t: Target, k: nat): State
    requires Deletable(w, t) && k <= 7
  {
    var start := PrepareAt(w, t, 7);
    var stamped := start.world.(manifests := map[t := Manifest(w.principals[t.1].identity.value, Prepared, true, false, 0)]);
    var held := start.(locks := map[t.0 := 1], nextCall := 2);
    var cancelled := start.log + [Cancelled(1, t, 0, false)];
    if k == 0 then start
    else if k == 1 then start.(calls := map[1 := Invocation(Cancel, t, Arrived)], nextCall := 2)
    else if k == 2 then held.(calls := map[1 := Invocation(Cancel, t, Locked)])
    else if k == 3 then held.(calls := map[1 := Invocation(Cancel, t, Stamping)])
    else if k == 4 then held.(calls := map[1 := Invocation(Cancel, t, Thawing)], world := stamped, log := cancelled)
    else if k == 5 then held.(calls := map[1 := Invocation(Cancel, t, Dropping)], world := stamped, log := cancelled, exposed := {t})
    else if k == 6 then
      start.(nextCall := 2, world := start.world.(manifests := map[]), log := cancelled, exposed := {t})
    else
      start.(nextCall := 2, world := start.world.(manifests := map[], frozen := {t}),
             log := cancelled + [Froze(0, t, 0, w.principals[t.1].identity.value)],
             exposed := {t}, air := map[])
  }

  lemma CancelBegins(w: World, t: Target, k: nat)
    requires Deletable(w, t) && k < 3
    ensures Step(CancelAt(w, t, k), LateRun(t)[7 + k]) == Some(CancelAt(w, t, k + 1))
  {
    hide Passes;
    hide TenantExists;
    var s, s' := CancelAt(w, t, k), CancelAt(w, t, k + 1);
    assert s.locks[t.0 := 1] == (if k == 0 then map[t.0 := 1] else s'.locks);
    assert s.calls[1 := s'.calls[1]] == s'.calls;
  }

  lemma CancelStamps(w: World, t: Target)
    requires Deletable(w, t)
    ensures Step(CancelAt(w, t, 3), Go(1)) == Some(CancelAt(w, t, 4))
  {
    hide Passes;
    hide TenantExists;
    var s, s' := CancelAt(w, t, 3), CancelAt(w, t, 4);
    assert 0 in s.air && s.air[0] == FreezeOf(t, 0, 0, w.principals[t.1].identity.value);
    assert InstanceInFlight(s.air, 0);
    assert s.world.manifests[t := s'.world.manifests[t]] == s'.world.manifests;
    assert s.calls[1 := s'.calls[1]] == s'.calls;
  }

  lemma CancelThaws(w: World, t: Target)
    requires Deletable(w, t)
    ensures Step(CancelAt(w, t, 4), Go(1)) == Some(CancelAt(w, t, 5))
  {
    hide Passes;
    hide TenantExists;
    var s, s' := CancelAt(w, t, 4), CancelAt(w, t, 5);
    assert 0 in s.air && s.air[0] == FreezeOf(t, 0, 0, w.principals[t.1].identity.value);
    assert FreezeInFlight(s.air, t);
    assert s.calls[1 := s'.calls[1]] == s'.calls;
    assert s.world.frozen - {t} == s'.world.frozen && s.exposed + {t} == {t};
  }

  lemma CancelEnds(w: World, t: Target, k: nat)
    requires Deletable(w, t) && 5 <= k < 7
    ensures Step(CancelAt(w, t, k), LateRun(t)[7 + k]) == Some(CancelAt(w, t, k + 1))
  {
    hide Passes;
    hide TenantExists;
    var s := CancelAt(w, t, k);
    assert s.world.manifests - {t} == map[] && s.calls - {1} == map[] && s.locks - {t.0} == map[];
    assert s.air - {0} == map[] && s.world.frozen + {t} == {t};
    var w' := s.world.(manifests := map[]);
    assert k == 5 ==> DropManifest(s.world, t) == Some(w');
    assert k == 6 ==> s.world == w';
  }

  lemma CancelStep(w: World, t: Target, k: nat)
    requires Deletable(w, t) && k < 7
    ensures Step(CancelAt(w, t, k), LateRun(t)[7 + k]) == Some(CancelAt(w, t, k + 1))
  {
    hide CancelAt;
    hide Step;
    hide Deletable;
    if k < 3 {
      CancelBegins(w, t, k);
    } else if k == 3 {
      CancelStamps(w, t);
    } else if k == 4 {
      CancelThaws(w, t);
    } else {
      CancelEnds(w, t, k);
    }
  }

  lemma {:induction false} PrepareRuns(w: World, t: Target, k: nat)
    requires Deletable(w, t) && k <= 7
    ensures Run(Initial(w), LateRun(t)[..k]) == Some(PrepareAt(w, t, k))
  {
    hide Step;
    hide Deletable;
    if k > 0 {
      PrepareRuns(w, t, k - 1);
      PrepareStep(w, t, k - 1);
      assert LateRun(t)[..k][..k - 1] == LateRun(t)[..k - 1];
    } else {
      PrepareStarts(w, t);
    }
  }

  lemma PrepareStarts(w: World, t: Target)
    requires Deletable(w, t)
    ensures PrepareAt(w, t, 0) == Initial(w) && CancelAt(w, t, 0) == PrepareAt(w, t, 7)
  {
  }

  lemma {:induction false} CancelRuns(w: World, t: Target, k: nat)
    requires Deletable(w, t) && k <= 7
    ensures Run(Initial(w), LateRun(t)[..7 + k]) == Some(CancelAt(w, t, k))
  {
    hide Step;
    hide Deletable;
    hide PrepareAt;
    hide CancelAt;
    if k > 0 {
      CancelRuns(w, t, k - 1);
      CancelStep(w, t, k - 1);
      assert LateRun(t)[..7 + k][..7 + k - 1] == LateRun(t)[..7 + (k - 1)];
    } else {
      PrepareRuns(w, t, 7);
      PrepareStarts(w, t);
    }
  }

  /** The run that the conditions above rule out, for every customer who can be deleted: the portal ends frozen with no
      manifest to hold the name, and the freeze follows the recorded cancellation of its manifest. */
  lemma LateFreezeStrands(w: World, t: Target)
    requires Deletable(w, t)
    ensures Run(Initial(w), LateRun(t)).Some?
    ensures var s := Run(Initial(w), LateRun(t)).value;
            && t in s.world.frozen && t in s.exposed && s.world.manifests == map[] && !NamePending(s.world, t.0)
            && |s.log| == 5 && s.log[3..] == [Cancelled(1, t, 0, false), Froze(0, t, 0, w.principals[t.1].identity.value)]
  {
    hide Deletable;
    hide Run;
    CancelRuns(w, t, 7);
    assert LateRun(t)[..14] == LateRun(t);
    EndOfLateRun(w, t);
    hide CancelAt;
  }

  lemma EndOfLateRun(w: World, t: Target)
    requires Deletable(w, t)
    ensures var s := CancelAt(w, t, 7);
            && t in s.world.frozen && t in s.exposed && s.world.manifests == map[]
            && |s.log| == 5 && s.log[3..] == [Cancelled(1, t, 0, false), Froze(0, t, 0, w.principals[t.1].identity.value)]
  {
    hide Passes;
  }
}

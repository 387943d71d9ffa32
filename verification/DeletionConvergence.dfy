/** A deletion that has begun can always be finished, and however often its completion was interrupted, it
    finishes in the same state. */
module DeletionConvergence {
  import opened Wrappers
  import opened Memberships
  import opened Deletion
  import opened DeletionInvariant
  import opened DeletionSafety

  ghost predicate Begun(w: World, t: Target) {
    t in w.manifests && w.manifests[t].status != Prepared
  }

  function AllLeftovers(t: Target, i: Identity): set<Leftover> {
    {IdpUser(i.subject), SiteSessions(i.github, i.subject), PortalData(t), Sessions(t.1)}
  }

  /** The world once the deletion of t is over. */
  ghost function Released(w: World, t: Target): World
    requires t in w.manifests
  {
    w.(manifests := w.manifests[t := w.manifests[t].(status := Complete, released := true)],
       principals := w.principals - {t.1},
       frozen := w.frozen - {t},
       leftovers := w.leftovers - AllLeftovers(t, w.manifests[t].identity))
  }

  // ---- Interrupted passes change nothing about the end ----

  /** What a complete invocation on t may leave on its way. */
  ghost predicate IsRetryEffect(w: World, e: Effect, t: Target)
    requires t in w.manifests
  {
    match e
    case ThawOf(u) => u == t
    case EraseOf(l) => l in AllLeftovers(t, w.manifests[t].identity)
    case _ => false
  }

  /** An action of a complete invocation on t: its arrival, any step, its end at any point, a call of it that ends
      unknown, and the landing or loss of what such a call sent. */
  ghost predicate ByRetry(s: State, a: Action, t: Target) {
    match a
    case Arrive(job, target) => job == Finish && target == t
    case Go(call) => call in s.calls && s.calls[call].job == Finish && s.calls[call].target == t
    case Quit(call) => call in s.calls && s.calls[call].job == Finish && s.calls[call].target == t
    case Send(call) => call in s.calls && s.calls[call].job == Finish && s.calls[call].target == t
    case Land(call) => call in s.air && t in s.world.manifests && IsRetryEffect(s.world, s.air[call], t)
    case Lose(_) => true
    case Other(_) => false
  }

  lemma EraseKeepsEnd(w: World, t: Target, k: nat)
    requires t in w.manifests && k < 4
    ensures var l := LeftoversOf(t, w.manifests[t].identity)[k];
            Released(w.(leftovers := w.leftovers - {l}), t) == Released(w, t)
  {
    var i := w.manifests[t].identity;
    var l := LeftoversOf(t, i)[k];
    assert l in AllLeftovers(t, i);
    assert w.leftovers - {l} - AllLeftovers(t, i) == w.leftovers - AllLeftovers(t, i);
  }

  lemma LandingKeepsEnd(w: World, t: Target, l: Leftover)
    requires t in w.manifests && l in AllLeftovers(t, w.manifests[t].identity)
    ensures Released(w.(leftovers := w.leftovers - {l}), t) == Released(w, t)
    ensures Released(w.(frozen := w.frozen - {t}), t) == Released(w, t)
  {
    var all := AllLeftovers(t, w.manifests[t].identity);
    assert w.leftovers - {l} - all == w.leftovers - all;
    assert w.frozen - {t} - {t} == w.frozen - {t};
  }

  lemma FinishKeepsEnd(w: World, t: Target)
    requires Begun(w, t) && FinishManifest(w, t).Some?
    ensures Begun(FinishManifest(w, t).value, t) && Released(FinishManifest(w, t).value, t) == Released(w, t)
  {
    assert w.principals - {t.1} - {t.1} == w.principals - {t.1};
  }

  lemma ReleaseKeepsEnd(w: World, t: Target)
    requires Begun(w, t)
    ensures Released(w.(frozen := w.frozen - {t}), t) == Released(w, t)
    ensures ReleaseManifest(w, t).Some? ==>
              Begun(ReleaseManifest(w, t).value, t) && Released(ReleaseManifest(w, t).value, t) == Released(w, t)
  {
    assert w.frozen - {t} - {t} == w.frozen - {t};
  }

  function AnyLeftover(t: Target, i: Identity): (l: Leftover)
    ensures l in AllLeftovers(t, i)
  {
    PortalData(t)
  }

  lemma RetryGoKeepsEnd(s: State, call: nat, t: Target)
    requires Invariant(s) && Begun(s.world, t) && call in s.calls && s.calls[call].job == Finish && s.calls[call].target == t
    requires Proceed(s, call).Some?
    ensures Begun(Proceed(s, call).value.world, t) && Released(Proceed(s, call).value.world, t) == Released(s.world, t)
  {
    hide Invariant;
    hide Released;
    hide LogSound;
    hide WorldSound;
    hide Passes;
    hide TenantExists;
    var c := s.calls[call];
    Facts(s, call);
    if c.phase.Erasing? && c.phase.erased < 4 {
      EraseKeepsEnd(s.world, t, c.phase.erased);
    } else if c.phase.Erasing? {
      FinishKeepsEnd(s.world, t);
    } else if c.phase.Releasing? {
      ReleaseKeepsEnd(s.world, t);
    }
  }

  lemma RetryStepKeepsEnd(s: State, a: Action, t: Target)
    requires Invariant(s) && Begun(s.world, t) && ByRetry(s, a, t) && Step(s, a).Some?
    ensures Begun(Step(s, a).value.world, t)
    ensures Released(Step(s, a).value.world, t) == Released(s.world, t)
  {
    hide Invariant;
    hide Released;
    hide LogSound;
    hide WorldSound;
    hide AllLeftovers;
    if a.Go? {
      RetryGoKeepsEnd(s, a.call, t);
    } else if a.Land? {
      var e := s.air[a.call];
      LandingKeepsEnd(s.world, t, if e.EraseOf? then e.leftover else AnyLeftover(t, s.world.manifests[t].identity));
    }
  }

  /** Every action of the run belongs to a complete invocation on t. */
  ghost predicate OnlyRetries(s: State, actions: seq<Action>, t: Target) {
    forall k | 0 <= k < |actions| ::
      Run(s, actions[..k]).Some? && ByRetry(Run(s, actions[..k]).value, actions[k], t)
  }

  lemma {:induction false} RetriesKeepEnd(s: State, actions: seq<Action>, t: Target)
    requires Invariant(s) && Begun(s.world, t) && OnlyRetries(s, actions, t) && Run(s, actions).Some?
    ensures Begun(Run(s, actions).value.world, t)
    ensures Released(Run(s, actions).value.world, t) == Released(s.world, t)
  {
    hide Invariant;
    hide Step;
    hide Released;
    if actions != [] {
      var n := |actions| - 1;
      assert forall k | 0 <= k <= n :: actions[..n][..k] == actions[..k];
      RetriesKeepEnd(s, actions[..n], t);
      RunIsSafe(s, actions[..n]);
      RetryStepKeepsEnd(Run(s, actions[..n]).value, actions[n], t);
    }
  }

  // ---- One uninterrupted pass ----

  ghost function Goes(s: State, call: nat, n: nat): Option<State> {
    if n == 0 then Some(s)
    else
      match Goes(s, call, n - 1)
      case None => None
      case Some(mid) => if call in mid.calls then Proceed(mid, call) else None
  }

  /** Reaching phase p of the call with world w, all other calls and the locks as given. */
  ghost predicate At(s: State, s': Option<State>, call: nat, p: Phase, w: World, locks: map<string, nat>) {
    && s'.Some? && call in s.calls && s'.value.world == w && s'.value.locks == locks && s'.value.nextCall == s.nextCall
    && s'.value.calls == s.calls[call := s.calls[call].(phase := p)]
  }

  /** The system as a pass found it, but for the world. */
  ghost predicate Over(s: State, s': Option<State>, call: nat, w: World, locks: map<string, nat>) {
    s'.Some? && s'.value.world == w && s'.value.locks == locks && s'.value.calls == s.calls - {call} && s'.value.nextCall == s.nextCall
  }

  lemma {:induction false} GoesOn(s: State, call: nat, m: nat, n: nat)
    requires Goes(s, call, m).Some?
    ensures Goes(s, call, m + n) == Goes(Goes(s, call, m).value, call, n)
  {
    hide Proceed;
    if n > 0 {
      GoesOn(s, call, m, n - 1);
      assert m + n - 1 == m + (n - 1);
    }
  }

  /** The conditions outside the saga's control that the last stage waits for. */
  ghost predicate Favourable(w: World, t: Target)
    requires t in w.manifests
  {
    && Passes(w.directory, CustomerOf(t, w.manifests[t].identity.login), false)
    && !TenantExists(w.directory, t.0) && t.0 !in w.platform
  }

  /** The unlocked read, the lock, and the read under it. */
  lemma FirstSteps(s: State, call: nat)
    requires call in s.calls && s.calls[call].job == Finish && s.calls[call].phase == Arrived
    requires var t := s.calls[call].target;
             t in s.world.manifests && s.world.manifests[t].status == Deleting && !s.world.manifests[t].cancelled && t.0 !in s.locks
    ensures var t := s.calls[call].target;
            var s1 := In(s, call, Waiting);
            var s2 := In(s1, call, Locked).(locks := s.locks[t.0 := call]);
            && Proceed(s, call) == Some(s1) && Proceed(s1, call) == Some(s2)
            && Proceed(s2, call) == Some(In(s2, call, Checking(s.world.manifests[t], [])))
  {
    hide Passes;
    hide TenantExists;
    hide FreezeInFlight;
    hide InstanceInFlight;
  }

  lemma ReachesChecking(s: State, call: nat)
    requires call in s.calls && s.calls[call].job == Finish && s.calls[call].phase == Arrived
    requires var t := s.calls[call].target;
             t in s.world.manifests && s.world.manifests[t].status == Deleting && !s.world.manifests[t].cancelled && t.0 !in s.locks
    ensures var t := s.calls[call].target;
            At(s, Goes(s, call, 3), call, Checking(s.world.manifests[t], []), s.world, s.locks[t.0 := call])
  {
    hide Proceed;
    var t := s.calls[call].target;
    var s1 := In(s, call, Waiting);
    var s2 := In(s1, call, Locked).(locks := s.locks[t.0 := call]);
    FirstSteps(s, call);
    assert Goes(s, call, 0) == Some(s) && Goes(s, call, 1) == Some(s1) && Goes(s, call, 2) == Some(s2);
  }

  /** One observation, with the conditions favourable, moves the pass to the next. */
  lemma ObservesNext(s: State, call: nat)
    requires call in s.calls && s.calls[call].phase.Checking? && |s.calls[call].phase.saw| < 3
    requires var t := s.calls[call].target;
             t in s.world.manifests && s.world.manifests[t] == s.calls[call].phase.manifest && Favourable(s.world, t)
    ensures var c := s.calls[call];
            var saw := c.phase.saw + [|s.log|];
            At(s, Proceed(s, call), call,
               if |saw| < 3 then Checking(c.phase.manifest, saw) else Erasing(c.phase.manifest, saw, 0), s.world, s.locks)
  {
  }

  lemma ReachesErasing(s: State, call: nat)
    requires call in s.calls && s.calls[call].phase.Checking? && s.calls[call].phase.saw == []
    requires var t := s.calls[call].target;
             t in s.world.manifests && s.world.manifests[t] == s.calls[call].phase.manifest && Favourable(s.world, t)
    ensures Goes(s, call, 3).Some? && call in Goes(s, call, 3).value.calls
    ensures var p := Goes(s, call, 3).value.calls[call].phase;
            && p.Erasing? && p.manifest == s.calls[call].phase.manifest && p.erased == 0
            && At(s, Goes(s, call, 3), call, p, s.world, s.locks)
  {
    hide Proceed;
    hide Favourable;
    ObservesNext(s, call);
    assert Goes(s, call, 0) == Some(s);
    assert Goes(s, call, 1) == Proceed(s, call);
    ObservesNext(Goes(s, call, 1).value, call);
    ObservesNext(Goes(s, call, 2).value, call);
  }

  ghost function Without(w: World, t: Target, i: Identity, n: nat): World
    requires n <= 4
  {
    if n == 0 then w
    else
      var v := Without(w, t, i, n - 1);
      v.(leftovers := v.leftovers - {LeftoversOf(t, i)[n - 1]})
  }

  lemma ErasesNext(s: State, call: nat)
    requires call in s.calls && s.calls[call].phase.Erasing? && s.calls[call].phase.erased < 4
    ensures var c, w := s.calls[call], s.world;
            At(s, Proceed(s, call), call, c.phase.(erased := c.phase.erased + 1),
               w.(leftovers := w.leftovers - {LeftoversOf(c.target, c.phase.manifest.identity)[c.phase.erased]}), s.locks)
  {
    hide Passes;
    hide TenantExists;
    hide FreezeInFlight;
    hide InstanceInFlight;
  }

  lemma {:induction false} ErasesInOrder(s: State, call: nat, n: nat)
    requires call in s.calls && s.calls[call].phase.Erasing? && s.calls[call].phase.erased == 0 && n <= 4
    ensures var c := s.calls[call];
            At(s, Goes(s, call, n), call, c.phase.(erased := n), Without(s.world, c.target, c.phase.manifest.identity, n), s.locks)
  {
    hide Proceed;
    var c := s.calls[call];
    if n == 0 {
      assert s.calls == s.calls[call := c.(phase := c.phase.(erased := 0))];
    } else {
      ErasesInOrder(s, call, n - 1);
      ErasesNext(Goes(s, call, n - 1).value, call);
    }
  }

  lemma {:induction false} WithoutIsOnlyLess(w: World, t: Target, i: Identity, n: nat)
    requires n <= 4
    ensures Without(w, t, i, n) == w.(leftovers := Without(w, t, i, n).leftovers)
    ensures Without(w, t, i, n).leftovers == w.leftovers - set k | 0 <= k < n :: LeftoversOf(t, i)[k]
  {
    if n > 0 {
      WithoutIsOnlyLess(w, t, i, n - 1);
    }
  }

  ghost function Completed(w: World, t: Target): World
    requires t in w.manifests
  {
    w.(manifests := w.manifests[t := w.manifests[t].(status := Complete)], principals := w.principals - {t.1},
       leftovers := w.leftovers - AllLeftovers(t, w.manifests[t].identity))
  }

  lemma WholeSet(t: Target, i: Identity)
    ensures (set k | 0 <= k < 4 :: LeftoversOf(t, i)[k]) == AllLeftovers(t, i)
  {
    var all := LeftoversOf(t, i);
    assert all[0] == IdpUser(i.subject) && all[1] == SiteSessions(i.github, i.subject) && all[2] == PortalData(t) && all[3] == Sessions(t.1);
  }

  lemma LastErased(s: State, call: nat)
    requires call in s.calls && s.calls[call].phase.Erasing? && s.calls[call].phase.erased == 4
    requires FinishManifest(s.world, s.calls[call].target).Some?
    ensures Proceed(s, call) == Some(In(s.(world := FinishManifest(s.world, s.calls[call].target).value), call, Releasing(false, true)))
  {
    hide Passes;
    hide TenantExists;
  }

  lemma ReachesReleasing(s: State, call: nat)
    requires call in s.calls && s.calls[call].phase.Erasing? && s.calls[call].phase.erased == 0
    requires var t := s.calls[call].target;
             && t in s.world.manifests && s.world.manifests[t] == s.calls[call].phase.manifest
             && s.world.manifests[t].status == Deleting && t.1 in s.world.principals && !s.world.principals[t.1].active
    ensures At(s, Goes(s, call, 5), call, Releasing(false, true), Completed(s.world, s.calls[call].target), s.locks)
  {
    hide Proceed;
    var c, w := s.calls[call], s.world;
    var i := c.phase.manifest.identity;
    ErasesInOrder(s, call, 4);
    WithoutIsOnlyLess(w, c.target, i, 4);
    WholeSet(c.target, i);
    LastErased(Goes(s, call, 4).value, call);
  }

  lemma ReachesEnd(s: State, call: nat)
    requires call in s.calls && s.calls[call].phase.Releasing? && !s.calls[call].phase.acknowledged
    requires var t := s.calls[call].target; t in s.world.manifests && s.world.manifests[t].status == Complete
    ensures var c, w := s.calls[call], s.world;
            Over(s, Goes(s, call, 2), call,
                 w.(manifests := w.manifests[c.target := w.manifests[c.target].(released := true)], frozen := w.frozen - {c.target}),
                 if c.phase.locked then s.locks - {c.target.0} else s.locks)
  {
    var c, w := s.calls[call], s.world;
    assert Goes(s, call, 0) == Some(s);
    assert At(s, Goes(s, call, 1), call, Releasing(true, c.phase.locked), w.(frozen := w.frozen - {c.target}), s.locks);
    assert s.calls[call := c.(phase := Releasing(true, c.phase.locked))] - {call} == s.calls - {call};
  }

  /** The number of calls an uninterrupted complete invocation makes. */
  function PassLength(status: Status): nat {
    if status == Complete then 3 else 13
  }

  lemma ReleasedOfCompleted(w: World, t: Target)
    requires t in w.manifests
    ensures var done := Completed(w, t);
            Released(w, t) == done.(manifests := done.manifests[t := done.manifests[t].(released := true)], frozen := done.frozen - {t})
  {
  }

  lemma DeletingPassReleases(s: State, call: nat)
    requires call in s.calls && s.calls[call].job == Finish && s.calls[call].phase == Arrived
    requires var t := s.calls[call].target;
             && t in s.world.manifests && RowSound(s.world, t) && s.world.manifests[t].status == Deleting
             && t.0 !in s.locks && Favourable(s.world, t)
    ensures Over(s, Goes(s, call, 13), call, Released(s.world, s.calls[call].target), s.locks)
  {
    hide Proceed;
    hide Goes;
    hide Favourable;
    hide Released;
    var t, w := s.calls[call].target, s.world;
    ReachesChecking(s, call);
    var s1 := Goes(s, call, 3).value;
    ReachesErasing(s1, call);
    var s2 := Goes(s1, call, 3).value;
    ReachesReleasing(s2, call);
    var s3 := Goes(s2, call, 5).value;
    ReachesEnd(s3, call);
    GoesOn(s, call, 3, 3);
    GoesOn(s, call, 6, 5);
    GoesOn(s, call, 11, 2);
    ReleasedOfCompleted(w, t);
    var s4 := Goes(s3, call, 2).value;
    assert s4.calls == s.calls - {call};
    assert s4.locks == s.locks;
  }

  /** A complete manifest's customer is already gone everywhere. */
  lemma CompleteIsClean(w: World, t: Target)
    requires t in w.manifests && RowSound(w, t) && w.manifests[t].status == Complete
    ensures !w.manifests[t].cancelled
    ensures Released(w, t) == w.(manifests := w.manifests[t := w.manifests[t].(released := true)], frozen := w.frozen - {t})
  {
    var all := LeftoversOf(t, w.manifests[t].identity);
    assert all[0] !in w.leftovers && all[1] !in w.leftovers && all[2] !in w.leftovers && all[3] !in w.leftovers;
    assert w.leftovers - AllLeftovers(t, w.manifests[t].identity) == w.leftovers;
    assert w.principals - {t.1} == w.principals;
  }

  lemma CompletePassReleases(s: State, call: nat)
    requires call in s.calls && s.calls[call].job == Finish && s.calls[call].phase == Arrived
    requires var t := s.calls[call].target; t in s.world.manifests && RowSound(s.world, t) && s.world.manifests[t].status == Complete
    ensures Over(s, Goes(s, call, 3), call, Released(s.world, s.calls[call].target), s.locks)
  {
    hide RowSound;
    hide Released;
    hide Proceed;
    hide Goes;
    CompleteIsClean(s.world, s.calls[call].target);
    FirstReadReleases(s, call);
    var s1 := In(s, call, Releasing(false, false));
    ReachesEnd(s1, call);
    GoesOn(s, call, 1, 2);
    assert s1.calls - {call} == s.calls - {call};
  }

  lemma FirstReadReleases(s: State, call: nat)
    requires call in s.calls && s.calls[call].job == Finish && s.calls[call].phase == Arrived
    requires var t := s.calls[call].target;
             t in s.world.manifests && s.world.manifests[t].status == Complete && !s.world.manifests[t].cancelled
    ensures Goes(s, call, 1) == Some(In(s, call, Releasing(false, false)))
  {
    assert Proceed(s, call) == Some(In(s, call, Releasing(false, false)));
    assert Goes(s, call, 0) == Some(s);
  }

  lemma RowsAreSound(s: State, t: Target)
    requires Invariant(s) && t in s.world.manifests
    ensures RowSound(s.world, t)
  {
  }

  /** However far earlier complete invocations got, and wherever they were interrupted, one uninterrupted
      invocation ends the deletion in the world that a single clean pass would have reached: manifest
      complete and released, principal removed, portal unfrozen, nothing left at any provider. */
  lemma RetriesConverge(s: State, actions: seq<Action>, t: Target)
    requires Invariant(s) && Begun(s.world, t) && OnlyRetries(s, actions, t) && Run(s, actions).Some?
    requires var mid := Run(s, actions).value;
             t in mid.world.manifests && mid.world.manifests[t].status == Deleting ==> t.0 !in mid.locks && Favourable(mid.world, t)
    ensures Begun(Run(s, actions).value.world, t)
    ensures var mid := Run(s, actions).value;
            var arrived := Step(mid, Arrive(Finish, t)).value;
            var end := Goes(arrived, mid.nextCall, PassLength(mid.world.manifests[t].status));
            Over(arrived, end, mid.nextCall, Released(s.world, t), mid.locks)
  {
    hide Invariant;
    hide Released;
    hide Goes;
    hide Favourable;
    RunIsSafe(s, actions);
    RetriesKeepEnd(s, actions, t);
    var mid := Run(s, actions).value;
    var arrived := Step(mid, Arrive(Finish, t)).value;
    RowsAreSound(mid, t);
    hide RowSound;
    if mid.world.manifests[t].status == Deleting {
      DeletingPassReleases(arrived, mid.nextCall);
    } else {
      CompletePassReleases(arrived, mid.nextCall);
    }
  }

  /** What the end is. */
  lemma ReleasedMeansGone(w: World, t: Target)
    requires t in w.manifests
    ensures var end := Released(w, t);
            && end.manifests[t].status == Complete && end.manifests[t].released && !HoldsName(end.manifests[t])
            && t.1 !in end.principals && t !in end.frozen && Erased(end, t, end.manifests[t].identity, 4)
            && (forall u | u != t :: (u in end.manifests <==> u in w.manifests) && (u in end.frozen <==> u in w.frozen))
            && (forall p | p != t.1 :: p in end.principals <==> p in w.principals)
  {
  }
}

/** Every entry of the saga's log was true of the world, in a state of the very run that logged it. */
module DeletionWitness {
  import opened Wrappers
  import opened Memberships
  import opened Deletion
  import opened DeletionInvariant
  import opened DeletionSafety
  import opened DeletionLate

  // ---- What an entry says of the state that logged it ----

  /** The call is a pass on the target, under the tenant's lock. */
  ghost predicate Under(s: State, call: nat, t: Target) {
    && call in s.calls && s.calls[call].target == t && HoldsLock(s.calls[call].phase)
    && t.0 in s.locks && s.locks[t.0] == call
  }

  /** The target's manifest is this one, filed for this identity. */
  ghost predicate IsFor(w: World, t: Target, instance: nat, approved: Identity) {
    t in w.manifests && w.manifests[t].instance == instance && w.manifests[t].identity == approved
  }

  ghost predicate NoTenant(directory: seq<Tenant>, name: string) {
    forall i | 0 <= i < |directory| :: directory[i].name != name
  }

  ghost predicate WasTrue(s: State, e: Event) {
    var w := s.world;
    match e
    case SawOwnership(call, t, demanded, login) => Under(s, call, t) && Passes(w.directory, Customer(t.0, t.1, login), demanded)
    case SawCustomer(call, t, subject) => Under(s, call, t) && IdpUser(subject) in w.leftovers
    case SawNoAccess(call, t, login) => Under(s, call, t) && Passes(w.directory, Customer(t.0, t.1, login), false)
    case SawNoTenant(call, t) => Under(s, call, t) && NoTenant(w.directory, t.0)
    case SawPlatformGone(call, t) => Under(s, call, t) && t.0 !in w.platform
    case Filed(call, t, instance, approved) =>
      && Under(s, call, t) && t !in w.manifests && instance == w.nextInstance
      && t.1 in w.principals && w.principals[t.1].active && w.principals[t.1].identity == Some(approved)
    case Froze(call, t, instance, approved) =>
      call in s.calls ==> Under(s, call, t) && IsFor(w, t, instance, approved) && Live(w.manifests[t])
    case Began(call, t, instance, first, approved) =>
      && t in w.manifests && w.manifests[t].instance == instance && Live(w.manifests[t])
      && (first <==> w.manifests[t].status == Prepared)
      && (call in s.calls ==> Under(s, call, t) && IsFor(w, t, instance, approved))
    case Cancelled(call, t, instance, _) =>
      Under(s, call, t) && t in w.manifests && w.manifests[t].instance == instance && w.manifests[t].status == Prepared
    case ErasedIdp(call, t, manifest, holder) =>
      && Under(s, call, t) && t in w.manifests && manifest == Some(w.manifests[t]) && w.manifests[t].status == Deleting
      && holder == Some(call)
  }

  /** The step logged nothing, or one entry that was true when it was taken. */
  ghost predicate Tells(s: State, s': State) {
    s'.log == s.log || (|s'.log| == |s.log| + 1 && s.log <= s'.log && WasTrue(s, s'.log[|s.log|]))
  }

  // ---- Every step tells the truth ----

  lemma HolderIsUnder(s: State, call: nat)
    requires call in s.calls && CallSound(s, call) && HoldsLock(s.calls[call].phase)
    ensures Under(s, call, s.calls[call].target)
  {
    hide Knows;
    hide FitsJob;
  }

  lemma VouchTells(s: State, call: nat)
    requires call in s.calls && (s.calls[call].phase.Approving? || s.calls[call].phase.Vouching?) && Vouch(s, call).Some?
    requires Under(s, call, s.calls[call].target)
    ensures Tells(s, Vouch(s, call).value)
  {
    hide Passes;
    hide Under;
  }

  lemma SurveyTells(s: State, call: nat)
    requires call in s.calls && (s.calls[call].phase.Looking? || s.calls[call].phase.Owning? || s.calls[call].phase.Confirming?)
    requires Survey(s, call).Some? && Under(s, call, s.calls[call].target)
    ensures Tells(s, Survey(s, call).value)
  {
    hide Passes;
    hide Under;
  }

  lemma ObserveTells(s: State, call: nat)
    requires call in s.calls && s.calls[call].phase.Checking? && |s.calls[call].phase.saw| < 3 && Observe(s, call).Some?
    requires Under(s, call, s.calls[call].target)
    ensures Tells(s, Observe(s, call).value)
  {
    hide Passes;
    hide Under;
  }

  lemma AskTells(s: State, call: nat)
    requires call in s.calls && CallSound(s, call) && Under(s, call, s.calls[call].target) && Proceed(s, call).Some?
    requires var p := s.calls[call].phase; p.Freezing? || p.Beginning? || p.Revoking? || p.Erasing?
    ensures Tells(s, Proceed(s, call).value)
  {
    hide Under;
    hide Survey;
    hide Vouch;
    hide Observe;
    hide LockedRead;
    hide SawOwned;
    hide SawInOrder;
    hide SameIdentity;
    hide Erased;
    hide LeftoversOf;
    NotedTells(s, call);
    hide Noted;
  }

  lemma NotedTells(s: State, call: nat)
    requires call in s.calls && CallSound(s, call) && Under(s, call, s.calls[call].target)
    ensures Tells(s, Noted(s, call)) && Noted(s, call) == s.(log := Noted(s, call).log)
  {
    hide SawInOrder;
    hide Erased;
    hide FreezeInFlight;
  }

  lemma WriteTells(s: State, call: nat)
    requires call in s.calls && CallSound(s, call) && Under(s, call, s.calls[call].target) && Proceed(s, call).Some?
    requires var p := s.calls[call].phase; p.Inserting? || p.Stamping? || p.Thawing? || p.Dropping?
    ensures Tells(s, Proceed(s, call).value)
  {
    hide Under;
    hide Survey;
    hide Vouch;
    hide Observe;
    hide LockedRead;
    hide GithubTaken;
    hide InstanceInFlight;
    hide FreezeInFlight;
    hide SawOwned;
  }

  lemma QuietTells(s: State, call: nat)
    requires call in s.calls && Proceed(s, call).Some?
    requires var p := s.calls[call].phase; p.Arrived? || p.Waiting? || p.Locked? || p.Releasing?
    ensures Proceed(s, call).value.log == s.log
  {
    hide Survey;
    hide Vouch;
    hide Observe;
    hide FreezeInFlight;
  }

  lemma GoTells(s: State, call: nat)
    requires Invariant(s) && call in s.calls && Proceed(s, call).Some?
    ensures Tells(s, Proceed(s, call).value)
  {
    hide Invariant;
    hide LogSound;
    hide WorldSound;
    hide Under;
    hide WasTrue;
    hide Survey;
    hide Vouch;
    hide Observe;
    Facts(s, call);
    var p := s.calls[call].phase;
    if p.Arrived? || p.Waiting? || p.Locked? || p.Releasing? {
      QuietTells(s, call);
    } else {
      HolderIsUnder(s, call);
      if p.Approving? || p.Vouching? {
        VouchTells(s, call);
      } else if p.Looking? || p.Owning? || p.Confirming? {
        SurveyTells(s, call);
      } else if p.Checking? {
        ObserveTells(s, call);
      } else if p.Inserting? || p.Stamping? || p.Thawing? || p.Dropping? {
        WriteTells(s, call);
      } else {
        AskTells(s, call);
      }
    }
  }

  lemma SendTells(s: State, call: nat)
    requires Invariant(s) && call in s.calls && Sent(s, call).Some?
    ensures Tells(s, Sent(s, call).value)
  {
    hide Invariant;
    hide LogSound;
    hide WorldSound;
    hide Under;
    hide WasTrue;
    Facts(s, call);
    if s.calls[call].phase.Erasing? {
      HolderIsUnder(s, call);
      NotedTells(s, call);
    }
  }

  lemma LandTells(s: State, call: nat)
    requires Invariant(s) && call in s.air
    ensures Tells(s, Step(s, Land(call)).value)
  {
    hide LogSound;
    hide CallsSound;
    hide SameIdentity;
    hide Under;
    assert call !in s.calls;
  }

  lemma StepTells(s: State, a: Action)
    requires Invariant(s) && Step(s, a).Some?
    ensures Tells(s, Step(s, a).value)
  {
    hide Invariant;
    hide Proceed;
    hide Sent;
    hide WasTrue;
    hide Landed;
    match a
    case Go(call) => GoTells(s, call);
    case Send(call) => SendTells(s, call);
    case Land(call) => LandTells(s, call);
    case _ =>
  }

  // ---- Whole runs ----

  /** The state of a run before its n-th action. */
  ghost function At(s: State, actions: seq<Action>, n: nat): Option<State>
    requires n <= |actions|
  {
    Run(s, actions[..n])
  }

  lemma {:induction false} EarlierIsPossible(s: State, actions: seq<Action>, n: nat)
    requires Run(s, actions).Some? && n <= |actions|
    ensures At(s, actions, n).Some?
    decreases |actions|
  {
    hide Step;
    if n < |actions| {
      EarlierIsPossible(s, actions[..|actions| - 1], n);
      assert actions[..|actions| - 1][..n] == actions[..n];
    } else {
      assert actions[..n] == actions;
    }
  }

  lemma AtNext(s: State, actions: seq<Action>, n: nat)
    requires n < |actions| && At(s, actions, n).Some?
    ensures At(s, actions, n + 1) == Step(At(s, actions, n).value, actions[n])
  {
    assert actions[..n + 1][..n] == actions[..n];
  }

  /** The action that logged an entry, and that the entry was true of the state it was taken in. */
  ghost predicate LoggedAt(s: State, actions: seq<Action>, k: nat, e: Event, n: nat) {
    && n < |actions| && At(s, actions, n).Some?
    && |At(s, actions, n).value.log| == k && WasTrue(At(s, actions, n).value, e)
  }

  /** For every run and every entry it logged there is the state in which the entry was true. */
  lemma {:induction false} EntriesWereTrue(s: State, actions: seq<Action>, k: nat) returns (n: nat)
    requires Invariant(s) && Run(s, actions).Some? && |s.log| <= k < |Run(s, actions).value.log|
    ensures LoggedAt(s, actions, k, Run(s, actions).value.log[k], n)
  {
    hide Invariant;
    hide Step;
    hide WasTrue;
    var last := |actions| - 1;
    var before := Run(s, actions[..last]).value;
    RunIsSafe(s, actions[..last]);
    StepTells(before, actions[last]);
    if k < |before.log| {
      n := EntriesWereTrue(s, actions[..last], k);
      assert actions[..last][..n] == actions[..n];
    } else {
      n := last;
    }
  }

  /** The log only grows. */
  lemma {:induction false} LogGrows(s: State, actions: seq<Action>, m: nat, n: nat)
    requires Invariant(s) && Run(s, actions).Some? && m <= n <= |actions|
    ensures At(s, actions, m).Some? && At(s, actions, n).Some? && At(s, actions, m).value.log <= At(s, actions, n).value.log
    decreases n
  {
    hide Invariant;
    hide Run;
    hide Step;
    hide WasTrue;
    EarlierIsPossible(s, actions, m);
    EarlierIsPossible(s, actions, n);
    if m < n {
      LogGrows(s, actions, m, n - 1);
      AtNext(s, actions, n - 1);
      RunIsSafe(s, actions[..n - 1]);
      StepTells(At(s, actions, n - 1).value, actions[n - 1]);
    }
  }

  /** Entries come from actions in the same order. */
  lemma InOrder(s: State, actions: seq<Action>, j: nat, k: nat, e: Event, e': Event, m: nat, n: nat)
    requires Invariant(s) && Run(s, actions).Some? && j < k && LoggedAt(s, actions, j, e, m) && LoggedAt(s, actions, k, e', n)
    ensures m < n
  {
    hide Invariant;
    hide Run;
    hide WasTrue;
    if n <= m { LogGrows(s, actions, n, m); }
  }

  // ---- One pass holds its lock throughout ----

  lemma SentMoves(s: State, call: nat)
    requires call in s.calls && Sent(s, call).Some?
    ensures Moves(s, Sent(s, call).value, call) && call !in Sent(s, call).value.calls
  {
    hide LeftoversOf;
  }

  /** An invocation that is over does not come back. */
  lemma GoneStays(s: State, a: Action, call: nat)
    requires Step(s, a).Some? && call !in s.calls && call < s.nextCall
    ensures call !in Step(s, a).value.calls && call < Step(s, a).value.nextCall
  {
    hide Proceed;
    hide Sent;
    hide Landed;
    match a
    case Go(id) => GoMovesOne(s, id);
    case Send(id) => SentMoves(s, id);
    case Land(id) => LandingTouches(s.(air := s.air - {id}), id, s.air[id]);
    case _ =>
  }

  lemma {:induction false} GoneForGood(s: State, actions: seq<Action>, call: nat, m: nat, n: nat)
    requires Run(s, actions).Some? && m <= n <= |actions| && At(s, actions, m).Some?
    requires call !in At(s, actions, m).value.calls && call < At(s, actions, m).value.nextCall
    ensures At(s, actions, n).Some? && call !in At(s, actions, n).value.calls && call < At(s, actions, n).value.nextCall
    decreases n
  {
    hide Step;
    hide Run;
    EarlierIsPossible(s, actions, n);
    if m < n {
      GoneForGood(s, actions, call, m, n - 1);
      AtNext(s, actions, n - 1);
      GoneStays(At(s, actions, n - 1).value, actions[n - 1], call);
    }
  }

  /** A pass that holds the lock goes on to hold it until it is over. */
  lemma HoldingGoes(s: State, call: nat)
    requires call in s.calls && HoldsLock(s.calls[call].phase) && Proceed(s, call).Some?
    ensures var s' := Proceed(s, call).value; call in s'.calls ==> HoldsLock(s'.calls[call].phase)
  {
    hide Passes;
    hide TenantExists;
    hide InsertManifest;
    hide BeginManifest;
    hide FinishManifest;
    hide ReleaseManifest;
    hide CancelManifest;
    hide DropManifest;
    hide FreezeInFlight;
    hide InstanceInFlight;
    hide LeftoversOf;
  }

  lemma HoldingStays(s: State, a: Action, call: nat, t: Target)
    requires Invariant(s) && Step(s, a).Some? && Under(s, call, t) && call in Step(s, a).value.calls
    ensures Under(Step(s, a).value, call, t)
  {
    hide Invariant;
    hide Proceed;
    hide Sent;
    hide Landed;
    hide LogSound;
    hide WorldSound;
    hide Knows;
    var s' := Step(s, a).value;
    StepKeeps(s, a);
    Facts(s, call);
    Facts(s', call);
    match a
    case Go(id) => GoMovesOne(s, id); if id == call { HoldingGoes(s, call); }
    case Send(id) => SentMoves(s, id);
    case Land(id) => LandingTouches(s.(air := s.air - {id}), id, s.air[id]);
    case _ =>
  }

  /** Between two states in which the pass holds the lock it holds it throughout. */
  lemma {:induction false} HeldBetween(s: State, actions: seq<Action>, call: nat, t: Target, m: nat, i: nat, n: nat)
    requires Invariant(s) && Run(s, actions).Some? && m <= i <= n <= |actions|
    requires At(s, actions, m).Some? && Under(At(s, actions, m).value, call, t)
    requires At(s, actions, n).Some? && call in At(s, actions, n).value.calls
    ensures At(s, actions, i).Some? && Under(At(s, actions, i).value, call, t)
    decreases i
  {
    hide Invariant;
    hide Run;
    hide Step;
    if m < i {
      HeldBetween(s, actions, call, t, m, i - 1, n);
      AtNext(s, actions, i - 1);
      EarlierIsPossible(s, actions, i);
      var before, after := At(s, actions, i - 1).value, At(s, actions, i).value;
      RunIsSafe(s, actions[..i - 1]);
      NumbersAreGiven(before, call);
      if call !in after.calls {
        EndedKeepsNumber(before, actions[i - 1], call);
        GoneForGood(s, actions, call, i, n);
      } else {
        HoldingStays(before, actions[i - 1], call, t);
      }
    }
  }

  lemma NumbersAreGiven(s: State, call: nat)
    requires Invariant(s) && call in s.calls
    ensures call < s.nextCall
  {
    hide LogSound;
    hide WorldSound;
    hide Knows;
    assert CallSound(s, call);
  }

  lemma EndedKeepsNumber(s: State, a: Action, call: nat)
    requires Step(s, a).Some? && call < s.nextCall
    ensures call < Step(s, a).value.nextCall
  {
    hide Proceed;
    hide Sent;
    hide Landed;
    match a
    case Go(id) => GoMovesOne(s, id);
    case Send(id) => SentMoves(s, id);
    case Land(id) => LandingTouches(s.(air := s.air - {id}), id, s.air[id]);
    case _ =>
  }

  // ---- What justified the acts ----

  /** The three observations as states of the run: no access, then no tenant, then no platform, then the request to the
      identity provider, with the pass under the lock from the first to the last. */
  ghost predicate ErasedAfter(s: State, actions: seq<Action>, e: Event, a: nat, b: nat, c: nat, d: nat)
    requires e.ErasedIdp? && Run(s, actions).Some?
  {
    && a < b < c < d < |actions| && (forall n | a <= n <= d :: At(s, actions, n).Some? && Under(At(s, actions, n).value, e.call, e.target))
    && var t, m := e.target, At(s, actions, d).value.world.manifests;
       && t in m && m[t].status == Deleting && !m[t].cancelled
       && Passes(At(s, actions, a).value.world.directory, Customer(t.0, t.1, m[t].identity.login), false)
       && NoTenant(At(s, actions, b).value.world.directory, t.0)
       && t.0 !in At(s, actions, c).value.world.platform
  }

  /** In every run, every request that deletes a customer at the identity provider came after three states of that run in
      which nobody had access by that customer, there was no such tenant, and nothing of it was on the platform. */
  lemma IdpDeletionIsWitnessed(w: World, actions: seq<Action>, k: nat) returns (a: nat, b: nat, c: nat, d: nat)
    requires Run(Initial(w), actions).Some?
    requires k < |Run(Initial(w), actions).value.log| && Run(Initial(w), actions).value.log[k].ErasedIdp?
    ensures ErasedAfter(Initial(w), actions, Run(Initial(w), actions).value.log[k], a, b, c, d)
  {
    hide Invariant;
    hide Run;
    hide Passes;
    hide NoTenant;
    var s, log := Initial(w), Run(Initial(w), actions).value.log;
    var e := log[k];
    var call, t := e.call, e.target;
    InitialIsSound(w);
    IdpDeletionIsJustified(w, actions, k);
    var i, j, l :| SawAllThree(log, k, call, t, e.manifest.value.identity.login, i, j, l);
    a := EntriesWereTrue(s, actions, i);
    b := EntriesWereTrue(s, actions, j);
    c := EntriesWereTrue(s, actions, l);
    d := EntriesWereTrue(s, actions, k);
    InOrder(s, actions, i, j, log[i], log[j], a, b);
    InOrder(s, actions, j, l, log[j], log[l], b, c);
    InOrder(s, actions, l, k, log[l], log[k], c, d);
    forall n | a <= n <= d ensures At(s, actions, n).Some? && Under(At(s, actions, n).value, call, t) {
      HeldBetween(s, actions, call, t, a, n, d);
    }
  }

  /** The ownership check, and where it is needed the confirmation, as states of the run before the act, for the identity
      the act is for. The owner was demanded unless an earlier state had no such tenant. */
  ghost predicate ActedAfter(s: State, actions: seq<Action>, e: Event, absent: nat, owned: nat, confirmed: nat, acted: nat)
    requires IsAct(e) && Run(s, actions).Some?
  {
    && owned < acted < |actions| && (forall n | 0 <= n <= acted :: At(s, actions, n).Some?)
    && var t, i := e.target, e.approved;
       && Under(At(s, actions, owned).value, e.call, t)
       && (|| Passes(At(s, actions, owned).value.world.directory, Customer(t.0, t.1, i.login), true)
           || (&& absent < owned && Under(At(s, actions, absent).value, e.call, t)
               && NoTenant(At(s, actions, absent).value.world.directory, t.0)
               && Passes(At(s, actions, owned).value.world.directory, Customer(t.0, t.1, i.login), false)))
       && (e.Filed? || (e.Began? && e.first) ==>
             && owned < confirmed < acted && Under(At(s, actions, confirmed).value, e.call, t)
             && IdpUser(i.subject) in At(s, actions, confirmed).value.world.leftovers)
       && WasTrue(At(s, actions, acted).value, e)
  }

  /** In every run a manifest is filed, a portal frozen and a deletion begun only after states of that run in which the
      same pass, under the lock, found what it needs. */
  lemma ActsAreWitnessed(w: World, actions: seq<Action>, k: nat) returns (absent: nat, owned: nat, confirmed: nat, acted: nat)
    requires Run(Initial(w), actions).Some?
    requires k < |Run(Initial(w), actions).value.log| && IsAct(Run(Initial(w), actions).value.log[k])
    ensures ActedAfter(Initial(w), actions, Run(Initial(w), actions).value.log[k], absent, owned, confirmed, acted)
  {
    hide Invariant;
    hide Run;
    hide Passes;
    hide NoTenant;
    var s, log := Initial(w), Run(Initial(w), actions).value.log;
    var e := log[k];
    InitialIsSound(w);
    ActsAreJustified(w, actions, k);
    var o: nat, c: nat :| Vouched(log[..k], e, o, c);
    acted := EntriesWereTrue(s, actions, k);
    owned := EntriesWereTrue(s, actions, o);
    InOrder(s, actions, o, k, log[o], e, owned, acted);
    absent, confirmed := 0, 0;
    if !log[o].demanded {
      var j :| 0 <= j < o <= |log[..k]| && log[..k][j] == SawNoTenant(e.call, e.target);
      absent := EntriesWereTrue(s, actions, j);
      InOrder(s, actions, j, o, log[j], log[o], absent, owned);
    }
    if NeedsConfirmed(e) {
      confirmed := EntriesWereTrue(s, actions, c);
      InOrder(s, actions, o, c, log[o], log[c], owned, confirmed);
      InOrder(s, actions, c, k, log[c], e, confirmed, acted);
    }
    forall n | 0 <= n <= acted ensures At(s, actions, n).Some? {
      EarlierIsPossible(s, actions, n);
    }
  }
}

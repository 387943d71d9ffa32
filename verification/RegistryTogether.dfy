/** Bindings, lifecycle moves, publications and promotions in one database. The promotions of store.go and the binding
    transactions of v1alpha2_store.go take the same advisory key, so each kind waits for the other. */
module RegistryTogether {
  import opened Wrappers
  import Registry
  import Releases
  import Bindings = RegistryTransactions
  import Promotions = ReleaseTransactions
  import Safety = RegistrySafety

  type Hash = string -> int

  datatype System = System(bindings: Bindings.System, promotions: Promotions.System)

  const INITIAL := System(Bindings.INITIAL, Promotions.INITIAL)

  /** Both sides read the one table of agents. */
  datatype Step =
    | Declare(agent: string)
    | Binding(binding: Bindings.Step)
    | Promoting(promoting: Promotions.Step)

  /** A binding transaction holds the advisory key. */
  predicate BinderHolds(hash: Hash, s: System, id: nat, key: int) {
    id in s.bindings.open && Bindings.Holds(hash, s.bindings.open[id], Bindings.Advisory(key))
  }

  /** A promotion or rollback of a release holds the advisory key. */
  predicate PromoterHolds(hash: Hash, s: System, id: nat, key: int) {
    && id in s.promotions.open && !s.promotions.open[id].phase.Begun?
    && Promotions.LockOf(hash, s.promotions.open[id]) == key
  }

  /** The key the step is about to lock, if any. */
  function BinderKey(hash: Hash, s: System, id: nat): Option<int> {
    if id !in s.bindings.open then None
    else
      match Bindings.Wants(hash, s.bindings.open[id])
      case Some(Advisory(key)) => Some(key)
      case _ => None
  }

  function PromoterKey(hash: Hash, s: System, id: nat): Option<int> {
    if id in s.promotions.open && s.promotions.open[id].phase.Begun? then Some(Promotions.LockOf(hash, s.promotions.open[id]))
    else None
  }

  ghost predicate Enabled(hash: Hash, s: System, step: Step) {
    match step
    case Declare(_) => true
    case Binding(b) =>
      && !b.Declare? && Bindings.Enabled(hash, s.bindings, b)
      && (b.Advance? && BinderKey(hash, s, b.id).Some? ==>
            forall other :: !PromoterHolds(hash, s, other, BinderKey(hash, s, b.id).value))
    case Promoting(p) =>
      && !p.Declare? && Promotions.Enabled(hash, s.promotions, p)
      && (p.Advance? && PromoterKey(hash, s, p.id).Some? ==>
            forall other :: !BinderHolds(hash, s, other, PromoterKey(hash, s, p.id).value))
  }

  ghost function Apply(hash: Hash, s: System, step: Step): System
    requires Enabled(hash, s, step)
  {
    match step
    case Declare(agent) =>
      System(Bindings.Apply(hash, s.bindings, Bindings.Declare(agent)), Promotions.Apply(hash, s.promotions, Promotions.Declare(agent)))
    case Binding(b) => s.(bindings := Bindings.Apply(hash, s.bindings, b))
    case Promoting(p) => s.(promotions := Promotions.Apply(hash, s.promotions, p))
  }

  ghost predicate Run(hash: Hash, states: seq<System>, steps: seq<Step>) {
    && |states| == |steps| + 1 && states[0] == INITIAL
    && forall i | 0 <= i < |steps| :: Enabled(hash, states[i], steps[i]) && states[i + 1] == Apply(hash, states[i], steps[i])
  }

  // ---- The invariant ----

  /** No key is held by a transaction of each kind. */
  ghost predicate Apart(hash: Hash, s: System) {
    forall a, b, key :: BinderHolds(hash, s, a, key) ==> !PromoterHolds(hash, s, b, key)
  }

  ghost predicate Invariant(hash: Hash, s: System) {
    && Bindings.Invariant(hash, s.bindings) && Promotions.Invariant(hash, s.promotions) && Apart(hash, s)
    && s.bindings.db.agents == s.promotions.tables.agents
  }

  lemma BindingAgents(hash: Hash, s: Bindings.System, step: Bindings.Step)
    requires Bindings.Enabled(hash, s, step) && !step.Declare?
    ensures Bindings.Apply(hash, s, step).db.agents == s.db.agents
  {
  }

  lemma PromotingAgents(hash: Hash, s: Promotions.System, step: Promotions.Step)
    requires Promotions.Enabled(hash, s, step) && !step.Declare?
    ensures Promotions.Apply(hash, s, step).tables.agents == s.tables.agents
  {
  }

  /** A step of a binder gains at most the key it waited for. */
  lemma BindingKeys(hash: Hash, s: System, step: Bindings.Step, id: nat, key: int)
    requires Bindings.Enabled(hash, s.bindings, step) && Bindings.Invariant(hash, s.bindings)
    requires BinderHolds(hash, s.(bindings := Bindings.Apply(hash, s.bindings, step)), id, key)
    ensures BinderHolds(hash, s, id, key) || (step == Bindings.Advance(id) && BinderKey(hash, s, id) == Some(key))
  {
    if step == Bindings.Advance(id) {
      assert Bindings.GoodTransaction(s.bindings, s.bindings.open[id]);
      Safety.LocksAfterAdvance(hash, s.bindings, s.bindings.open[id], Bindings.Advisory(key));
    }
  }

  lemma PromotingKeys(hash: Hash, s: System, step: Promotions.Step, id: nat, key: int)
    requires Promotions.Enabled(hash, s.promotions, step)
    requires PromoterHolds(hash, s.(promotions := Promotions.Apply(hash, s.promotions, step)), id, key)
    ensures PromoterHolds(hash, s, id, key) || (step == Promotions.Advance(id) && PromoterKey(hash, s, id) == Some(key))
  {
  }

  lemma StaysApart(hash: Hash, s: System, step: Step)
    requires Invariant(hash, s) && Enabled(hash, s, step)
    ensures Apart(hash, Apply(hash, s, step))
  {
    hide Bindings.Apply;
    hide Promotions.Apply;
    hide Bindings.Invariant;
    hide Promotions.Invariant;
    hide Bindings.Enabled;
    hide Promotions.Enabled;
    hide BinderHolds;
    hide PromoterHolds;
    hide BinderKey;
    hide PromoterKey;
    var s' := Apply(hash, s, step);
    forall a, b, key | BinderHolds(hash, s', a, key) ensures !PromoterHolds(hash, s', b, key) {
      match step
      case Declare(agent) => DeclareMovesNobody(hash, s, agent, a, b, key);
      case Binding(step) => BindingKeys(hash, s, step, a, key); SamePromoters(hash, s, s', b, key);
      case Promoting(step) =>
        SameBinders(hash, s, s', a, key);
        if PromoterHolds(hash, s', b, key) { PromotingKeys(hash, s, step, b, key); }
    }
  }

  lemma DeclareMovesNobody(hash: Hash, s: System, agent: string, a: nat, b: nat, key: int)
    ensures var s' := Apply(hash, s, Declare(agent));
            BinderHolds(hash, s', a, key) == BinderHolds(hash, s, a, key) && PromoterHolds(hash, s', b, key) == PromoterHolds(hash, s, b, key)
  {
  }

  lemma SamePromoters(hash: Hash, s: System, s': System, id: nat, key: int)
    requires s'.promotions == s.promotions
    ensures PromoterHolds(hash, s', id, key) == PromoterHolds(hash, s, id, key)
  {
  }

  lemma SameBinders(hash: Hash, s: System, s': System, id: nat, key: int)
    requires s'.bindings == s.bindings
    ensures BinderHolds(hash, s', id, key) == BinderHolds(hash, s, id, key)
  {
  }

  lemma StepKeeps(hash: Hash, s: System, step: Step)
    requires Invariant(hash, s) && Enabled(hash, s, step)
    ensures Invariant(hash, Apply(hash, s, step))
  {
    hide Apart;
    hide Bindings.Invariant;
    hide Promotions.Invariant;
    StaysApart(hash, s, step);
    match step
    case Declare(agent) =>
      Safety.StepKeeps(hash, s.bindings, Bindings.Declare(agent));
      Promotions.QuietStepKeeps(hash, s.promotions, Promotions.Declare(agent));
    case Binding(b) => Safety.StepKeeps(hash, s.bindings, b); BindingAgents(hash, s.bindings, b);
    case Promoting(p) =>
      PromotingAgents(hash, s.promotions, p);
      if p.Commit? { Promotions.CommitKeeps(hash, s.promotions, p.id); } else { Promotions.QuietStepKeeps(hash, s.promotions, p); }
  }

  /** Every state of every combined run satisfies both invariants, and no advisory key has two holders of any kind. */
  lemma {:induction false} RunIsSafe(hash: Hash, states: seq<System>, steps: seq<Step>, j: nat)
    requires Run(hash, states, steps) && j < |states|
    ensures Invariant(hash, states[j])
  {
    hide Apply;
    hide Enabled;
    if j > 0 {
      RunIsSafe(hash, states, steps, j - 1);
      StepKeeps(hash, states[j - 1], steps[j - 1]);
    } else {
      StartsSound(hash);
    }
  }

  lemma StartsSound(hash: Hash)
    ensures Invariant(hash, INITIAL)
  {
    var one := [Bindings.INITIAL];
    assert Bindings.Run(hash, one, []);
    Safety.RunIsSafe(hash, one, [], 0, 0);
  }

  /** So a binding transaction and a promotion never work on the same agent and environment at once. */
  lemma ScopesDiffer(hash: Hash, s: System, a: nat, b: nat)
    requires Invariant(hash, s) && a in s.bindings.open && b in s.promotions.open
    requires Bindings.HoldsAdvisory(s.bindings.open[a]) && !s.promotions.open[b].phase.Begun?
    ensures s.bindings.open[a].work.request.scope != s.promotions.open[b].ask.scope
  {
    hide Bindings.Invariant;
    hide Promotions.Invariant;
    var key := Promotions.LockOf(hash, s.promotions.open[b]);
    assert PromoterHolds(hash, s, b, key);
    assert !BinderHolds(hash, s, a, key);
  }

  // ---- Serial equivalence ----

  datatype Operation =
    | Declared(agent: string)
    | Registered(operation: Safety.Operation)
    | VersionPublished(key: Releases.Key)
    | Promoted(ask: Releases.Ask, id: nat)

  datatype Tables = Tables(registry: Registry.Database, releases: Releases.Tables)

  /** One operation alone on the whole database. */
  function Perform(t: Tables, op: Operation): Option<Tables> {
    match op
    case Declared(agent) =>
      Some(Tables(t.registry.(agents := t.registry.agents + {agent}), t.releases.(agents := t.releases.agents + {agent})))
    case Registered(o) =>
      var r := Safety.Perform(t.registry, o);
      if r.Ok? then Some(t.(registry := r.value)) else None
    case VersionPublished(key) =>
      var r := Releases.HandlePublish(t.releases, key);
      if r.Ok? then Some(t.(releases := r.value)) else None
    case Promoted(ask, id) =>
      var r := Releases.Perform(t.releases, ask, id);
      if r.Ok? then Some(t.(releases := Releases.After(t.releases, r.value))) else None
  }

  function PerformAll(t: Tables, ops: seq<Operation>): Option<Tables> {
    if ops == [] then Some(t)
    else
      match PerformAll(t, ops[..|ops| - 1])
      case None => None
      case Some(mid) => Perform(mid, ops[|ops| - 1])
  }

  function TablesOf(s: System): Tables {
    Tables(s.bindings.db, s.promotions.tables)
  }

  /** The operation a step makes visible, if any. */
  ghost function Visible(hash: Hash, s: System, step: Step): Option<Operation>
    requires Enabled(hash, s, step)
  {
    match step
    case Declare(agent) => Some(Declared(agent))
    case Binding(b) =>
      (match Safety.Visible(s.bindings, b)
       case Some(o) => Some(Registered(o))
       case None => None)
    case Promoting(PublishStep(key)) => Some(VersionPublished(key))
    case Promoting(Commit(id)) =>
      var t := s.promotions.open[id];
      Some(Promoted(t.ask, if t.phase.Recorded? then t.phase.row.id else s.promotions.nextId))
    case Promoting(_) => None
  }

  /** Each step's visible effect is one whole operation run alone on the whole database of that instant. */
  lemma StepIsAtomic(hash: Hash, s: System, step: Step)
    requires Invariant(hash, s) && Enabled(hash, s, step)
    ensures match Visible(hash, s, step)
            case None => TablesOf(Apply(hash, s, step)) == TablesOf(s)
            case Some(op) => Perform(TablesOf(s), op) == Some(TablesOf(Apply(hash, s, step)))
  {
    hide Bindings.Invariant;
    hide Promotions.Invariant;
    hide Safety.Perform;
    hide Releases.Perform;
    if step.Binding? {
      Safety.StepIsAtomic(hash, s.bindings, step.binding);
    } else if step.Promoting? && step.promoting.Commit? {
      Promotions.CommitIsAtomic(hash, s.promotions, step.promoting.id);
    }
  }

  ghost function VisibleAll(hash: Hash, states: seq<System>, steps: seq<Step>): seq<Operation>
    requires Run(hash, states, steps)
    decreases |steps|
  {
    if steps == [] then []
    else
      var n := |steps| - 1;
      assert Run(hash, states[..n + 1], steps[..n]);
      VisibleAll(hash, states[..n + 1], steps[..n]) +
      match Visible(hash, states[n], steps[n])
      case None => []
      case Some(op) => [op]
  }

  /** Every combined run is serializable: both sides' tables are those of one order of whole operations. */
  lemma {:induction false} RunIsSerial(hash: Hash, states: seq<System>, steps: seq<Step>)
    requires Run(hash, states, steps)
    ensures PerformAll(TablesOf(INITIAL), VisibleAll(hash, states, steps)) == Some(TablesOf(states[|steps|]))
    decreases |steps|
  {
    hide Apply;
    hide Perform;
    hide Visible;
    hide Invariant;
    hide Enabled;
    hide TablesOf;
    if steps != [] {
      var n := |steps| - 1;
      assert Run(hash, states[..n + 1], steps[..n]);
      RunIsSerial(hash, states[..n + 1], steps[..n]);
      RunIsSafe(hash, states, steps, n);
      StepIsAtomic(hash, states[n], steps[n]);
      var before := VisibleAll(hash, states[..n + 1], steps[..n]);
      if Visible(hash, states[n], steps[n]).Some? {
        var all := before + [Visible(hash, states[n], steps[n]).value];
        assert all[..|all| - 1] == before;
      } else {
        assert before + [] == before;
      }
    }
  }

  // ---- No deadlock ----

  /** An open transaction of either kind. */
  datatype Who = Binder(id: nat) | Promoter(id: nat)

  predicate IsOpen(s: System, a: Who) {
    if a.Binder? then a.id in s.bindings.open else a.id in s.promotions.open
  }

  /** `a` waits for a lock that `b` holds. */
  ghost predicate WaitsFor(hash: Hash, s: System, a: Who, b: Who) {
    && IsOpen(s, a) && IsOpen(s, b)
    && match (a, b)
       case (Binder(x), Binder(y)) => Safety.WaitsFor(hash, s.bindings, x, y)
       case (Binder(x), Promoter(y)) => BinderKey(hash, s, x).Some? && PromoterHolds(hash, s, y, BinderKey(hash, s, x).value)
       case (Promoter(x), Binder(y)) => PromoterKey(hash, s, x).Some? && BinderHolds(hash, s, y, PromoterKey(hash, s, x).value)
       case (Promoter(x), Promoter(y)) => x != y && PromoterKey(hash, s, x).Some? && PromoterHolds(hash, s, y, PromoterKey(hash, s, x).value)
  }

  /** Only the waits hold a transaction's next statement back. */
  lemma AdvancesExactly(hash: Hash, s: System, a: Who)
    requires IsOpen(s, a)
    ensures a.Binder? ==>
              (Enabled(hash, s, Binding(Bindings.Advance(a.id))) <==>
               Bindings.Next(s.bindings, s.bindings.open[a.id]).Some? && forall other :: !WaitsFor(hash, s, a, other))
    ensures a.Promoter? ==>
              (Enabled(hash, s, Promoting(Promotions.Advance(a.id))) <==>
               Promotions.Next(s.promotions, s.promotions.open[a.id]).Some? && forall other :: !WaitsFor(hash, s, a, other))
  {
    hide Bindings.Next;
    hide Promotions.Next;
    if a.Binder? {
      BinderWaits(hash, s, a.id);
    } else {
      PromoterWaits(hash, s, a.id);
    }
  }

  lemma BinderWaits(hash: Hash, s: System, id: nat)
    requires id in s.bindings.open
    ensures (exists other :: WaitsFor(hash, s, Binder(id), other)) <==>
            || (exists other :: BinderKey(hash, s, id).Some? && PromoterHolds(hash, s, other, BinderKey(hash, s, id).value))
            || (Bindings.Wants(hash, s.bindings.open[id]).Some?
                && !Bindings.Available(hash, s.bindings, id, Bindings.Wants(hash, s.bindings.open[id]).value))
  {
    hide Bindings.Holds;
    hide Bindings.Conflict;
    hide Bindings.Wants;
    hide BinderKey;
    if other :| BinderKey(hash, s, id).Some? && PromoterHolds(hash, s, other, BinderKey(hash, s, id).value) {
      assert WaitsFor(hash, s, Binder(id), Promoter(other));
    }
    var wants := Bindings.Wants(hash, s.bindings.open[id]);
    if wants.Some? && !Bindings.Available(hash, s.bindings, id, wants.value) {
      var other, held :| other in s.bindings.open && other != id && Bindings.Holds(hash, s.bindings.open[other], held)
                         && Bindings.Conflict(wants.value, held);
      assert WaitsFor(hash, s, Binder(id), Binder(other));
    }
  }

  lemma PromoterWaits(hash: Hash, s: System, id: nat)
    requires id in s.promotions.open
    ensures (exists other :: WaitsFor(hash, s, Promoter(id), other)) <==>
            || (exists other :: PromoterKey(hash, s, id).Some? && BinderHolds(hash, s, other, PromoterKey(hash, s, id).value))
            || (s.promotions.open[id].phase.Begun?
                && exists other | other in s.promotions.open && other != id && !s.promotions.open[other].phase.Begun? ::
                     Promotions.LockOf(hash, s.promotions.open[other]) == Promotions.LockOf(hash, s.promotions.open[id]))
  {
    hide BinderHolds;
    var key := Promotions.LockOf(hash, s.promotions.open[id]);
    if s.promotions.open[id].phase.Begun? {
      forall other | BinderHolds(hash, s, other, key) ensures WaitsFor(hash, s, Promoter(id), Binder(other)) {
        BinderIsOpen(hash, s, other, key);
      }
      if other :| other in s.promotions.open && other != id && !s.promotions.open[other].phase.Begun?
                  && Promotions.LockOf(hash, s.promotions.open[other]) == key {
        assert WaitsFor(hash, s, Promoter(id), Promoter(other));
      }
    }
  }

  lemma BinderIsOpen(hash: Hash, s: System, id: nat, key: int)
    requires BinderHolds(hash, s, id, key)
    ensures IsOpen(s, Binder(id))
  {
  }

  function Level(hash: Hash, s: System, a: Who): nat
    requires IsOpen(s, a)
  {
    if a.Binder? then Safety.Level(hash, s.bindings.open[a.id])
    else if s.promotions.open[a.id].phase.Begun? then 0
    else 3
  }

  /** Whoever is waited for waits, if at all, for a later lock. */
  lemma WaitsGoUp(hash: Hash, s: System, a: Who, b: Who)
    requires Invariant(hash, s) && WaitsFor(hash, s, a, b)
    ensures Level(hash, s, a) < Level(hash, s, b)
  {
    hide Bindings.Invariant;
    hide Promotions.Invariant;
    if a.Binder? && b.Binder? { Safety.WaitsGoUp(hash, s.bindings, a.id, b.id); }
  }

  ghost predicate WaitChain(hash: Hash, s: System, chain: seq<Who>) {
    forall i | 0 <= i < |chain| - 1 :: WaitsFor(hash, s, chain[i], chain[i + 1])
  }

  lemma {:induction false} ChainGoesUp(hash: Hash, s: System, chain: seq<Who>)
    requires Invariant(hash, s) && WaitChain(hash, s, chain) && |chain| >= 2
    ensures IsOpen(s, chain[0]) && IsOpen(s, chain[|chain| - 1])
    ensures Level(hash, s, chain[0]) < Level(hash, s, chain[|chain| - 1])
    decreases |chain|
  {
    hide Invariant;
    hide Level;
    var n := |chain| - 1;
    assert WaitsFor(hash, s, chain[n - 1], chain[n]);
    WaitsGoUp(hash, s, chain[n - 1], chain[n]);
    if n >= 2 {
      ChainGoesUp(hash, s, chain[..n]);
    }
  }

  /** No chain of waits, through binders and promoters in any order, closes into a cycle. */
  lemma NoDeadlock(hash: Hash, s: System, chain: seq<Who>)
    requires Invariant(hash, s) && WaitChain(hash, s, chain) && |chain| >= 2
    ensures chain[0] != chain[|chain| - 1]
  {
    hide Invariant;
    ChainGoesUp(hash, s, chain);
  }

  /** While a transaction of either kind is open, some open transaction waits for nobody of either kind. */
  lemma {:induction false} SomeoneCanProceed(hash: Hash, s: System, a: Who) returns (free: Who)
    requires Invariant(hash, s) && IsOpen(s, a)
    ensures IsOpen(s, free) && forall other :: !WaitsFor(hash, s, free, other)
    decreases 3 - Level(hash, s, a)
  {
    hide Invariant;
    if other :| WaitsFor(hash, s, a, other) {
      WaitsGoUp(hash, s, a, other);
      free := SomeoneCanProceed(hash, s, other);
    } else {
      free := a;
    }
  }
}

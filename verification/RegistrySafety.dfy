/** Safety of every interleaving of the registry's transactions: the invariant is inductive,
    each commit is the atomic transaction run alone at that instant, and no wait is circular. */
module RegistrySafety {
  import opened Wrappers
  import opened Semver
  import opened Registry
  import opened RegistryLedger
  import opened RegistryTransactions

  // ---- A commit is its atomic transaction ----

  /** At its commit, an interleaved binding transaction has written exactly the row the atomic one would. */
  lemma BindCommitIsAtomic(hash: Hash, s: System, id: nat)
    requires Invariant(hash, s) && id in s.open && s.open[id].work.BindWork? && ReadyToCommit(s.open[id])
    ensures var request, row := s.open[id].work.request, s.open[id].phase.row;
            FreshId(s.db.bindings, request.scope, row.id) && Bind(s.db, request, row.id) == Ok(row)
  {
    hide RangeOf;
    hide VersionOf;
    assert GoodTransaction(s, s.open[id]);
    InsertNeverRefused(s.db, s.open[id].work.request, s.open[id].phase.row.id);
  }

  /** The INSERT of a numbered transaction never hits a constraint, and never waits on another's uncommitted row. */
  lemma InsertAlwaysSucceeds(hash: Hash, s: System, id: nat)
    requires Invariant(hash, s) && id in s.open && s.open[id].work.BindWork? && s.open[id].phase.Numbered?
    ensures Next(s, s.open[id]).Some?
    ensures forall other | other in s.open && s.open[other].phase.Inserted? && s.open[other].work.BindWork? ::
              s.open[other].phase.row.id != s.nextId && s.open[other].work.request.scope != s.open[id].work.request.scope
  {
    hide RangeOf;
    hide VersionOf;
    var t := s.open[id];
    assert GoodTransaction(s, t);
    assert FreshId(s.db.bindings, t.work.request.scope, s.nextId);
    InsertNeverRefused(s.db, t.work.request, s.nextId);
    forall other | other in s.open && s.open[other].phase.Inserted? && s.open[other].work.BindWork?
      ensures s.open[other].phase.row.id != s.nextId && s.open[other].work.request.scope != t.work.request.scope
    {
      assert GoodTransaction(s, s.open[other]);
      GuardedScopesDiffer(hash, s, id, other);
    }
  }

  lemma GuardedScopesDiffer(hash: Hash, s: System, a: nat, b: nat)
    requires Exclusive(hash, s) && a in s.open && b in s.open && a != b
    requires HoldsAdvisory(s.open[a]) && HoldsAdvisory(s.open[b])
    ensures s.open[a].work.request.scope != s.open[b].work.request.scope
  {
    var x := AdvisoryLock(hash, s.open[a].work.request.scope);
    var y := AdvisoryLock(hash, s.open[b].work.request.scope);
    assert Holds(hash, s.open[a], x) && Holds(hash, s.open[b], y);
    assert !Conflict(x, y);
  }

  // ---- The invariant is inductive ----

  /** Rows present before are present, unchanged, after. */
  ghost predicate OnlyAdds(before: Database, after: Database) {
    && after.bindings == before.bindings
    && (forall k | k in before.definitions :: k in after.definitions && after.definitions[k] == before.definitions[k])
    && (forall k | k in before.profiles :: k in after.profiles && after.profiles[k] == before.profiles[k])
  }

  lemma AdditionKeepsTransaction(s: System, after: System, t: Transaction)
    requires OnlyAdds(s.db, after.db) && after.nextId >= s.nextId && GoodTransaction(s, t)
    ensures GoodTransaction(after, t)
  {
  }

  lemma DeclareKeeps(db: Database, agent: string)
    requires Valid(db)
    ensures var after := db.(agents := db.agents + {agent});
            Valid(after) && Grows(db, after) && OnlyAdds(db, after)
  {
    hide RangeOf;
    hide VersionOf;
    var after := db.(agents := db.agents + {agent});
    forall k | k in after.definitions ensures GoodDefinition(after, k, after.definitions[k]) {
      assert GoodDefinition(db, k, db.definitions[k]);
    }
    AllSoundMonotone(db, after);
  }

  lemma TableStepKeeps(hash: Hash, s: System, step: Step)
    requires Invariant(hash, s) && Enabled(hash, s, step)
    requires step.Declare? || step.PublishDefinitionStep? || step.PublishProfileStep?
    ensures Invariant(hash, Apply(hash, s, step)) && Grows(s.db, Apply(hash, s, step).db)
  {
    hide RangeOf;
    hide VersionOf;
    hide Grows;
    hide Valid;
    hide GoodTransaction;
    var after := Apply(hash, s, step);
    match step {
      case Declare(agent) => DeclareKeeps(s.db, agent);
      case PublishDefinitionStep(d) => PublishDefinitionKeeps(s.db, d);
      case PublishProfileStep(p) => PublishProfileKeeps(s.db, p);
    }
    forall id | id in after.open ensures GoodTransaction(after, after.open[id]) {
      AdditionKeepsTransaction(s, after, s.open[id]);
    }
  }

  lemma LocksAfterAdvance(hash: Hash, s: System, t: Transaction, lock: Lock)
    requires GoodTransaction(s, t) && Next(s, t).Some?
    requires Holds(hash, t.(phase := Next(s, t).value), lock)
    ensures Holds(hash, t, lock) || Wants(hash, t) == Some(lock)
  {
  }

  lemma AdvancedPhaseIsGood(s: System, t: Transaction)
    requires Valid(s.db) && IdsDrawn(s) && GoodTransaction(s, t) && Next(s, t).Some?
    ensures var phase := Next(s, t).value;
            GoodTransaction(s.(nextId := if phase.Inserted? then s.nextId + 1 else s.nextId), t.(phase := phase))
  {
    hide RangeOf;
    hide VersionOf;
  }

  lemma AdvanceKeepsExclusive(hash: Hash, s: System, id: nat)
    requires Invariant(hash, s) && Enabled(hash, s, Advance(id))
    ensures Exclusive(hash, Apply(hash, s, Advance(id)))
  {
    hide RangeOf;
    hide VersionOf;
    hide Next;
    hide Valid;
    hide GoodTransaction;
    var after := Apply(hash, s, Advance(id));
    forall a, b, x, y | a in after.open && b in after.open && a != b && Holds(hash, after.open[a], x) && Holds(hash, after.open[b], y)
      ensures !Conflict(x, y)
    {
      if a == id {
        LocksAfterAdvance(hash, s, s.open[id], x);
      } else if b == id {
        LocksAfterAdvance(hash, s, s.open[id], y);
        ConflictIsSymmetric(x, y);
      }
    }
  }

  lemma ConflictIsSymmetric(a: Lock, b: Lock)
    ensures Conflict(a, b) == Conflict(b, a)
  {
  }

  lemma AdvanceKeeps(hash: Hash, s: System, id: nat)
    requires Invariant(hash, s) && Enabled(hash, s, Advance(id))
    ensures Invariant(hash, Apply(hash, s, Advance(id)))
  {
    hide RangeOf;
    hide VersionOf;
    hide Valid;
    var t, after := s.open[id], Apply(hash, s, Advance(id));
    AdvanceKeepsExclusive(hash, s, id);
    AdvancedPhaseIsGood(s, t);
    assert GoodTransaction(after, after.open[id]);
    forall other | other in after.open ensures GoodTransaction(after, after.open[other]) {
      if other != id {
        AdditionKeepsTransaction(s, after, s.open[other]);
      }
    }
    AdvanceKeepsDistinct(hash, s, id);
  }

  lemma AdvanceKeepsDistinct(hash: Hash, s: System, id: nat)
    requires Invariant(hash, s) && Enabled(hash, s, Advance(id))
    ensures DistinctRows(Apply(hash, s, Advance(id)))
  {
    hide RangeOf;
    hide VersionOf;
    hide Valid;
    hide Exclusive;
    hide GoodTransaction;
    var after := Apply(hash, s, Advance(id));
    forall a | a in s.open && s.open[a].phase.Inserted? ensures s.open[a].phase.row.id < s.nextId {
      InsertedIdIsDrawn(s, s.open[a]);
    }
    assert after.open[id].phase.Inserted? ==> after.open[id].phase.row.id == s.nextId;
  }

  lemma InsertedIdIsDrawn(s: System, t: Transaction)
    requires GoodTransaction(s, t) && t.phase.Inserted?
    ensures t.phase.row.id < s.nextId
  {
  }

  // ---- Commits ----

  lemma {:induction false} OtherScopeUnaffected(rows: seq<Binding>, b: Binding, scope: Scope, revision: int)
    requires ScopeOf(b) != scope
    ensures NextRevision(rows + [b], scope) == NextRevision(rows, scope)
    ensures AtRevision(rows + [b], scope, revision) == AtRevision(rows, scope, revision)
  {
  }

  /** What a binding transaction knows survives when its scope and the version tables stand still. */
  lemma PhaseCarriesOver(s: System, s': System, request: Request, phase: Phase)
    requires GoodPhase(s, request, phase)
    requires s'.db.definitions == s.db.definitions && s'.db.profiles == s.db.profiles && s'.nextId == s.nextId
    requires DraftOf(s'.db.bindings, request) == DraftOf(s.db.bindings, request)
    requires NextRevision(s'.db.bindings, request.scope) == NextRevision(s.db.bindings, request.scope)
    requires phase.Inserted? ==> FreshId(s'.db.bindings, request.scope, phase.row.id)
    ensures GoodPhase(s', request, phase)
  {
    hide CheckPair;
    hide DraftOf;
    hide NextRevision;
    hide FreshId;
  }

  lemma BindCommitKeepsOther(hash: Hash, s: System, id: nat, other: nat)
    requires Invariant(hash, s) && Enabled(hash, s, Commit(id)) && s.open[id].work.BindWork?
    requires other in s.open && other != id
    ensures GoodTransaction(Apply(hash, s, Commit(id)), s.open[other])
  {
    hide Valid;
    hide Exclusive;
    hide FreshId;
    hide CheckPair;
    var row, t, after := s.open[id].phase.row, s.open[other], Apply(hash, s, Commit(id));
    assert GoodTransaction(s, s.open[id]) && GoodTransaction(s, t);
    if HoldsAdvisory(t) {
      GuardedScopesDiffer(hash, s, id, other);
      var request := t.work.request;
      OtherScopeUnaffected(s.db.bindings, row, request.scope, if request.Rollback? then request.revision else 0);
      assert DraftOf(after.db.bindings, request) == DraftOf(s.db.bindings, request);
      if t.phase.Inserted? { OtherScopeFresh(s.db.bindings, row, request.scope, t.phase.row.id); }
      PhaseCarriesOver(s, after, request, t.phase);
    }
  }

  lemma OtherScopeFresh(rows: seq<Binding>, row: Binding, scope: Scope, id: nat)
    requires !InScope(row, scope) && FreshId(rows, scope, id) && row.id != id
    ensures FreshId(rows + [row], scope, id)
  {
  }

  lemma BindCommitKeeps(hash: Hash, s: System, id: nat)
    requires Invariant(hash, s) && Enabled(hash, s, Commit(id)) && s.open[id].work.BindWork?
    ensures Invariant(hash, Apply(hash, s, Commit(id))) && Grows(s.db, Apply(hash, s, Commit(id)).db)
  {
    hide RangeOf;
    hide VersionOf;
    hide Valid;
    hide Grows;
    hide Bind;
    var t, after := s.open[id], Apply(hash, s, Commit(id));
    assert GoodTransaction(s, t);
    BindCommitIsAtomic(hash, s, id);
    BoundRowKeeps(s.db, t.work.request, t.phase.row.id);
    forall other | other in after.open ensures GoodTransaction(after, after.open[other]) {
      BindCommitKeepsOther(hash, s, id, other);
    }
  }

  /** A row locked FOR UPDATE is read by no other transaction. */
  lemma LifecycleCommitKeepsOther(hash: Hash, s: System, id: nat, other: nat)
    requires Invariant(hash, s) && Enabled(hash, s, Commit(id)) && !s.open[id].work.BindWork?
    requires other in s.open && other != id
    ensures GoodTransaction(Apply(hash, s, Commit(id)), s.open[other])
  {
    hide CheckPair;
    hide DistinctRows;
    hide IdsDrawn;
    hide NextRevision;
    hide DraftOf;
    hide RangeOf;
    hide VersionOf;
    hide Valid;
    hide Exclusive;
    var mine, t := s.open[id], s.open[other];
    assert GoodTransaction(s, mine) && GoodTransaction(s, t);
    var key := mine.work.key;
    if mine.work.DefinitionWork? {
      NoConflict(hash, s, id, other, UpdateDefinition(key), ShareDefinition(key));
      NoConflict(hash, s, id, other, UpdateDefinition(key), UpdateDefinition(key));
    } else {
      NoConflict(hash, s, id, other, UpdateProfile(key), ShareProfile(key));
      NoConflict(hash, s, id, other, UpdateProfile(key), UpdateProfile(key));
    }
  }

  lemma NoConflict(hash: Hash, s: System, a: nat, b: nat, x: Lock, y: Lock)
    requires Exclusive(hash, s) && a in s.open && b in s.open && a != b
    requires Holds(hash, s.open[a], x) && Conflict(x, y)
    ensures !Holds(hash, s.open[b], y)
  {
  }

  lemma LifecycleCommitKeeps(hash: Hash, s: System, id: nat)
    requires Invariant(hash, s) && Enabled(hash, s, Commit(id)) && !s.open[id].work.BindWork?
    ensures Invariant(hash, Apply(hash, s, Commit(id))) && Grows(s.db, Apply(hash, s, Commit(id)).db)
  {
    hide RangeOf;
    hide VersionOf;
    hide Valid;
    hide Grows;
    var t, after := s.open[id], Apply(hash, s, Commit(id));
    assert GoodTransaction(s, t);
    match t.work {
      case DefinitionWork(key, to) => SetDefinitionLifecycleKeeps(s.db, key, to);
      case ProfileWork(key, to) => SetProfileLifecycleKeeps(s.db, key, to);
    }
    forall other | other in after.open ensures GoodTransaction(after, after.open[other]) {
      LifecycleCommitKeepsOther(hash, s, id, other);
    }
  }

  lemma EdgeStepKeeps(hash: Hash, s: System, step: Step)
    requires Invariant(hash, s) && Enabled(hash, s, step) && (step.Begin? || step.Abort?)
    ensures Invariant(hash, Apply(hash, s, step))
  {
    hide RangeOf;
    hide VersionOf;
    hide Valid;
    hide GoodTransaction;
    hide Refusal;
    var after := Apply(hash, s, step);
    forall id | id in after.open ensures GoodTransaction(after, after.open[id]) {
      if id in s.open {
        AdditionKeepsTransaction(s, after, s.open[id]);
      } else {
        BegunIsGood(after, after.open[id]);
      }
    }
  }

  lemma BegunIsGood(s: System, t: Transaction)
    requires t.phase.Begun? && (t.work.BindWork? ==> Refusal(t.work.request).None?)
    ensures GoodTransaction(s, t)
  {
  }

  /** Every step keeps the invariant, and the tables only grow. */
  lemma StepKeeps(hash: Hash, s: System, step: Step)
    requires Invariant(hash, s) && Enabled(hash, s, step)
    ensures Invariant(hash, Apply(hash, s, step)) && Grows(s.db, Apply(hash, s, step).db)
  {
    hide Invariant;
    match step {
      case Declare(_) => TableStepKeeps(hash, s, step);
      case PublishDefinitionStep(_) => TableStepKeeps(hash, s, step);
      case PublishProfileStep(_) => TableStepKeeps(hash, s, step);
      case Begin(_, _) => EdgeStepKeeps(hash, s, step);
      case Advance(id) => AdvanceKeeps(hash, s, id);
      case Commit(id) =>
        if s.open[id].work.BindWork? { BindCommitKeeps(hash, s, id); } else { LifecycleCommitKeeps(hash, s, id); }
      case Abort(_) => EdgeStepKeeps(hash, s, step);
    }
  }

  // ---- Whole runs ----

  /** Every state of every run satisfies the invariant, and later tables extend earlier ones:
      the ledger is append-only, versions are immutable but for a one-way lifecycle. */
  lemma {:induction false} RunIsSafe(hash: Hash, states: seq<System>, steps: seq<Step>, i: nat, j: nat)
    requires Run(hash, states, steps) && i <= j < |states|
    ensures Invariant(hash, states[i]) && Invariant(hash, states[j]) && Grows(states[i].db, states[j].db)
    decreases j
  {
    hide RangeOf;
    hide VersionOf;
    hide Enabled;
    hide Apply;
    if j == 0 {
      assert Chained(INITIAL.db.bindings);
    } else {
      if i < j { RunIsSafe(hash, states, steps, i, j - 1); } else { RunIsSafe(hash, states, steps, j - 1, j - 1); }
      StepKeeps(hash, states[j - 1], steps[j - 1]);
      if i < j {
        GrowsTransitive(states[i].db, states[j - 1].db, states[j].db);
      }
    }
  }

  /** In every reachable state the revisions of a scope are 1..n and its active binding is the last committed. */
  lemma RunNumbersRevisions(hash: Hash, states: seq<System>, steps: seq<Step>, j: nat, scope: Scope)
    requires Run(hash, states, steps) && j < |states|
    ensures var rows := states[j].db.bindings;
            var own := ScopeRows(rows, scope);
            && NumberedFromOne(own)
            && Active(rows, scope) == (if own == [] then None else Some(own[|own| - 1]))
            && forall b | b in rows ::
                 && b.source != SOURCE_FIXTURE && DefinitionKey(b) in states[j].db.definitions
                 && !IsProfileless(states[j].db.definitions[DefinitionKey(b)].spec)
  {
    RunIsSafe(hash, states, steps, j, j);
    var db := states[j].db;
    RevisionsAreExactly(db.bindings, scope);
    ActiveIsLastCommitted(db.bindings, scope);
    forall b | b in db.bindings ensures Sound(db, b) {
    }
  }

  /** In every reachable state, following rollback_of from any row goes down in ids to a created row with the
      same definition version, profile pair, source and intent. */
  lemma RunRollbackEnds(hash: Hash, states: seq<System>, steps: seq<Step>, j: nat, k: nat) returns (path: seq<nat>)
    requires Run(hash, states, steps) && j < |states| && k < |states[j].db.bindings|
    ensures var rows := states[j].db.bindings;
            && RollbackPath(rows, path) && path[0] == k && rows[path[|path| - 1]].rollbackOf.None?
            && (forall i | 0 <= i < |path| :: SameContent(rows[path[i]], rows[k]))
            && (forall i | 0 < i < |path| :: rows[path[i]].id < rows[path[i - 1]].id)
  {
    RunIsSafe(hash, states, steps, j, j);
    path := RollbackChainEnds(states[j].db.bindings, k);
  }

  /** Resolving at any three points of a run, in order, never fails and is always satisfied. */
  lemma RunResolves(hash: Hash, states: seq<System>, steps: seq<Step>, i: nat, j: nat, k: nat, scope: Scope)
    requires Run(hash, states, steps) && i <= j <= k < |states| && Active(states[i].db.bindings, scope).Some?
    ensures var b := Active(states[i].db.bindings, scope).value;
            && DefinitionKey(b) in states[j].db.definitions && ProfileKey(b) in states[k].db.profiles
            && var r := Resolve(b, states[j].db.definitions[DefinitionKey(b)], states[k].db.profiles[ProfileKey(b)]);
               r.Ok? && r.value.satisfied && r.value.range == b.profileRange
  {
    hide Run;
    hide Grows;
    hide Resolve;
    RunIsSafe(hash, states, steps, i, j);
    RunIsSafe(hash, states, steps, j, k);
    ResolveAlwaysSatisfied(states[i].db, states[j].db, states[k].db, scope);
  }

  ghost predicate IsDisabled(db: Database, definition: Key, profile: Key) {
    || (definition in db.definitions && db.definitions[definition].lifecycle == Disabled)
    || (profile in db.profiles && db.profiles[profile].lifecycle == Disabled)
  }

  /** The step that appended row n bound usable versions. */
  lemma AppendedRowWasUsable(hash: Hash, s: System, step: Step, n: nat)
    requires Invariant(hash, s) && Enabled(hash, s, step)
    requires |s.db.bindings| <= n < |Apply(hash, s, step).db.bindings|
    ensures var b := Apply(hash, s, step).db.bindings[n];
            !IsDisabled(s.db, DefinitionKey(b), ProfileKey(b))
    ensures step.Commit? && s.open[step.id].work.BindWork? && Bind(s.db, s.open[step.id].work.request, s.open[step.id].phase.row.id).Ok?
    ensures s.open[step.id].work.request.Create? ==>
              var b := Apply(hash, s, step).db.bindings[n];
              && DefinitionKey(b) in s.db.definitions && ProfileKey(b) in s.db.profiles
              && s.db.definitions[DefinitionKey(b)].lifecycle == Published && s.db.profiles[ProfileKey(b)].lifecycle == Published
  {
    hide RangeOf;
    hide VersionOf;
    hide Invariant;
    hide Bind;
    var t := s.open[step.id];
    BindCommitIsAtomic(hash, s, step.id);
    BoundVersionsAreUsable(s.db, t.work.request, t.phase.row.id);
  }

  /** No binding committed after a version was disabled names that version. */
  lemma {:induction false} NeverBoundAfterDisable(hash: Hash, states: seq<System>, steps: seq<Step>, i: nat, j: nat, n: nat)
    requires Run(hash, states, steps) && i <= j < |states|
    requires |states[i].db.bindings| <= n < |states[j].db.bindings|
    ensures var b := states[j].db.bindings[n];
            !IsDisabled(states[i].db, DefinitionKey(b), ProfileKey(b))
    decreases j
  {
    hide RangeOf;
    hide VersionOf;
    hide Enabled;
    hide Apply;
    hide Invariant;
    hide IsDisabled;
    hide Grows;
    assert i < j;
    RunIsSafe(hash, states, steps, i, j - 1);
    RunIsSafe(hash, states, steps, j - 1, j);
    LedgerIsPrefix(states[j - 1].db, states[j].db);
    if n < |states[j - 1].db.bindings| {
      NeverBoundAfterDisable(hash, states, steps, i, j - 1, n);
      assert states[j].db.bindings[n] == states[j - 1].db.bindings[n];
    } else {
      AppendedRowWasUsable(hash, states[j - 1], steps[j - 1], n);
      var b := states[j].db.bindings[n];
      DisabledStays(states[i].db, states[j - 1].db, DefinitionKey(b), ProfileKey(b));
    }
  }

  lemma LedgerIsPrefix(before: Database, after: Database)
    requires Grows(before, after)
    ensures before.bindings <= after.bindings
  {
  }

  lemma DisabledStays(before: Database, after: Database, definition: Key, profile: Key)
    requires Grows(before, after)
    ensures IsDisabled(before, definition, profile) ==> IsDisabled(after, definition, profile)
  {
  }

  // ---- Serial equivalence ----

  /** An operation run alone. */
  datatype Operation =
    | Declared(agent: string)
    | DefinitionPublished(definition: Definition)
    | ProfilePublished(profile: Profile)
    | Bound(request: Request, id: nat)
    | DefinitionMoved(key: Key, to: Lifecycle)
    | ProfileMoved(key: Key, to: Lifecycle)

  function Perform(db: Database, op: Operation): Result<Database, Error> {
    match op
    case Declared(agent) => Ok(db.(agents := db.agents + {agent}))
    case DefinitionPublished(d) => PublishDefinition(db, d)
    case ProfilePublished(p) => PublishProfile(db, p)
    case Bound(request, id) =>
      (match Bind(db, request, id)
       case Err(e) => Err(e)
       case Ok(row) => Ok(db.(bindings := db.bindings + [row])))
    case DefinitionMoved(key, to) => SetDefinitionLifecycle(db, key, to)
    case ProfileMoved(key, to) => SetProfileLifecycle(db, key, to)
  }

  function PerformAll(db: Database, ops: seq<Operation>): Result<Database, Error> {
    if ops == [] then Ok(db)
    else
      match PerformAll(db, ops[..|ops| - 1])
      case Err(e) => Err(e)
      case Ok(mid) => Perform(mid, ops[|ops| - 1])
  }

  /** The operation a step makes visible, if any. */
  function Visible(s: System, step: Step): Option<Operation>
    requires step.Commit? ==> step.id in s.open && ReadyToCommit(s.open[step.id])
  {
    match step
    case Declare(agent) => Some(Declared(agent))
    case PublishDefinitionStep(d) => Some(DefinitionPublished(d))
    case PublishProfileStep(p) => Some(ProfilePublished(p))
    case Commit(id) =>
      (match s.open[id].work
       case BindWork(request) => Some(Bound(request, s.open[id].phase.row.id))
       case DefinitionWork(key, to) => Some(DefinitionMoved(key, to))
       case ProfileWork(key, to) => Some(ProfileMoved(key, to)))
    case _ => None
  }

  /** Each step's visible effect is one whole operation run alone on the tables of that instant. */
  lemma StepIsAtomic(hash: Hash, s: System, step: Step)
    requires Invariant(hash, s) && Enabled(hash, s, step)
    ensures match Visible(s, step)
            case None => Apply(hash, s, step).db == s.db
            case Some(op) => Perform(s.db, op) == Ok(Apply(hash, s, step).db)
  {
    hide RangeOf;
    hide VersionOf;
    hide Bind;
    if step.Commit? {
      var t := s.open[step.id];
      assert GoodTransaction(s, t);
      if t.work.BindWork? {
        BindCommitIsAtomic(hash, s, step.id);
      }
    }
  }

  function VisibleAll(states: seq<System>, steps: seq<Step>): seq<Operation>
    requires |states| == |steps| + 1
    requires forall i | 0 <= i < |steps| && steps[i].Commit? :: steps[i].id in states[i].open && ReadyToCommit(states[i].open[steps[i].id])
  {
    if steps == [] then []
    else
      var n := |steps| - 1;
      VisibleAll(states[..n + 1], steps[..n]) +
      match Visible(states[n], steps[n])
      case None => []
      case Some(op) => [op]
  }

  lemma CommitsAreReady(hash: Hash, states: seq<System>, steps: seq<Step>)
    requires Run(hash, states, steps)
    ensures forall i | 0 <= i < |steps| && steps[i].Commit? :: steps[i].id in states[i].open && ReadyToCommit(states[i].open[steps[i].id])
  {
    hide Apply;
    assert forall i | 0 <= i < |steps| && steps[i].Commit? :: Enabled(hash, states[i], steps[i]);
  }

  /** Every run is serializable: its tables are those of its visible operations run one after another. */
  lemma {:induction false} RunIsSerial(hash: Hash, states: seq<System>, steps: seq<Step>)
    requires Run(hash, states, steps)
    ensures forall i | 0 <= i < |steps| && steps[i].Commit? :: steps[i].id in states[i].open && ReadyToCommit(states[i].open[steps[i].id])
    ensures PerformAll(EMPTY, VisibleAll(states, steps)) == Ok(states[|steps|].db)
    decreases |steps|
  {
    hide RangeOf;
    hide VersionOf;
    hide Apply;
    hide Perform;
    hide Visible;
    hide Invariant;
    hide Enabled;
    CommitsAreReady(hash, states, steps);
    if steps != [] {
      var n := |steps| - 1;
      assert Run(hash, states[..n + 1], steps[..n]);
      RunIsSerial(hash, states[..n + 1], steps[..n]);
      RunIsSafe(hash, states, steps, n, n);
      StepIsAtomic(hash, states[n], steps[n]);
      var before := VisibleAll(states[..n + 1], steps[..n]);
      if Visible(states[n], steps[n]).Some? {
        var all := before + [Visible(states[n], steps[n]).value];
        assert all[..|all| - 1] == before;
      } else {
        assert before + [] == before;
      }
    }
  }

  // ---- What a transaction alone achieves ----

  /** What an open transaction is on its way to do. */
  function Intended(s: System, t: Transaction): Operation {
    match t.work
    case BindWork(request) => Bound(request, if t.phase.Inserted? then t.phase.row.id else s.nextId)
    case DefinitionWork(key, to) => DefinitionMoved(key, to)
    case ProfileWork(key, to) => ProfileMoved(key, to)
  }

  /** The statements before its commit. */
  function StatementsLeft(t: Transaction): nat {
    match t.phase
    case Begun => if t.work.BindWork? then 6 else 2
    case Guarded => 5
    case Drafted(_) => 4
    case HasDefinition(_, _) => 3
    case HasPair(_, _, _) => 2
    case Numbered(_, _, _, _) => 1
    case Inserted(_, _, _, _) => 0
    case RowLocked => 1
    case Updated => 0
  }

  /** A transaction whose operation would succeed now is not refused its next statement, and the statement brings it one
      closer to its commit with the same operation ahead. */
  lemma NextExactly(hash: Hash, s: System, id: nat)
    requires Invariant(hash, s) && id in s.open && Perform(s.db, Intended(s, s.open[id])).Ok?
    ensures ReadyToCommit(s.open[id]) <==> StatementsLeft(s.open[id]) == 0
    ensures !ReadyToCommit(s.open[id]) ==> Next(s, s.open[id]).Some?
    ensures !ReadyToCommit(s.open[id]) ==>
              var phase := Next(s, s.open[id]).value; var t := s.open[id].(phase := phase);
              && StatementsLeft(t) == StatementsLeft(s.open[id]) - 1
              && Intended(s.(nextId := if phase.Inserted? then s.nextId + 1 else s.nextId), t) == Intended(s, s.open[id])
  {
    hide RangeOf;
    hide VersionOf;
    hide Valid;
    hide Exclusive;
    assert GoodTransaction(s, s.open[id]);
  }

  /** The steps lead from the first state to the last. */
  ghost predicate Leads(hash: Hash, states: seq<System>, steps: seq<Step>) {
    && |states| == |steps| + 1
    && forall i | 0 <= i < |steps| :: Enabled(hash, states[i], steps[i]) && states[i + 1] == Apply(hash, states[i], steps[i])
  }

  /** A transaction that nobody disturbs, and whose operation would succeed now, runs through its statements and commits
      that very operation. */
  lemma {:induction false} AloneCommits(hash: Hash, s: System, id: nat) returns (states: seq<System>, steps: seq<Step>)
    requires Invariant(hash, s) && s.open.Keys == {id} && Perform(s.db, Intended(s, s.open[id])).Ok?
    ensures Leads(hash, states, steps) && states[0] == s && |steps| == StatementsLeft(s.open[id]) + 1
    ensures forall i | 0 <= i < |steps| :: steps[i] == if i < |steps| - 1 then Advance(id) else Commit(id)
    ensures states[|steps|].open == map[] && states[|steps|].db == Perform(s.db, Intended(s, s.open[id])).value
    decreases StatementsLeft(s.open[id])
  {
    hide Invariant;
    hide Perform;
    hide Next;
    NextExactly(hash, s, id);
    var t := s.open[id];
    if ReadyToCommit(t) {
      states, steps := [s, Apply(hash, s, Commit(id))], [Commit(id)];
      StepIsAtomic(hash, s, Commit(id));
      assert Visible(s, Commit(id)) == Some(Intended(s, t));
    } else {
      var s' := Apply(hash, s, Advance(id));
      StepIsAtomic(hash, s, Advance(id));
      StepKeeps(hash, s, Advance(id));
      var rest, after := AloneCommits(hash, s', id);
      states, steps := [s] + rest, [Advance(id)] + after;
    }
  }

  /** From an idle system, beginning it included: a request that would succeed now is begun, run and committed. */
  lemma RequestAloneCommits(hash: Hash, s: System, id: nat, work: Work) returns (states: seq<System>, steps: seq<Step>)
    requires Invariant(hash, s) && s.open == map[] && Perform(s.db, Intended(s, Transaction(work, Begun))).Ok?
    ensures Leads(hash, states, steps) && states[0] == s && |steps| >= 2 && steps[0] == Begin(id, work) && steps[|steps| - 1] == Commit(id)
    ensures states[|steps|].open == map[] && states[|steps|].db == Perform(s.db, Intended(s, Transaction(work, Begun))).value
  {
    hide Invariant;
    hide Next;
    assert work.BindWork? ==> Refusal(work.request).None?;
    var s' := Apply(hash, s, Begin(id, work));
    EdgeStepKeeps(hash, s, Begin(id, work));
    assert s'.open.Keys == {id};
    var rest, after := AloneCommits(hash, s', id);
    states, steps := [s] + rest, [Begin(id, work)] + after;
  }

  /** An ended transaction holds nothing, and an aborted one has changed nothing. */
  lemma EndsExactly(hash: Hash, s: System, id: nat)
    requires id in s.open
    ensures id !in Apply(hash, s, Abort(id)).open && Apply(hash, s, Abort(id)).db == s.db
    ensures ReadyToCommit(s.open[id]) ==> id !in Apply(hash, s, Commit(id)).open
    ensures forall other | other in s.open && other != id ::
              other in Apply(hash, s, Abort(id)).open && Apply(hash, s, Abort(id)).open[other] == s.open[other]
  {
  }

  // ---- No deadlock ----

  /** `a` waits for a lock that `b` holds. */
  ghost predicate WaitsFor(hash: Hash, s: System, a: nat, b: nat) {
    && a in s.open && b in s.open && a != b && Wants(hash, s.open[a]).Some?
    && exists held :: Holds(hash, s.open[b], held) && Conflict(Wants(hash, s.open[a]).value, held)
  }

  /** The place of a lock in the acquisition order: advisory, definition, profile. */
  function Level(hash: Hash, t: Transaction): nat {
    match Wants(hash, t)
    case None => 3
    case Some(Advisory(_)) => 0
    case Some(ShareDefinition(_)) => 1
    case Some(UpdateDefinition(_)) => 1
    case Some(_) => 2
  }

  /** Whoever is waited for waits, if at all, for a later lock. */
  lemma WaitsGoUp(hash: Hash, s: System, a: nat, b: nat)
    requires Invariant(hash, s) && WaitsFor(hash, s, a, b)
    ensures Level(hash, s.open[a]) < Level(hash, s.open[b])
  {
    hide RangeOf;
    hide VersionOf;
    hide Valid;
    hide Exclusive;
    assert GoodTransaction(s, s.open[b]);
  }

  ghost predicate WaitChain(hash: Hash, s: System, chain: seq<nat>) {
    forall i | 0 <= i < |chain| - 1 :: WaitsFor(hash, s, chain[i], chain[i + 1])
  }

  lemma {:induction false} ChainGoesUp(hash: Hash, s: System, chain: seq<nat>)
    requires Invariant(hash, s) && WaitChain(hash, s, chain) && |chain| >= 2
    ensures chain[0] in s.open && chain[|chain| - 1] in s.open
    ensures Level(hash, s.open[chain[0]]) < Level(hash, s.open[chain[|chain| - 1]])
    decreases |chain|
  {
    hide Invariant;
    hide Level;
    var n := |chain| - 1;
    WaitsGoUp(hash, s, chain[n - 1], chain[n]);
    if n >= 2 {
      ChainGoesUp(hash, s, chain[..n]);
    }
  }

  /** No chain of waits closes into a cycle. */
  lemma NoDeadlock(hash: Hash, s: System, chain: seq<nat>)
    requires Invariant(hash, s) && WaitChain(hash, s, chain) && |chain| >= 2
    ensures chain[0] != chain[|chain| - 1]
  {
    hide Invariant;
    ChainGoesUp(hash, s, chain);
  }

  /** While a transaction is open, some open transaction waits for nobody. */
  lemma {:induction false} SomeoneCanProceed(hash: Hash, s: System, id: nat) returns (free: nat)
    requires Invariant(hash, s) && id in s.open
    ensures free in s.open && forall other :: !WaitsFor(hash, s, free, other)
    decreases 3 - Level(hash, s.open[id])
  {
    hide Invariant;
    if other :| WaitsFor(hash, s, id, other) {
      WaitsGoUp(hash, s, id, other);
      free := SomeoneCanProceed(hash, s, other);
    } else {
      free := id;
    }
  }
}

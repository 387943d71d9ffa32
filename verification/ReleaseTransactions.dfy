/** promote's transaction interleaved statement by statement: only the advisory lock orders
    promotions and rollbacks of one scope. It closes the two races promote documents. */
module ReleaseTransactions {
  import opened Wrappers
  import opened Releases

  datatype Phase =
    | Begun
    | Guarded                                                        // holds the advisory lock
    | Resolved(version: string, rollbackOf: Option<nat>)             // resolveTarget answered
    | Confirmed(version: string, rollbackOf: Option<nat>)            // the version exists
    | Compared(version: string, rollbackOf: Option<nat>, from: string) // the current release was read
    | Recorded(row: Promotion)                                       // upserted and logged, not committed

  datatype Transaction = Transaction(ask: Ask, phase: Phase)

  datatype System = System(tables: Tables, open: map<nat, Transaction>, nextId: nat)

  const INITIAL := System(EMPTY, map[], 0)

  type Hash = string -> int

  function LockOf(hash: Hash, t: Transaction): int {
    hash(t.ask.scope.0 + "/" + t.ask.scope.1)
  }

  datatype Step =
    | Declare(agent: string)
    | PublishStep(key: Key)
    | Begin(id: nat, ask: Ask)
    | Advance(id: nat)
    | Commit(id: nat)
    | Abort(id: nat)

  function Next(s: System, t: Transaction): Option<Phase> {
    match t.phase
    case Begun => Some(Guarded)
    case Guarded =>
      (match Target(s.tables, t.ask)
       case Ok((version, rollbackOf)) => Some(Resolved(version, rollbackOf))
       case Err(_) => None)
    case Resolved(version, rollbackOf) =>
      if (t.ask.scope.0, version) in s.tables.versions then Some(Confirmed(version, rollbackOf)) else None
    case Confirmed(version, rollbackOf) => Some(Compared(version, rollbackOf, CurrentVersion(s.tables, t.ask.scope)))
    case Compared(version, rollbackOf, from) =>
      if from == version then None else Some(Recorded(RowOf(t.ask, from, version, rollbackOf, s.nextId)))
    case Recorded(_) => None
  }

  /** A recorded move, or the no-op of promoting the current version. */
  predicate ReadyToCommit(s: System, t: Transaction) {
    || t.phase.Recorded?
    || (t.phase.Compared? && t.phase.from == t.phase.version && t.ask.scope in s.tables.releases)
  }

  function OutcomeOf(s: System, t: Transaction): Outcome
    requires ReadyToCommit(s, t)
  {
    if t.phase.Recorded? then Moved(t.phase.row) else Unchanged(s.tables.releases[t.ask.scope])
  }

  ghost predicate Enabled(hash: Hash, s: System, step: Step) {
    match step
    case Declare(_) => true
    case PublishStep(key) => HandlePublish(s.tables, key).Ok?
    case Begin(id, ask) => id !in s.open && ask.scope.1 in ENVIRONMENTS
    case Advance(id) =>
      && id in s.open && Next(s, s.open[id]).Some?
      && (s.open[id].phase.Begun? ==>
            forall other | other in s.open && other != id && !s.open[other].phase.Begun? ::
              LockOf(hash, s.open[other]) != LockOf(hash, s.open[id]))
    case Commit(id) => id in s.open && ReadyToCommit(s, s.open[id])
    case Abort(id) => id in s.open
  }

  ghost function Apply(hash: Hash, s: System, step: Step): System
    requires Enabled(hash, s, step)
  {
    match step
    case Declare(agent) => s.(tables := s.tables.(agents := s.tables.agents + {agent}))
    case PublishStep(key) => s.(tables := HandlePublish(s.tables, key).value)
    case Begin(id, ask) => s.(open := s.open[id := Transaction(ask, Begun)])
    case Advance(id) =>
      var phase := Next(s, s.open[id]).value;
      s.(open := s.open[id := s.open[id].(phase := phase)], nextId := if phase.Recorded? then s.nextId + 1 else s.nextId)
    case Commit(id) => s.(tables := After(s.tables, OutcomeOf(s, s.open[id])), open := s.open - {id})
    case Abort(id) => s.(open := s.open - {id})
  }

  ghost predicate Run(hash: Hash, states: seq<System>, steps: seq<Step>) {
    && |states| == |steps| + 1 && states[0] == INITIAL
    && forall i | 0 <= i < |steps| :: Enabled(hash, states[i], steps[i]) && states[i + 1] == Apply(hash, states[i], steps[i])
  }

  // ---- The invariant ----

  /** What a transaction has read still holds. */
  ghost predicate Current(s: System, t: Transaction) {
    && t.ask.scope.1 in ENVIRONMENTS
    && match t.phase
       case Begun => true
       case Guarded => true
       case Resolved(version, rollbackOf) => Target(s.tables, t.ask) == Ok((version, rollbackOf))
       case Confirmed(version, rollbackOf) => Checked(s, t.ask, version, rollbackOf)
       case Compared(version, rollbackOf, from) =>
         Checked(s, t.ask, version, rollbackOf) && from == CurrentVersion(s.tables, t.ask.scope)
       case Recorded(row) =>
         && Checked(s, t.ask, row.to, row.rollbackOf) && row.from == CurrentVersion(s.tables, t.ask.scope)
         && row.from != row.to && row == RowOf(t.ask, row.from, row.to, row.rollbackOf, row.id)
         && row.id < s.nextId && FreshId(s.tables.log, t.ask.scope, row.id)
  }

  ghost predicate Checked(s: System, ask: Ask, version: string, rollbackOf: Option<nat>) {
    Target(s.tables, ask) == Ok((version, rollbackOf)) && (ask.scope.0, version) in s.tables.versions
  }

  ghost predicate Exclusive(hash: Hash, s: System) {
    forall a, b | a in s.open && b in s.open && a != b && !s.open[a].phase.Begun? && !s.open[b].phase.Begun? ::
      LockOf(hash, s.open[a]) != LockOf(hash, s.open[b])
  }

  ghost predicate Invariant(hash: Hash, s: System) {
    && Valid(s.tables) && Exclusive(hash, s)
    && (forall row | row in s.tables.log :: row.id < s.nextId)
    && forall id | id in s.open :: Current(s, s.open[id])
  }

  // ---- Every interleaving ----

  /** At its commit a transaction has done exactly what promote run alone would do then. */
  lemma CommitIsAtomic(hash: Hash, s: System, id: nat)
    requires Invariant(hash, s) && Enabled(hash, s, Commit(id))
    ensures var t := s.open[id];
            var drawn := if t.phase.Recorded? then t.phase.row.id else s.nextId;
            FreshId(s.tables.log, t.ask.scope, drawn) && Perform(s.tables, t.ask, drawn) == Ok(OutcomeOf(s, t))
  {
  }

  lemma {:induction false} OtherScopeUnaffected(log: seq<Promotion>, row: Promotion, scope: Scope)
    requires row.scope != scope
    ensures Latest(log + [row], scope) == Latest(log, scope)
  {
  }

  lemma OtherScopeFresh(log: seq<Promotion>, row: Promotion, scope: Scope)
    requires row.scope != scope
    ensures forall id: nat :: FreshId(log, scope, id) ==> FreshId(log + [row], scope, id)
  {
  }

  /** A commit leaves what every other transaction has read in place. */
  lemma CommitKeepsOther(hash: Hash, s: System, id: nat, other: nat)
    requires Invariant(hash, s) && Enabled(hash, s, Commit(id)) && other in s.open && other != id
    ensures Current(Apply(hash, s, Commit(id)), s.open[other])
  {
    hide Valid;
    hide FreshId;
    var mine, t := s.open[id], s.open[other];
    assert Current(s, mine) && Current(s, t);
    if mine.phase.Recorded? && !t.phase.Begun? {
      assert LockOf(hash, mine) != LockOf(hash, t);
      OtherScopeUnaffected(s.tables.log, mine.phase.row, t.ask.scope);
      OtherScopeFresh(s.tables.log, mine.phase.row, t.ask.scope);
    }
  }

  lemma CommitKeeps(hash: Hash, s: System, id: nat)
    requires Invariant(hash, s) && Enabled(hash, s, Commit(id))
    ensures Invariant(hash, Apply(hash, s, Commit(id)))
  {
    hide IsRecorded;
    var t, after := s.open[id], Apply(hash, s, Commit(id));
    assert Current(s, t);
    CommitIsAtomic(hash, s, id);
    PerformKeeps(s.tables, t.ask, if t.phase.Recorded? then t.phase.row.id else s.nextId);
    forall other | other in after.open ensures Current(after, after.open[other]) {
      CommitKeepsOther(hash, s, id, other);
    }
  }

  lemma PublishedStays(s: System, after: System, t: Transaction)
    requires after.tables.log == s.tables.log && after.tables.releases == s.tables.releases
    requires s.tables.versions <= after.tables.versions && s.nextId <= after.nextId && Current(s, t)
    ensures Current(after, t)
  {
  }

  lemma QuietStepKeeps(hash: Hash, s: System, step: Step)
    requires Invariant(hash, s) && Enabled(hash, s, step) && !step.Commit?
    ensures Invariant(hash, Apply(hash, s, step))
  {
    hide Current;
    var after := Apply(hash, s, step);
    if step.PublishStep? { PublishKeeps(s.tables, step.key); }
    forall id | id in after.open ensures Current(after, after.open[id]) {
      if step.Advance? && step.id == id {
        AdvancedIsCurrent(hash, s, id);
      } else if id in s.open {
        PublishedStays(s, after, s.open[id]);
      } else {
        BegunIsCurrent(after, after.open[id]);
      }
    }
  }

  lemma BegunIsCurrent(s: System, t: Transaction)
    requires t.phase.Begun? && t.ask.scope.1 in ENVIRONMENTS
    ensures Current(s, t)
  {
  }

  lemma AdvancedIsCurrent(hash: Hash, s: System, id: nat)
    requires Invariant(hash, s) && Enabled(hash, s, Advance(id))
    ensures Current(Apply(hash, s, Advance(id)), Apply(hash, s, Advance(id)).open[id])
  {
  }

  // ---- What a promotion alone achieves ----

  /** The SERIAL value the transaction draws or has drawn. */
  function Drawn(s: System, t: Transaction): nat {
    if t.phase.Recorded? then t.phase.row.id else s.nextId
  }

  function StatementsLeft(s: System, t: Transaction): nat {
    match t.phase
    case Begun => 5
    case Guarded => 4
    case Resolved(_, _) => 3
    case Confirmed(_, _) => 2
    case Compared(version, _, from) => if from == version then 0 else 1
    case Recorded(_) => 0
  }

  /** A transaction whose promotion would succeed now is not refused its next statement. */
  lemma NextExactly(hash: Hash, s: System, id: nat)
    requires Invariant(hash, s) && id in s.open && Perform(s.tables, s.open[id].ask, Drawn(s, s.open[id])).Ok?
    ensures !ReadyToCommit(s, s.open[id]) ==> Next(s, s.open[id]).Some?
    ensures !ReadyToCommit(s, s.open[id]) ==>
              var phase := Next(s, s.open[id]).value; var t := s.open[id].(phase := phase);
              var s' := s.(nextId := if phase.Recorded? then s.nextId + 1 else s.nextId);
              Drawn(s', t) == Drawn(s, s.open[id]) && StatementsLeft(s', t) < StatementsLeft(s, s.open[id])
  {
    hide Valid;
    hide FreshId;
    assert Current(s, s.open[id]);
  }

  ghost predicate Leads(hash: Hash, states: seq<System>, steps: seq<Step>) {
    && |states| == |steps| + 1
    && forall i | 0 <= i < |steps| :: Enabled(hash, states[i], steps[i]) && states[i + 1] == Apply(hash, states[i], steps[i])
  }

  /** A promotion that nobody disturbs, and that would succeed now, runs through its statements and commits its outcome. */
  lemma {:induction false} AloneCommits(hash: Hash, s: System, id: nat) returns (states: seq<System>, steps: seq<Step>)
    requires Invariant(hash, s) && s.open.Keys == {id} && Perform(s.tables, s.open[id].ask, Drawn(s, s.open[id])).Ok?
    ensures Leads(hash, states, steps) && states[0] == s && steps != []
    ensures forall i | 0 <= i < |steps| :: steps[i] == if i < |steps| - 1 then Advance(id) else Commit(id)
    ensures states[|steps|].open == map[]
    ensures states[|steps|].tables == After(s.tables, Perform(s.tables, s.open[id].ask, Drawn(s, s.open[id])).value)
    decreases StatementsLeft(s, s.open[id])
  {
    hide Invariant;
    hide Perform;
    hide Next;
    hide After;
    NextExactly(hash, s, id);
    if ReadyToCommit(s, s.open[id]) {
      states, steps := [s, Apply(hash, s, Commit(id))], [Commit(id)];
      CommitIsAtomic(hash, s, id);
    } else {
      var s' := Apply(hash, s, Advance(id));
      QuietStepKeeps(hash, s, Advance(id));
      var rest, after := AloneCommits(hash, s', id);
      states, steps := [s] + rest, [Advance(id)] + after;
    }
  }

  /** From an idle system, beginning it included. */
  lemma AskAloneCommits(hash: Hash, s: System, id: nat, ask: Ask) returns (states: seq<System>, steps: seq<Step>)
    requires Invariant(hash, s) && s.open == map[] && ask.scope.1 in ENVIRONMENTS && Perform(s.tables, ask, s.nextId).Ok?
    ensures Leads(hash, states, steps) && states[0] == s && |steps| >= 2 && steps[0] == Begin(id, ask) && steps[|steps| - 1] == Commit(id)
    ensures states[|steps|].open == map[] && states[|steps|].tables == After(s.tables, Perform(s.tables, ask, s.nextId).value)
  {
    hide Invariant;
    hide Next;
    hide Perform;
    hide After;
    var s' := Apply(hash, s, Begin(id, ask));
    QuietStepKeeps(hash, s, Begin(id, ask));
    assert s'.open.Keys == {id};
    var rest, after := AloneCommits(hash, s', id);
    states, steps := [s] + rest, [Begin(id, ask)] + after;
  }

  /** An ended transaction holds nothing, and an aborted one has changed nothing. */
  lemma EndsExactly(hash: Hash, s: System, id: nat)
    requires id in s.open
    ensures id !in Apply(hash, s, Abort(id)).open && Apply(hash, s, Abort(id)).tables == s.tables
    ensures ReadyToCommit(s, s.open[id]) ==> id !in Apply(hash, s, Commit(id)).open
    ensures forall other | other in s.open && other != id ::
              other in Apply(hash, s, Abort(id)).open && Apply(hash, s, Abort(id)).open[other] == s.open[other]
  {
  }

  /** In every state of every run the release rows are the fold of the promotion log. */
  lemma {:induction false} RunKeepsReleases(hash: Hash, states: seq<System>, steps: seq<Step>, j: nat)
    requires Run(hash, states, steps) && j < |states|
    ensures Invariant(hash, states[j])
  {
    if j > 0 {
      RunKeepsReleases(hash, states, steps, j - 1);
      var s, step := states[j - 1], steps[j - 1];
      if step.Commit? { CommitKeeps(hash, s, step.id); } else { QuietStepKeeps(hash, s, step); }
    }
  }
}

/** The v1 release path: one "current release" row per (agent, environment) beside an
    append-only promotion log, changed only by promote and rollback. */
module Releases {
  import opened Wrappers

  type Scope = (string, string)
  type Key = (string, string)

  const ENVIRONMENTS := {"production", "shadow"}

  datatype Release = Release(version: string, updatedBy: string)

  datatype Promotion = Promotion(id: nat, scope: Scope, from: string, to: string,
                                 rollbackOf: Option<nat>, reason: string, actor: string)

  datatype Tables = Tables(agents: set<string>, versions: set<Key>, releases: map<Scope, Release>, log: seq<Promotion>)

  const EMPTY := Tables({}, {}, map[], [])

  datatype Error =
    | MissingVersion | VersionConflict | DefinitionNotFound
    | InvalidEnvironment | NoRollbackTarget | VersionNotFound | NoReleaseToReport

  // ---- The operations, each as one atomic function ----

  /** PublishVersion: (agent, version) is a once-only key of a declared agent. */
  function Publish(t: Tables, key: Key): Result<Tables, Error> {
    if key in t.versions then Err(VersionConflict)
    else if key.0 !in t.agents then Err(DefinitionNotFound)
    else Ok(t.(versions := t.versions + {key}))
  }

  /** The publish handler refuses an empty version before the store sees it. */
  function HandlePublish(t: Tables, key: Key): Result<Tables, Error> {
    if key.1 == "" then Err(MissingVersion) else Publish(t, key)
  }

  datatype Ask =
    | Promote(scope: Scope, version: string, reason: string, actor: string)
    | Revert(scope: Scope, reason: string, actor: string)

  /** The log row with the highest id of one scope. */
  function Latest(log: seq<Promotion>, scope: Scope): Option<Promotion> {
    if log == [] then None
    else
      var rest, last := Latest(log[..|log| - 1], scope), log[|log| - 1];
      if last.scope != scope then rest
      else if rest.Some? && rest.value.id >= last.id then rest
      else Some(last)
  }

  /** resolveTarget: the asked version, or the one the latest log row replaced. */
  function Target(t: Tables, ask: Ask): Result<(string, Option<nat>), Error> {
    match ask
    case Promote(_, version, _, _) => Ok((version, None))
    case Revert(scope, _, _) =>
      match Latest(t.log, scope)
      case None => Err(NoRollbackTarget)
      case Some(row) => if row.from == "" then Err(NoRollbackTarget) else Ok((row.from, Some(row.id)))
  }

  function CurrentVersion(t: Tables, scope: Scope): string {
    if scope in t.releases then t.releases[scope].version else ""
  }

  function RowOf(ask: Ask, from: string, to: string, rollbackOf: Option<nat>, id: nat): Promotion {
    Promotion(id, ask.scope, from, to, rollbackOf, ask.reason, ask.actor)
  }

  datatype Outcome = Unchanged(release: Release) | Moved(row: Promotion)

  /** promote, run alone. `id` is the SERIAL value an audit row would take. */
  function Perform(t: Tables, ask: Ask, id: nat): Result<Outcome, Error> {
    if ask.scope.1 !in ENVIRONMENTS then Err(InvalidEnvironment)
    else
      match Target(t, ask)
      case Err(e) => Err(e)
      case Ok((version, rollbackOf)) =>
        if (ask.scope.0, version) !in t.versions then Err(VersionNotFound)
        else
          var from := CurrentVersion(t, ask.scope);
          if from != version then Ok(Moved(RowOf(ask, from, version, rollbackOf, id)))
          else if ask.scope in t.releases then Ok(Unchanged(t.releases[ask.scope]))
          else Err(NoReleaseToReport)
  }

  function Record(t: Tables, row: Promotion): Tables {
    t.(releases := t.releases[row.scope := Release(row.to, row.actor)], log := t.log + [row])
  }

  function After(t: Tables, outcome: Outcome): Tables {
    match outcome
    case Unchanged(_) => t
    case Moved(row) => Record(t, row)
  }

  // ---- The invariant ----

  /** The release table the log alone determines. */
  function Fold(log: seq<Promotion>): map<Scope, Release> {
    if log == [] then map[]
    else
      var row := log[|log| - 1];
      Fold(log[..|log| - 1])[row.scope := Release(row.to, row.actor)]
  }

  function ScopeRows(log: seq<Promotion>, scope: Scope): seq<Promotion> {
    if log == [] then []
    else
      var rest, last := ScopeRows(log[..|log| - 1], scope), log[|log| - 1];
      if last.scope == scope then rest + [last] else rest
  }

  /** A row starts from the release its predecessor left, moves it, and a rollback undoes that predecessor. */
  ghost predicate Follows(earlier: seq<Promotion>, row: Promotion) {
    var own := ScopeRows(earlier, row.scope);
    && row.from == (if own == [] then "" else own[|own| - 1].to)
    && row.from != row.to
    && (own != [] ==> own[|own| - 1].id < row.id)
    && (row.rollbackOf.Some? ==> own != [] && row.rollbackOf == Some(own[|own| - 1].id) && row.to == own[|own| - 1].from)
  }

  ghost predicate Chained(log: seq<Promotion>) {
    forall k {:trigger log[..k]} | 0 <= k < |log| :: Follows(log[..k], log[k])
  }

  ghost predicate TargetsPublished(t: Tables) {
    forall row | row in t.log :: (row.scope.0, row.to) in t.versions
  }

  /** What the store alone keeps. */
  ghost predicate IsRecorded(t: Tables) {
    t.releases == Fold(t.log) && Chained(t.log) && TargetsPublished(t)
  }

  /** The handler's guard at publishing. */
  ghost predicate Guarded(t: Tables) {
    forall key | key in t.versions :: key.1 != ""
  }

  ghost predicate Valid(t: Tables) {
    IsRecorded(t) && Guarded(t)
  }

  lemma ChainedPrefix(log: seq<Promotion>, n: nat)
    requires Chained(log) && n <= |log|
    ensures Chained(log[..n])
  {
    forall k {:trigger log[..n][..k]} | 0 <= k < n ensures Follows(log[..n][..k], log[..n][k]) {
      assert log[..n][..k] == log[..k];
    }
  }

  /** What the log of one scope looks like: from "" to the current release, each row from its predecessor's target. */
  ghost predicate IsHistory(own: seq<Promotion>) {
    && (own != [] ==> own[0].from == "")
    && (forall i, j | 0 <= i < |own| && j == i + 1 < |own| :: own[j].from == own[i].to && own[i].id < own[j].id)
    && (forall i | 0 <= i < |own| :: own[i].from != own[i].to)
  }

  lemma {:induction false} ScopeIsHistory(log: seq<Promotion>, scope: Scope)
    requires Chained(log)
    ensures IsHistory(ScopeRows(log, scope))
    decreases |log|
  {
    if log != [] {
      var n := |log| - 1;
      ChainedPrefix(log, n);
      ScopeIsHistory(log[..n], scope);
      assert Follows(log[..n], log[n]);
    }
  }

  lemma {:induction false} ScopeRowsMembers(log: seq<Promotion>, scope: Scope)
    ensures forall row | row in ScopeRows(log, scope) :: row in log && row.scope == scope
    decreases |log|
  {
    if log != [] {
      ScopeRowsMembers(log[..|log| - 1], scope);
      assert log == log[..|log| - 1] + [log[|log| - 1]];
    }
  }

  lemma {:induction false} LatestIsLast(log: seq<Promotion>, scope: Scope)
    requires Chained(log)
    ensures var own := ScopeRows(log, scope);
            Latest(log, scope) == if own == [] then None else Some(own[|own| - 1])
    decreases |log|
  {
    if log != [] {
      var n := |log| - 1;
      ChainedPrefix(log, n);
      LatestIsLast(log[..n], scope);
      assert Follows(log[..n], log[n]);
    }
  }

  /** The folded release of every scope is the last target of its log. */
  lemma {:induction false} FoldIsLastTarget(log: seq<Promotion>, scope: Scope)
    ensures var own := ScopeRows(log, scope);
            && (scope in Fold(log) <==> own != [])
            && (own != [] ==> Fold(log)[scope] == Release(own[|own| - 1].to, own[|own| - 1].actor))
    decreases |log|
  {
    if log != [] {
      FoldIsLastTarget(log[..|log| - 1], scope);
    }
  }

  /** The release row is the fold of a gap-free history: it exists when the scope was ever promoted, and
      names the target of the latest log row. */
  lemma ReleaseIsFoldOfLog(t: Tables, scope: Scope)
    requires IsRecorded(t)
    ensures var own := ScopeRows(t.log, scope);
            && IsHistory(own)
            && Latest(t.log, scope) == (if own == [] then None else Some(own[|own| - 1]))
            && (scope in t.releases <==> own != [])
            && (own != [] ==> t.releases[scope] == Release(own[|own| - 1].to, own[|own| - 1].actor))
            && forall row | row in own :: row in t.log && row.scope == scope && (scope.0, row.to) in t.versions
  {
    hide Chained;
    hide IsHistory;
    hide Fold;
    hide Latest;
    hide ScopeRows;
    ScopeIsHistory(t.log, scope);
    ScopeRowsMembers(t.log, scope);
    LatestIsLast(t.log, scope);
    FoldIsLastTarget(t.log, scope);
  }

  // ---- What each operation keeps ----

  /** Publishing keeps what is recorded, and through the handler it keeps the guard. */
  lemma PublishKeeps(t: Tables, key: Key)
    requires IsRecorded(t)
    ensures Publish(t, key).Ok? ==> IsRecorded(Publish(t, key).value)
    ensures Guarded(t) && HandlePublish(t, key).Ok? ==> Valid(HandlePublish(t, key).value)
  {
  }

  /** `id` is above every log id of the scope. */
  ghost predicate FreshId(log: seq<Promotion>, scope: Scope, id: nat) {
    forall row | row in log && row.scope == scope :: row.id < id
  }

  /** The row a promotion writes continues its scope's history. */
  lemma MovedRowFollows(t: Tables, ask: Ask, id: nat)
    requires IsRecorded(t) && FreshId(t.log, ask.scope, id) && Perform(t, ask, id).Ok? && Perform(t, ask, id).value.Moved?
    ensures var row := Perform(t, ask, id).value.row;
            Follows(t.log, row) && (row.scope.0, row.to) in t.versions
  {
    ReleaseIsFoldOfLog(t, ask.scope);
  }

  lemma PerformKeeps(t: Tables, ask: Ask, id: nat)
    requires IsRecorded(t) && FreshId(t.log, ask.scope, id) && Perform(t, ask, id).Ok?
    ensures IsRecorded(After(t, Perform(t, ask, id).value))
    ensures Guarded(t) ==> Valid(After(t, Perform(t, ask, id).value))
  {
    var outcome := Perform(t, ask, id).value;
    if outcome.Moved? {
      MovedRowFollows(t, ask, id);
      hide Perform;
      hide Follows;
      hide Chained;
      hide Fold;
      RecordKeepsChain(t.log, outcome.row);
      FoldOneMore(t.log, outcome.row);
    }
  }

  lemma FoldOneMore(log: seq<Promotion>, row: Promotion)
    ensures Fold(log + [row]) == Fold(log)[row.scope := Release(row.to, row.actor)]
  {
    assert (log + [row])[..|log|] == log;
  }

  lemma RecordKeepsChain(log: seq<Promotion>, row: Promotion)
    requires Chained(log) && Follows(log, row)
    ensures Chained(log + [row])
  {
    var all := log + [row];
    forall k {:trigger all[..k]} | 0 <= k < |all| ensures Follows(all[..k], all[k]) {
      if k < |log| {
        assert all[..k] == log[..k];
      } else {
        assert all[..k] == log;
      }
    }
  }

  // ---- What rollback means ----

  /** What rollback does in the store alone, empty versions and all: it has no target exactly when the scope has at
      most one log row or the version before the current one is empty, and otherwise moves to that version. */
  lemma RollbackOfStoreExactly(t: Tables, ask: Ask, id: nat)
    requires IsRecorded(t) && ask.Revert? && ask.scope.1 in ENVIRONMENTS
    ensures var own := ScopeRows(t.log, ask.scope);
            Perform(t, ask, id) ==
              if |own| <= 1 || own[|own| - 2].to == "" then Err(NoRollbackTarget)
              else var last := own[|own| - 1]; Ok(Moved(RowOf(ask, last.to, own[|own| - 2].to, Some(last.id), id)))
  {
    var own := ScopeRows(t.log, ask.scope);
    ReleaseIsFoldOfLog(t, ask.scope);
    if |own| >= 2 {
      assert own[|own| - 2] in own;
    }
  }

  /** With the handler's guard rollback fails with ErrNoRollbackTarget exactly when the scope has at most one log row;
      otherwise it moves the release to the version before the current one. It never takes the no-op branch
      and never fails ErrVersionNotFound. */
  lemma RollbackExactly(t: Tables, ask: Ask, id: nat)
    requires Valid(t) && ask.Revert? && ask.scope.1 in ENVIRONMENTS
    ensures var own := ScopeRows(t.log, ask.scope);
            Perform(t, ask, id) ==
              if |own| <= 1 then Err(NoRollbackTarget)
              else var last := own[|own| - 1]; Ok(Moved(RowOf(ask, last.to, own[|own| - 2].to, Some(last.id), id)))
  {
    hide Perform;
    hide IsRecorded;
    hide ScopeRows;
    var own := ScopeRows(t.log, ask.scope);
    RollbackOfStoreExactly(t, ask, id);
    ReleaseIsFoldOfLog(t, ask.scope);
    if |own| >= 2 {
      assert own[|own| - 2] in own;
    }
  }

  lemma ScopeRowsOfRecord(t: Tables, row: Promotion)
    ensures ScopeRows(Record(t, row).log, row.scope) == ScopeRows(t.log, row.scope) + [row]
  {
  }

  /** Rolling back twice restores the release version. */
  lemma RollbackTwiceRestores(t: Tables, first: Ask, second: Ask, id: nat, id': nat)
    requires Valid(t) && first.Revert? && second.Revert? && first.scope == second.scope
    requires first.scope.1 in ENVIRONMENTS
    requires FreshId(t.log, first.scope, id) && id < id' && Perform(t, first, id).Ok?
    ensures Perform(t, first, id).value.Moved?
    ensures var mid := After(t, Perform(t, first, id).value);
            && Perform(mid, second, id').Ok? && Perform(mid, second, id').value.Moved?
            && CurrentVersion(After(mid, Perform(mid, second, id').value), first.scope) == CurrentVersion(t, first.scope)
            && CurrentVersion(mid, first.scope) != CurrentVersion(t, first.scope)
  {
    hide IsRecorded;
    hide Perform;
    RollbackExactly(t, first, id);
    PerformKeeps(t, first, id);
    var row := Perform(t, first, id).value.row;
    var mid := Record(t, row);
    ScopeRowsOfRecord(t, row);
    ReleaseIsFoldOfLog(t, first.scope);
    RollbackExactly(mid, second, id');
  }

  /** Promoting the version that is already current changes nothing. */
  lemma RepromoteChangesNothing(t: Tables, ask: Ask, id: nat)
    requires Valid(t) && ask.Promote? && ask.scope.1 in ENVIRONMENTS
    requires ask.scope in t.releases && t.releases[ask.scope].version == ask.version
    ensures Perform(t, ask, id) == Ok(Unchanged(t.releases[ask.scope]))
  {
    var own := ScopeRows(t.log, ask.scope);
    ReleaseIsFoldOfLog(t, ask.scope);
    assert own[|own| - 1] in own;
  }

  /** A successful promotion makes the asked version current. */
  lemma PromoteMakesCurrent(t: Tables, ask: Ask, id: nat)
    requires Valid(t) && ask.Promote? && ask.scope.1 in ENVIRONMENTS
    ensures Perform(t, ask, id).Ok? <==> (ask.scope.0, ask.version) in t.versions
    ensures Perform(t, ask, id).Ok? ==> CurrentVersion(After(t, Perform(t, ask, id).value), ask.scope) == ask.version
  {
  }

  /** Without the guard the empty version can be published and promoted in between: then a scope with three log rows
      has no rollback target. */
  lemma EmptyVersionLosesRollback(agent: string)
    ensures var scope := (agent, "production");
            var t0 := Tables({agent}, {(agent, "1"), (agent, ""), (agent, "2")}, map[], []);
            var t1 := Record(t0, Promotion(0, scope, "", "1", None, "", ""));
            var t2 := Record(t1, Promotion(1, scope, "1", "", None, "", ""));
            var t3 := Record(t2, Promotion(2, scope, "", "2", None, "", ""));
            && Perform(t0, Promote(scope, "1", "", ""), 0) == Ok(Moved(t1.log[0]))
            && Perform(t1, Promote(scope, "", "", ""), 1) == Ok(Moved(t2.log[1]))
            && Perform(t2, Promote(scope, "2", "", ""), 2) == Ok(Moved(t3.log[2]))
            && Perform(t3, Revert(scope, "", ""), 3) == Err(NoRollbackTarget)
  {
    var scope := (agent, "production");
    var t0 := Tables({agent}, {(agent, "1"), (agent, ""), (agent, "2")}, map[], []);
    var t1 := Record(t0, Promotion(0, scope, "", "1", None, "", ""));
    var t2 := Record(t1, Promotion(1, scope, "1", "", None, "", ""));
    var t3 := Record(t2, Promotion(2, scope, "", "2", None, "", ""));
    assert t1.releases[scope].version == "1" && t2.releases[scope].version == "" && t3.releases[scope].version == "2";
    assert t1.log[..0] == [] && t2.log[..1] == t1.log && t3.log[..2] == t2.log;
    assert Latest(t1.log, scope) == Some(t1.log[0]);
    assert Latest(t2.log, scope) == Some(t2.log[1]);
    assert Latest(t3.log, scope) == Some(t3.log[2]);
    assert "production" in ENVIRONMENTS && "1" != "";
  }

  // ---- The store ----

  class Store {
    var agents: set<string>
    var versions: set<Key>
    var releases: map<Scope, Release>
    var log: seq<Promotion>
    var nextId: nat

    ghost function Contents(): Tables
      reads this
    {
      Tables(agents, versions, releases, log)
    }

    ghost predicate Consistent()
      reads this
    {
      Valid(Contents()) && forall row | row in log :: row.id < nextId
    }

    constructor ()
      ensures Consistent() && Contents() == EMPTY
    {
      agents, versions, releases, log, nextId := {}, {}, map[], [], 0;
    }

    method CreateDefinition(name: string)
      requires Consistent()
      modifies this
      ensures Consistent() && Contents() == old(Contents()).(agents := old(agents) + {name})
    {
      agents := agents + {name};
    }

    method PublishAgentVersion(agent: string, version: string) returns (r: Result<Key, Error>)
      requires Consistent()
      modifies this
      ensures Consistent()
      ensures match HandlePublish(old(Contents()), (agent, version))
              case Ok(after) => Contents() == after && r == Ok((agent, version))
              case Err(e) => Contents() == old(Contents()) && r == Err(e)
    {
      if version == "" { return Err(MissingVersion); }
      if (agent, version) in versions { return Err(VersionConflict); }
      if agent !in agents { return Err(DefinitionNotFound); }
      versions := versions + {(agent, version)};
      return Ok((agent, version));
    }

    /** The shared body of PromoteRelease and Rollback. */
    method PromoteTo(ask: Ask) returns (r: Result<Release, Error>)
      requires Consistent()
      modifies this
      ensures Consistent()
      ensures match Perform(old(Contents()), ask, old(nextId))
              case Err(e) => Contents() == old(Contents()) && r == Err(e)
              case Ok(outcome) => Contents() == After(old(Contents()), outcome) && r == Ok(releases[ask.scope])
    {
      ghost var before, id := Contents(), nextId;
      if ask.scope.1 !in ENVIRONMENTS { return Err(InvalidEnvironment); }
      var version, rollbackOf: Option<nat>;
      if ask.Promote? {
        version, rollbackOf := ask.version, None;
      } else {
        var last := Latest(log, ask.scope);
        if last.None? { return Err(NoRollbackTarget); }
        if last.value.from == "" { return Err(NoRollbackTarget); }
        version, rollbackOf := last.value.from, Some(last.value.id);
      }
      if (ask.scope.0, version) !in versions { return Err(VersionNotFound); }
      var from := if ask.scope in releases then releases[ask.scope].version else "";
      if from == version {
        if ask.scope !in releases { return Err(NoReleaseToReport); }
        return Ok(releases[ask.scope]);
      }
      assert FreshId(log, ask.scope, id);
      PerformKeeps(before, ask, id);
      hide Latest;
      hide IsRecorded;
      hide Guarded;
      var release := Release(version, ask.actor);
      releases := releases[ask.scope := release];
      log := log + [Promotion(nextId, ask.scope, from, version, rollbackOf, ask.reason, ask.actor)];
      nextId := nextId + 1;
      return Ok(release);
    }
  }
}

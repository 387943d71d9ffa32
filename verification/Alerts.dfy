/** The alert store: incidents deduplicated by an upsert on a partial unique index, counted, resolved by
    fingerprint, and looked up by a literal id prefix. Every change is one SQL statement, so a run of the
    store is a sequence of operations. */
module Alerts {
  import opened Wrappers

  const RESOLVED := "resolved"
  const SUPPRESSED := "suppressed"
  const MAX_INT32 := 2147483647
  const MIN_PREFIX_LEN := 8

  /** `subject` stands for the columns no statement changes (source, type, service, summary, severity) and
      `findings` for those an update replaces (analysis, fix, pull request, confidence, acknowledgement). */
  datatype Alert = Alert(id: string, tenant: string, fingerprint: string, status: string, subject: string,
                         findings: string, count: int, trace: string, workflow: string, resolvedBy: string)

  datatype Evidence = Evidence(alert: string, content: string)

  datatype Tables = Tables(rows: seq<Alert>, evidence: seq<Evidence>)

  const EMPTY := Tables([], [])

  datatype Error = IdConflict | OutOfRange | DuplicateOpen | NotFound | PrefixTooShort | AmbiguousPrefix

  predicate Open(a: Alert) {
    a.status != RESOLVED && a.status != SUPPRESSED
  }

  /** The row is in the partial unique index on (tenant, fingerprint). */
  predicate Indexed(a: Alert) {
    a.fingerprint != "" && Open(a)
  }

  predicate SameKey(a: Alert, b: Alert) {
    a.tenant == b.tenant && a.fingerprint == b.fingerprint
  }

  predicate IsInt32(n: int) {
    -MAX_INT32 - 1 <= n <= MAX_INT32
  }

  function IndexOfId(rows: seq<Alert>, id: string): (r: Option<nat>)
    ensures r.Some? ==> r.value < |rows| && rows[r.value].id == id
    ensures r.None? ==> forall i | 0 <= i < |rows| :: rows[i].id != id
  {
    if rows == [] then None
    else if rows[|rows| - 1].id == id then Some(|rows| - 1)
    else IndexOfId(rows[..|rows| - 1], id)
  }

  /** The index entry that a proposed row would collide with. */
  function IndexOfKey(rows: seq<Alert>, a: Alert): (r: Option<nat>)
    ensures r.Some? ==> r.value < |rows| && Indexed(rows[r.value]) && SameKey(rows[r.value], a)
    ensures r.None? ==> forall i | 0 <= i < |rows| :: !(Indexed(rows[i]) && SameKey(rows[i], a))
  {
    if rows == [] then None
    else if Indexed(rows[|rows| - 1]) && SameKey(rows[|rows| - 1], a) then Some(|rows| - 1)
    else IndexOfKey(rows[..|rows| - 1], a)
  }

  // ---- Create ----

  datatype Effect = Inserted | Merged(at: nat) | Existing(at: nat) | Refused(error: Error)

  function EffectiveCount(a: Alert): int {
    if a.count == 0 then 1 else a.count
  }

  /** The upsert looks at the partial index first, and only a proposed row that collides with no entry there
      can meet the primary key. */
  function CreateEffect(rows: seq<Alert>, a: Alert): (e: Effect)
    ensures e.Merged? || e.Existing? ==> e.at < |rows|
  {
    if !IsInt32(EffectiveCount(a)) then Refused(OutOfRange)
    else if Indexed(a) && IndexOfKey(rows, a).Some? then
      var i := IndexOfKey(rows, a).value;
      if rows[i].count == MAX_INT32 then Refused(OutOfRange) else Merged(i)
    else
      match IndexOfId(rows, a.id)
      case None => Inserted
      case Some(i) => if rows[i].tenant == a.tenant then Existing(i) else Refused(IdConflict)
  }

  /** A run as a create reports it: its trace and the workflow's name. */
  datatype Report = Report(trace: string, workflow: string)

  /** The two CASE expressions of the upsert. */
  function MergeReport(had: Report, got: Report): Report {
    Report(if got.trace != "" then got.trace else had.trace,
           if got.trace != "" then got.workflow
           else if had.trace == "" && got.workflow != "" then got.workflow
           else had.workflow)
  }

  function ReportOf(a: Alert): Report {
    Report(a.trace, a.workflow)
  }

  function MergeRow(row: Alert, a: Alert): Alert {
    var pair := MergeReport(ReportOf(row), ReportOf(a));
    row.(count := row.count + 1, trace := pair.trace, workflow := pair.workflow)
  }

  function EvidenceFor(id: string, contents: seq<string>): seq<Evidence> {
    seq(|contents|, i requires 0 <= i < |contents| => Evidence(id, contents[i]))
  }

  function AfterCreate(t: Tables, a: Alert, contents: seq<string>): Tables {
    match CreateEffect(t.rows, a)
    case Inserted => Tables(t.rows + [a.(count := EffectiveCount(a), resolvedBy := "")], t.evidence + EvidenceFor(a.id, contents))
    case Merged(i) => Tables(t.rows[i := MergeRow(t.rows[i], a)], t.evidence + EvidenceFor(t.rows[i].id, contents))
    case Existing(_) => t
    case Refused(_) => t
  }

  // ---- Update and resolve ----

  function Patched(row: Alert, a: Alert): Alert {
    row.(status := a.status, findings := a.findings, resolvedBy := a.resolvedBy,
         trace := if a.trace != "" then a.trace else row.trace)
  }

  /** The index would hold two entries with one key. */
  predicate Clashes(rows: seq<Alert>, i: nat, row: Alert) {
    Indexed(row) && exists j | 0 <= j < |rows| :: j != i && Indexed(rows[j]) && SameKey(rows[j], row)
  }

  function UpdateError(rows: seq<Alert>, a: Alert): Option<Error> {
    match IndexOfId(rows, a.id)
    case None => None
    case Some(i) => if Clashes(rows, i, Patched(rows[i], a)) then Some(DuplicateOpen) else None
  }

  /** An update of an unknown id touches no row, and its evidence is refused by the foreign key. */
  function AfterUpdate(t: Tables, a: Alert, contents: seq<string>): Tables {
    match IndexOfId(t.rows, a.id)
    case None => t
    case Some(i) =>
      if UpdateError(t.rows, a).Some? then t
      else Tables(t.rows[i := Patched(t.rows[i], a)], t.evidence + EvidenceFor(a.id, contents))
  }

  predicate Resolves(a: Alert, tenant: string, fingerprint: string) {
    a.tenant == tenant && a.fingerprint == fingerprint && Open(a)
  }

  function ResolveRow(a: Alert, tenant: string, fingerprint: string, actor: string): Alert {
    if Resolves(a, tenant, fingerprint) then a.(status := RESOLVED, resolvedBy := actor) else a
  }

  function ResolveRows(rows: seq<Alert>, tenant: string, fingerprint: string, actor: string): seq<Alert> {
    seq(|rows|, i requires 0 <= i < |rows| => ResolveRow(rows[i], tenant, fingerprint, actor))
  }

  function AfterResolve(t: Tables, tenant: string, fingerprint: string, actor: string): Tables {
    t.(rows := ResolveRows(t.rows, tenant, fingerprint, actor))
  }

  function ResolvedIds(rows: seq<Alert>, tenant: string, fingerprint: string): seq<string> {
    if rows == [] then []
    else
      var rest, last := ResolvedIds(rows[..|rows| - 1], tenant, fingerprint), rows[|rows| - 1];
      if Resolves(last, tenant, fingerprint) then rest + [last.id] else rest
  }

  // ---- Runs ----

  datatype Op =
    | Create(alert: Alert, contents: seq<string>)
    | Update(alert: Alert, contents: seq<string>)
    | Resolve(tenant: string, fingerprint: string, actor: string)

  function Step(t: Tables, op: Op): Tables {
    match op
    case Create(a, contents) => AfterCreate(t, a, contents)
    case Update(a, contents) => AfterUpdate(t, a, contents)
    case Resolve(tenant, fingerprint, actor) => AfterResolve(t, tenant, fingerprint, actor)
  }

  function After(ops: seq<Op>): Tables {
    if ops == [] then EMPTY else Step(After(ops[..|ops| - 1]), ops[|ops| - 1])
  }

  ghost predicate UniqueIds(rows: seq<Alert>) {
    forall i, j | 0 <= i < j < |rows| :: rows[i].id != rows[j].id
  }

  ghost predicate OneOpenPerFingerprint(rows: seq<Alert>) {
    forall i, j | 0 <= i < j < |rows| :: Indexed(rows[i]) && Indexed(rows[j]) ==> !SameKey(rows[i], rows[j])
  }

  ghost predicate EvidenceBelongs(t: Tables) {
    forall e | e in t.evidence :: exists i | 0 <= i < |t.rows| :: t.rows[i].id == e.alert
  }

  ghost predicate Valid(t: Tables) {
    UniqueIds(t.rows) && OneOpenPerFingerprint(t.rows) && EvidenceBelongs(t)
    && forall i | 0 <= i < |t.rows| :: IsInt32(t.rows[i].count)
  }

  /** No statement deletes a row or changes whose incident it is. */
  ghost predicate Extends(before: seq<Alert>, after: seq<Alert>) {
    && |before| <= |after|
    && forall i | 0 <= i < |before| ::
         && after[i].id == before[i].id && after[i].tenant == before[i].tenant
         && after[i].fingerprint == before[i].fingerprint && after[i].subject == before[i].subject
  }

  lemma EvidenceGrows(t: Tables, rows: seq<Alert>, at: nat, contents: seq<string>)
    requires EvidenceBelongs(t) && Extends(t.rows, rows) && at < |rows|
    ensures EvidenceBelongs(Tables(rows, t.evidence + EvidenceFor(rows[at].id, contents)))
  {
  }

  lemma CreateKeeps(t: Tables, a: Alert, contents: seq<string>)
    requires Valid(t)
    ensures Valid(AfterCreate(t, a, contents)) && Extends(t.rows, AfterCreate(t, a, contents).rows)
  {
    var rows := AfterCreate(t, a, contents).rows;
    match CreateEffect(t.rows, a)
    case Inserted => EvidenceGrows(t, rows, |t.rows|, contents);
    case Merged(i) => EvidenceGrows(t, rows, i, contents);
    case _ =>
  }

  lemma UpdateKeeps(t: Tables, a: Alert, contents: seq<string>)
    requires Valid(t)
    ensures Valid(AfterUpdate(t, a, contents)) && Extends(t.rows, AfterUpdate(t, a, contents).rows)
  {
    var at := IndexOfId(t.rows, a.id);
    if at.Some? && UpdateError(t.rows, a).None? {
      EvidenceGrows(t, AfterUpdate(t, a, contents).rows, at.value, contents);
    }
  }

  lemma ResolveKeeps(t: Tables, tenant: string, fingerprint: string, actor: string)
    requires Valid(t)
    ensures var after := AfterResolve(t, tenant, fingerprint, actor); Valid(after) && Extends(t.rows, after.rows)
  {
    var after := AfterResolve(t, tenant, fingerprint, actor);
    EvidenceShared(t, after);
  }

  lemma EvidenceShared(t: Tables, after: Tables)
    requires EvidenceBelongs(t) && Extends(t.rows, after.rows) && after.evidence == t.evidence
    ensures EvidenceBelongs(after)
  {
  }

  lemma StepKeeps(t: Tables, op: Op)
    requires Valid(t)
    ensures Valid(Step(t, op)) && Extends(t.rows, Step(t, op).rows)
  {
    match op
    case Create(a, contents) => CreateKeeps(t, a, contents);
    case Update(a, contents) => UpdateKeeps(t, a, contents);
    case Resolve(tenant, fingerprint, actor) => ResolveKeeps(t, tenant, fingerprint, actor);
  }

  /** After every run there is at most one open alert per tenant and non-empty fingerprint, ids are unique,
      and every evidence row belongs to an alert. */
  lemma {:induction false} RunKeepsDedup(ops: seq<Op>)
    ensures Valid(After(ops))
  {
    if ops != [] {
      RunKeepsDedup(ops[..|ops| - 1]);
      StepKeeps(After(ops[..|ops| - 1]), ops[|ops| - 1]);
    }
  }

  // ---- Which create does what ----

  ghost predicate OpenStatus(status: string) {
    status != "resolved" && status != "suppressed"
  }

  /** The proposed alert is open, as is a stored one of the same tenant and non-empty fingerprint. */
  ghost predicate Duplicates(rows: seq<Alert>, a: Alert) {
    && a.fingerprint != "" && OpenStatus(a.status)
    && exists i | 0 <= i < |rows| :: OpenStatus(rows[i].status) && rows[i].tenant == a.tenant && rows[i].fingerprint == a.fingerprint
  }

  ghost predicate HasId(rows: seq<Alert>, id: string, tenant: string) {
    exists i | 0 <= i < |rows| :: rows[i].id == id && rows[i].tenant == tenant
  }

  /** A create merges exactly into the open alert it duplicates, whatever its own id; only otherwise does the id
      decide between inserting, answering the same tenant's row, and refusing another tenant's. */
  lemma CreateExactly(t: Tables, a: Alert)
    requires Valid(t) && IsInt32(EffectiveCount(a))
    ensures var e := CreateEffect(t.rows, a);
            && (e.Merged? || e == Refused(OutOfRange) <==> Duplicates(t.rows, a))
            && (e.Merged? ==>
                  OpenStatus(t.rows[e.at].status) && t.rows[e.at].tenant == a.tenant && t.rows[e.at].fingerprint == a.fingerprint)
            && (e.Inserted? <==> !Duplicates(t.rows, a) && forall i | 0 <= i < |t.rows| :: t.rows[i].id != a.id)
            && (e.Existing? <==> !Duplicates(t.rows, a) && HasId(t.rows, a.id, a.tenant))
            && (e == Refused(IdConflict) <==> !Duplicates(t.rows, a) && exists tenant | tenant != a.tenant :: HasId(t.rows, a.id, tenant))
  {
    var at := IndexOfId(t.rows, a.id);
    if at.Some? {
      assert HasId(t.rows, a.id, t.rows[at.value].tenant);
    }
  }

  // ---- What a create and an update write ----

  /** The evidence grew by these contents, in order, under this alert. */
  ghost predicate Attached(before: seq<Evidence>, after: seq<Evidence>, id: string, contents: seq<string>) {
    && |after| == |before| + |contents| && before <= after
    && forall k | 0 <= k < |contents| :: after[|before| + k].alert == id && after[|before| + k].content == contents[k]
  }

  /** Every row but one is as it was, and there is no other. */
  ghost predicate OnlyRow(before: seq<Alert>, after: seq<Alert>, i: nat) {
    |after| == |before| && forall j | 0 <= j < |before| && j != i :: after[j] == before[j]
  }

  /** The new occurrence of an open alert: one more, and the run it reports. */
  ghost predicate IsMerged(row: Alert, a: Alert, merged: Alert) {
    && merged.count == row.count + 1
    && merged.trace == (if a.trace == "" then row.trace else a.trace)
    && merged.workflow == (if a.trace != "" || (row.trace == "" && a.workflow != "") then a.workflow else row.workflow)
    && merged.id == row.id && merged.tenant == row.tenant && merged.fingerprint == row.fingerprint && merged.subject == row.subject
    && merged.status == row.status && merged.findings == row.findings && merged.resolvedBy == row.resolvedBy
  }

  /** The alert as it is first stored. */
  ghost predicate IsStored(a: Alert, stored: Alert) {
    && stored.count == (if a.count == 0 then 1 else a.count) && stored.resolvedBy == ""
    && stored.id == a.id && stored.tenant == a.tenant && stored.fingerprint == a.fingerprint && stored.status == a.status
    && stored.subject == a.subject && stored.findings == a.findings && stored.trace == a.trace && stored.workflow == a.workflow
  }

  /** A create writes one new row, or the next occurrence on one row, or nothing, and its evidence under that row. */
  lemma CreateWritesExactly(t: Tables, a: Alert, contents: seq<string>)
    ensures var after := AfterCreate(t, a, contents); var n := |t.rows|;
            match CreateEffect(t.rows, a)
            case Inserted =>
              && |after.rows| == n + 1 && after.rows[..n] == t.rows && IsStored(a, after.rows[n])
              && Attached(t.evidence, after.evidence, a.id, contents)
            case Merged(i) =>
              && OnlyRow(t.rows, after.rows, i) && IsMerged(t.rows[i], a, after.rows[i])
              && Attached(t.evidence, after.evidence, t.rows[i].id, contents)
            case _ => after == t
  {
    var after := AfterCreate(t, a, contents);
    if CreateEffect(t.rows, a).Inserted? { assert after.rows[..|t.rows|] == t.rows; }
  }

  /** Counts are 32-bit: a create is refused as out of range exactly when its own count, or the one it would make, is. */
  lemma OutOfRangeExactly(t: Tables, a: Alert)
    requires Valid(t)
    ensures var count := if a.count == 0 then 1 else a.count;
            CreateEffect(t.rows, a) == Refused(OutOfRange) <==>
              || !(-2147483648 <= count < 2147483648)
              || exists i | 0 <= i < |t.rows| ::
                   && a.fingerprint != "" && OpenStatus(a.status) && OpenStatus(t.rows[i].status)
                   && t.rows[i].tenant == a.tenant && t.rows[i].fingerprint == a.fingerprint && t.rows[i].count == 2147483647
  {
  }

  /** Another open alert has the row's tenant and non-empty fingerprint. */
  ghost predicate HasOpenTwin(rows: seq<Alert>, i: nat)
    requires i < |rows|
  {
    && rows[i].fingerprint != ""
    && exists j | 0 <= j < |rows| ::
         j != i && OpenStatus(rows[j].status) && rows[j].tenant == rows[i].tenant && rows[j].fingerprint == rows[i].fingerprint
  }

  /** What an update sets and what it leaves. */
  ghost predicate IsUpdated(row: Alert, a: Alert, updated: Alert) {
    && updated.status == a.status && updated.findings == a.findings && updated.resolvedBy == a.resolvedBy
    && updated.trace == (if a.trace == "" then row.trace else a.trace)
    && updated.id == row.id && updated.tenant == row.tenant && updated.fingerprint == row.fingerprint
    && updated.subject == row.subject && updated.count == row.count && updated.workflow == row.workflow
  }

  /** An update of a stored alert is refused exactly when it would open it beside an open twin; otherwise it sets that row,
      leaves the others, and adds its evidence under that id. */
  lemma UpdateExactly(t: Tables, a: Alert, contents: seq<string>, i: nat)
    requires Valid(t) && i < |t.rows| && t.rows[i].id == a.id
    ensures UpdateError(t.rows, a) == if OpenStatus(a.status) && HasOpenTwin(t.rows, i) then Some(DuplicateOpen) else None
    ensures var after := AfterUpdate(t, a, contents);
            if OpenStatus(a.status) && HasOpenTwin(t.rows, i) then after == t
            else
              && OnlyRow(t.rows, after.rows, i) && IsUpdated(t.rows[i], a, after.rows[i])
              && Attached(t.evidence, after.evidence, a.id, contents)
  {
    assert IndexOfId(t.rows, a.id) == Some(i);
  }

  /** An update of an unknown id answers without an error and changes nothing. */
  lemma UpdateOfUnknown(t: Tables, a: Alert, contents: seq<string>)
    requires forall i | 0 <= i < |t.rows| :: t.rows[i].id != a.id
    ensures UpdateError(t.rows, a).None? && AfterUpdate(t, a, contents) == t
  {
    assert IndexOfId(t.rows, a.id).None?;
  }

  // ---- Resolving resolves at most one ----

  lemma {:induction false} NoneOpenNoneResolved(rows: seq<Alert>, tenant: string, fingerprint: string)
    requires forall i | 0 <= i < |rows| :: !Resolves(rows[i], tenant, fingerprint)
    ensures ResolvedIds(rows, tenant, fingerprint) == []
  {
    if rows != [] {
      NoneOpenNoneResolved(rows[..|rows| - 1], tenant, fingerprint);
    }
  }

  lemma {:induction false} AtMostOneResolved(rows: seq<Alert>, tenant: string, fingerprint: string)
    requires OneOpenPerFingerprint(rows) && fingerprint != ""
    ensures |ResolvedIds(rows, tenant, fingerprint)| <= 1
  {
    if rows != [] {
      var n := |rows| - 1;
      if Resolves(rows[n], tenant, fingerprint) {
        forall i | 0 <= i < n ensures !Resolves(rows[..n][i], tenant, fingerprint) {
          assert Indexed(rows[n]) && (Indexed(rows[i]) ==> !SameKey(rows[i], rows[n]));
        }
        NoneOpenNoneResolved(rows[..n], tenant, fingerprint);
      } else {
        AtMostOneResolved(rows[..n], tenant, fingerprint);
      }
    }
  }

  lemma {:induction false} ResolvedExactly(rows: seq<Alert>, tenant: string, fingerprint: string, id: string)
    ensures id in ResolvedIds(rows, tenant, fingerprint)
            <==> exists i | 0 <= i < |rows| :: rows[i].id == id && Resolves(rows[i], tenant, fingerprint)
  {
    if rows != [] {
      var n := |rows| - 1;
      ResolvedExactly(rows[..n], tenant, fingerprint, id);
      if i :| 0 <= i < |rows| && rows[i].id == id && Resolves(rows[i], tenant, fingerprint) {
        assert i < n ==> rows[..n][i] == rows[i];
      }
    }
  }

  lemma AfterOneMore(ops: seq<Op>, op: Op)
    ensures After(ops + [op]) == Step(After(ops), op)
  {
    assert (ops + [op])[..|ops|] == ops;
  }

  /** What a resolve leaves behind: no match open, and every changed row among the returned ids. */
  ghost predicate ResolvedInto(before: seq<Alert>, after: seq<Alert>, tenant: string, fingerprint: string, actor: string) {
    && |after| == |before|
    && forall i | 0 <= i < |after| ::
         && !Resolves(after[i], tenant, fingerprint)
         && (after[i] != before[i] ==>
               before[i].id in ResolvedIds(before, tenant, fingerprint) && after[i] == before[i].(status := RESOLVED, resolvedBy := actor))
  }

  lemma ResolveLeavesNone(rows: seq<Alert>, tenant: string, fingerprint: string, actor: string)
    ensures ResolvedInto(rows, ResolveRows(rows, tenant, fingerprint, actor), tenant, fingerprint, actor)
  {
    hide ResolvedIds;
    var after := ResolveRows(rows, tenant, fingerprint, actor);
    forall i | 0 <= i < |rows| && after[i] != rows[i] ensures rows[i].id in ResolvedIds(rows, tenant, fingerprint) {
      ResolvedExactly(rows, tenant, fingerprint, rows[i].id);
    }
  }

  /** In every reachable state a resolve by a non-empty fingerprint returns at most one id, and changes exactly the
      alerts it returns, leaving none of the matches open. */
  lemma ResolveReturnsAtMostOne(ops: seq<Op>, tenant: string, fingerprint: string, actor: string)
    requires fingerprint != ""
    ensures var before, after := After(ops).rows, After(ops + [Resolve(tenant, fingerprint, actor)]).rows;
            |ResolvedIds(before, tenant, fingerprint)| <= 1 && ResolvedInto(before, after, tenant, fingerprint, actor)
  {
    hide After;
    hide ResolvedIds;
    hide ResolvedInto;
    hide UniqueIds;
    hide OneOpenPerFingerprint;
    hide EvidenceBelongs;
    RunKeepsDedup(ops);
    AtMostOneResolved(After(ops).rows, tenant, fingerprint);
    AfterOneMore(ops, Resolve(tenant, fingerprint, actor));
    ResolveLeavesNone(After(ops).rows, tenant, fingerprint, actor);
  }

  /** A resolve closes exactly the open alerts of that tenant and fingerprint, in the actor's name, and answers their ids. */
  lemma ResolveExactly(t: Tables, tenant: string, fingerprint: string, actor: string)
    ensures var after := AfterResolve(t, tenant, fingerprint, actor); var ids := ResolvedIds(t.rows, tenant, fingerprint);
            && after.evidence == t.evidence && |after.rows| == |t.rows|
            && (forall i | 0 <= i < |t.rows| ::
                  var a := t.rows[i];
                  after.rows[i] == if a.tenant == tenant && a.fingerprint == fingerprint && OpenStatus(a.status)
                                   then a.(status := "resolved", resolvedBy := actor) else a)
            && (forall id :: id in ids <==>
                  exists i | 0 <= i < |t.rows| ::
                    t.rows[i].id == id && t.rows[i].tenant == tenant && t.rows[i].fingerprint == fingerprint && OpenStatus(t.rows[i].status))
  {
    hide ResolvedIds;
    forall id ensures id in ResolvedIds(t.rows, tenant, fingerprint) <==>
                        exists i | 0 <= i < |t.rows| ::
                          t.rows[i].id == id && t.rows[i].tenant == tenant && t.rows[i].fingerprint == fingerprint && OpenStatus(t.rows[i].status)
    {
      ResolvedExactly(t.rows, tenant, fingerprint, id);
    }
  }

  /** The empty fingerprint is outside the index, and a resolve by it can return two ids. The handler
      refuses it. */
  lemma EmptyFingerprintResolvesMany(tenant: string)
    ensures exists ops: seq<Op> :: |ResolvedIds(After(ops).rows, tenant, "")| == 2
  {
    var a := Alert("1", tenant, "", "open", "", "", 1, "", "", "");
    var b := a.(id := "2");
    assert a.id[0] != b.id[0];
    var ops := [Create(a, []), Create(b, [])];
    assert ops[..1] == [Create(a, [])] && ops[..1][..0] == [];
    assert After(ops[..1]).rows == [a];
    assert CreateEffect([a], b) == Inserted;
    assert After(ops).rows == [a, b];
    OpenIsOpen();
    assert [a, b][..1] == [a] && [a][..0] == [];
    assert ResolvedIds([a], tenant, "") == [a.id];
    assert |ResolvedIds([a, b], tenant, "")| == 2;
  }

  lemma OpenIsOpen()
    ensures "open" != RESOLVED && "open" != SUPPRESSED
  {
  }

  // ---- Occurrence counting ----

  function Total(rows: seq<Alert>): int {
    if rows == [] then 0 else Total(rows[..|rows| - 1]) + rows[|rows| - 1].count
  }

  lemma {:induction false} TotalOfReplace(rows: seq<Alert>, i: nat, row: Alert)
    requires i < |rows|
    ensures Total(rows[i := row]) == Total(rows) - rows[i].count + row.count
  {
    var n := |rows| - 1;
    if i < n {
      TotalOfReplace(rows[..n], i, row);
      assert rows[i := row][..n] == rows[..n][i := row];
    } else {
      assert rows[i := row][..n] == rows[..n];
    }
  }

  lemma {:induction false} TotalOfSameCounts(before: seq<Alert>, after: seq<Alert>)
    requires |before| == |after| && forall i | 0 <= i < |before| :: after[i].count == before[i].count
    ensures Total(after) == Total(before)
  {
    if before != [] {
      TotalOfSameCounts(before[..|before| - 1], after[..|after| - 1]);
    }
  }

  /** A create that inserted or merged. */
  predicate Accepted(rows: seq<Alert>, op: Op) {
    op.Create? && (CreateEffect(rows, op.alert).Inserted? || CreateEffect(rows, op.alert).Merged?)
  }

  function AcceptedCount(ops: seq<Op>): nat {
    if ops == [] then 0
    else
      var rest := ops[..|ops| - 1];
      AcceptedCount(rest) + if Accepted(After(rest).rows, ops[|ops| - 1]) then 1 else 0
  }

  /** What an operation adds to the occurrence counts: the count an inserted alert opens with, one for a merge. */
  function Adds(rows: seq<Alert>, op: Op): int {
    if !op.Create? then 0
    else
      match CreateEffect(rows, op.alert)
      case Inserted => EffectiveCount(op.alert)
      case Merged(_) => 1
      case _ => 0
  }

  function Added(ops: seq<Op>): int {
    if ops == [] then 0
    else
      var rest := ops[..|ops| - 1];
      Added(rest) + Adds(After(rest).rows, ops[|ops| - 1])
  }

  /** Every create came through the handler, which zeroes the caller's count. */
  ghost predicate HandlerCounts(ops: seq<Op>) {
    forall op | op in ops && op.Create? :: op.alert.count == 0
  }

  lemma StepAdds(t: Tables, op: Op)
    ensures Total(Step(t, op).rows) == Total(t.rows) + Adds(t.rows, op)
  {
    var after := Step(t, op).rows;
    match op
    case Create(a, _) =>
      match CreateEffect(t.rows, a) {
        case Inserted => assert after[..|t.rows|] == t.rows;
        case Merged(i) => TotalOfReplace(t.rows, i, MergeRow(t.rows[i], a));
        case _ =>
      }
    case _ => TotalOfSameCounts(t.rows, after);
  }

  /** In the store alone, whatever counts creates bring: the occurrence counts sum to the counts that inserted alerts
      opened with plus one for each merge; a primary-key retry, a refused create, an update and a resolve add nothing. */
  lemma {:induction false} TotalIsAdded(ops: seq<Op>)
    ensures Total(After(ops).rows) == Added(ops)
  {
    if ops != [] {
      var n := |ops| - 1;
      TotalIsAdded(ops[..n]);
      StepAdds(After(ops[..n]), ops[n]);
    }
  }

  lemma {:induction false} AddedByHandler(ops: seq<Op>)
    requires HandlerCounts(ops)
    ensures Added(ops) == AcceptedCount(ops)
  {
    if ops != [] {
      AddedByHandler(ops[..|ops| - 1]);
      assert ops[|ops| - 1] in ops;
    }
  }

  /** So through the handler they sum to the number of creates that inserted or merged. */
  lemma TotalIsAcceptedCreates(ops: seq<Op>)
    requires HandlerCounts(ops)
    ensures Total(After(ops).rows) == AcceptedCount(ops)
  {
    TotalIsAdded(ops);
    AddedByHandler(ops);
  }

  // ---- What one incident's row remembers ----

  /** The reports of the creates that inserted or merged into one alert, oldest first. */
  function Reports(ops: seq<Op>, id: string): seq<Report> {
    if ops == [] then []
    else
      var rest, op := ops[..|ops| - 1], ops[|ops| - 1];
      var rows, earlier := After(rest).rows, Reports(rest, id);
      if !op.Create? then earlier
      else
        match CreateEffect(rows, op.alert)
        case Inserted => if op.alert.id == id then earlier + [ReportOf(op.alert)] else earlier
        case Merged(i) => if rows[i].id == id then earlier + [ReportOf(op.alert)] else earlier
        case _ => earlier
  }

  /** The count the alert was opened with. */
  function Opening(ops: seq<Op>, id: string): int {
    if ops == [] then 0
    else
      var rest, op := ops[..|ops| - 1], ops[|ops| - 1];
      if op.Create? && op.alert.id == id && CreateEffect(After(rest).rows, op.alert).Inserted? then EffectiveCount(op.alert)
      else Opening(rest, id)
  }

  /** The pair a reader expects: the last report with a trace, or else no trace and the last workflow named. */
  function LastTraced(reports: seq<Report>): Option<Report> {
    if reports == [] then None
    else if reports[|reports| - 1].trace != "" then Some(reports[|reports| - 1])
    else LastTraced(reports[..|reports| - 1])
  }

  function LastNamed(reports: seq<Report>): string {
    if reports == [] then ""
    else if reports[|reports| - 1].workflow != "" then reports[|reports| - 1].workflow
    else LastNamed(reports[..|reports| - 1])
  }

  function Remembered(reports: seq<Report>): Report {
    match LastTraced(reports)
    case Some(report) => report
    case None => Report("", LastNamed(reports))
  }

  /** Merging one more report is the fold step of `Remembered`. */
  lemma RememberedOfMerge(reports: seq<Report>, next: Report)
    ensures Remembered(reports + [next]) == MergeReport(Remembered(reports), next)
  {
    var all := reports + [next];
    assert all[..|reports|] == reports;
    TracedHasTrace(reports);
  }

  lemma {:induction false} TracedHasTrace(reports: seq<Report>)
    ensures LastTraced(reports).Some? ==> LastTraced(reports).value.trace != ""
  {
    if reports != [] {
      TracedHasTrace(reports[..|reports| - 1]);
    }
  }

  /** No update carries a trace for the alert. */
  ghost predicate NoTracedUpdate(ops: seq<Op>, id: string) {
    forall op | op in ops && op.Update? && op.alert.id == id :: op.alert.trace == ""
  }

  ghost predicate RowRemembers(ops: seq<Op>, row: Alert) {
    var reports := Reports(ops, row.id);
    && reports != []
    && row.count == Opening(ops, row.id) + |reports| - 1
    && (HandlerCounts(ops) ==> row.count == |reports|)
    && (NoTracedUpdate(ops, row.id) ==> ReportOf(row) == Remembered(reports))
  }

  lemma PrefixHypotheses(ops: seq<Op>, id: string)
    requires ops != []
    ensures HandlerCounts(ops) ==> HandlerCounts(ops[..|ops| - 1])
    ensures NoTracedUpdate(ops, id) ==> NoTracedUpdate(ops[..|ops| - 1], id)
    ensures ops[|ops| - 1] in ops
  {
  }

  /** An id that no stored row carries has received no report. */
  lemma {:induction false} UnknownHasNoReports(ops: seq<Op>, id: string)
    requires IndexOfId(After(ops).rows, id).None?
    ensures Reports(ops, id) == []
  {
    if ops != [] {
      var n := |ops| - 1;
      var before, after := After(ops[..n]), After(ops);
      RunKeepsDedup(ops[..n]);
      StepKeeps(before, ops[n]);
      forall i | 0 <= i < |before.rows| ensures before.rows[i].id != id {
        assert after.rows[i].id == before.rows[i].id;
      }
      UnknownHasNoReports(ops[..n], id);
      if ops[n].Create? && CreateEffect(before.rows, ops[n].alert).Inserted? {
        assert after.rows[|before.rows|].id == ops[n].alert.id;
      }
    }
  }

  lemma CreateRemembers(ops: seq<Op>, i: nat)
    requires ops != [] && ops[|ops| - 1].Create? && i < |After(ops).rows|
    requires var rest := ops[..|ops| - 1]; i < |After(rest).rows| ==> RowRemembers(rest, After(rest).rows[i])
    ensures RowRemembers(ops, After(ops).rows[i])
  {
    var rest, op := ops[..|ops| - 1], ops[|ops| - 1];
    var before, row := After(rest).rows, After(ops).rows[i];
    RunKeepsDedup(rest);
    RunKeepsDedup(ops);
    PrefixHypotheses(ops, row.id);
    var effect := CreateEffect(before, op.alert);
    if effect.Inserted? && i == |before| {
      UnknownHasNoReports(rest, op.alert.id);
      RememberedOfMerge([], ReportOf(op.alert));
      assert [] + [ReportOf(op.alert)] == [ReportOf(op.alert)];
      assert Reports(ops, row.id) == [ReportOf(op.alert)];
    } else if effect.Merged? && effect.at == i {
      RememberedOfMerge(Reports(rest, row.id), ReportOf(op.alert));
    } else {
      assert row == before[i];
      assert effect.Inserted? ==> After(ops).rows[|before|].id == op.alert.id;
      assert Reports(ops, row.id) == Reports(rest, row.id);
    }
  }

  /** For every run and every stored alert: its count is the one it was opened with plus the later creates that landed on
      it, so through the handler the number of creates that landed on it; and unless
      an update reported a trace for it, its trace and workflow are the pair of the last such create that
      reported a trace, or no trace and the last workflow name. */
  lemma {:induction false} RowRemembersItsCreates(ops: seq<Op>, i: nat)
    requires i < |After(ops).rows|
    ensures RowRemembers(ops, After(ops).rows[i])
  {
    var n := |ops| - 1;
    var before := After(ops[..n]).rows;
    RunKeepsDedup(ops[..n]);
    if i < |before| {
      RowRemembersItsCreates(ops[..n], i);
    }
    if ops[n].Create? {
      CreateRemembers(ops, i);
    } else {
      StepKeeps(After(ops[..n]), ops[n]);
      PrefixHypotheses(ops, before[i].id);
    }
  }

  /** The pair can be split by an update: it replaces the trace and leaves the old workflow beside it.
      It keeps the pair exactly when it reports no trace or the one already stored. */
  lemma UpdateKeepsPairExactly(t: Tables, a: Alert, contents: seq<string>, i: nat)
    requires Valid(t) && i < |t.rows| && t.rows[i].id == a.id && UpdateError(t.rows, a).None?
    ensures var after := AfterUpdate(t, a, contents).rows[i];
            && after.workflow == t.rows[i].workflow
            && (ReportOf(after) == ReportOf(t.rows[i]) <==> a.trace == "" || a.trace == t.rows[i].trace)
  {
  }

  // ---- Literal prefixes through LIKE ----

  datatype LikeResult = Match | NoMatch | BadPattern

  /** SQL LIKE with backslash as the escape character. */
  function Like(pattern: string, s: string): LikeResult
    decreases |pattern| + |s|
  {
    if pattern == "" then (if s == "" then Match else NoMatch)
    else if pattern[0] == '%' then
      var here := Like(pattern[1..], s);
      if here == NoMatch && s != "" then Like(pattern, s[1..]) else here
    else if pattern[0] == '\\' && |pattern| == 1 then BadPattern
    else if s == "" then NoMatch
    else if pattern[0] == '_' then Like(pattern[1..], s[1..])
    else if pattern[0] == '\\' then (if pattern[1] == s[0] then Like(pattern[2..], s[1..]) else NoMatch)
    else if pattern[0] == s[0] then Like(pattern[1..], s[1..])
    else NoMatch
  }

  function EscapeLike(s: string): string {
    if s == "" then ""
    else
      var rest := EscapeLike(s[1..]);
      if s[0] == '\\' || s[0] == '%' || s[0] == '_' then ['\\', s[0]] + rest else [s[0]] + rest
  }

  lemma {:induction false} PercentMatchesAll(s: string)
    ensures Like("%", s) == Match
  {
    if s != "" {
      PercentMatchesAll(s[1..]);
    }
  }

  /** For all strings: the escaped prefix followed by % matches exactly the strings it is a prefix of, and is
      never a malformed pattern. */
  lemma {:induction false} EscapedPrefixIsLiteral(p: string, s: string)
    ensures Like(EscapeLike(p) + "%", s) == if p <= s then Match else NoMatch
  {
    var pattern := EscapeLike(p) + "%";
    if p == "" {
      assert pattern == "%";
      PercentMatchesAll(s);
    } else {
      var rest := EscapeLike(p[1..]) + "%";
      if p[0] == '\\' || p[0] == '%' || p[0] == '_' {
        assert pattern == ['\\', p[0]] + rest;
        assert pattern[2..] == rest;
      } else {
        assert pattern == [p[0]] + rest;
        assert pattern[1..] == rest;
      }
      if s != "" {
        EscapedPrefixIsLiteral(p[1..], s[1..]);
        assert p <= s <==> p[0] == s[0] && p[1..] <= s[1..];
      }
    }
  }

  /** The number of bytes of the UTF-8 form, Go's `len`. */
  function ByteLength(s: string): nat {
    if s == "" then 0
    else
      var c := s[0] as int;
      (if c < 0x80 then 1 else if c < 0x800 then 2 else if c < 0x10000 then 3 else 4) + ByteLength(s[1..])
  }

  /** The lengths of section 3 of RFC 3629. */
  lemma BytesOfOne(c: char)
    ensures ByteLength([c]) == if c as int <= 0x7F then 1 else if c as int <= 0x7FF then 2 else if c as int <= 0xFFFF then 3 else 4
  {
    assert [c][1..] == [];
  }

  lemma {:induction false} BytesAdd(a: string, b: string)
    ensures ByteLength(a + b) == ByteLength(a) + ByteLength(b)
  {
    if a == [] {
      assert a + b == b;
    } else {
      BytesAdd(a[1..], b);
      assert (a + b)[1..] == a[1..] + b;
    }
  }

  ghost predicate HasPrefixAt(rows: seq<Alert>, prefix: string, i: int) {
    0 <= i < |rows| && prefix <= rows[i].id
  }

  ghost predicate HoldsId(rows: seq<Alert>, id: string) {
    exists i | 0 <= i < |rows| :: rows[i].id == id
  }

  /** What a lookup by prefix answers when its exact read saw one table and its LIKE query a later one: the exact id,
      else the one row with the prefix, else the reason there is no single answer. */
  ghost predicate IsLookupAcross(first: seq<Alert>, later: seq<Alert>, prefix: string, r: Result<Alert, Error>) {
    if HoldsId(first, prefix) then r.Ok? && r.value in first && r.value.id == prefix
    else if ByteLength(prefix) < MIN_PREFIX_LEN then r == Err(PrefixTooShort)
    else if exists i, j :: i < j && HasPrefixAt(later, prefix, i) && HasPrefixAt(later, prefix, j) then
      r == Err(AmbiguousPrefix)
    else if exists i :: HasPrefixAt(later, prefix, i) then
      exists i :: HasPrefixAt(later, prefix, i) && r == Ok(later[i])
    else r == Err(NotFound)
  }

  /** The answer over one table. */
  ghost predicate IsLookup(rows: seq<Alert>, prefix: string, r: Result<Alert, Error>) {
    IsLookupAcross(rows, rows, prefix, r)
  }

  /** The lookup has exactly one answer: no two results both qualify. */
  lemma LookupIsDetermined(first: seq<Alert>, later: seq<Alert>, prefix: string, r: Result<Alert, Error>, r': Result<Alert, Error>)
    requires UniqueIds(first) && IsLookupAcross(first, later, prefix, r) && IsLookupAcross(first, later, prefix, r')
    ensures r == r'
  {
    if !HoldsId(first, prefix) && r.Ok? && r'.Ok? {
      var i :| HasPrefixAt(later, prefix, i) && r == Ok(later[i]);
      var j :| HasPrefixAt(later, prefix, j) && r' == Ok(later[j]);
      assert i < j || j < i || i == j;
    }
  }

  /** Which alert, or which refusal, a lookup names. */
  function Named(r: Result<Alert, Error>): Result<string, Error> {
    match r
    case Ok(a) => Ok(a.id)
    case Err(e) => Err(e)
  }

  /** The two reads name what one read of the later table would, exactly unless an alert of that very id was created
      between them and the prefix is too short for the query or another alert has it too. */
  lemma LookupAcrossAgreesExactly(first: seq<Alert>, later: seq<Alert>, prefix: string,
                                  r: Result<Alert, Error>, now: Result<Alert, Error>)
    requires Extends(first, later) && UniqueIds(later)
    requires IsLookupAcross(first, later, prefix, r) && IsLookup(later, prefix, now)
    ensures Named(r) == Named(now) <==>
              !(&& !HoldsId(first, prefix) && HoldsId(later, prefix)
                && (ByteLength(prefix) < MIN_PREFIX_LEN || exists i :: HasPrefixAt(later, prefix, i) && later[i].id != prefix))
  {
    hide ByteLength;
    if HoldsId(first, prefix) {
      var i :| 0 <= i < |first| && first[i].id == prefix;
      assert later[i].id == prefix;
    } else if HoldsId(later, prefix) && ByteLength(prefix) >= MIN_PREFIX_LEN {
      var e :| 0 <= e < |later| && later[e].id == prefix;
      assert HasPrefixAt(later, prefix, e);
      if i :| HasPrefixAt(later, prefix, i) && later[i].id != prefix {
        assert i < e || e < i;
      }
    }
  }

  /** The first two rows LIKE finds, as the query's LIMIT 2 returns them. */
  method MatchesUpToTwo(rows: seq<Alert>, prefix: string) returns (found: seq<Alert>)
    ensures |found| <= 2
    ensures |found| == 2 <==> exists i, j :: i < j && HasPrefixAt(rows, prefix, i) && HasPrefixAt(rows, prefix, j)
    ensures |found| == 0 <==> !(exists i :: HasPrefixAt(rows, prefix, i))
    ensures |found| == 1 ==> exists i :: HasPrefixAt(rows, prefix, i) && found[0] == rows[i]
  {
    var pattern := EscapeLike(prefix) + "%";
    found := [];
    ghost var at: seq<int> := [];
    var i := 0;
    while i < |rows| && |found| < 2
      invariant 0 <= i <= |rows| && |found| == |at| <= 2
      invariant forall k | 0 <= k < |at| :: 0 <= at[k] < i && HasPrefixAt(rows, prefix, at[k]) && found[k] == rows[at[k]]
      invariant |at| == 2 ==> at[0] < at[1]
      invariant |at| < 2 ==> forall k | 0 <= k < i && HasPrefixAt(rows, prefix, k) :: k in at
    {
      EscapedPrefixIsLiteral(prefix, rows[i].id);
      if Like(pattern, rows[i].id) == Match {
        found, at := found + [rows[i]], at + [i];
      }
      i := i + 1;
    }
    if |at| == 1 {
      assert HasPrefixAt(rows, prefix, at[0]) && forall k | HasPrefixAt(rows, prefix, k) :: k == at[0];
    }
  }

  /** GetByPrefix: the exact read of one table, then the query of a later one. An exact id wins at any length; otherwise
      the literal prefix must match one alert. Looking at two matches decides as looking at all would. */
  method LookUp(first: seq<Alert>, later: seq<Alert>, prefix: string) returns (r: Result<Alert, Error>)
    ensures IsLookupAcross(first, later, prefix, r)
  {
    var at := IndexOfId(first, prefix);
    if at.Some? { return Ok(first[at.value]); }
    if ByteLength(prefix) < MIN_PREFIX_LEN { return Err(PrefixTooShort); }
    var found := MatchesUpToTwo(later, prefix);
    if |found| == 0 { return Err(NotFound); }
    if |found| == 1 { return Ok(found[0]); }
    return Err(AmbiguousPrefix);
  }

  // ---- The store ----

  class Store {
    var rows: seq<Alert>
    var evidence: seq<Evidence>

    ghost function Contents(): Tables
      reads this
    {
      Tables(rows, evidence)
    }

    constructor ()
      ensures Contents() == EMPTY && Valid(Contents())
    {
      rows, evidence := [], [];
    }

    /** All evidence of one alert and nothing else. */
    ghost predicate IsEvidenceOf(id: string, contents: seq<string>)
      reads this
    {
      && (forall c | c in contents :: Evidence(id, c) in evidence)
      && (forall e | e in evidence && e.alert == id :: e.content in contents)
    }

    method GetEvidence(id: string) returns (contents: seq<string>)
      ensures IsEvidenceOf(id, contents)
    {
      contents := [];
      for i := 0 to |evidence|
        invariant forall c | c in contents :: Evidence(id, c) in evidence
        invariant forall k | 0 <= k < i && evidence[k].alert == id :: evidence[k].content in contents
      {
        if evidence[i].alert == id {
          assert evidence[i] == Evidence(id, evidence[i].content);
          contents := contents + [evidence[i].content];
        }
      }
    }

    /** The stored row is what the caller gets back; on a same-id answer its evidence is the caller's own,
        on a merge into another alert it is that alert's whole list. */
    method CreateAlert(a: Alert, contents: seq<string>) returns (r: Result<(Alert, seq<string>), Error>)
      requires Valid(Contents())
      modifies this
      ensures Valid(Contents()) && Contents() == Step(old(Contents()), Create(a, contents))
      ensures match CreateEffect(old(rows), a)
              case Inserted => r == Ok((rows[|old(rows)|], contents)) && rows[|old(rows)|].id == a.id
              case Merged(i) =>
                && r.Ok? && r.value.0 == rows[i] && rows[i].tenant == a.tenant && rows[i].fingerprint == a.fingerprint && Open(rows[i])
                && (rows[i].id == a.id ==> r.value.1 == contents)
                && (rows[i].id != a.id ==> IsEvidenceOf(rows[i].id, r.value.1))
              case Existing(i) =>
                && r.Ok? && r.value.0 == old(rows)[i] && old(rows)[i].id == a.id && old(rows)[i].tenant == a.tenant
                && IsEvidenceOf(a.id, r.value.1)
              case Refused(e) => r == Err(e)
    {
      CreateKeeps(Contents(), a, contents);
      var effect := CreateEffect(rows, a);
      match effect
      case Refused(e) => return Err(e);
      case Existing(i) =>
        var found := GetEvidence(a.id);
        return Ok((rows[i], found));
      case Inserted =>
        var row := a.(count := EffectiveCount(a), resolvedBy := "");
        rows := rows + [row];
        evidence := evidence + EvidenceFor(a.id, contents);
        return Ok((row, contents));
      case Merged(i) =>
        var row := MergeRow(rows[i], a);
        rows := rows[i := row];
        evidence := evidence + EvidenceFor(row.id, contents);
        if row.id == a.id { return Ok((row, contents)); }
        var found := GetEvidence(row.id);
        return Ok((row, found));
    }

    method UpdateAlert(a: Alert, contents: seq<string>) returns (r: Result<(), Error>)
      requires Valid(Contents())
      modifies this
      ensures Valid(Contents()) && Contents() == Step(old(Contents()), Update(a, contents))
      ensures r == match UpdateError(old(rows), a) { case None => Ok(()) case Some(e) => Err(e) }
      ensures r.Err? ==> Contents() == old(Contents())
      ensures forall i | 0 <= i < |old(rows)| && old(rows)[i].id == a.id ::
                && (r.Err? <==> OpenStatus(a.status) && HasOpenTwin(old(rows), i))
                && (r.Ok? ==> OnlyRow(old(rows), rows, i) && IsUpdated(old(rows)[i], a, rows[i])
                              && Attached(old(evidence), evidence, a.id, contents))
    {
      forall i | 0 <= i < |rows| && rows[i].id == a.id
        ensures UpdateError(rows, a).Some? <==> OpenStatus(a.status) && HasOpenTwin(rows, i)
        ensures var after := AfterUpdate(Contents(), a, contents);
                UpdateError(rows, a).None? ==>
                  OnlyRow(rows, after.rows, i) && IsUpdated(rows[i], a, after.rows[i]) && Attached(evidence, after.evidence, a.id, contents)
      {
        UpdateExactly(Contents(), a, contents, i);
      }
      UpdateKeeps(Contents(), a, contents);
      var at := IndexOfId(rows, a.id);
      if at.None? { return Ok(()); }
      var row := Patched(rows[at.value], a);
      if Clashes(rows, at.value, row) { return Err(DuplicateOpen); }
      rows := rows[at.value := row];
      evidence := evidence + EvidenceFor(a.id, contents);
      return Ok(());
    }

    method ResolveByFingerprint(tenant: string, fingerprint: string, actor: string) returns (ids: seq<string>)
      requires Valid(Contents())
      modifies this
      ensures Valid(Contents()) && Contents() == Step(old(Contents()), Resolve(tenant, fingerprint, actor))
      ensures ids == ResolvedIds(old(rows), tenant, fingerprint)
      ensures fingerprint != "" ==> |ids| <= 1
    {
      ResolveKeeps(Contents(), tenant, fingerprint, actor);
      if fingerprint != "" { AtMostOneResolved(rows, tenant, fingerprint); }
      ids := ResolvedIds(rows, tenant, fingerprint);
      rows := ResolveRows(rows, tenant, fingerprint, actor);
    }

    /** With nobody else at work. */
    method GetByPrefix(prefix: string) returns (r: Result<Alert, Error>)
      ensures IsLookup(rows, prefix, r)
    {
      r := LookUp(rows, rows, prefix);
    }
  }
}

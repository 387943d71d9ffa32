/** Choosing among published versions: the highest compatible profile version, and the
    assistant catalog ordered by agent and then by version, highest first. */
module Catalog {
  import opened Wrappers
  import opened Semver
  import opened Registry
  import opened RegistryLedger

  // ---- The highest compatible profile version ----

  predicate Candidate(p: Profile, range: Range) {
    p.lifecycle == Published && VersionOf(p.version).Some? && AdmitsAll(range.comparators, VersionOf(p.version).value)
  }

  /** No candidate has a higher version, and no earlier row an equal one. */
  ghost predicate IsHighest(rows: seq<Profile>, range: Range, k: nat) {
    && k < |rows| && Candidate(rows[k], range)
    && forall i | 0 <= i < |rows| && Candidate(rows[i], range) ::
         var c := Compare(VersionOf(rows[i].version).value, VersionOf(rows[k].version).value);
         c <= 0 && (i < k ==> c < 0)
  }

  /** highestCompatibleProfileVersion, over the family's rows, newest id first. */
  method HighestCompatible(rows: seq<Profile>, profileRange: string) returns (r: Result<Profile, Error>)
    ensures r.Err? ==> r.error == if RangeOf(profileRange).None? then InvalidRange else ProfileVersionNotFound
    ensures r.Ok? ==> RangeOf(profileRange).Some? && exists k: nat :: IsHighest(rows, RangeOf(profileRange).value, k) && rows[k] == r.value
    ensures r.Err? && RangeOf(profileRange).Some? ==>
              forall i | 0 <= i < |rows| :: !Candidate(rows[i], RangeOf(profileRange).value)
  {
    hide RangeOf;
    hide VersionOf;
    var range := ParseRange(profileRange);
    if range.None? {
      return Err(InvalidRange);
    }
    var best: Option<nat>, bestParsed := None, ZERO;
    for i := 0 to |rows|
      invariant best.Some? ==> best.value < i && IsHighest(rows[..i], range.value, best.value)
      invariant best.Some? ==> VersionOf(rows[best.value].version) == Some(bestParsed) && Parsed(bestParsed)
      invariant best.None? ==> forall k | 0 <= k < i :: !Candidate(rows[k], range.value)
    {
      assert rows[..i + 1] == rows[..i] + [rows[i]];
      if rows[i].lifecycle != Published {
        continue;
      }
      var parsed := ParseVersion(rows[i].version);
      if parsed.None? {
        continue;
      }
      var ok := Satisfies(range.value, parsed.value);
      if !ok {
        continue;
      }
      if best.None? || Compare(parsed.value, bestParsed) > 0 {
        if best.Some? {
          HigherReplaces(rows[..i], range.value, best.value, parsed.value);
        }
        best, bestParsed := Some(i), parsed.value;
        CompareIsTotalOrder(parsed.value, parsed.value, parsed.value);
      }
    }
    assert rows[..|rows|] == rows;
    if best.None? {
      return Err(ProfileVersionNotFound);
    }
    return Ok(rows[best.value]);
  }

  lemma HigherReplaces(rows: seq<Profile>, range: Range, best: nat, higher: Version)
    requires IsHighest(rows, range, best) && Parsed(higher) && Compare(higher, VersionOf(rows[best].version).value) > 0
    ensures forall i | 0 <= i < |rows| && Candidate(rows[i], range) :: Compare(VersionOf(rows[i].version).value, higher) < 0
  {
  }

  // ---- The catalog order ----

  /** Go's string order. */
  predicate TextLess(a: string, b: string) {
    if b == [] then false
    else if a == [] then true
    else a[0] < b[0] || (a[0] == b[0] && TextLess(a[1..], b[1..]))
  }

  lemma {:induction false} TextLessIsStrictTotal(a: string, b: string, c: string)
    ensures !(TextLess(a, b) && TextLess(b, a))
    ensures a != b ==> TextLess(a, b) || TextLess(b, a)
    ensures TextLess(a, b) && TextLess(b, c) ==> TextLess(a, c)
    ensures !TextLess(a, a)
  {
    if a != [] {
      TextLessIsStrictTotal(a[1..], if b == [] then [] else b[1..], if c == [] then [] else c[1..]);
      if b != [] && a[0] == b[0] && a[1..] == b[1..] {
        assert a == [a[0]] + a[1..] && b == [b[0]] + b[1..];
      }
    }
  }

  /** The comparator of sortByAgentThenVersionDesc. */
  predicate Before(x: Definition, y: Definition) {
    if x.agent != y.agent then TextLess(x.agent, y.agent)
    else
      match (VersionOf(x.version), VersionOf(y.version))
      case (Some(v), Some(w)) => Compare(v, w) > 0
      case _ => false
  }

  predicate AllParse(rows: seq<Definition>) {
    forall i | 0 <= i < |rows| :: VersionOf(rows[i].version).Some?
  }

  /** Neither sorts before the other. */
  predicate Tied(x: Definition, y: Definition) {
    !Before(x, y) && !Before(y, x)
  }

  /** On parseable versions the comparator is a strict weak order. */
  lemma BeforeIsStrictWeakOrder(x: Definition, y: Definition, z: Definition)
    requires VersionOf(x.version).Some? && VersionOf(y.version).Some? && VersionOf(z.version).Some?
    ensures !Before(x, x)
    ensures Before(x, y) ==> !Before(y, x)
    ensures Before(x, y) && Before(y, z) ==> Before(x, z)
    ensures Tied(x, y) && Tied(y, z) ==> Tied(x, z)
    ensures Tied(x, y) <==> x.agent == y.agent && VersionOf(x.version) == VersionOf(y.version)
  {
    hide VersionOf;
    var u, v, w := VersionOf(x.version).value, VersionOf(y.version).value, VersionOf(z.version).value;
    VersionOfIsParsed(x.version);
    VersionOfIsParsed(y.version);
    VersionOfIsParsed(z.version);
    TextLessIsStrictTotal(x.agent, y.agent, z.agent);
    TextLessIsStrictTotal(x.agent, z.agent, y.agent);
    CompareIsTotalOrder(u, v, w);
    CompareIsTotalOrder(w, v, u);
    CompareIsTotalOrder(u, u, u);
  }

  /** With unparseable versions the comparator is still irreflexive, asymmetric and transitive, and its ties are
      transitive exactly unless an unparseable version stands between two different parseable ones of its agent. */
  lemma TiesFailExactly(x: Definition, y: Definition, z: Definition)
    ensures !Before(x, x)
    ensures Before(x, y) ==> !Before(y, x)
    ensures Before(x, y) && Before(y, z) ==> Before(x, z)
    ensures (Tied(x, y) && Tied(y, z) ==> Tied(x, z)) <==>
              !(&& x.agent == y.agent == z.agent && VersionOf(y.version).None?
                && VersionOf(x.version).Some? && VersionOf(z.version).Some? && VersionOf(x.version) != VersionOf(z.version))
  {
    hide VersionOf;
    VersionOfIsParsed(x.version);
    VersionOfIsParsed(y.version);
    VersionOfIsParsed(z.version);
    hide Parsed;
    TextLessIsStrictTotal(x.agent, y.agent, z.agent);
    TextLessIsStrictTotal(x.agent, z.agent, y.agent);
    hide TextLess;
    ParsedTriple(VersionOf(x.version), VersionOf(y.version), VersionOf(z.version));
    hide Compare;
  }

  lemma ParsedTriple(x: Option<Version>, y: Option<Version>, z: Option<Version>)
    requires (x.Some? ==> Parsed(x.value)) && (y.Some? ==> Parsed(y.value)) && (z.Some? ==> Parsed(z.value))
    ensures x.Some? && y.Some? ==> Compare(x.value, y.value) == -Compare(y.value, x.value)
    ensures x.Some? && y.Some? ==> (Compare(x.value, y.value) == 0 <==> x == y)
    ensures y.Some? && z.Some? ==> Compare(y.value, z.value) == -Compare(z.value, y.value)
    ensures y.Some? && z.Some? ==> (Compare(y.value, z.value) == 0 <==> y == z)
    ensures x.Some? && z.Some? ==> Compare(x.value, z.value) == -Compare(z.value, x.value)
    ensures x.Some? && z.Some? ==> (Compare(x.value, z.value) == 0 <==> x == z)
    ensures x.Some? ==> Compare(x.value, x.value) == 0
    ensures x.Some? && y.Some? && z.Some? && Compare(x.value, y.value) > 0 && Compare(y.value, z.value) > 0 ==> Compare(x.value, z.value) > 0
  {
  }

  /** Every unparseable version ties with all versions of its agent, so it breaks the order between any two that
      differ; such a version exists. */
  lemma UnparseableBreaksTheOrder(x: Definition, y: Definition, z: Definition)
    requires x.agent == y.agent == z.agent && VersionOf(y.version).None?
    requires VersionOf(x.version).Some? && VersionOf(z.version).Some? && Compare(VersionOf(x.version).value, VersionOf(z.version).value) != 0
    ensures Tied(x, y) && Tied(y, z) && !Tied(x, z)
    ensures VersionOf("latest").None?
  {
    hide VersionOf;
    VersionOfIsParsed(x.version);
    VersionOfIsParsed(z.version);
    CompareIsTotalOrder(VersionOf(x.version).value, VersionOf(z.version).value, VersionOf(x.version).value);
    LatestDoesNotParse();
  }

  lemma LatestDoesNotParse()
    ensures VersionOf("latest").None?
  {
  }

  // ---- The stable sort ----

  function Insert(sorted: seq<Definition>, x: Definition): (r: seq<Definition>)
    ensures |r| == |sorted| + 1
  {
    if sorted != [] && Before(x, sorted[|sorted| - 1])
    then Insert(sorted[..|sorted| - 1], x) + [sorted[|sorted| - 1]]
    else sorted + [x]
  }

  function Sorted(rows: seq<Definition>): (r: seq<Definition>)
    ensures |r| == |rows|
  {
    if rows == [] then [] else Insert(Sorted(rows[..|rows| - 1]), rows[|rows| - 1])
  }

  lemma SortedOfNone()
    ensures Sorted([]) == []
  {
  }

  lemma SortedOneMore(rows: seq<Definition>, i: nat)
    requires i < |rows|
    ensures Sorted(rows[..i + 1]) == Insert(Sorted(rows[..i]), rows[i])
  {
    assert rows[..i + 1][..i] == rows[..i];
  }

  /** sortByAgentThenVersionDesc in place: every stable sort gives this result (StableSortIsUnique). */
  method SortByAgentThenVersionDesc(versions: array<Definition>)
    modifies versions
    ensures versions[..] == Sorted(old(versions[..]))
  {
    hide Before;
    hide Sorted;
    hide Insert;
    ghost var was := versions[..];
    SortedOfNone();
    assert versions[..0] == [] && was[..0] == [];
    for i := 0 to versions.Length
      invariant versions[..i] == Sorted(was[..i])
      invariant versions[i..] == was[i..]
    {
      assert versions[i] == was[i..][0] && versions[i + 1..] == was[i..][1..] == was[i + 1..];
      SortedOneMore(was, i);
      InsertInPlace(versions, i);
    }
    assert was[..versions.Length] == was && versions[..versions.Length] == versions[..];
  }

  lemma InsertGoesOn(front: seq<Definition>, x: Definition, j: nat)
    requires 0 < j <= |front| && Before(x, front[j - 1])
    ensures Insert(front[..j], x) + front[j..] == Insert(front[..j - 1], x) + front[j - 1..]
  {
    hide Before;
    assert front[..j][..j - 1] == front[..j - 1];
    assert front[j - 1..] == [front[j - 1]] + front[j..];
  }

  lemma InsertStops(front: seq<Definition>, x: Definition, j: nat)
    requires j <= |front| && (j > 0 ==> !Before(x, front[j - 1]))
    ensures Insert(front[..j], x) == front[..j] + [x]
  {
  }

  /** Moves element i down past the elements it sorts before. */
  method InsertInPlace(versions: array<Definition>, i: nat)
    requires i < versions.Length
    modifies versions
    ensures versions[..i + 1] == Insert(old(versions[..i]), old(versions[i]))
    ensures versions[i + 1..] == old(versions[i + 1..])
  {
    hide Before;
    hide Insert;
    ghost var front := versions[..i];
    var x, j := versions[i], i;
    while j > 0 && Before(x, versions[j - 1])
      invariant 0 <= j <= i
      invariant versions[..j] == front[..j]
      invariant versions[j + 1..i + 1] == front[j..]
      invariant versions[i + 1..] == old(versions[i + 1..])
      invariant Insert(front, x) == Insert(front[..j], x) + front[j..]
    {
      assert versions[j - 1] == front[j - 1];
      InsertGoesOn(front, x, j);
      versions[j] := versions[j - 1];
      j := j - 1;
      assert versions[j + 1..i + 1] == [versions[j + 1]] + versions[j + 2..i + 1];
    }
    versions[j] := x;
    assert j > 0 ==> versions[j - 1] == front[j - 1];
    InsertStops(front, x, j);
    assert versions[..i + 1] == versions[..j] + [x] + versions[j + 1..i + 1];
  }

  /** Later rows never sort before earlier ones. */
  ghost predicate Ordered(rows: seq<Definition>) {
    forall i, j | 0 <= i < j < |rows| :: !Before(rows[j], rows[i])
  }

  /** The rows that tie with x, in order. */
  function Class(rows: seq<Definition>, x: Definition): seq<Definition> {
    if rows == [] then []
    else
      var rest, last := Class(rows[..|rows| - 1], x), rows[|rows| - 1];
      if Tied(last, x) then rest + [last] else rest
  }

  lemma {:induction false} ClassConcat(a: seq<Definition>, b: seq<Definition>, x: Definition)
    ensures Class(a + b, x) == Class(a, x) + Class(b, x)
    decreases |b|
  {
    if b == [] {
      assert a + b == a;
    } else {
      var n := |b| - 1;
      ClassConcat(a, b[..n], x);
      assert (a + b)[..|a| + n] == a + b[..n];
    }
  }

  lemma {:induction false} InsertKeepsOrder(sorted: seq<Definition>, x: Definition)
    requires AllParse(sorted) && VersionOf(x.version).Some? && Ordered(sorted)
    ensures AllParse(Insert(sorted, x)) && Ordered(Insert(sorted, x))
    decreases |sorted|
  {
    hide VersionOf;
    hide Before;
    if sorted != [] && Before(x, sorted[|sorted| - 1]) {
      var n, last := |sorted| - 1, sorted[|sorted| - 1];
      InsertKeepsOrder(sorted[..n], x);
      var inserted := Insert(sorted[..n], x);
      forall i | 0 <= i < |inserted| ensures !Before(last, inserted[i]) {
        InsertMembers(sorted[..n], x, i);
        if inserted[i] == x { BeforeIsStrictWeakOrder(x, last, x); }
      }
    } else {
      forall i | 0 <= i < |sorted| ensures !Before(x, sorted[i]) {
        BeforeIsStrictWeakOrder(x, sorted[i], sorted[|sorted| - 1]);
        BeforeIsStrictWeakOrder(sorted[|sorted| - 1], x, sorted[i]);
        BeforeIsStrictWeakOrder(sorted[i], sorted[|sorted| - 1], x);
      }
    }
  }

  lemma {:induction false} InsertKeepsClass(sorted: seq<Definition>, x: Definition, y: Definition)
    requires AllParse(sorted) && VersionOf(x.version).Some? && VersionOf(y.version).Some?
    ensures Class(Insert(sorted, x), y) == Class(sorted + [x], y)
    decreases |sorted|
  {
    hide VersionOf;
    hide Before;
    if sorted != [] && Before(x, sorted[|sorted| - 1]) {
      var front, last := sorted[..|sorted| - 1], sorted[|sorted| - 1];
      InsertKeepsClass(front, x, y);
      ClassConcat(Insert(front, x), [last], y);
      ClassConcat(front, [x], y);
      assert sorted == front + [last];
      ClassConcat(front + [last], [x], y);
      ClassConcat(front, [last], y);
      BeforeIsStrictWeakOrder(x, y, last);
      assert !(Tied(x, y) && Tied(last, y));
      ClassOfOne(x, y);
      ClassOfOne(last, y);
    }
  }

  lemma ClassOfOne(x: Definition, y: Definition)
    ensures Class([x], y) == if Tied(x, y) then [x] else []
  {
  }

  lemma {:induction false} InsertKeepsRows(sorted: seq<Definition>, x: Definition)
    ensures multiset(Insert(sorted, x)) == multiset(sorted) + multiset{x}
    decreases |sorted|
  {
    hide Before;
    if sorted != [] && Before(x, sorted[|sorted| - 1]) {
      InsertKeepsRows(sorted[..|sorted| - 1], x);
      assert sorted == sorted[..|sorted| - 1] + [sorted[|sorted| - 1]];
    }
  }

  lemma {:induction false} InsertMembers(sorted: seq<Definition>, x: Definition, i: nat)
    requires i <= |sorted|
    ensures Insert(sorted, x)[i] == x || exists k | 0 <= k < |sorted| :: Insert(sorted, x)[i] == sorted[k]
    decreases |sorted|
  {
    hide Before;
    if sorted != [] && Before(x, sorted[|sorted| - 1]) {
      var n := |sorted| - 1;
      if i <= n {
        InsertMembers(sorted[..n], x, i);
        if Insert(sorted, x)[i] != x {
          var k :| 0 <= k < n && Insert(sorted, x)[i] == sorted[..n][k];
          assert Insert(sorted, x)[i] == sorted[k];
        }
      }
      if i == n + 1 { assert Insert(sorted, x)[i] == sorted[n]; }
    } else if i < |sorted| {
      assert Insert(sorted, x)[i] == sorted[i];
    }
  }

  /** On parseable versions the result is an ordered, stable permutation. */
  lemma {:induction false} SortedIsOrderedStablePermutation(rows: seq<Definition>)
    requires AllParse(rows)
    ensures AllParse(Sorted(rows)) && Ordered(Sorted(rows))
    ensures multiset(Sorted(rows)) == multiset(rows)
    ensures forall y: Definition | VersionOf(y.version).Some? :: Class(Sorted(rows), y) == Class(rows, y)
    decreases |rows|
  {
    hide VersionOf;
    hide Before;
    if rows != [] {
      var n := |rows| - 1;
      assert rows == rows[..n] + [rows[n]];
      SortedIsOrderedStablePermutation(rows[..n]);
      InsertKeepsOrder(Sorted(rows[..n]), rows[n]);
      InsertKeepsRows(Sorted(rows[..n]), rows[n]);
      forall y: Definition | VersionOf(y.version).Some? ensures Class(Sorted(rows), y) == Class(rows, y) {
        InsertKeepsClass(Sorted(rows[..n]), rows[n], y);
        ClassConcat(Sorted(rows[..n]), [rows[n]], y);
        ClassConcat(rows[..n], [rows[n]], y);
      }
    }
  }

  ghost predicate SameClasses(a: seq<Definition>, b: seq<Definition>) {
    forall y: Definition | VersionOf(y.version).Some? :: Class(a, y) == Class(b, y)
  }

  lemma {:induction false} ClassMember(rows: seq<Definition>, y: Definition, i: nat)
    requires i < |rows| && Tied(rows[i], y)
    ensures rows[i] in Class(rows, y)
    decreases |rows|
  {
    if i < |rows| - 1 {
      ClassMember(rows[..|rows| - 1], y, i);
    }
  }

  lemma {:induction false} ClassSource(rows: seq<Definition>, y: Definition, x: Definition)
    requires x in Class(rows, y)
    ensures x in rows && Tied(x, y)
    decreases |rows|
  {
    var n := |rows| - 1;
    if x in Class(rows[..n], y) {
      ClassSource(rows[..n], y, x);
    }
  }

  /** A row of one sequence appears in every sequence with the same classes. */
  lemma SameClassesMember(a: seq<Definition>, b: seq<Definition>, i: nat)
    requires SameClasses(a, b) && AllParse(a) && i < |a|
    ensures a[i] in b
  {
    hide VersionOf;
    BeforeIsStrictWeakOrder(a[i], a[i], a[i]);
    ClassMember(a, a[i], i);
    ClassSource(b, a[i], a[i]);
  }

  /** Two ordered sequences with the same classes end with the same row. */
  lemma SameLast(a: seq<Definition>, b: seq<Definition>)
    requires AllParse(a) && AllParse(b) && Ordered(a) && Ordered(b) && SameClasses(a, b) && a != [] && b != []
    ensures a[|a| - 1] == b[|b| - 1]
  {
    hide VersionOf;
    hide Before;
    var x, y := a[|a| - 1], b[|b| - 1];
    SameClassesMember(a, b, |a| - 1);
    SameClassesMember(b, a, |b| - 1);
    var i :| 0 <= i < |b| && b[i] == x;
    var j :| 0 <= j < |a| && a[j] == y;
    assert Tied(x, y) by {
      BeforeIsStrictWeakOrder(x, x, x);
      BeforeIsStrictWeakOrder(y, y, y);
    }
    BeforeIsStrictWeakOrder(x, y, x);
    assert Tied(x, x) && Tied(y, x);
    assert Class(a, x)[|Class(a, x)| - 1] == x;
    assert Class(b, x)[|Class(b, x)| - 1] == y;
  }

  /** Whatever algorithm sorts it, a stable sort has one result. */
  lemma {:induction false} StableSortIsUnique(a: seq<Definition>, b: seq<Definition>)
    requires AllParse(a) && AllParse(b) && Ordered(a) && Ordered(b) && SameClasses(a, b)
    ensures a == b
    decreases |a|
  {
    hide VersionOf;
    hide Before;
    if a != [] && b != [] {
      SameLast(a, b);
      var x, m, n := a[|a| - 1], |a| - 1, |b| - 1;
      assert a == a[..m] + [x] && b == b[..n] + [x];
      forall y: Definition | VersionOf(y.version).Some? ensures Class(a[..m], y) == Class(b[..n], y) {
        ClassConcat(a[..m], [x], y);
        ClassConcat(b[..n], [x], y);
        assert (Class(a[..m], y) + Class([x], y))[..|Class(a[..m], y)|] == Class(a[..m], y);
        assert (Class(b[..n], y) + Class([x], y))[..|Class(b[..n], y)|] == Class(b[..n], y);
      }
      StableSortIsUnique(a[..m], b[..n]);
    } else if a != [] {
      SameClassesMember(a, b, 0);
    } else if b != [] {
      SameClassesMember(b, a, 0);
    }
  }

  /** Every definition stored in a valid registry parses, so the catalog sort meets its precondition. */
  lemma StoredDefinitionsParse(db: Database, rows: seq<Definition>)
    requires Valid(db)
    requires forall i | 0 <= i < |rows| ::
               (rows[i].agent, rows[i].version) in db.definitions && db.definitions[(rows[i].agent, rows[i].version)] == rows[i]
    ensures AllParse(rows)
  {
  }
}

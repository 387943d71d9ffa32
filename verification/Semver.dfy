/** Restricted MAJOR.MINOR.PATCH versions with the precedence of section 11 of
    Semantic Versioning 2.0.0, and the comparator ranges over them. */
module Semver {
  import opened Wrappers
  import opened Text

  // ---- Versions ----

  /** The largest value of Go's 64-bit `int`. */
  const MAX_INT := 0x7FFF_FFFF_FFFF_FFFF

  datatype Version = Version(major: int, minor: int, patch: int)

  predicate IsInt(n: int) {
    -MAX_INT - 1 <= n <= MAX_INT
  }

  predicate InIntRange(v: Version) {
    IsInt(v.major) && IsInt(v.minor) && IsInt(v.patch)
  }

  /** What a parsed version satisfies: each component is in 0..2^63-1. */
  predicate Parsed(v: Version) {
    InIntRange(v) && v.major >= 0 && v.minor >= 0 && v.patch >= 0
  }

  /** One component: non-empty, digits only, and in `int` range (`strconv.Atoi`). */
  function ComponentOf(part: string): Option<nat> {
    if part == "" || !AllDigits(part) || Value(part) > MAX_INT then None else Some(Value(part))
  }

  /** What ParseVersion accepts; every refusal wraps ErrInvalidRange. */
  function VersionOf(s: string): Option<Version> {
    var parts := Split(s, '.');
    if |parts| != 3 then None
    else
      match (ComponentOf(parts[0]), ComponentOf(parts[1]), ComponentOf(parts[2]))
      case (Some(major), Some(minor), Some(patch)) => Some(Version(major, minor, patch))
      case _ => None
  }

  method ParseVersion(s: string) returns (r: Option<Version>)
    ensures r == VersionOf(s)
    ensures r.Some? ==> Parsed(r.value)
  {
    var parts := Split(s, '.');
    if |parts| != 3 {
      return None;
    }
    var nums := new int[3];
    for i := 0 to 3
      invariant forall k | 0 <= k < i :: ComponentOf(parts[k]) == Some(nums[k])
    {
      var p := parts[i];
      if p == "" {
        return None;
      }
      for j := 0 to |p|
        invariant AllDigits(p[..j])
      {
        if !IsDigit(p[j]) {
          return None;
        }
        assert p[..j + 1] == p[..j] + [p[j]];
      }
      assert p[..|p|] == p;
      var n := Value(p);
      if n > MAX_INT {
        return None;
      }
      nums[i] := n;
    }
    return Some(Version(nums[0], nums[1], nums[2]));
  }

  /** The accepted strings: three dot-separated digit strings, each at most 2^63-1. */
  ghost predicate Spells(s: string, a: string, b: string, c: string, v: Version) {
    && s == a + "." + b + "." + c
    && ComponentOf(a) == Some(v.major) && ComponentOf(b) == Some(v.minor) && ComponentOf(c) == Some(v.patch)
  }

  lemma SplitOfThree(a: string, b: string, c: string)
    requires Free(a, '.') && Free(b, '.') && Free(c, '.')
    ensures Split(a + "." + b + "." + c, '.') == [a, b, c]
  {
    assert a + "." + b + "." + c == a + ['.'] + (b + ['.'] + c);
    SplitPrefix(a, b + ['.'] + c, '.');
    SplitPrefix(b, c, '.');
    SplitPrefix(c, "", '.');
  }

  lemma DigitsAreDotFree(s: string)
    requires AllDigits(s)
    ensures Free(s, '.')
  {
  }

  lemma ParseAccepts(s: string, a: string, b: string, c: string, v: Version)
    requires Spells(s, a, b, c, v)
    ensures VersionOf(s) == Some(v) && Parsed(v)
  {
    DigitsAreDotFree(a);
    DigitsAreDotFree(b);
    DigitsAreDotFree(c);
    SplitOfThree(a, b, c);
  }

  /** ParseVersion accepts exactly the three-component spellings, and reads their value. */
  lemma ParseVersionExactly(s: string, v: Version)
    ensures VersionOf(s) == Some(v) <==> exists a, b, c :: Spells(s, a, b, c, v)
  {
    if VersionOf(s) == Some(v) {
      var parts := Split(s, '.');
      JoinOfSplit(s, '.');
      assert Join(parts[2..], '.') == parts[2];
      assert Join(parts[1..], '.') == parts[1] + ['.'] + parts[2];
      assert Spells(s, parts[0], parts[1], parts[2], v);
    }
    if exists a, b, c :: Spells(s, a, b, c, v) {
      var a, b, c :| Spells(s, a, b, c, v);
      ParseAccepts(s, a, b, c, v);
    }
  }

  /** Version.String, for the non-negative components a parsed version has. */
  function Print(v: Version): string
    requires Parsed(v)
  {
    Decimal(v.major) + "." + Decimal(v.minor) + "." + Decimal(v.patch)
  }

  /** Printing then parsing is the identity, over the whole 0..2^63-1 range. */
  lemma ParseOfPrint(v: Version)
    requires Parsed(v)
    ensures VersionOf(Print(v)) == Some(v)
  {
    ValueOfDecimal(v.major);
    ValueOfDecimal(v.minor);
    ValueOfDecimal(v.patch);
    ParseAccepts(Print(v), Decimal(v.major), Decimal(v.minor), Decimal(v.patch), v);
  }

  /** Parsing then printing restores the text exactly when no component has a leading zero. */
  lemma PrintOfParse(s: string)
    requires VersionOf(s).Some?
    ensures Print(VersionOf(s).value) == s <==> forall p | p in Split(s, '.') :: !LeadingZero(p)
  {
    var v, parts := VersionOf(s).value, Split(s, '.');
    PrintIsTextWhenPartsAgree(s);
    DecimalOfValue(parts[0]);
    DecimalOfValue(parts[1]);
    DecimalOfValue(parts[2]);
    assert parts == [parts[0], parts[1], parts[2]];
  }

  lemma PrintIsTextWhenPartsAgree(s: string)
    requires VersionOf(s).Some?
    ensures var v := VersionOf(s).value;
            Print(v) == s <==> Split(s, '.') == [Decimal(v.major), Decimal(v.minor), Decimal(v.patch)]
  {
    var v, parts := VersionOf(s).value, Split(s, '.');
    SplitOfThree(Decimal(v.major), Decimal(v.minor), Decimal(v.patch));
    assert s == parts[0] + "." + parts[1] + "." + parts[2] by {
      JoinOfSplit(s, '.');
      assert Join(parts[2..], '.') == parts[2];
      assert Join(parts[1..], '.') == parts[1] + ['.'] + parts[2];
    }
  }

  /** A leading zero is accepted, so parse-then-print is not the identity everywhere. */
  lemma LeadingZeroIsAccepted()
    ensures VersionOf("01.0.0") == Some(Version(1, 0, 0))
    ensures Print(Version(1, 0, 0)) == "1.0.0"
  {
    assert Value("01"[..1]) == 0 by { assert "01"[..1][..0] == []; }
    assert Value("0") == 0 by { assert "0"[..0] == []; }
    assert Spells("01.0.0", "01", "0", "0", Version(1, 0, 0));
    ParseAccepts("01.0.0", "01", "0", "0", Version(1, 0, 0));
  }

  // ---- Precedence ----

  /** Two's-complement wrap-around of a 64-bit subtraction. */
  function Wrap(n: int): (r: int)
    ensures IsInt(n) ==> r == n
  {
    (n + MAX_INT + 1) % (2 * (MAX_INT + 1)) - (MAX_INT + 1)
  }

  function Sign(n: int): int {
    if n < 0 then -1 else if n > 0 then 1 else 0
  }

  /** Version.Compare, with Go's wrapping subtraction. */
  function Compare(v: Version, o: Version): int {
    if v.major != o.major then Sign(Wrap(v.major - o.major))
    else if v.minor != o.minor then Sign(Wrap(v.minor - o.minor))
    else Sign(Wrap(v.patch - o.patch))
  }

  /** Lexicographic precedence. */
  predicate Less(v: Version, o: Version) {
    || v.major < o.major
    || (v.major == o.major && (v.minor < o.minor || (v.minor == o.minor && v.patch < o.patch)))
  }

  /** The first difference that decides the order. */
  function Difference(v: Version, o: Version): int {
    if v.major != o.major then v.major - o.major
    else if v.minor != o.minor then v.minor - o.minor
    else v.patch - o.patch
  }

  ghost predicate ComparesAsPrecedence(v: Version, o: Version) {
    Compare(v, o) == if Less(v, o) then -1 else if v == o then 0 else 1
  }

  /** Over all 64-bit components, Compare is right exactly when the deciding subtraction does not overflow. */
  lemma CompareExactly(v: Version, o: Version)
    requires InIntRange(v) && InIntRange(o)
    ensures ComparesAsPrecedence(v, o) <==> IsInt(Difference(v, o))
  {
  }

  /** Where it overflows, Compare is wrong: it puts the largest major below every negative one. */
  lemma CompareOverflows(major: int, minor: int, patch: int)
    requires IsInt(major) && major < 0 && IsInt(minor) && IsInt(patch)
    ensures var top, negative := Version(MAX_INT, minor, patch), Version(major, minor, patch);
            InIntRange(top) && InIntRange(negative) && Less(negative, top) && Compare(top, negative) == -1
  {
  }

  /** On parsed versions no subtraction overflows, so Compare is precedence. */
  lemma CompareOfParsed(v: Version, o: Version)
    requires Parsed(v) && Parsed(o)
    ensures ComparesAsPrecedence(v, o)
  {
  }

  /** Compare is a total order on parsed versions. */
  lemma CompareIsTotalOrder(u: Version, v: Version, w: Version)
    requires Parsed(u) && Parsed(v) && Parsed(w)
    ensures Compare(u, v) == -Compare(v, u)
    ensures Compare(u, v) == 0 <==> u == v
    ensures Compare(u, v) <= 0 && Compare(v, w) <= 0 ==> Compare(u, w) <= 0
  {
  }

  // ---- Ranges ----

  datatype Op = AtLeast | Above | AtMost | Below | Exactly | Caret | Tilde

  datatype Comparator = Comparator(op: Op, version: Version)

  datatype Range = Range(raw: string, comparators: seq<Comparator>)

  /** comparator.satisfies. */
  predicate Admits(c: Comparator, v: Version) {
    match c.op
    case AtLeast => Compare(v, c.version) >= 0
    case Above => Compare(v, c.version) > 0
    case AtMost => Compare(v, c.version) <= 0
    case Below => Compare(v, c.version) < 0
    case Exactly => Compare(v, c.version) == 0
    case Caret =>
      if Compare(v, c.version) < 0 then false
      else if c.version.major > 0 then v.major == c.version.major
      else if c.version.minor > 0 then v.major == 0 && v.minor == c.version.minor
      else v.major == 0 && v.minor == 0 && v.patch == c.version.patch
    case Tilde =>
      if Compare(v, c.version) < 0 then false
      else v.major == c.version.major && v.minor == c.version.minor
  }

  predicate AdmitsAll(cs: seq<Comparator>, v: Version) {
    forall i | 0 <= i < |cs| :: Admits(cs[i], v)
  }

  /** Range.Satisfies. */
  method Satisfies(r: Range, v: Version) returns (ok: bool)
    ensures ok <==> AdmitsAll(r.comparators, v)
  {
    for i := 0 to |r.comparators|
      invariant AdmitsAll(r.comparators[..i], v)
    {
      if !Admits(r.comparators[i], v) {
        return false;
      }
      assert r.comparators[..i + 1] == r.comparators[..i] + [r.comparators[i]];
    }
    assert r.comparators[..|r.comparators|] == r.comparators;
    return true;
  }

  /** A half-open interval of versions; the upper end may be absent. */
  datatype Interval = Interval(low: Version, high: Option<Version>)

  predicate Contains(i: Interval, v: Version) {
    && !Less(v, i.low)
    && (i.high.Some? ==> Less(v, i.high.value))
  }

  function NextPatch(v: Version): Version { Version(v.major, v.minor, v.patch + 1) }
  function NextMinor(v: Version): Version { Version(v.major, v.minor + 1, 0) }
  function NextMajor(v: Version): Version { Version(v.major + 1, 0, 0) }

  const ZERO := Version(0, 0, 0)
  const EVERYTHING := Interval(ZERO, None)

  /** One clause as an interval: caret by its leftmost nonzero component, tilde to the
      next minor, `>` and `<=` by the patch successor. */
  function Desugar(c: Comparator): Interval {
    var base := c.version;
    match c.op
    case AtLeast => Interval(base, None)
    case Above => Interval(NextPatch(base), None)
    case AtMost => Interval(ZERO, Some(NextPatch(base)))
    case Below => Interval(ZERO, Some(base))
    case Exactly => Interval(base, Some(NextPatch(base)))
    case Caret =>
      Interval(base, Some(if base.major > 0 then NextMajor(base)
                          else if base.minor > 0 then NextMinor(base) else NextPatch(base)))
    case Tilde => Interval(base, Some(NextMinor(base)))
  }

  function Intersect(a: Interval, b: Interval): Interval {
    Interval(
      if Less(a.low, b.low) then b.low else a.low,
      if a.high.None? then b.high
      else if b.high.None? then a.high
      else if Less(a.high.value, b.high.value) then a.high else b.high)
  }

  function DesugarAll(cs: seq<Comparator>): Interval {
    if cs == [] then EVERYTHING else Intersect(Desugar(cs[0]), DesugarAll(cs[1..]))
  }

  ghost predicate ParsedAll(cs: seq<Comparator>) {
    forall i | 0 <= i < |cs| :: Parsed(cs[i].version)
  }

  lemma ClauseIsInterval(c: Comparator, v: Version)
    requires Parsed(c.version) && Parsed(v)
    ensures Admits(c, v) <==> Contains(Desugar(c), v)
  {
  }

  lemma IntersectIsConjunction(a: Interval, b: Interval, v: Version)
    ensures Contains(Intersect(a, b), v) <==> Contains(a, v) && Contains(b, v)
  {
  }

  /** A range means one half-open interval: the intersection of its clauses' intervals. */
  lemma {:induction false} RangeIsInterval(cs: seq<Comparator>, v: Version)
    requires ParsedAll(cs) && Parsed(v)
    ensures AdmitsAll(cs, v) <==> Contains(DesugarAll(cs), v)
  {
    if cs != [] {
      ClauseIsInterval(cs[0], v);
      RangeIsInterval(cs[1..], v);
      IntersectIsConjunction(Desugar(cs[0]), DesugarAll(cs[1..]), v);
      assert AdmitsAll(cs, v) <==> Admits(cs[0], v) && AdmitsAll(cs[1..], v) by {
        assert cs == [cs[0]] + cs[1..];
      }
    }
  }

  /** The satisfying versions are convex in precedence order. */
  lemma SatisfyingSetIsConvex(cs: seq<Comparator>, u: Version, v: Version, w: Version)
    requires ParsedAll(cs) && Parsed(u) && Parsed(v) && Parsed(w)
    requires AdmitsAll(cs, u) && AdmitsAll(cs, w)
    requires Compare(u, v) <= 0 && Compare(v, w) <= 0
    ensures AdmitsAll(cs, v)
  {
    RangeIsInterval(cs, u);
    RangeIsInterval(cs, v);
    RangeIsInterval(cs, w);
    CompareOfParsed(u, v);
    CompareOfParsed(v, w);
  }

  // ---- Range syntax ----

  function OpText(op: Op): string {
    match op
    case AtLeast => ">="
    case AtMost => "<="
    case Above => ">"
    case Below => "<"
    case Exactly => "="
    case Caret => "^"
    case Tilde => "~"
  }

  /** validOps: the two-character operators come first. */
  const VALID_OPS := [AtLeast, AtMost, Above, Below, Exactly, Caret, Tilde]

  function SplitOpOf(field: string): Option<(Op, string)> {
    if ">=" <= field then Some((AtLeast, field[2..]))
    else if "<=" <= field then Some((AtMost, field[2..]))
    else if ">" <= field then Some((Above, field[1..]))
    else if "<" <= field then Some((Below, field[1..]))
    else if "=" <= field then Some((Exactly, field[1..]))
    else if "^" <= field then Some((Caret, field[1..]))
    else if "~" <= field then Some((Tilde, field[1..]))
    else None
  }

  /** splitOp: the first operator of validOps that prefixes the field. */
  method SplitOp(field: string) returns (r: Option<(Op, string)>)
    ensures r == SplitOpOf(field)
    ensures r.Some? ==> OpText(r.value.0) + r.value.1 == field
    ensures r.None? ==> forall op: Op :: !(OpText(op) <= field)
  {
    for i := 0 to |VALID_OPS|
      invariant && (i > 0 ==> !(">=" <= field)) && (i > 1 ==> !("<=" <= field)) && (i > 2 ==> !(">" <= field))
                && (i > 3 ==> !("<" <= field)) && (i > 4 ==> !("=" <= field)) && (i > 5 ==> !("^" <= field))
                && (i > 6 ==> !("~" <= field))
    {
      var candidate := VALID_OPS[i];
      if OpText(candidate) <= field {
        return Some((candidate, field[|OpText(candidate)|..]));
      }
    }
    return None;
  }

  function ClauseOf(field: string): Option<Comparator> {
    match SplitOpOf(field)
    case None => None
    case Some((op, rest)) =>
      match VersionOf(rest)
      case None => None
      case Some(v) => Some(Comparator(op, v))
  }

  function ClausesOf(fields: seq<string>): Option<seq<Comparator>> {
    if fields == [] then Some([])
    else
      match (ClauseOf(fields[0]), ClausesOf(fields[1..]))
      case (Some(c), Some(cs)) => Some([c] + cs)
      case _ => None
  }

  /** Commas read as spaces. */
  function Normalize(s: string): (r: string)
    ensures |r| == |s|
    ensures forall i | 0 <= i < |s| :: r[i] == if s[i] == ',' then ' ' else s[i]
  {
    seq(|s|, i requires 0 <= i < |s| => if s[i] == ',' then ' ' else s[i])
  }

  /** What ParseRange accepts. */
  function RangeOf(s: string): Option<Range> {
    var trimmed := TrimSpace(s);
    var fields := Fields(Normalize(trimmed));
    if fields == [] then None
    else
      match ClausesOf(fields)
      case None => None
      case Some(cs) => Some(Range(trimmed, cs))
  }

  lemma {:induction false} ClausesOfPrefix(fields: seq<string>, i: nat)
    requires i < |fields|
    ensures ClauseOf(fields[i]).None? || ClausesOf(fields[..i]).None? ==> ClausesOf(fields).None?
    ensures ClauseOf(fields[i]).Some? && ClausesOf(fields[..i]).Some? ==>
              ClausesOf(fields[..i + 1]) == Some(ClausesOf(fields[..i]).value + [ClauseOf(fields[i]).value])
  {
    if i == 0 {
      assert fields[..1] == [fields[0]];
      assert fields[..1][1..] == [] && fields[..0] == [];
      if ClauseOf(fields[0]).Some? {
        assert [ClauseOf(fields[0]).value] + [] == [] + [ClauseOf(fields[0]).value];
      }
    } else {
      ClausesOfPrefix(fields[1..], i - 1);
      assert fields[..i][1..] == fields[1..][..i - 1];
      assert fields[..i + 1][1..] == fields[1..][..i];
      if ClauseOf(fields[i]).Some? && ClausesOf(fields[..i]).Some? {
        var c, cs, last := ClauseOf(fields[0]).value, ClausesOf(fields[..i][1..]).value, ClauseOf(fields[i]).value;
        assert ClausesOf(fields[..i + 1]) == Some([c] + (cs + [last]));
        assert [c] + (cs + [last]) == ([c] + cs) + [last];
      }
    }
  }

  method ParseRange(s: string) returns (r: Option<Range>)
    ensures r == RangeOf(s)
  {
    var trimmed := TrimSpace(s);
    if trimmed == "" {
      return None;
    }
    var fields := Fields(Normalize(trimmed));
    if |fields| == 0 {
      return None;
    }
    var comparators: seq<Comparator> := [];
    for i := 0 to |fields|
      invariant ClausesOf(fields[..i]) == Some(comparators)
    {
      ClausesOfPrefix(fields, i);
      var split := SplitOp(fields[i]);
      if split.None? {
        return None;
      }
      var version := ParseVersion(split.value.1);
      if version.None? {
        return None;
      }
      comparators := comparators + [Comparator(split.value.0, version.value)];
    }
    assert fields[..|fields|] == fields;
    return Some(Range(trimmed, comparators));
  }

  lemma VersionOfIsParsed(s: string)
    ensures VersionOf(s).Some? ==> Parsed(VersionOf(s).value)
  {
  }

  lemma {:induction false} ClausesAreParsed(fields: seq<string>)
    ensures ClausesOf(fields).Some? ==> |ClausesOf(fields).value| == |fields| && ParsedAll(ClausesOf(fields).value)
  {
    if fields != [] && ClausesOf(fields).Some? {
      VersionOfIsParsed(SplitOpOf(fields[0]).value.1);
      ClausesAreParsed(fields[1..]);
    }
  }

  /** An accepted range has at least one clause, and the meaning of one interval. */
  lemma AcceptedRangeIsInterval(s: string, v: Version)
    requires RangeOf(s).Some? && Parsed(v)
    ensures RangeOf(s).value.comparators != [] && ParsedAll(RangeOf(s).value.comparators)
    ensures AdmitsAll(RangeOf(s).value.comparators, v) <==> Contains(DesugarAll(RangeOf(s).value.comparators), v)
  {
    ClausesAreParsed(Fields(Normalize(TrimSpace(s))));
    RangeIsInterval(RangeOf(s).value.comparators, v);
  }

  // ---- Printing a range ----

  function PrintClause(c: Comparator): string
    requires Parsed(c.version)
  {
    OpText(c.op) + Print(c.version)
  }

  predicate IsSeparator(s: string) {
    forall i | 0 <= i < |s| :: s[i] == ',' || IsSpace(s[i])
  }

  /** Clauses with separators around them: `lead` before the first, `gaps[i]` after clause i. */
  function Render(lead: string, cs: seq<Comparator>, gaps: seq<string>): string
    requires |gaps| == |cs| && ParsedAll(cs)
    decreases |cs|
  {
    if cs == [] then lead
    else lead + (PrintClause(cs[0]) + Render(gaps[0], cs[1..], gaps[1..]))
  }

  /** Separators are spaces and commas, and non-empty between two clauses. */
  ghost predicate WellSeparated(lead: string, gaps: seq<string>) {
    && IsSeparator(lead)
    && (forall i | 0 <= i < |gaps| :: IsSeparator(gaps[i]))
    && (forall i | 0 <= i < |gaps| - 1 :: gaps[i] != "")
  }

  lemma NormalizeConcat(s: string, t: string)
    ensures Normalize(s + t) == Normalize(s) + Normalize(t)
  {
  }

  lemma {:induction false} PrintedClause(c: Comparator)
    requires Parsed(c.version)
    ensures PrintClause(c) != "" && forall x | x in PrintClause(c) :: !IsSpace(x) && x != ','
    ensures ClauseOf(PrintClause(c)) == Some(c)
  {
    var text, op := Print(c.version), OpText(c.op);
    PrintedVersion(c.version);
    PrintedOperator(c.op, text);
    ParseOfPrint(c.version);
    assert forall x | x in op + text :: x in op || x in text;
  }

  lemma PrintedVersion(v: Version)
    requires Parsed(v)
    ensures Print(v) != "" && IsDigit(Print(v)[0])
    ensures forall x | x in Print(v) :: IsDigit(x) || x == '.'
  {
  }

  lemma PrintedOperator(op: Op, text: string)
    requires text != "" && IsDigit(text[0])
    ensures SplitOpOf(OpText(op) + text) == Some((op, text))
  {
    var field := OpText(op) + text;
    assert field[|OpText(op)|..] == text && field[|OpText(op)|] == text[0];
    assert field[..|OpText(op)|] == OpText(op);
    match op
    case AtLeast =>
    case AtMost =>
    case Above =>
    case Below =>
    case Exactly =>
    case Caret =>
    case Tilde =>
  }

  lemma {:induction false} FieldsOfRender(lead: string, cs: seq<Comparator>, gaps: seq<string>)
    requires |gaps| == |cs| && ParsedAll(cs) && WellSeparated(lead, gaps)
    ensures ClausesOf(Fields(Normalize(Render(lead, cs, gaps)))) == Some(cs)
    decreases |cs|
  {
    if cs == [] {
      FieldsSkipSpaces(Normalize(lead), []);
      assert Normalize(lead) + [] == Normalize(lead);
    } else {
      PrintedClause(cs[0]);
      RenderStartsWithSeparator(gaps[0], cs[1..], gaps[1..]);
      SeparatedField(lead, PrintClause(cs[0]), Render(gaps[0], cs[1..], gaps[1..]));
      FieldsOfRender(gaps[0], cs[1..], gaps[1..]);
      assert cs == [cs[0]] + cs[1..];
    }
  }

  /** A word between separators is the next field. */
  lemma SeparatedField(lead: string, word: string, tail: string)
    requires IsSeparator(lead) && word != "" && forall x | x in word :: !IsSpace(x) && x != ','
    requires tail == "" || IsSpace(Normalize(tail)[0])
    ensures Fields(Normalize(lead + (word + tail))) == [word] + Fields(Normalize(tail))
  {
    NormalizeConcat(lead, word + tail);
    NormalizeConcat(word, tail);
    NormalizeKeeps(word);
    FieldsSkipSpaces(Normalize(lead), word + Normalize(tail));
    FirstField(word, Normalize(tail));
  }

  lemma NormalizeKeeps(s: string)
    requires forall x | x in s :: x != ','
    ensures Normalize(s) == s
  {
    assert forall i | 0 <= i < |s| :: s[i] in s;
  }

  lemma RenderStartsWithSeparator(lead: string, cs: seq<Comparator>, gaps: seq<string>)
    requires |gaps| == |cs| && ParsedAll(cs) && IsSeparator(lead)
    requires cs == [] || lead != ""
    ensures Render(lead, cs, gaps) == "" || IsSpace(Normalize(Render(lead, cs, gaps))[0])
  {
  }

  lemma {:induction false} TrimLeftKeepsFields(s: string)
    ensures Fields(Normalize(TrimLeft(s))) == Fields(Normalize(s))
  {
    if s != [] && IsSpace(s[0]) {
      TrimLeftKeepsFields(s[1..]);
      assert Normalize(s)[1..] == Normalize(s[1..]);
    }
  }

  lemma {:induction false} TrimRightKeepsFields(s: string)
    ensures Fields(Normalize(TrimRight(s))) == Fields(Normalize(s))
  {
    if s != [] && IsSpace(s[|s| - 1]) {
      var front := s[..|s| - 1];
      TrimRightKeepsFields(front);
      assert Normalize(s) == Normalize(front) + [s[|s| - 1]];
      FieldsDropTrailing(Normalize(front), s[|s| - 1]);
    }
  }

  /** Any non-empty clause list, printed with any mix of space and comma separators, parses back to itself. */
  lemma ParseOfRender(lead: string, cs: seq<Comparator>, gaps: seq<string>)
    requires |gaps| == |cs| && ParsedAll(cs) && WellSeparated(lead, gaps)
    requires cs != []
    ensures RangeOf(Render(lead, cs, gaps)) == Some(Range(TrimSpace(Render(lead, cs, gaps)), cs))
  {
    var s := Render(lead, cs, gaps);
    TrimLeftKeepsFields(s);
    TrimRightKeepsFields(TrimLeft(s));
    FieldsOfRender(lead, cs, gaps);
  }
}

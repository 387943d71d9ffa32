/** The string operations the registry and the handlers take from Go's `strings`
    and `strconv` packages. A string is a sequence of Unicode scalars. */
module Text {

  /** Go's `unicode.IsSpace`. */
  predicate IsSpace(c: char) {
    || '\t' <= c <= '\r'
    || c == ' ' || c == '\U{0085}' || c == '\U{00A0}' || c == '\U{1680}'
    || '\U{2000}' <= c <= '\U{200A}'
    || c == '\U{2028}' || c == '\U{2029}' || c == '\U{202F}' || c == '\U{205F}' || c == '\U{3000}'
  }

  function TrimLeft(s: string): string {
    if s != [] && IsSpace(s[0]) then TrimLeft(s[1..]) else s
  }

  function TrimRight(s: string): string {
    if s != [] && IsSpace(s[|s| - 1]) then TrimRight(s[..|s| - 1]) else s
  }

  /** `strings.TrimSpace`. */
  function TrimSpace(s: string): string {
    TrimRight(TrimLeft(s))
  }

  /** `strings.TrimSpace(s) == ""`. */
  predicate Blank(s: string) {
    TrimSpace(s) == ""
  }

  lemma {:induction false} TrimLeftDrops(s: string)
    ensures TrimLeft(s) == "" <==> forall c | c in s :: IsSpace(c)
    ensures TrimLeft(s) == "" || !IsSpace(TrimLeft(s)[0])
  {
    if s != [] && IsSpace(s[0]) {
      TrimLeftDrops(s[1..]);
      assert s == [s[0]] + s[1..];
    }
  }

  lemma {:induction false} TrimRightDrops(s: string)
    ensures TrimRight(s) == "" <==> forall c | c in s :: IsSpace(c)
  {
    if s != [] && IsSpace(s[|s| - 1]) {
      TrimRightDrops(s[..|s| - 1]);
      assert s == s[..|s| - 1] + [s[|s| - 1]];
    }
  }

  /** A text is blank exactly when it holds nothing but white space. */
  lemma BlankExactly(s: string)
    ensures Blank(s) <==> forall c | c in s :: IsSpace(c)
  {
    TrimLeftDrops(s);
    TrimRightDrops(TrimLeft(s));
  }

  /** The length of the first run of non-space characters. */
  function WordLength(s: string): (n: nat)
    ensures n <= |s|
    ensures forall i | 0 <= i < n :: !IsSpace(s[i])
    ensures n < |s| ==> IsSpace(s[n])
  {
    if s == [] || IsSpace(s[0]) then 0 else 1 + WordLength(s[1..])
  }

  /** `strings.Fields`: the maximal runs of non-space characters, in order. */
  function Fields(s: string): seq<string> {
    if s == [] then []
    else if IsSpace(s[0]) then Fields(s[1..])
    else
      var n := WordLength(s);
      [s[..n]] + Fields(s[n..])
  }

  /** `strings.Split` on a one-character separator. */
  function Split(s: string, separator: char): (parts: seq<string>)
    ensures |parts| >= 1
  {
    if s == [] then [[]]
    else
      var rest := Split(s[1..], separator);
      if s[0] == separator then [[]] + rest else [[s[0]] + rest[0]] + rest[1..]
  }

  function Join(parts: seq<string>, separator: char): string
    requires |parts| >= 1
  {
    if |parts| == 1 then parts[0] else parts[0] + [separator] + Join(parts[1..], separator)
  }

  ghost predicate Free(s: string, c: char) {
    c !in s
  }

  /** Splitting then joining restores the text, and no part holds the separator. */
  lemma {:induction false} JoinOfSplit(s: string, separator: char)
    ensures Join(Split(s, separator), separator) == s
    ensures forall p | p in Split(s, separator) :: Free(p, separator)
  {
    if s != [] {
      JoinOfSplit(s[1..], separator);
      var rest := Split(s[1..], separator);
      var parts := Split(s, separator);
      if s[0] == separator {
        assert parts[1..] == rest;
      } else {
        assert Free(rest[0], separator);
        if |rest| > 1 { assert parts[1..] == rest[1..]; }
      }
      assert s == [s[0]] + s[1..];
    }
  }

  /** A text without the separator is a single part; a separator ends the first part. */
  lemma {:induction false} SplitPrefix(head: string, tail: string, separator: char)
    requires Free(head, separator)
    ensures Split(head, separator) == [head]
    ensures Split(head + [separator] + tail, separator) == [head] + Split(tail, separator)
  {
    if head == [] {
      assert head + [separator] + tail == [separator] + tail;
    } else {
      SplitPrefix(head[1..], tail, separator);
      assert head == [head[0]] + head[1..];
      assert (head + [separator] + tail)[1..] == head[1..] + [separator] + tail;
    }
  }

  /** A separator-free first word followed by a space or the end is the first field. */
  lemma {:induction false} FirstField(word: string, rest: string)
    requires word != [] && forall c | c in word :: !IsSpace(c)
    requires rest == [] || IsSpace(rest[0])
    ensures Fields(word + rest) == [word] + Fields(rest)
  {
    var s := word + rest;
    assert s[0] == word[0] && word[0] in word;
    var n := WordLength(s);
    assert forall i | 0 <= i < |word| :: s[i] == word[i] && word[i] in word;
    assert rest != [] ==> s[|word|] == rest[0];
    assert n == |word|;
    assert s[..n] == word && s[n..] == rest;
  }

  lemma {:induction false} FieldsSkipSpaces(blank: string, rest: string)
    requires forall c | c in blank :: IsSpace(c)
    ensures Fields(blank + rest) == Fields(rest)
  {
    if blank == [] {
      assert blank + rest == rest;
    } else {
      assert blank[0] in blank;
      assert forall c | c in blank[1..] :: c in blank;
      FieldsSkipSpaces(blank[1..], rest);
      assert (blank + rest)[1..] == blank[1..] + rest;
    }
  }

  /** Trailing spaces add no field. */
  lemma {:induction false} FieldsDropTrailing(s: string, c: char)
    requires IsSpace(c)
    ensures Fields(s + [c]) == Fields(s)
    decreases |s|
  {
    if s == [] {
      assert (s + [c])[1..] == [];
    } else if IsSpace(s[0]) {
      assert (s + [c])[1..] == s[1..] + [c];
      FieldsDropTrailing(s[1..], c);
    } else {
      var n := WordLength(s);
      var word, rest := s[..n], s[n..] + [c];
      assert n > 0;
      assert s + [c] == word + rest;
      FirstField(word, rest);
      FieldsDropTrailing(s[n..], c);
    }
  }

  // ---- Decimal digits ----

  predicate IsDigit(c: char) {
    '0' <= c <= '9'
  }

  predicate AllDigits(s: string) {
    forall i | 0 <= i < |s| :: IsDigit(s[i])
  }

  function DigitValue(c: char): nat
    requires IsDigit(c)
  {
    c as int - '0' as int
  }

  function DigitChar(n: nat): (c: char)
    requires n < 10
    ensures IsDigit(c) && DigitValue(c) == n
  {
    ('0' as int + n) as char
  }

  /** The number a digit string denotes, read left to right. */
  function Value(s: string): nat
    requires AllDigits(s)
  {
    if s == [] then 0 else 10 * Value(s[..|s| - 1]) + DigitValue(s[|s| - 1])
  }

  /** `%d` of a non-negative number. */
  function Decimal(n: nat): (s: string)
    ensures s != [] && AllDigits(s)
  {
    if n < 10 then [DigitChar(n)] else Decimal(n / 10) + [DigitChar(n % 10)]
  }

  lemma {:induction false} ValueOfDecimal(n: nat)
    ensures Value(Decimal(n)) == n
  {
    if n >= 10 {
      ValueOfDecimal(n / 10);
      var s := Decimal(n);
      assert s[..|s| - 1] == Decimal(n / 10);
    } else {
      assert Decimal(n)[..0] == [];
    }
  }

  predicate LeadingZero(s: string) {
    |s| > 1 && s[0] == '0'
  }

  lemma {:induction false} ValuePositive(s: string)
    requires AllDigits(s) && s != [] && s[0] != '0'
    ensures Value(s) > 0
  {
    if |s| > 1 {
      ValuePositive(s[..|s| - 1]);
    }
  }

  lemma {:induction false} DecimalHasNoLeadingZero(n: nat)
    ensures !LeadingZero(Decimal(n))
    ensures n > 0 ==> Decimal(n)[0] != '0'
  {
    if n >= 10 {
      DecimalHasNoLeadingZero(n / 10);
    } else {
      assert DigitValue('0') == 0;
    }
  }

  /** Printing what was read restores the text exactly when it had no leading zero. */
  lemma {:induction false} DecimalOfValue(s: string)
    requires s != [] && AllDigits(s)
    ensures Decimal(Value(s)) == s <==> !LeadingZero(s)
  {
    if LeadingZero(s) {
      DecimalHasNoLeadingZero(Value(s));
    } else if |s| == 1 {
      assert s[..0] == [];
    } else {
      var front, last := s[..|s| - 1], s[|s| - 1];
      ValuePositive(front);
      DecimalOfValue(front);
      var n := Value(s);
      assert n / 10 == Value(front) && n % 10 == DigitValue(last);
      assert s == front + [last];
    }
  }

  // ---- Letter case ----

  /** The representative `strings.EqualFold` compares: ASCII letters and the two other characters
      that fold to one, U+017F to s and U+212A to k. */
  function Fold(c: char): char {
    if 'A' <= c <= 'Z' then (c as int + 32) as char
    else if c == '\U{017F}' then 's'
    else if c == '\U{212A}' then 'k'
    else c
  }

  predicate EqualFold(a: string, b: string) {
    |a| == |b| && forall i | 0 <= i < |a| :: Fold(a[i]) == Fold(b[i])
  }
}

/**
  Amounts as the decimal strings they travel as: what is accepted, the canonical
  two-decimal form, and its integer cents.
 */
module Amounts {
  import opened Prelude
  import opened Bank
  import opened Patterns

  /** A JSON value given as an amount; a number is met as the text JavaScript prints for it. */
  datatype Input = Text(text: string) | Number(printed: string) | Other

  // ------------------------------------------------------------------ strings

  predicate Digit(c: char) {
    '0' <= c <= '9'
  }

  predicate Digits(s: string) {
    forall c <- s :: Digit(c)
  }

  /** The white space and line terminators that `trim` removes. */
  predicate Space(c: char) {
    || '\t' <= c <= '\r' || c == ' ' || c == '\U{00a0}' || c == '\U{1680}'
    || '\U{2000}' <= c <= '\U{200a}' || c == '\U{2028}' || c == '\U{2029}'
    || c == '\U{202f}' || c == '\U{205f}' || c == '\U{3000}' || c == '\U{feff}'
  }

  function TrimStart(s: string): string {
    if s != [] && Space(s[0]) then TrimStart(s[1..]) else s
  }

  function TrimEnd(s: string): string {
    if s != [] && Space(s[|s| - 1]) then TrimEnd(s[..|s| - 1]) else s
  }

  function Trim(s: string): string {
    TrimEnd(TrimStart(s))
  }

  /** Zero, or up to thirteen digits without a leading zero. */
  predicate Whole(s: string) {
    s == "0" || (1 <= |s| <= 13 && Digits(s) && s[0] != '0')
  }

  predicate Fraction(s: string) {
    1 <= |s| <= 2 && Digits(s)
  }

  /** AMOUNT_PATTERN, read as a grammar. */
  ghost predicate Matches(s: string) {
    Whole(s) || exists i :: 0 <= i < |s| && DotAt(s, i)
  }

  predicate DotAt(s: string, i: nat)
    requires i < |s|
  {
    s[i] == '.' && Whole(s[..i]) && Fraction(s[i + 1..])
  }

  /** The first dot, or the end. */
  function DotIndex(s: string): (i: nat)
    ensures i <= |s| && (i < |s| ==> s[i] == '.') && forall j :: 0 <= j < i ==> s[j] != '.'
  {
    if s == [] || s[0] == '.' then 0 else 1 + DotIndex(s[1..])
  }

  function WholePart(s: string): string {
    s[..DotIndex(s)]
  }

  function FractionPart(s: string): string {
    if DotIndex(s) == |s| then "" else s[DotIndex(s) + 1..]
  }

  predicate Accepts(s: string) {
    Whole(WholePart(s)) && (DotIndex(s) == |s| || Fraction(FractionPart(s)))
  }

  /** Scanning for the first dot decides the pattern. */
  lemma AcceptsIsMatches(s: string)
    ensures Accepts(s) <==> Matches(s)
  {
    if Whole(s) {
      assert forall j :: 0 <= j < |s| ==> s[j] in s && Digit(s[j]);
      assert s[..|s|] == s;
    } else if i :| 0 <= i < |s| && DotAt(s, i) {
      assert forall j :: 0 <= j < i ==> s[..i][j] in s[..i];
      assert DotIndex(s) == i;
    }
    if Accepts(s) {
      assert s[..|s|] == s;
      assert DotIndex(s) < |s| ==> DotAt(s, DotIndex(s));
    }
  }

  const DIGIT := Range('0', '9')

  /** The pattern of both validators: `^(?:0|[1-9]\d{0,12})(?:\.\d{1,2})?$`. */
  const AMOUNT_PATTERN :=
    Then(Either(Range('0', '0'), Then(Range('1', '9'), Repeat(DIGIT, 0, 12))),
         Repeat(Then(Range('.', '.'), Repeat(DIGIT, 1, 2)), 0, 1))

  lemma WholeMeetsPattern(s: string)
    requires Whole(s)
    ensures Accepted(AMOUNT_PATTERN.first, s)
  {
    if s != "0" {
      assert forall i :: 0 <= i < |s| ==> s[i] in s;
      RepeatedRange('0', '9', 0, 12, s[1..]);
      assert Accepted(Range('1', '9'), s[..1]) && Accepted(Repeat(DIGIT, 0, 12), s[1..]);
    }
  }

  lemma PatternMeetsWhole(s: string)
    requires Accepted(AMOUNT_PATTERN.first, s)
    ensures Whole(s)
  {
    if Accepted(Range('0', '0'), s) {
      assert s == "0";
    } else {
      var i :| 0 <= i <= |s| && Accepted(Range('1', '9'), s[..i]) && Accepted(Repeat(DIGIT, 0, 12), s[i..]);
      RepeatedRange('0', '9', 0, 12, s[i..]);
      assert i == 1 && s[0] == s[..1][0];
      forall c <- s ensures Digit(c) {
        var j :| 0 <= j < |s| && s[j] == c;
        assert j > 0 ==> s[1..][j - 1] == c;
      }
    }
  }

  lemma WholeIsPattern(s: string)
    ensures Whole(s) <==> Accepted(AMOUNT_PATTERN.first, s)
  {
    if Whole(s) {
      WholeMeetsPattern(s);
    }
    if Accepted(AMOUNT_PATTERN.first, s) {
      PatternMeetsWhole(s);
    }
  }

  lemma FractionIsPattern(s: string)
    ensures s != "" && s[0] == '.' && Fraction(s[1..]) <==> Accepted(Then(Range('.', '.'), Repeat(DIGIT, 1, 2)), s)
  {
    if s != "" && s[0] == '.' && Fraction(s[1..]) {
      assert forall i :: 0 <= i < |s[1..]| ==> s[1..][i] in s[1..];
      RepeatedRange('0', '9', 1, 2, s[1..]);
      assert Accepted(Range('.', '.'), s[..1]) && Accepted(Repeat(DIGIT, 1, 2), s[1..]);
    }
    if i :| 0 <= i <= |s| && Accepted(Range('.', '.'), s[..i]) && Accepted(Repeat(DIGIT, 1, 2), s[i..]) {
      RepeatedRange('0', '9', 1, 2, s[i..]);
      assert i == 1 && s[0] == s[..1][0];
      forall c <- s[1..] ensures Digit(c) {
        var j :| 0 <= j < |s[1..]| && s[1..][j] == c;
      }
    }
  }

  /** The grammar is the pattern. */
  lemma MatchesIsPattern(s: string)
    ensures Matches(s) <==> Accepted(AMOUNT_PATTERN, s)
  {
    var whole, part := AMOUNT_PATTERN.first, Then(Range('.', '.'), Repeat(DIGIT, 1, 2));
    if Whole(s) {
      WholeIsPattern(s);
      Optional(part, "");
      assert s[..|s|] == s && s[|s|..] == "";
      assert Accepted(whole, s[..|s|]) && Accepted(Repeat(part, 0, 1), s[|s|..]);
    } else if i :| 0 <= i < |s| && DotAt(s, i) {
      WholeIsPattern(s[..i]);
      assert s[i..][1..] == s[i + 1..];
      FractionIsPattern(s[i..]);
      Optional(part, s[i..]);
      assert Accepted(whole, s[..i]) && Accepted(Repeat(part, 0, 1), s[i..]);
    }
    if Accepted(AMOUNT_PATTERN, s) {
      var i :| 0 <= i <= |s| && Accepted(whole, s[..i]) && Accepted(Repeat(part, 0, 1), s[i..]);
      WholeIsPattern(s[..i]);
      Optional(part, s[i..]);
      FractionIsPattern(s[i..]);
      if s[i..] == "" {
        assert s[..i] == s;
      } else {
        assert s[i..][1..] == s[i + 1..];
        assert DotAt(s, i);
      }
    }
  }

  predicate HasNonZero(s: string) {
    exists c <- s :: '1' <= c <= '9'
  }

  // ----------------------------------------------------------------- trimming

  /** The code points of WhiteSpace and LineTerminator, sections 12.2 and 12.3 of ECMA-262. */
  const WHITE_SPACE: set<nat> := {
    0x0009, 0x000a, 0x000b, 0x000c, 0x000d, 0x0020, 0x00a0, 0x1680,
    0x2000, 0x2001, 0x2002, 0x2003, 0x2004, 0x2005, 0x2006, 0x2007, 0x2008, 0x2009, 0x200a,
    0x2028, 0x2029, 0x202f, 0x205f, 0x3000, 0xfeff}

  lemma SpaceIsWhiteSpace(c: char)
    ensures Space(c) <==> c as nat in WHITE_SPACE
  {
  }

  predicate Blank(s: string) {
    forall i :: 0 <= i < |s| ==> s[i] as nat in WHITE_SPACE
  }

  /** Nothing to trim at either end. */
  predicate Tight(s: string) {
    s == "" || (s[0] as nat !in WHITE_SPACE && s[|s| - 1] as nat !in WHITE_SPACE)
  }

  /** `core` with white space around it. */
  predicate Wraps(s: string, before: string, core: string, after: string) {
    s == before + core + after && Blank(before) && Blank(after)
  }

  lemma {:induction false} TrimStartWraps(s: string) returns (before: string)
    ensures s == before + TrimStart(s) && Blank(before)
    ensures TrimStart(s) == "" || TrimStart(s)[0] as nat !in WHITE_SPACE
  {
    before := "";
    if s != [] {
      SpaceIsWhiteSpace(s[0]);
      if Space(s[0]) {
        var rest := TrimStartWraps(s[1..]);
        before := [s[0]] + rest;
      }
    }
  }

  lemma {:induction false} TrimEndWraps(s: string) returns (after: string)
    ensures s == TrimEnd(s) + after && Blank(after)
    ensures TrimEnd(s) == "" || TrimEnd(s)[|TrimEnd(s)| - 1] as nat !in WHITE_SPACE
  {
    after := "";
    if s != [] {
      SpaceIsWhiteSpace(s[|s| - 1]);
      if Space(s[|s| - 1]) {
        var rest := TrimEndWraps(s[..|s| - 1]);
        after := rest + [s[|s| - 1]];
      }
    }
  }

  /** Trimming takes off white space at both ends, and leaves none there. */
  lemma TrimWraps(s: string) returns (before: string, after: string)
    ensures Wraps(s, before, Trim(s), after) && Tight(Trim(s))
  {
    before := TrimStartWraps(s);
    after := TrimEndWraps(TrimStart(s));
    assert s == before + (Trim(s) + after) == before + Trim(s) + after;
    assert Trim(s) != "" ==> TrimStart(s)[0] == Trim(s)[0];
  }

  lemma WrapsAt(s: string, before: string, core: string, after: string)
    requires Wraps(s, before, core, after)
    ensures s[|before|..|before| + |core|] == core
    ensures forall i :: 0 <= i < |before| ==> s[i] as nat in WHITE_SPACE
    ensures forall i :: |before| + |core| <= i < |s| ==> s[i] as nat in WHITE_SPACE
  {
    assert forall i :: 0 <= i < |before| ==> s[i] == before[i];
    assert forall i :: |before| + |core| <= i < |s| ==> s[i] == after[i - |before| - |core|];
  }

  /** What is left is determined by that. */
  lemma TrimIsUnique(s: string, before: string, core: string, after: string)
    requires Wraps(s, before, core, after) && Tight(core)
    ensures Trim(s) == core
  {
    var a, b := TrimWraps(s);
    WrapsAt(s, a, Trim(s), b);
    WrapsAt(s, before, core, after);
    if core != "" {
      assert s[|before|] == core[0] && s[|before| + |core| - 1] == core[|core| - 1];
    }
    if Trim(s) != "" {
      assert s[|a|] == Trim(s)[0] && s[|a| + |Trim(s)| - 1] == Trim(s)[|Trim(s)| - 1];
    }
  }

  // ------------------------------------------------------------------ numbers

  function DigitValue(c: char): (d: nat)
    requires Digit(c)
    ensures d <= 9 && (d > 0 <==> '1' <= c <= '9')
  {
    (c - '0') as nat
  }

  /** `BigInt` of a digit string. */
  function Value(s: string): nat
    requires Digits(s)
  {
    if s == [] then 0 else 10 * Value(s[..|s| - 1]) + DigitValue(s[|s| - 1])
  }

  /** `padEnd(2, '0')`. */
  function PadEnd(s: string): string {
    if s == "" then "00" else if |s| == 1 then s + "0" else s
  }

  function ToCents(s: string): nat
    requires Accepts(s)
  {
    Value(WholePart(s)) * 100 + Value(PadEnd(FractionPart(s)))
  }

  function DigitChar(d: nat): (c: char)
    requires d < 10
    ensures Digit(c) && DigitValue(c) == d
  {
    '0' + d as char
  }

  /** `String` of a `BigInt`. */
  function Decimal(n: nat): string {
    if n < 10 then [DigitChar(n)] else Decimal(n / 10) + [DigitChar(n % 10)]
  }

  /** The canonical form: all the cents, always two decimals. */
  function Canonical(cents: nat): string {
    Decimal(cents / 100) + "." + TwoDigits(cents % 100)
  }

  function TwoDigits(n: nat): string
    requires n < 100
  {
    [DigitChar(n / 10), DigitChar(n % 10)]
  }

  // --------------------------------------------------------- the two validators

  function Printed(v: Input): Option<string> {
    match v
    case Text(s) => Some(Trim(s))
    case Number(s) => Some(Trim(s))
    case Other => None
  }

  /** `normalizeAmount`; None is its ApiError. */
  function NormalizeAmount(v: Input, cap: int): Option<string> {
    var text := Printed(v);
    if text.None? || !Accepts(text.value) || !HasNonZero(text.value) then None
    else
      var cents := ToCents(text.value);
      if cents > cap then None
      else Some(Decimal(cents / 100) + "." + PadStart(Decimal(cents % 100)))
  }

  /** `padStart(2, '0')`. */
  function PadStart(s: string): string {
    if s == "" then "00" else if |s| == 1 then "0" + s else s
  }

  /** `isValidAmount`, the copy of the rule in the request validators. */
  predicate IsValidAmount(v: Input, cap: int) {
    var text := Printed(v);
    && text.Some?
    && Accepts(text.value)
    && HasNonZero(text.value)
    && Value(WholePart(text.value)) * 100 + FractionCents(FractionPart(text.value)) <= cap
  }

  function FractionCents(s: string): nat
    requires s == "" || Fraction(s)
  {
    if s == "" then 0 else if |s| == 1 then 10 * DigitValue(s[0]) else 10 * DigitValue(s[0]) + DigitValue(s[1])
  }

  // ------------------------------------------------------------------- lemmas

  lemma ValueOfPair(a: char, b: char)
    requires Digit(a) && Digit(b)
    ensures Value([a, b]) == 10 * DigitValue(a) + DigitValue(b)
  {
    assert [a, b][..1] == [a];
    assert [a][..0] == "";
    assert Value([a]) == DigitValue(a);
  }

  /** Padding leaves two digits, worth the cents of the fraction. */
  lemma PadEndIsPair(s: string) returns (a: char, b: char)
    requires s == "" || Fraction(s)
    ensures Digit(a) && Digit(b) && PadEnd(s) == [a, b] && FractionCents(s) == 10 * DigitValue(a) + DigitValue(b)
  {
    if s == "" {
      a, b := '0', '0';
    } else if |s| == 1 {
      assert s[0] in s;
      a, b := s[0], '0';
      assert PadEnd(s) == s + "0" == [a, b];
    } else {
      assert s[0] in s && s[1] in s;
      a, b := s[0], s[1];
      assert s == [a, b];
    }
  }

  lemma PadEndCents(s: string)
    requires s == "" || Fraction(s)
    ensures Digits(PadEnd(s)) && Value(PadEnd(s)) == FractionCents(s)
  {
    var a, b := PadEndIsPair(s);
    ValueOfPair(a, b);
  }

  lemma CentsOf(s: string)
    requires Accepts(s)
    ensures ToCents(s) == Value(WholePart(s)) * 100 + FractionCents(FractionPart(s))
  {
    PadEndCents(FractionPart(s));
  }

  function Power10(n: nat): nat {
    if n == 0 then 1 else 10 * Power10(n - 1)
  }

  lemma {:induction false} ValueBound(s: string)
    requires Digits(s)
    ensures Value(s) < Power10(|s|)
  {
    if s != [] {
      ValueBound(s[..|s| - 1]);
      assert Value(s[..|s| - 1]) + 1 <= Power10(|s| - 1);
    }
  }

  /** A digit string is zero exactly when it has only zeros. */
  lemma {:induction false} ValuePositive(s: string)
    requires Digits(s)
    ensures Value(s) > 0 <==> HasNonZero(s)
  {
    if s != [] {
      var n := |s| - 1;
      ValuePositive(s[..n]);
      assert s == s[..n] + [s[n]];
      NonZeroConcat(s[..n], [s[n]]);
      assert HasNonZero([s[n]]) <==> DigitValue(s[n]) > 0 by {
        assert s[n] in [s[n]];
      }
    }
  }

  lemma NonZeroConcat(a: string, b: string)
    ensures HasNonZero(a + b) <==> HasNonZero(a) || HasNonZero(b)
  {
    assert forall c :: c in a + b <==> c in a || c in b;
    if HasNonZero(a) {
      var c :| c in a && '1' <= c <= '9';
      assert c in a + b;
    } else if HasNonZero(b) {
      var c :| c in b && '1' <= c <= '9';
      assert c in a + b;
    }
  }

  lemma FractionPositive(f: string)
    requires f == "" || Fraction(f)
    ensures FractionCents(f) > 0 <==> HasNonZero(f)
  {
    if f != "" {
      assert f[0] in f && f[|f| - 1] in f;
      assert forall c <- f :: c == f[0] || c == f[|f| - 1];
    }
  }

  /** The `[1-9]` test holds exactly when the amount is positive. */
  lemma NonZeroIsPositive(s: string)
    requires Accepts(s)
    ensures HasNonZero(s) <==> ToCents(s) > 0
  {
    var w, f := WholePart(s), FractionPart(s);
    CentsOf(s);
    ValuePositive(w);
    FractionPositive(f);
    if DotIndex(s) == |s| {
      assert s == w && !HasNonZero("");
    } else {
      assert s == w + ("." + f);
      NonZeroConcat(w, "." + f);
      NonZeroConcat(".", f);
    }
  }

  lemma Power13()
    ensures Power10(13) == 10_000_000_000_000
  {
    assert Power10(3) == 1000;
    assert Power10(6) == 1_000_000;
    assert Power10(9) == 1_000_000_000;
    assert Power10(12) == 1_000_000_000_000;
  }

  lemma {:induction false} PowerGrows(m: nat, n: nat)
    requires m <= n
    ensures Power10(m) <= Power10(n)
    decreases n
  {
    if m < n {
      PowerGrows(m, n - 1);
    }
  }

  /** Whatever the cap, an accepted amount fits NUMERIC(15, 2). */
  lemma AcceptedFits(s: string)
    requires Accepts(s)
    ensures ToCents(s) <= MAX_CENTS
  {
    CentsOf(s);
    var w := WholePart(s);
    ValueBound(w);
    PowerGrows(|w|, 13);
    Power13();
    assert Value(w) <= 9_999_999_999_999;
    assert FractionCents(FractionPart(s)) <= 99;
  }

  lemma {:induction false} DecimalRoundTrip(n: nat)
    ensures Digits(Decimal(n)) && Value(Decimal(n)) == n && |Decimal(n)| >= 1
    ensures n > 0 ==> Decimal(n)[0] != '0'
  {
    if n >= 10 {
      DecimalRoundTrip(n / 10);
      assert Decimal(n)[..|Decimal(n)| - 1] == Decimal(n / 10);
    } else {
      assert [DigitChar(n)][..0] == "";
    }
  }

  lemma {:induction false} DecimalLength(n: nat, k: nat)
    requires n < Power10(k) && k >= 1
    ensures |Decimal(n)| <= k
  {
    if n >= 10 {
      DecimalLength(n / 10, k - 1);
    }
  }

  lemma DecimalIsWhole(n: nat)
    requires n <= MAX_CENTS / 100
    ensures Whole(Decimal(n))
  {
    DecimalRoundTrip(n);
    Power13();
    DecimalLength(n, 13);
  }

  lemma PadStartDigits(n: nat)
    requires n < 100
    ensures PadStart(Decimal(n)) == TwoDigits(n)
  {
    if n < 10 {
      assert PadStart([DigitChar(n)]) == "0" + [DigitChar(n)];
      assert DigitChar(0) == '0';
    }
  }

  lemma CanonicalParts(cents: nat)
    ensures var s := Canonical(cents);
            && DotIndex(s) < |s|
            && WholePart(s) == Decimal(cents / 100)
            && FractionPart(s) == TwoDigits(cents % 100)
  {
    var s := Canonical(cents);
    var w := Decimal(cents / 100);
    DecimalRoundTrip(cents / 100);
    assert forall j :: 0 <= j < |w| ==> s[j] == w[j] && w[j] in w;
    assert s[|w|] == '.' && DotIndex(s) == |w|;
    assert s[..|w|] == w;
  }

  /** A canonical string is accepted and stands for its own cents. */
  lemma CanonicalCents(cents: nat)
    requires cents <= MAX_CENTS
    ensures Accepts(Canonical(cents)) && ToCents(Canonical(cents)) == cents
    ensures Trim(Canonical(cents)) == Canonical(cents)
  {
    DecimalIsWhole(cents / 100);
    DecimalRoundTrip(cents / 100);
    CanonicalParts(cents);
    CentsOf(Canonical(cents));
    NothingToTrim(Canonical(cents));
  }

  lemma NothingToTrim(s: string)
    requires s != "" && Digit(s[0]) && Digit(s[|s| - 1])
    ensures Trim(s) == s
  {
  }

  lemma PaddedIsCanonical(cents: nat)
    ensures Decimal(cents / 100) + "." + PadStart(Decimal(cents % 100)) == Canonical(cents)
  {
    PadStartDigits(cents % 100);
  }

  lemma NormalizedIsCanonical(v: Input, cap: int)
    requires NormalizeAmount(v, cap).Some?
    ensures var text := Printed(v).value;
            && Accepts(text) && AmountOk(ToCents(text), cap)
            && NormalizeAmount(v, cap) == Some(Canonical(ToCents(text)))
  {
    AcceptedFits(Printed(v).value);
    NonZeroIsPositive(Printed(v).value);
    PaddedIsCanonical(ToCents(Printed(v).value));
  }

  /** The two copies of the rule accept the same values. */
  lemma ValidatorsAgree(v: Input, cap: int)
    ensures NormalizeAmount(v, cap).Some? <==> IsValidAmount(v, cap)
  {
    if Printed(v).Some? && Accepts(Printed(v).value) {
      CentsOf(Printed(v).value);
    }
  }

  /** The text is an amount of `cents`, with white space around it. */
  ghost predicate Denotes(s: string, cents: nat) {
    exists before, core, after ::
      Wraps(s, before, core, after) && Accepted(AMOUNT_PATTERN, core) && Accepts(core) && ToCents(core) == cents
  }

  lemma AmountIsTight(core: string)
    requires Accepts(core)
    ensures Tight(core)
  {
    if DotIndex(core) < |core| {
      assert FractionPart(core)[|FractionPart(core)| - 1] == core[|core| - 1];
      assert core[|core| - 1] in FractionPart(core);
    } else {
      assert WholePart(core) == core;
      assert core[|core| - 1] in WholePart(core);
    }
    assert core[0] == WholePart(core)[0] && core[0] in WholePart(core);
  }

  /** A text denotes at most one amount: that of what is left when it is trimmed. */
  lemma DenotesExactly(s: string, cents: nat)
    ensures Denotes(s, cents) <==> Accepts(Trim(s)) && ToCents(Trim(s)) == cents
  {
    if before, core, after :|
      Wraps(s, before, core, after) && Accepted(AMOUNT_PATTERN, core) && Accepts(core) && ToCents(core) == cents {
      AmountIsTight(core);
      TrimIsUnique(s, before, core, after);
    }
    if Accepts(Trim(s)) {
      var before, after := TrimWraps(s);
      AcceptsIsMatches(Trim(s));
      MatchesIsPattern(Trim(s));
    }
  }

  /** The raw text of a value: only texts and numbers have one. */
  function RawText(v: Input): Option<string> {
    match v
    case Text(s) => Some(s)
    case Number(s) => Some(s)
    case Other => None
  }

  /**
    What is accepted, in terms of the raw text, the pattern and the value alone: text or
    a number that, but for white space around it, matches the pattern, is positive and
    is within the cap.
   */
  lemma AcceptedExactly(v: Input, cap: int)
    ensures NormalizeAmount(v, cap).Some? <==>
            RawText(v).Some? && exists cents: nat :: Denotes(RawText(v).value, cents) && 0 < cents <= cap
    ensures forall cents: nat :: RawText(v).Some? && Denotes(RawText(v).value, cents) && 0 < cents <= cap ==>
            NormalizeAmount(v, cap) == Some(Canonical(cents))
  {
    if RawText(v).Some? {
      var s := RawText(v).value;
      forall cents: nat ensures Denotes(s, cents) <==> Accepts(Trim(s)) && ToCents(Trim(s)) == cents {
        DenotesExactly(s, cents);
      }
      if Accepts(Trim(s)) {
        NonZeroIsPositive(Trim(s));
        assert Denotes(s, ToCents(Trim(s)));
      }
      if NormalizeAmount(v, cap).Some? {
        NormalizedIsCanonical(v, cap);
      }
    }
  }

  /**
    The round trip: the result has exactly two decimals, keeps the cents of the
    trimmed input and is its own normal form.
   */
  lemma NormalizeRoundTrip(v: Input, cap: int)
    requires NormalizeAmount(v, cap).Some?
    ensures var r := NormalizeAmount(v, cap).value;
            && Accepts(r) && |FractionPart(r)| == 2
            && Accepts(Printed(v).value) && ToCents(r) == ToCents(Printed(v).value)
            && NormalizeAmount(Text(r), cap) == Some(r)
  {
    NormalizedIsCanonical(v, cap);
    var cents := ToCents(Printed(v).value);
    CanonicalCents(cents);
    NonZeroIsPositive(Canonical(cents));
    NormalizedIsCanonical(Text(Canonical(cents)), cap);
    CanonicalParts(cents);
  }

  /** Two accepted inputs normalise alike exactly when their cents agree. */
  lemma NormalFormsAgree(a: Input, b: Input, cap: int)
    requires NormalizeAmount(a, cap).Some? && NormalizeAmount(b, cap).Some?
    ensures Accepts(Printed(a).value) && Accepts(Printed(b).value)
    ensures NormalizeAmount(a, cap) == NormalizeAmount(b, cap) <==> ToCents(Printed(a).value) == ToCents(Printed(b).value)
  {
    NormalizeRoundTrip(a, cap);
    NormalizeRoundTrip(b, cap);
    NormalizedIsCanonical(a, cap);
    NormalizedIsCanonical(b, cap);
  }

  /** A stored amount, printed by the database with two decimals, re-normalises to itself under the cap. */
  lemma StoredAmountNormalizes(cents: nat, cap: int)
    requires AmountOk(cents, cap)
    ensures NormalizeAmount(Text(Canonical(cents)), cap) == Some(Canonical(cents))
    ensures Accepts(Canonical(cents)) && ToCents(Canonical(cents)) == cents
  {
    CanonicalCents(cents);
    NonZeroIsPositive(Canonical(cents));
    NormalizedIsCanonical(Text(Canonical(cents)), cap);
  }

  /** Approval's second validation refuses a stored amount exactly when it is zero or above the cap. */
  lemma StoredAmountAccepted(cents: nat, cap: int)
    requires cents <= MAX_CENTS
    ensures NormalizeAmount(Text(Canonical(cents)), cap).Some? <==> AmountOk(cents, cap)
  {
    CanonicalCents(cents);
    NonZeroIsPositive(Canonical(cents));
  }
}

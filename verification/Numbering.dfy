/**
 Journal numbers: JE-<book code>-<MMYYYY>-<NNN>, where NNN is one more than the highest
 trailing number among the live numbers that a LIKE '<prefix>%' scan finds.
 */
module Numbering {
  import opened Results

  const MAX_INT: int := 0x7FFF_FFFF_FFFF_FFFF

  // --- decimal numbers ----------------------------------------------------------------

  predicate IsDigit(c: char) {
    '0' <= c <= '9'
  }

  predicate AllDigits(s: string) {
    forall i :: 0 <= i < |s| ==> IsDigit(s[i])
  }

  function DigitValue(c: char): nat
    requires IsDigit(c)
  {
    c as int - '0' as int
  }

  function Value(s: string): nat
    requires AllDigits(s)
  {
    if s == "" then 0 else 10 * Value(s[..|s| - 1]) + DigitValue(s[|s| - 1])
  }

  function Digits(n: nat): string {
    if n < 10 then [('0' as int + n) as char] else Digits(n / 10) + [('0' as int + n % 10) as char]
  }

  function Zeros(k: nat): string {
    seq(k, _ => '0')
  }

  /** fmt "%03d": zero-padded to width three, the sign included. */
  function Print3(n: int): string {
    if n < 0 then
      var digits := Digits(-n);
      "-" + Zeros(if |digits| < 2 then 2 - |digits| else 0) + digits
    else
      var digits := Digits(n);
      Zeros(if |digits| < 3 then 3 - |digits| else 0) + digits
  }

  /** strconv.Atoi on a 64-bit platform: an optional sign and digits, within range. */
  function Atoi(s: string): Option<int> {
    var signed := s != "" && (s[0] == '+' || s[0] == '-');
    var digits := if signed then s[1..] else s;
    if digits == "" || !AllDigits(digits) then None
    else
      var v: int := Value(digits);
      var n := if signed && s[0] == '-' then -v else v;
      if -MAX_INT - 1 <= n <= MAX_INT then Some(n) else None
  }

  lemma {:induction false} DigitsReadBack(n: nat)
    ensures Digits(n) != "" && AllDigits(Digits(n)) && Value(Digits(n)) == n
  {
    if n >= 10 {
      DigitsReadBack(n / 10);
      var s := Digits(n);
      assert s[..|s| - 1] == Digits(n / 10);
    } else {
      assert Digits(n)[..0] == "";
    }
  }

  lemma {:induction false} ZerosDoNotCount(k: nat, s: string)
    requires AllDigits(s)
    ensures AllDigits(Zeros(k) + s) && Value(Zeros(k) + s) == Value(s)
  {
    var t := Zeros(k) + s;
    if s != "" {
      ZerosDoNotCount(k, s[..|s| - 1]);
      assert t[..|t| - 1] == Zeros(k) + s[..|s| - 1];
    } else if k > 0 {
      ZerosDoNotCount(k - 1, "");
      assert t[..|t| - 1] == Zeros(k - 1) + "";
    }
  }

  /** Zero-padded print and parse undo each other. */
  lemma PrintParses(n: nat)
    requires n <= MAX_INT
    ensures AllDigits(Print3(n)) && Atoi(Print3(n)) == Some(n)
  {
    DigitsReadBack(n);
    ZerosDoNotCount(if |Digits(n)| < 3 then 3 - |Digits(n)| else 0, Digits(n));
  }

  lemma {:induction false} FirstDigit(n: nat)
    ensures |Digits(n)| > 1 ==> Digits(n)[0] != '0'
    ensures n > 0 ==> Digits(n)[0] != '0'
  {
    if n >= 10 {
      FirstDigit(n / 10);
      assert Digits(n)[0] == Digits(n / 10)[0];
    }
  }

  /** At least three characters wide, the sign included, and padded no further. */
  predicate PaddedToThree(s: string, negative: bool) {
    var digits := if negative then s[if s == "" then 0 else 1..] else s;
    && |s| >= 3 && (negative <==> s[0] == '-') && AllDigits(digits)
    && (|s| > 3 ==> digits[0] != '0')
  }

  lemma PaddedDigits(k: nat, n: nat)
    ensures AllDigits(Zeros(k) + Digits(n)) && Value(Zeros(k) + Digits(n)) == n
    ensures k == 0 && n > 0 ==> (Zeros(k) + Digits(n))[0] != '0'
  {
    DigitsReadBack(n);
    ZerosDoNotCount(k, Digits(n));
    FirstDigit(n);
  }

  lemma MinusIsRead(digits: string)
    requires AllDigits(digits) && digits != "" && Value(digits) <= MAX_INT + 1
    ensures var v: int := Value(digits); Atoi("-" + digits) == Some(-v)
  {
    assert ("-" + digits)[1..] == digits;
  }

  lemma MinusIsPadded(digits: string)
    requires AllDigits(digits) && |digits| >= 2 && (|digits| > 2 ==> digits[0] != '0')
    ensures PaddedToThree("-" + digits, true)
  {
    assert ("-" + digits)[1..] == digits;
  }

  /** A negative number is a sign and its digits, padded to two. */
  lemma NegativeReadsBack(n: int)
    requires -MAX_INT - 1 <= n < 0
    ensures PaddedToThree(Print3(n), true) && Atoi(Print3(n)) == Some(n)
  {
    var k := if |Digits(-n)| < 2 then 2 - |Digits(-n)| else 0;
    var digits := Zeros(k) + Digits(-n);
    PaddedDigits(k, -n);
    assert Print3(n) == "-" + digits;
    MinusIsRead(digits);
    MinusIsPadded(digits);
  }

  lemma NaturalReadsBack(n: nat)
    requires n <= MAX_INT
    ensures PaddedToThree(Print3(n), false) && Atoi(Print3(n)) == Some(n)
  {
    PrintParses(n);
    FirstDigit(n);
  }

  /** Every 64-bit integer is printed padded and read back. */
  lemma EveryNumberReadsBack(n: int)
    requires -MAX_INT - 1 <= n <= MAX_INT
    ensures PaddedToThree(Print3(n), n < 0) && Atoi(Print3(n)) == Some(n)
  {
    if n < 0 {
      NegativeReadsBack(n);
    } else {
      NaturalReadsBack(n);
    }
  }

  /** A plus sign is read over; signs alone, and anything else before or between the digits, are not a number. */
  lemma OnlyNumbersAreRead(s: string)
    ensures AllDigits(s) ==> Atoi("+" + s) == Atoi(s)
    ensures Atoi(s).Some? ==> s != "" && IsDigit(s[|s| - 1])
                              && forall i :: 1 <= i < |s| ==> IsDigit(s[i])
  {
    assert ("+" + s)[1..] == s;
    if Atoi(s).Some? {
      var signed := s[0] == '+' || s[0] == '-';
      var digits := if signed then s[1..] else s;
      forall i | 1 <= i < |s|
        ensures IsDigit(s[i])
      {
        assert s[i] == if signed then digits[i - 1] else digits[i];
      }
    }
  }

  // --- the scan ---------------------------------------------------------------------------

  /** SQL LIKE: '%' is any text, '_' any character, and a backslash takes the next character literally. */
  predicate Like(p: string, s: string)
    decreases |p| + |s|
  {
    if p == "" then s == ""
    else if p[0] == '%' then Like(p[1..], s) || (s != "" && Like(p, s[1..]))
    else if p[0] == '\\' then |p| > 1 && s != "" && s[0] == p[1] && Like(p[2..], s[1..])
    else s != "" && (p[0] == '_' || s[0] == p[0]) && Like(p[1..], s[1..])
  }

  /** A pattern of plain characters and underscores, with anything to follow, matches what fits it place by place. */
  lemma {:induction false} PlainPatternMatches(p: string, s: string)
    requires '%' !in p && '\\' !in p
    ensures Like(p + "%", s) <==> |p| <= |s| && forall i :: 0 <= i < |p| ==> p[i] == '_' || p[i] == s[i]
  {
    if p == "" {
      assert p + "%" == "%";
      PercentMatches(s);
    } else {
      assert (p + "%")[1..] == p[1..] + "%";
      if s != "" {
        PlainPatternMatches(p[1..], s[1..]);
        assert forall i :: 1 <= i < |p| && i < |s| ==> p[i] == p[1..][i - 1] && s[i] == s[1..][i - 1];
        assert forall i :: 0 <= i < |p| - 1 && i < |s| - 1 ==> p[1..][i] == p[i + 1] && s[1..][i] == s[i + 1];
      }
    }
  }

  /** A percent sign stands for any text. */
  lemma {:induction false} PercentStandsForAnyText(p: string, s: string)
    ensures Like("%" + p, s) <==> exists k :: 0 <= k <= |s| && Like(p, s[k..])
    decreases |s|
  {
    var q := "%" + p;
    assert q[1..] == p && s[0..] == s;
    if s != "" {
      PercentStandsForAnyText(p, s[1..]);
      assert forall k :: 0 <= k < |s| ==> s[1..][k..] == s[k + 1..];
      if exists k :: 0 <= k <= |s| && Like(p, s[k..]) {
        var k :| 0 <= k <= |s| && Like(p, s[k..]);
        assert k > 0 ==> s[1..][k - 1..] == s[k..];
      }
    }
  }

  /** The text with a backslash before every character. */
  function Escaped(s: string): string {
    if s == "" then "" else "\\" + [s[0]] + Escaped(s[1..])
  }

  /** Escaped like this, every character stands for itself. */
  lemma {:induction false} EscapedMatchesItself(t: string, s: string)
    ensures Like(Escaped(t), s) <==> s == t
  {
    if t != "" {
      assert Escaped(t)[2..] == Escaped(t[1..]);
      if s != "" {
        EscapedMatchesItself(t[1..], s[1..]);
        assert s == [s[0]] + s[1..] && t == [t[0]] + t[1..];
      }
    }
  }

  /** fmt "%02d%d". */
  function Period(month: nat, year: nat): string {
    (if month < 10 then "0" else "") + Digits(month) + Digits(year)
  }

  /** The code is upper case, and "GJ" stands in for a missing book. */
  function BookCode(code: Option<string>): string {
    if code.None? || code.value == "" then "GJ" else code.value
  }

  /** Everything up to the sequence. */
  function Prefix(code: Option<string>, month: nat, year: nat): string {
    "JE-" + BookCode(code) + "-" + Period(month, year) + "-"
  }

  /** The last of the parts between hyphens. */
  function LastPart(ref: string): string {
    if ref == "" || ref[|ref| - 1] == '-' then ""
    else LastPart(ref[..|ref| - 1]) + [ref[|ref| - 1]]
  }

  function TrailingNumber(ref: string): int {
    var n := Atoi(LastPart(ref));
    if n.Some? then n.value else 0
  }

  function MaxTrailing(refs: seq<string>): (m: nat)
    ensures m <= MAX_INT
  {
    if refs == [] then 0
    else
      var m, n := MaxTrailing(refs[..|refs| - 1]), TrailingNumber(refs[|refs| - 1]);
      if n > m then n else m
  }

  /** max + 1 in 64 bits. */
  function Increment(m: nat): int
    requires m <= MAX_INT
  {
    if m == MAX_INT then -MAX_INT - 1 else m + 1
  }

  /** The live numbers a LIKE scan finds, in the order they are stored. */
  function Scan(prefix: string, live: seq<string>): seq<string> {
    if live == [] then []
    else
      Scan(prefix, live[..|live| - 1]) +
      if Like(prefix + "%", live[|live| - 1]) then [live[|live| - 1]] else []
  }

  function Generated(prefix: string, live: seq<string>): string {
    prefix + Print3(Increment(MaxTrailing(Scan(prefix, live))))
  }

  /** nextSequence: the max-scan loop. */
  method NextSequence(refs: seq<string>) returns (n: int)
    ensures n == Increment(MaxTrailing(refs))
    ensures MaxTrailing(refs) < MAX_INT ==> forall ref :: ref in refs ==> TrailingNumber(ref) < n
  {
    var max := 0;
    for i := 0 to |refs|
      invariant max == MaxTrailing(refs[..i])
    {
      assert refs[..i + 1][..i] == refs[..i];
      var seqNo := Atoi(LastPart(refs[i]));
      if seqNo.Some? && seqNo.value > max {
        max := seqNo.value;
      }
    }
    assert refs[..|refs|] == refs;
    MaxIsAnUpperBound(refs);
    n := if max == MAX_INT then -MAX_INT - 1 else max + 1;
  }

  method GenerateNumber(code: Option<string>, month: nat, year: nat, live: seq<string>)
    returns (number: string)
    ensures number == Generated(Prefix(code, month, year), live)
    ensures var prefix := Prefix(code, month, year);
            MaxTrailing(Scan(prefix, live)) < MAX_INT ==> IsNextNumber(number, prefix, live)
  {
    var prefix := Prefix(code, month, year);
    if MaxTrailing(Scan(prefix, live)) < MAX_INT {
      GeneratedIsNext(prefix, live);
    }
    var n := NextSequence(Scan(prefix, live));
    number := prefix + Print3(n);
  }

  lemma {:induction false} MaxIsAnUpperBound(refs: seq<string>)
    ensures forall ref :: ref in refs ==> TrailingNumber(ref) <= MaxTrailing(refs)
  {
    if refs != [] {
      MaxIsAnUpperBound(refs[..|refs| - 1]);
      assert refs == refs[..|refs| - 1] + [refs[|refs| - 1]];
    }
  }

  lemma {:induction false} ScanFinds(prefix: string, live: seq<string>)
    ensures forall ref :: ref in Scan(prefix, live) <==> ref in live && Like(prefix + "%", ref)
  {
    if live != [] {
      ScanFinds(prefix, live[..|live| - 1]);
      assert live == live[..|live| - 1] + [live[|live| - 1]];
    }
  }

  lemma ScanOfOne(prefix: string, ref: string)
    ensures Scan(prefix, [ref]) == if Like(prefix + "%", ref) then [ref] else []
  {
    assert [ref][..0] == [];
  }

  // --- generated numbers are new -----------------------------------------------------------

  lemma {:induction false} LastPartOf(prefix: string, s: string)
    requires forall i :: 0 <= i < |s| ==> s[i] != '-'
    ensures LastPart(prefix + "-" + s) == s
  {
    var ref := prefix + "-" + s;
    if s != "" {
      LastPartOf(prefix, s[..|s| - 1]);
      assert ref[..|ref| - 1] == prefix + "-" + s[..|s| - 1];
    }
  }

  predicate EndsInHyphen(prefix: string) {
    prefix != "" && prefix[|prefix| - 1] == '-'
  }

  lemma OwnSequence(prefix: string, n: nat)
    requires EndsInHyphen(prefix) && n <= MAX_INT
    ensures TrailingNumber(prefix + Print3(n)) == n
  {
    PrintParses(n);
    var stem := prefix[..|prefix| - 1];
    assert prefix + Print3(n) == stem + "-" + Print3(n);
    LastPartOf(stem, Print3(n));
  }

  /** The scan finds numbers that carry its own prefix. */
  predicate SeesItself(prefix: string) {
    Like(prefix + "%", prefix)
  }

  lemma {:induction false} PercentMatches(s: string)
    ensures Like("%", s)
    decreases |s|
  {
    if s != "" {
      PercentMatches(s[1..]);
    } else {
      assert "%"[1..] == "";
    }
  }

  lemma {:induction false} MoreTextStillMatches(p: string, s: string, t: string)
    requires p == "" || EndsInHyphen(p)
    requires Like(p + "%", s)
    ensures Like(p + "%", s + t)
    decreases |p| + |s|
  {
    var q := p + "%";
    if p == "" {
      assert q == "%";
      PercentMatches(s + t);
    } else if p[0] == '%' {
      assert q[1..] == p[1..] + "%";
      if Like(q[1..], s) {
        MoreTextStillMatches(p[1..], s, t);
      } else {
        MoreTextStillMatches(p, s[1..], t);
        assert (s + t)[1..] == s[1..] + t;
      }
    } else {
      var k := if p[0] == '\\' then 2 else 1;
      assert q[k..] == p[k..] + "%" && (s + t)[1..] == s[1..] + t;
      MoreTextStillMatches(p[k..], s[1..], t);
    }
  }

  /** Text without a hyphen cannot help a pattern that still has a hyphen to match. */
  lemma {:induction false} HyphenMatchesBefore(q: string, s: string, x: string)
    requires forall i :: 0 <= i < |x| ==> x[i] != '-'
    requires Like(q + "-%", s + x)
    ensures s != "" && Like(q + "-%", s)
    decreases |q| + |s| + |x|
  {
    var p, t := q + "-%", s + x;
    if q == "" || q == "\\" {
      assert t[0] == '-';
      assert (if q == "" then p[1..] else p[2..]) == "%";
      PercentMatches(s[1..]);
    } else if q[0] == '%' {
      assert p[1..] == q[1..] + "-%";
      if Like(p[1..], t) {
        HyphenMatchesBefore(q[1..], s, x);
      } else if s != "" {
        assert t[1..] == s[1..] + x;
        HyphenMatchesBefore(q, s[1..], x);
      } else {
        assert t[1..] == "" + x[1..];
        HyphenMatchesBefore(q, "", x[1..]);
      }
    } else {
      var k := if q[0] == '\\' then 2 else 1;
      assert p[k..] == q[k..] + "-%";
      if s != "" {
        assert t[1..] == s[1..] + x;
        HyphenMatchesBefore(q[k..], s[1..], x);
      } else {
        assert t[1..] == "" + x[1..];
        HyphenMatchesBefore(q[k..], "", x[1..]);
      }
    }
  }

  lemma ScanSeesOwnNumbers(prefix: string, s: string)
    requires EndsInHyphen(prefix) && AllDigits(s)
    ensures Like(prefix + "%", prefix + s) <==> SeesItself(prefix)
  {
    if SeesItself(prefix) {
      MoreTextStillMatches(prefix, prefix, s);
    }
    if Like(prefix + "%", prefix + s) {
      var stem := prefix[..|prefix| - 1];
      assert prefix + "%" == stem + "-%";
      HyphenMatchesBefore(stem, prefix, s);
    }
  }

  /** Only a backslash in the book code can hide a book's numbers from its own scan. */
  lemma {:induction false} NoBackslashSeesItself(p: string)
    requires '\\' !in p
    ensures SeesItself(p)
    decreases |p|
  {
    if p == "" {
      PercentMatches("");
    } else {
      NoBackslashSeesItself(p[1..]);
      assert (p + "%")[1..] == p[1..] + "%";
    }
  }

  const WRAPPED_SUFFIX: string := Print3(-MAX_INT - 1)

  /**
   A generated number is not in use, unless the scan reached the largest 64-bit integer,
   wrapped around, and the wrapped number is in use already.
   */
  lemma GeneratedIsNewExactlyWhen(prefix: string, live: seq<string>)
    requires EndsInHyphen(prefix) && SeesItself(prefix)
    ensures Generated(prefix, live) !in live
       <==> !(MaxTrailing(Scan(prefix, live)) == MAX_INT && prefix + WRAPPED_SUFFIX in live)
  {
    var max := MaxTrailing(Scan(prefix, live));
    if max < MAX_INT {
      var number := Generated(prefix, live);
      if number in live {
        PrintParses(max + 1);
        ScanSeesOwnNumbers(prefix, Print3(max + 1));
        ScanFinds(prefix, live);
        MaxIsAnUpperBound(Scan(prefix, live));
        OwnSequence(prefix, max + 1);
        assert false;
      }
    }
  }

  /** n is one more than the highest trailing number among the live numbers the scan matches, or one. */
  predicate IsNext(n: int, prefix: string, live: seq<string>) {
    && (forall ref :: ref in live && Like(prefix + "%", ref) ==> TrailingNumber(ref) < n)
    && (n == 1 || (n > 1 && exists ref :: ref in live && Like(prefix + "%", ref) && TrailingNumber(ref) == n - 1))
  }

  lemma {:induction false} MaxIsTaken(refs: seq<string>)
    ensures MaxTrailing(refs) == 0 || exists ref :: ref in refs && TrailingNumber(ref) == MaxTrailing(refs)
  {
    if refs != [] {
      var last := refs[|refs| - 1];
      MaxIsTaken(refs[..|refs| - 1]);
      assert last in refs;
      if TrailingNumber(last) <= MaxTrailing(refs[..|refs| - 1]) != 0 {
        var ref :| ref in refs[..|refs| - 1] && TrailingNumber(ref) == MaxTrailing(refs);
        assert ref in refs;
      }
    }
  }

  lemma NextOfTheScan(prefix: string, live: seq<string>)
    ensures IsNext(MaxTrailing(Scan(prefix, live)) + 1, prefix, live)
  {
    var refs := Scan(prefix, live);
    ScanFinds(prefix, live);
    MaxIsAnUpperBound(refs);
    MaxIsTaken(refs);
    if MaxTrailing(refs) > 0 {
      var ref :| ref in refs && TrailingNumber(ref) == MaxTrailing(refs);
      assert ref in live && Like(prefix + "%", ref);
    }
  }

  /** The prefix and the next sequence, padded to three digits. */
  predicate IsNextNumber(number: string, prefix: string, live: seq<string>) {
    && |prefix| <= |number| && number[..|prefix|] == prefix
    && PaddedToThree(number[|prefix|..], false)
    && Atoi(number[|prefix|..]).Some? && IsNext(Atoi(number[|prefix|..]).value, prefix, live)
  }

  lemma GeneratedIsNext(prefix: string, live: seq<string>)
    requires MaxTrailing(Scan(prefix, live)) < MAX_INT
    ensures IsNextNumber(Generated(prefix, live), prefix, live)
  {
    var n := MaxTrailing(Scan(prefix, live)) + 1;
    EveryNumberReadsBack(n);
    NextOfTheScan(prefix, live);
    assert Generated(prefix, live) == prefix + Print3(n);
    assert (prefix + Print3(n))[|prefix|..] == Print3(n);
  }

  // --- what a number names ------------------------------------------------------------------

  lemma DigitsTellApart(m: nat, n: nat)
    requires Digits(m) == Digits(n)
    ensures m == n
  {
    DigitsReadBack(m);
    DigitsReadBack(n);
  }

  /** Two characters for the month and the rest for the year, digits all. */
  lemma PeriodParts(month: nat, year: nat)
    requires 1 <= month <= 12
    ensures var p := Period(month, year);
            |p| > 2 && AllDigits(p) && Value(p[..2]) == month && p[2..] == Digits(year)
  {
    var p := Period(month, year);
    var first := if month < 10 then "0" + Digits(month) else Digits(month);
    DigitsReadBack(year);
    DigitsReadBack(month);
    if month < 10 {
      assert Zeros(1) == "0";
      ZerosDoNotCount(1, Digits(month));
    } else {
      assert Digits(month) == Digits(month / 10) + [('0' as int + month % 10) as char];
    }
    assert p == first + Digits(year) && |first| == 2;
    assert p[..2] == first;
  }

  lemma PeriodsTellApart(m1: nat, y1: nat, m2: nat, y2: nat)
    requires 1 <= m1 <= 12 && 1 <= m2 <= 12 && Period(m1, y1) == Period(m2, y2)
    ensures m1 == m2 && y1 == y2
  {
    PeriodParts(m1, y1);
    PeriodParts(m2, y2);
    DigitsTellApart(y1, y2);
  }

  predicate NoHyphen(s: string) {
    forall i :: 0 <= i < |s| ==> s[i] != '-'
  }

  lemma SameLastPart(s: string, t: string, x: string, y: string)
    requires NoHyphen(x) && NoHyphen(y)
    requires s + "-" + x == t + "-" + y
    ensures s == t && x == y
  {
    LastPartOf(s, x);
    LastPartOf(t, y);
    assert s == (s + "-" + x)[..|s|] && t == (t + "-" + y)[..|t|];
  }

  lemma SameParts(s: string, p: string, x: string, t: string, q: string, y: string)
    requires NoHyphen(p) && NoHyphen(q) && NoHyphen(x) && NoHyphen(y)
    requires s + "-" + p + "-" + x == t + "-" + q + "-" + y
    ensures s == t && p == q && x == y
  {
    SameLastPart(s + "-" + p, t + "-" + q, x, y);
    SameLastPart(s, t, p, q);
  }

  lemma SameBehind(front: string, s: string, t: string)
    requires front + s == front + t
    ensures s == t
  {
    assert s == (front + s)[|front|..] && t == (front + t)[|front|..];
  }

  lemma PeriodIsDigits(month: nat, year: nat)
    requires 1 <= month <= 12
    ensures NoHyphen(Period(month, year))
  {
    PeriodParts(month, year);
  }

  /** Equal numbers are of the same book, month, year and sequence. */
  lemma NumberNamesItsParts(
    c1: Option<string>, m1: nat, y1: nat, n1: nat, c2: Option<string>, m2: nat, y2: nat, n2: nat)
    requires 1 <= m1 <= 12 && 1 <= m2 <= 12 && n1 <= MAX_INT && n2 <= MAX_INT
    requires Prefix(c1, m1, y1) + Print3(n1) == Prefix(c2, m2, y2) + Print3(n2)
    ensures BookCode(c1) == BookCode(c2) && m1 == m2 && y1 == y2 && n1 == n2
  {
    PrintParses(n1);
    PrintParses(n2);
    PeriodIsDigits(m1, y1);
    PeriodIsDigits(m2, y2);
    SameParts("JE-" + BookCode(c1), Period(m1, y1), Print3(n1), "JE-" + BookCode(c2), Period(m2, y2), Print3(n2));
    SameBehind("JE-", BookCode(c1), BookCode(c2));
    PeriodsTellApart(m1, y1, m2, y2);
  }

  /** The prefixes of August 2026 without a book and of December 2026 in the book SAL. */
  lemma Prefixes()
    ensures Prefix(None, 8, 2026) == "JE-GJ-082026-" && Prefix(Some("SAL"), 12, 2026) == "JE-SAL-122026-"
  {
    assert Digits(2026) == Digits(202) + "6" && Digits(202) == Digits(20) + "2" && Digits(20) == Digits(2) + "0";
    assert Digits(12) == Digits(1) + "2";
  }

  /** Below the wrap-around, a book's numbers are always new exactly when its scan sees its own prefix. */
  lemma AlwaysNewExactlyWhen(prefix: string)
    requires EndsInHyphen(prefix)
    ensures (forall live: seq<string> :: MaxTrailing(Scan(prefix, live)) < MAX_INT ==> Generated(prefix, live) !in live)
       <==> SeesItself(prefix)
  {
    if SeesItself(prefix) {
      forall live: seq<string> | MaxTrailing(Scan(prefix, live)) < MAX_INT
        ensures Generated(prefix, live) !in live
      {
        GeneratedIsNewExactlyWhen(prefix, live);
      }
    } else {
      var first := prefix + Print3(1);
      var live := [first];
      PrintParses(1);
      ScanSeesOwnNumbers(prefix, Print3(1));
      ScanOfOne(prefix, first);
      assert Generated(prefix, live) == first;
    }
  }

  /** While a generated number stays in use, every later one for the same book and month is higher. */
  lemma LaterNumbersAreHigher(prefix: string, earlier: seq<string>, later: seq<string>)
    requires EndsInHyphen(prefix) && SeesItself(prefix)
    requires MaxTrailing(Scan(prefix, earlier)) < MAX_INT
    requires Generated(prefix, earlier) in later
    ensures MaxTrailing(Scan(prefix, earlier)) < MaxTrailing(Scan(prefix, later))
  {
    var n := MaxTrailing(Scan(prefix, earlier)) + 1;
    PrintParses(n);
    ScanSeesOwnNumbers(prefix, Print3(n));
    ScanFinds(prefix, later);
    MaxIsAnUpperBound(Scan(prefix, later));
    OwnSequence(prefix, n);
  }

  // --- the numbers of a run -----------------------------------------------------------------

  /** A generated number, a number typed in, or an entry that goes away with its number. */
  datatype Numbering = Generate(prefix: string) | Write(number: string) | Discard(number: string)

  function Without(refs: seq<string>, number: string): seq<string> {
    if refs == [] then []
    else Without(refs[..|refs| - 1], number) + if refs[|refs| - 1] == number then [] else [refs[|refs| - 1]]
  }

  /** The numbers in use after the steps, by any book and month. */
  function InUse(steps: seq<Numbering>): seq<string> {
    if steps == [] then []
    else
      var before := InUse(steps[..|steps| - 1]);
      match steps[|steps| - 1]
      case Generate(prefix) => before + [Generated(prefix, before)]
      case Write(number) => before + [number]
      case Discard(number) => Without(before, number)
  }

  /** The number that step k generates. */
  function NumberAt(steps: seq<Numbering>, k: nat): string
    requires k < |steps| && steps[k].Generate?
  {
    Generated(steps[k].prefix, InUse(steps[..k]))
  }

  predicate BelowTheWrap(steps: seq<Numbering>, k: nat)
    requires k < |steps| && steps[k].Generate?
  {
    MaxTrailing(Scan(steps[k].prefix, InUse(steps[..k]))) < MAX_INT
  }

  lemma {:induction false} OthersStay(refs: seq<string>, number: string, kept: string)
    requires kept in refs && kept != number
    ensures kept in Without(refs, number)
  {
    var n := |refs| - 1;
    if refs[n] != kept {
      assert refs == refs[..n] + [refs[n]];
      OthersStay(refs[..n], number, kept);
    }
  }

  lemma {:induction false} StaysInUse(steps: seq<Numbering>, j: nat, k: nat)
    requires j < k <= |steps| && steps[j].Generate?
    requires forall m :: j < m < k ==> steps[m] != Discard(NumberAt(steps, j))
    ensures NumberAt(steps, j) in InUse(steps[..k])
    decreases k
  {
    assert steps[..k][..k - 1] == steps[..k - 1];
    if j < k - 1 {
      StaysInUse(steps, j, k - 1);
      if steps[k - 1].Discard? {
        OthersStay(InUse(steps[..k - 1]), steps[k - 1].number, NumberAt(steps, j));
      }
    }
  }

  lemma GeneratedSequence(prefix: string, live: seq<string>)
    requires EndsInHyphen(prefix) && MaxTrailing(Scan(prefix, live)) < MAX_INT
    ensures TrailingNumber(Generated(prefix, live)) == MaxTrailing(Scan(prefix, live)) + 1
  {
    OwnSequence(prefix, MaxTrailing(Scan(prefix, live)) + 1);
  }

  /**
   Along any run, the numbers generated for one book and month go up: an earlier one that
   has not been discarded is lower than a later one, whatever was typed in between.
   */
  lemma NumbersOfARunIncrease(steps: seq<Numbering>, j: nat, k: nat)
    requires j < k < |steps| && steps[j].Generate? && steps[k] == steps[j]
    requires EndsInHyphen(steps[j].prefix) && SeesItself(steps[j].prefix)
    requires BelowTheWrap(steps, j) && BelowTheWrap(steps, k)
    requires forall m :: j < m < k ==> steps[m] != Discard(NumberAt(steps, j))
    ensures TrailingNumber(NumberAt(steps, j)) < TrailingNumber(NumberAt(steps, k))
    ensures NumberAt(steps, j) != NumberAt(steps, k)
  {
    var prefix := steps[j].prefix;
    StaysInUse(steps, j, k);
    LaterNumbersAreHigher(prefix, InUse(steps[..j]), InUse(steps[..k]));
    GeneratedSequence(prefix, InUse(steps[..j]));
    GeneratedSequence(prefix, InUse(steps[..k]));
  }

  // --- where it fails -----------------------------------------------------------------------

  /** The book code A\B: LIKE reads \B as B, so the book's first number is generated twice. */
  lemma BackslashRepeatsANumber() returns (prefix: string, first: string)
    ensures prefix == Prefix(Some("A\\B"), 1, 2024)
    ensures first == Generated(prefix, []) == Generated(prefix, [first])
  {
    prefix := "JE-A\\B-012024-";
    assert Prefix(Some("A\\B"), 1, 2024) == prefix;
    first := Generated(prefix, []);
    assert Scan(prefix, []) == [];
    BackslashHides();
    PrintParses(1);
    ScanSeesOwnNumbers(prefix, Print3(1));
    ScanOfOne(prefix, first);
  }

  lemma BackslashHides()
    ensures !SeesItself("JE-A\\B-012024-")
  {
    var s := "JE-A\\B-012024-";
    var p := s + "%";
    SameFirst(p, s);
    SameFirst(p[1..], s[1..]);
    SameFirst(p[2..], s[2..]);
    SameFirst(p[3..], s[3..]);
    assert p[4] == '\\' && p[5] == 'B' && s[4] == '\\';
  }

  lemma SameFirst(p: string, s: string)
    requires p != "" && s != "" && p[0] == s[0] && p[0] !in {'%', '\\'}
    ensures Like(p, s) == Like(p[1..], s[1..])
  {
  }

  /** A hand-written number ending in the largest integer makes the next two generated numbers equal. */
  lemma WrapRepeatsANumber(prefix: string) returns (top: string, first: string)
    requires EndsInHyphen(prefix) && SeesItself(prefix)
    ensures top == prefix + Print3(MAX_INT)
    ensures first == Generated(prefix, [top]) == Generated(prefix, [top, first])
  {
    top := prefix + Print3(MAX_INT);
    PrintParses(MAX_INT);
    ScanSeesOwnNumbers(prefix, Print3(MAX_INT));
    OwnSequence(prefix, MAX_INT);
    first := Generated(prefix, [top]);
    MaxIsAnUpperBound(Scan(prefix, [top]));
    ScanFinds(prefix, [top]);
    MaxIsAnUpperBound(Scan(prefix, [top, first]));
    ScanFinds(prefix, [top, first]);
    assert top in [top] && top in [top, first];
  }
}

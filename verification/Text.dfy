/** The string operations the parsers rely on, over ASCII text. */
module Text {
  import opened Types

  predicate IsSpace(c: char) {
    c == ' ' || '\t' <= c <= '\r'
  }

  predicate Blank(s: string) {
    forall i | 0 <= i < |s| :: IsSpace(s[i])
  }

  /** Non-empty and free of white space. */
  predicate Word(s: string) {
    s != "" && forall i | 0 <= i < |s| :: !IsSpace(s[i])
  }

  function TrimLeft(s: string): string {
    if s != "" && IsSpace(s[0]) then TrimLeft(s[1..]) else s
  }

  function TrimRight(s: string): string {
    if s != "" && IsSpace(s[|s| - 1]) then TrimRight(s[..|s| - 1]) else s
  }

  function TrimSpace(s: string): string {
    TrimRight(TrimLeft(s))
  }

  /** Drops trailing carriage returns. */
  function StripCR(s: string): string {
    if s != "" && s[|s| - 1] == '\r' then StripCR(s[..|s| - 1]) else s
  }

  function WordLength(s: string): (n: nat)
    ensures n <= |s|
    ensures forall i | 0 <= i < n :: !IsSpace(s[i])
    ensures n < |s| ==> IsSpace(s[n])
  {
    if s == "" || IsSpace(s[0]) then 0 else 1 + WordLength(s[1..])
  }

  /** The white-space separated words of s. */
  function Fields(s: string): seq<string>
    decreases |s|
  {
    if s == "" then []
    else if IsSpace(s[0]) then Fields(s[1..])
    else
      var n := WordLength(s);
      [s[..n]] + Fields(s[n..])
  }

  predicate OccursAt(s: string, i: nat, sub: string) {
    i + |sub| <= |s| && s[i..i + |sub|] == sub
  }

  predicate Contains(s: string, sub: string) {
    exists i | 0 <= i <= |s| :: OccursAt(s, i, sub)
  }

  function LowerChar(c: char): char {
    if 'A' <= c <= 'Z' then c - 'A' + 'a' else c
  }

  function ToLower(s: string): string {
    seq(|s|, i requires 0 <= i < |s| => LowerChar(s[i]))
  }

  // ----- Letters -----

  /** One letter in either case, or one and the same character. */
  predicate SameLetter(a: char, b: char) {
    || a == b
    || ('a' <= a <= 'z' && 'A' <= b <= 'Z' && a - 'a' == b - 'A')
    || ('A' <= a <= 'Z' && 'a' <= b <= 'z' && a - 'A' == b - 'a')
  }

  /** Equal character by character but for the case of ASCII letters. */
  predicate SameText(a: string, b: string) {
    |a| == |b| && forall i | 0 <= i < |a| :: SameLetter(a[i], b[i])
  }

  lemma LowerIsSameLetter(c: char, lower: char)
    requires !('A' <= lower <= 'Z')
    ensures LowerChar(c) == lower <==> SameLetter(c, lower)
  {
  }

  /** White space is the blank and the five control characters from tab to carriage return; digits
      are the ten decimal ones. */
  lemma Characters(c: char)
    ensures IsSpace(c) <==> c == ' ' || c == '\t' || c == '\n' || c == 11 as char || c == 12 as char || c == '\r'
    ensures Digit(c) <==> c in {'0', '1', '2', '3', '4', '5', '6', '7', '8', '9'}
  {
  }

  // ----- Decimal numbers -----

  const UINT64_LIMIT: nat := 0x1_0000_0000_0000_0000

  predicate Digit(c: char) {
    '0' <= c <= '9'
  }

  predicate Digits(s: string) {
    s != "" && forall i | 0 <= i < |s| :: Digit(s[i])
  }

  function DigitsValue(s: string): nat
    requires forall i | 0 <= i < |s| :: Digit(s[i])
  {
    if s == "" then 0
    else
      assert Digit(s[|s| - 1]);
      DigitsValue(s[..|s| - 1]) * 10 + (s[|s| - 1] - '0') as nat
  }

  /** Base ten, no sign, and an error from 2^64 on. */
  function ParseUint(s: string): Option<nat> {
    if Digits(s) && DigitsValue(s) < UINT64_LIMIT then Some(DigitsValue(s)) else None
  }

  function Decimal(n: nat): string {
    if n < 10 then ['0' + n as char] else Decimal(n / 10) + ['0' + (n % 10) as char]
  }

  lemma {:induction false} DecimalRoundTrip(n: nat)
    ensures Digits(Decimal(n)) && DigitsValue(Decimal(n)) == n && Word(Decimal(n))
  {
    if n >= 10 {
      DecimalRoundTrip(n / 10);
      assert Decimal(n)[..|Decimal(n)| - 1] == Decimal(n / 10);
    } else {
      assert Decimal(n)[..|Decimal(n)| - 1] == "";
    }
  }

  /** A counter is a non-empty run of digits of a value below 2^64, whatever zeros it starts with. */
  lemma ParseUintIs(s: string, n: nat)
    ensures ParseUint(s) == Some(n) <==>
            && s != "" && (forall i | 0 <= i < |s| :: '0' <= s[i] <= '9')
            && DigitsValue(s) == n && n < 18446744073709551616
    ensures ParseUint(s).Some? ==> ParseUint("0" + s) == ParseUint(s)
  {
    if Digits(s) {
      assert forall i | 0 <= i < |s| :: Digit(s[i]);
      assert forall i | 0 < i < |"0" + s| :: ("0" + s)[i] == s[i - 1];
      LeadingZero(s);
    }
  }

  lemma {:induction false} LeadingZero(s: string)
    requires forall i | 0 <= i < |s| :: Digit(s[i])
    ensures forall i | 0 <= i < |"0" + s| :: Digit(("0" + s)[i])
    ensures DigitsValue("0" + s) == DigitsValue(s)
    decreases |s|
  {
    assert forall i | 0 < i < |"0" + s| :: ("0" + s)[i] == s[i - 1];
    if s == "" {
      assert ("0" + s)[..0] == "";
    } else {
      assert ("0" + s)[..|s|] == "0" + s[..|s| - 1];
      LeadingZero(s[..|s| - 1]);
    }
  }

  // ----- Words and blanks -----

  lemma FieldsEmpty()
    ensures Fields("") == []
  {
  }

  lemma {:induction false} FieldsSkipBlank(b: string, s: string)
    requires Blank(b)
    ensures Fields(b + s) == Fields(s)
  {
    if b == "" {
      assert b + s == s;
    } else {
      assert (b + s)[1..] == b[1..] + s;
      FieldsSkipBlank(b[1..], s);
    }
  }

  lemma {:induction false} WordLengthOf(w: string, s: string)
    requires Blank(s[..if s == "" then 0 else 1]) && forall i | 0 <= i < |w| :: !IsSpace(w[i])
    ensures WordLength(w + s) == |w|
  {
    if w == "" {
      assert w + s == s;
      if s != "" { assert s[..1][0] == s[0]; }
    } else {
      assert (w + s)[1..] == w[1..] + s;
      WordLengthOf(w[1..], s);
    }
  }

  lemma FieldsTakeWord(w: string, s: string)
    requires Word(w) && (s == "" || IsSpace(s[0]))
    ensures Fields(w + s) == [w] + Fields(s)
  {
    WordLengthOf(w, s);
    assert (w + s)[..|w|] == w && (w + s)[|w|..] == s;
  }

  lemma {:induction false} TrimLeftBlank(b: string, s: string)
    requires Blank(b) && (s == "" || !IsSpace(s[0]))
    ensures TrimLeft(b + s) == s
  {
    if b == "" {
      assert b + s == s;
    } else {
      assert (b + s)[1..] == b[1..] + s;
      TrimLeftBlank(b[1..], s);
    }
  }

  /** Trimming removes leading blanks from text that ends in a non-blank. */
  lemma TrimBlank(b: string, s: string)
    requires Blank(b) && s != "" && !IsSpace(s[0]) && !IsSpace(s[|s| - 1])
    ensures TrimSpace(b + s) == s
  {
    TrimLeftBlank(b, s);
  }

  lemma {:induction false} TrimLeftPart(s: string) returns (p: string)
    ensures s == p + TrimLeft(s) && Blank(p)
  {
    p := "";
    if s != "" && IsSpace(s[0]) {
      p := TrimLeftPart(s[1..]);
      p := [s[0]] + p;
    }
  }

  lemma {:induction false} TrimRightPart(s: string) returns (q: string)
    ensures s == TrimRight(s) + q && Blank(q)
  {
    q := "";
    if s != "" && IsSpace(s[|s| - 1]) {
      q := TrimRightPart(s[..|s| - 1]);
      q := q + [s[|s| - 1]];
    }
  }

  lemma {:induction false} TrimRightEnds(s: string)
    ensures TrimRight(s) <= s
    ensures TrimRight(s) != "" ==> !IsSpace(TrimRight(s)[|TrimRight(s)| - 1])
  {
    if s != "" && IsSpace(s[|s| - 1]) { TrimRightEnds(s[..|s| - 1]); }
  }

  /** Trimming takes nothing but white space off the ends, and all of it. */
  lemma TrimSpaceParts(s: string) returns (p: string, q: string)
    ensures s == p + TrimSpace(s) + q && Blank(p) && Blank(q)
    ensures var t := TrimSpace(s); t != "" ==> !IsSpace(t[0]) && !IsSpace(t[|t| - 1])
  {
    p := TrimLeftPart(s);
    q := TrimRightPart(TrimLeft(s));
    TrimLeftOfBlank(s);
    TrimRightEnds(TrimLeft(s));
    assert p + (TrimSpace(s) + q) == p + TrimSpace(s) + q;
  }

  lemma {:induction false} TrimLeftOfBlank(s: string)
    ensures Blank(s) ==> TrimLeft(s) == ""
    ensures TrimLeft(s) == "" ==> Blank(s)
    ensures TrimLeft(s) != "" ==> !IsSpace(TrimLeft(s)[0])
  {
    if s != "" && IsSpace(s[0]) {
      TrimLeftOfBlank(s[1..]);
      assert s == [s[0]] + s[1..];
    }
  }

  lemma {:induction false} TrimRightKeeps(s: string)
    requires s != "" && !IsSpace(s[0])
    ensures TrimRight(s) != ""
  {
    if |s| > 1 && IsSpace(s[|s| - 1]) { TrimRightKeeps(s[..|s| - 1]); }
  }

  /** Trimming leaves nothing exactly of blank text. */
  lemma TrimSpaceEmpty(s: string)
    ensures TrimSpace(s) == "" <==> Blank(s)
  {
    TrimLeftOfBlank(s);
    if TrimLeft(s) != "" { TrimRightKeeps(TrimLeft(s)); }
  }

  /** Only carriage returns are dropped, and all that end the line are. */
  lemma {:induction false} StripCRParts(s: string) returns (q: string)
    ensures s == StripCR(s) + q && forall i | 0 <= i < |q| :: q[i] == '\r'
    ensures StripCR(s) != "" ==> StripCR(s)[|StripCR(s)| - 1] != '\r'
  {
    q := "";
    if s != "" && s[|s| - 1] == '\r' {
      q := StripCRParts(s[..|s| - 1]);
      q := q + ['\r'];
    }
  }

  lemma {:induction false} StripCRIsPrefix(s: string)
    ensures StripCR(s) <= s
  {
    if s != "" && s[|s| - 1] == '\r' { StripCRIsPrefix(s[..|s| - 1]); }
  }

  lemma ContainsPrefixed(a: string, b: string, sub: string)
    requires Contains(b, sub)
    ensures Contains(a + b, sub)
  {
    var i :| 0 <= i <= |b| && OccursAt(b, i, sub);
    assert (a + b)[|a| + i..|a| + i + |sub|] == sub;
    assert OccursAt(a + b, |a| + i, sub);
  }

  lemma ToLowerConcat(a: string, b: string)
    ensures ToLower(a + b) == ToLower(a) + ToLower(b)
  {
  }

  // ----- Lines -----

  function LineLength(t: string): (n: nat)
    ensures n <= |t|
    ensures forall i | 0 <= i < n :: t[i] != '\n'
    ensures n < |t| ==> t[n] == '\n'
  {
    if t == "" || t[0] == '\n' then 0 else 1 + LineLength(t[1..])
  }

  /** The lines of t without their terminators; a final line need not be terminated. */
  function Lines(t: string): seq<string>
    decreases |t|
  {
    if t == "" then []
    else
      var n := LineLength(t);
      if n == |t| then [t] else [t[..n]] + Lines(t[n + 1..])
  }

  function Unlines(lines: seq<string>): string {
    if lines == [] then "" else lines[0] + "\n" + Unlines(lines[1..])
  }

  predicate OneLine(s: string) {
    forall i | 0 <= i < |s| :: s[i] != '\n'
  }

  lemma {:induction false} LineLengthOf(s: string, t: string)
    requires OneLine(s) && t != "" && t[0] == '\n'
    ensures LineLength(s + t) == |s|
  {
    if s == "" {
      assert s + t == t;
    } else {
      assert (s + t)[1..] == s[1..] + t;
      LineLengthOf(s[1..], t);
    }
  }

  lemma LinesCons(s: string, t: string)
    requires OneLine(s)
    ensures Lines(s + "\n" + t) == [s] + Lines(t)
  {
    var whole := s + "\n" + t;
    assert whole == s + ("\n" + t);
    LineLengthOf(s, "\n" + t);
    assert whole[..|s|] == s && whole[|s| + 1..] == t;
  }

  lemma {:induction false} LinesUnlines(lines: seq<string>)
    requires forall i | 0 <= i < |lines| :: OneLine(lines[i])
    ensures Lines(Unlines(lines)) == lines
  {
    if lines != [] {
      LinesUnlines(lines[1..]);
      LinesCons(lines[0], Unlines(lines[1..]));
    }
  }

  predicate EndsLine(t: string) {
    t == "" || t[|t| - 1] == '\n'
  }

  lemma {:induction false} LineLengthPrefix(a: string, b: string)
    requires LineLength(a) < |a|
    ensures LineLength(a + b) == LineLength(a)
  {
    if a[0] != '\n' {
      assert (a + b)[1..] == a[1..] + b;
      LineLengthPrefix(a[1..], b);
    }
  }

  lemma LastLineEnds(a: string)
    requires EndsLine(a) && a != ""
    ensures LineLength(a) < |a| && EndsLine(a[LineLength(a) + 1..])
  {
  }

  lemma LinesUnfold(a: string, b: string)
    requires LineLength(a) < |a| && LineLength(a + b) == LineLength(a)
    ensures Lines(a + b) == [a[..LineLength(a)]] + Lines(a[LineLength(a) + 1..] + b)
  {
    var n := LineLength(a);
    assert (a + b)[..n] == a[..n];
    assert (a + b)[n + 1..] == a[n + 1..] + b;
  }

  lemma LinesOfTerminated(a: string)
    requires LineLength(a) < |a|
    ensures Lines(a) == [a[..LineLength(a)]] + Lines(a[LineLength(a) + 1..])
  {
    hide LineLength;
  }

  lemma {:induction false} LinesConcat(a: string, b: string)
    requires EndsLine(a)
    ensures Lines(a + b) == Lines(a) + Lines(b)
    decreases |a|
  {
    hide Lines, LineLength, EndsLine;
    if a == "" {
      assert a + b == b;
      NoLines();
      assert [] + Lines(b) == Lines(b);
    } else {
      LastLineEnds(a);
      LineLengthPrefix(a, b);
      LinesUnfold(a, b);
      LinesOfTerminated(a);
      var first, rest := a[..LineLength(a)], a[LineLength(a) + 1..];
      LinesConcat(rest, b);
      assert [first] + (Lines(rest) + Lines(b)) == [first] + Lines(rest) + Lines(b);
    }
  }

  /** Text without a line end is one line. */
  lemma LinesOfOne(s: string)
    requires s != "" && OneLine(s)
    ensures Lines(s) == [s]
  {
  }

  lemma NoLines()
    ensures Lines("") == []
  {
  }

  // ----- Separators -----

  predicate Free(s: string, c: char) {
    forall i | 0 <= i < |s| :: s[i] != c
  }

  function Count(s: string, c: char): nat {
    if s == "" then 0 else (if s[0] == c then 1 else 0) + Count(s[1..], c)
  }

  lemma {:induction false} CountConcat(a: string, b: string, c: char)
    ensures Count(a + b, c) == Count(a, c) + Count(b, c)
  {
    if a == "" {
      assert a + b == b;
    } else {
      assert (a + b)[1..] == a[1..] + b;
      CountConcat(a[1..], b, c);
    }
  }

  lemma {:induction false} CountZero(s: string, c: char)
    ensures Count(s, c) == 0 <==> Free(s, c)
  {
    if s != "" {
      CountZero(s[1..], c);
      assert s == [s[0]] + s[1..];
    }
  }

  /** A separator that does not occur in the first part splits a text in one way only. */
  lemma SplitOnce(x: string, y: string, x': string, y': string, c: char)
    requires Free(x, c) && Free(x', c) && x + ([c] + y) == x' + ([c] + y')
    ensures x == x' && y == y'
  {
    var t := x + ([c] + y);
    assert t[|x|] == c && t[|x'|] == c;
    assert forall k | 0 <= k < |x| :: t[k] == x[k];
    assert forall k | 0 <= k < |x'| :: t[k] == x'[k];
    assert |x| == |x'|;
    assert t[..|x|] == x && t[|x| + 1..] == y;
    assert t[..|x'|] == x' && t[|x'| + 1..] == y';
  }

  /** One that does not occur in the last part does so, too. */
  lemma SplitLast(x: string, y: string, x': string, y': string, c: char)
    requires Free(y, c) && Free(y', c) && x + ([c] + y) == x' + ([c] + y')
    ensures x == x' && y == y'
  {
    var t := x + ([c] + y);
    assert t[|x|] == c && t[|x'|] == c;
    assert forall k | |x| < k < |t| :: t[k] == y[k - |x| - 1];
    assert forall k | |x'| < k < |t| :: t[k] == y'[k - |x'| - 1];
    assert |x| == |x'|;
    assert t[..|x|] == x && t[|x| + 1..] == y;
    assert t[..|x'|] == x' && t[|x'| + 1..] == y';
  }
}

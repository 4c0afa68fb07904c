/**
 * String helpers with the semantics of the Python and JavaScript built-ins the
 * pipeline uses: `str.strip()`, `str.split()`, `str.split(sep)`, `sep.join(...)`,
 * `in` on strings, `str.endswith`, and ASCII lower-casing.
 * Whitespace is the ASCII whitespace set and digits are the ASCII digits.
 */
module Text {

  predicate IsSpace(c: char) {
    c == ' ' || c == '\t' || c == '\n' || c == '\r' || c == '\U{B}' || c == '\U{C}'
  }

  predicate IsDigit(c: char) {
    '0' <= c <= '9'
  }

  predicate IsSign(c: char) {
    c == '+' || c == '-'
  }

  predicate AllSpace(s: string) {
    forall i :: 0 <= i < |s| ==> IsSpace(s[i])
  }

  predicate NoSpace(s: string) {
    forall i :: 0 <= i < |s| ==> !IsSpace(s[i])
  }

  predicate AllDigits(s: string) {
    forall i :: 0 <= i < |s| ==> IsDigit(s[i])
  }

  /** `sub in s`: `sub` occurs as a contiguous substring of `s`. */
  predicate Contains(s: string, sub: string) {
    exists i :: 0 <= i <= |s| - |sub| && OccursAt(s, sub, i)
  }

  /** `sub` occurs in `s` starting at index `i`. */
  predicate OccursAt(s: string, sub: string, i: int) {
    0 <= i <= |s| - |sub| && s[i..i + |sub|] == sub
  }

  predicate StartsWith(s: string, prefix: string) {
    |prefix| <= |s| && s[..|prefix|] == prefix
  }

  predicate EndsWith(s: string, suffix: string) {
    |suffix| <= |s| && s[|s| - |suffix|..] == suffix
  }

  /** Number of leading whitespace characters of `s`. */
  function LeadingSpace(s: string): (n: nat)
    ensures n <= |s| && AllSpace(s[..n])
    ensures n < |s| ==> !IsSpace(s[n])
  {
    if s == [] || !IsSpace(s[0]) then 0
    else
      var n := 1 + LeadingSpace(s[1..]);
      assert s[..n] == [s[0]] + s[1..][..n - 1];
      n
  }

  /** Number of trailing whitespace characters of `s`. */
  function TrailingSpace(s: string): (n: nat)
    ensures n <= |s| && AllSpace(s[|s| - n..])
    ensures n < |s| ==> !IsSpace(s[|s| - n - 1])
  {
    if s == [] || !IsSpace(s[|s| - 1]) then 0
    else
      var init := s[..|s| - 1];
      var m := TrailingSpace(init);
      SpaceRunGrows(s, m);
      m + 1
  }

  /** A whitespace run that ends just before a last whitespace character extends to the end. */
  lemma SpaceRunGrows(s: string, m: nat)
    requires s != [] && IsSpace(s[|s| - 1]) && m < |s|
    requires AllSpace(s[..|s| - 1][|s| - 1 - m..])
    requires m < |s| - 1 ==> !IsSpace(s[..|s| - 1][|s| - 1 - m - 1])
    ensures AllSpace(s[|s| - (m + 1)..])
    ensures m + 1 < |s| ==> !IsSpace(s[|s| - (m + 1) - 1])
  {
    var run, prev := s[|s| - (m + 1)..], s[..|s| - 1][|s| - 1 - m..];
    forall i | 0 <= i < |run| ensures IsSpace(run[i]) {
      if i < m {
        assert run[i] == prev[i];
      }
    }
    if m + 1 < |s| {
      assert s[|s| - (m + 1) - 1] == s[..|s| - 1][|s| - 1 - m - 1];
    }
  }

  /** The leading whitespace is exactly the whitespace run that a non-space ends. */
  lemma {:induction false} LeadingSpaceIs(s: string, n: nat)
    requires n <= |s| && AllSpace(s[..n]) && (n < |s| ==> !IsSpace(s[n]))
    ensures LeadingSpace(s) == n
  {
    if LeadingSpace(s) != n {
      assert false;
    }
  }

  /** The trailing whitespace is exactly the whitespace run that a non-space precedes. */
  lemma {:induction false} TrailingSpaceIs(s: string, n: nat)
    requires n <= |s| && AllSpace(s[|s| - n..]) && (n < |s| ==> !IsSpace(s[|s| - n - 1]))
    ensures TrailingSpace(s) == n
  {
  }

  /** Python's `s.strip()` (whitespace argument omitted); StripSpec states what it removes. */
  function Strip(s: string): (r: string)
    ensures |r| <= |s|
  {
    var a := LeadingSpace(s);
    var t := s[a..];
    t[..|t| - TrailingSpace(t)]
  }

  /**
   * `s.strip()` is the part of `s` left after removing the whitespace at both
   * ends: it neither starts nor ends with whitespace, and it is empty exactly
   * when `s` is all whitespace.
   */
  lemma StripSpec(s: string)
    ensures exists i :: 0 <= i <= |s| - |Strip(s)| && Strip(s) == s[i..i + |Strip(s)|]
                        && AllSpace(s[..i]) && AllSpace(s[i + |Strip(s)|..])
    ensures Strip(s) != [] ==> !IsSpace(Strip(s)[0]) && !IsSpace(Strip(s)[|Strip(s)| - 1])
    ensures AllSpace(s) <==> Strip(s) == []
  {
    var a, r := LeadingSpace(s), Strip(s);
    StripCore(s);
    if r != [] {
      assert s[a] == r[0];
      assert !AllSpace(s);
    } else {
      assert s == s[..a] + s[a + |r|..];
      AllSpaceAppend(s[..a], s[a + |r|..]);
    }
  }

  lemma AllSpaceAppend(x: string, y: string)
    requires AllSpace(x) && AllSpace(y)
    ensures AllSpace(x + y)
  {
    forall i | 0 <= i < |x + y| ensures IsSpace((x + y)[i]) {
      if i >= |x| {
        assert (x + y)[i] == y[i - |x|];
      }
    }
  }

  /** Strip(s) starts where the leading whitespace ends and is followed only by whitespace. */
  lemma StripCore(s: string)
    ensures var a, r := LeadingSpace(s), Strip(s);
      && a + |r| <= |s| && r == s[a..a + |r|] && AllSpace(s[a + |r|..])
      && (r != [] ==> !IsSpace(r[0]) && !IsSpace(r[|r| - 1]))
  {
    var a := LeadingSpace(s);
    var t := s[a..];
    var n := |t| - TrailingSpace(t);
    assert Strip(s) == t[..n];
    CoreOf(s, a, n);
  }

  /** The middle n characters of s after a, in terms of s itself. */
  lemma CoreOf(s: string, a: nat, n: nat)
    requires a + n <= |s| && AllSpace(s[a..][n..])
    requires n > 0 ==> !IsSpace(s[a]) && !IsSpace(s[a..][n - 1])
    ensures var r := s[a..][..n];
      && |r| == n && r == s[a..a + n] && AllSpace(s[a + n..])
      && (n > 0 ==> !IsSpace(r[0]) && !IsSpace(r[n - 1]))
  {
    assert s[a..][..n] == s[a..a + n] && s[a..][n..] == s[a + n..];
  }

  /** Stripping a core that neither starts nor ends with whitespace, padded by whitespace, gives the core. */
  lemma StripPadded(s: string, i: nat, k: nat)
    requires i < k <= |s| && AllSpace(s[..i]) && AllSpace(s[k..])
    requires !IsSpace(s[i]) && !IsSpace(s[k - 1])
    ensures Strip(s) == s[i..k]
  {
    LeadingSpaceIs(s, i);
    var t := s[i..];
    assert t[k - i..] == s[k..];
    assert t[k - i - 1] == s[k - 1];
    TrailingSpaceIs(t, |s| - k);
    assert t[..k - i] == s[i..k];
  }

  /** A string that neither starts nor ends with whitespace is its own strip. */
  lemma StripUnpadded(s: string)
    requires s != [] && !IsSpace(s[0]) && !IsSpace(s[|s| - 1])
    ensures Strip(s) == s
  {
    assert LeadingSpace(s) == 0;
    assert s[0..] == s;
    assert TrailingSpace(s) == 0;
    assert s[..|s|] == s;
  }

  /** Length of the run of non-whitespace characters at the head of `s`. */
  function WordLength(s: string): (n: nat)
    requires s != [] && !IsSpace(s[0])
    ensures 1 <= n <= |s| && NoSpace(s[..n])
    ensures n < |s| ==> IsSpace(s[n])
  {
    if |s| == 1 || IsSpace(s[1]) then 1
    else
      var n := 1 + WordLength(s[1..]);
      assert s[..n] == [s[0]] + s[1..][..n - 1];
      n
  }

  /** Python's `s.split()`: the maximal whitespace-free runs of `s`, in order. */
  function Words(s: string): (ws: seq<string>)
    ensures forall k :: 0 <= k < |ws| ==> ws[k] != [] && NoSpace(ws[k])
    decreases |s|
  {
    if s == [] then []
    else if IsSpace(s[0]) then Words(s[1..])
    else
      var n := WordLength(s);
      [s[..n]] + Words(s[n..])
  }

  /** A non-empty string without whitespace is a single word. */
  lemma SingleWord(s: string)
    requires s != [] && NoSpace(s)
    ensures Words(s) == [s]
  {
    var n := WordLength(s);
    assert n == |s|;
    assert s[..n] == s && s[n..] == [];
  }

  /** `sep.join(parts)`. */
  function Join(parts: seq<string>, sep: string): string {
    if parts == [] then ""
    else if |parts| == 1 then parts[0]
    else parts[0] + sep + Join(parts[1..], sep)
  }

  /** Index of the first occurrence of `c` in `s`, or `|s|` when there is none. */
  function IndexOf(s: string, c: char): (k: nat)
    ensures k <= |s|
    ensures forall j :: 0 <= j < k ==> s[j] != c
    ensures k < |s| ==> s[k] == c
  {
    if s == [] then 0
    else if s[0] == c then 0
    else 1 + IndexOf(s[1..], c)
  }

  /** `s.split(sep)` for a one-character separator (Python and JavaScript agree on it). */
  function SplitOn(s: string, sep: char): (fields: seq<string>)
    ensures |fields| >= 1
    ensures forall k :: 0 <= k < |fields| ==> sep !in fields[k]
    decreases |s|
  {
    var k := IndexOf(s, sep);
    if k == |s| then [s] else [s[..k]] + SplitOn(s[k + 1..], sep)
  }

  /** Splitting on a separator and joining with it again gives back the string. */
  lemma {:induction false} JoinSplitOn(s: string, sep: char)
    ensures Join(SplitOn(s, sep), [sep]) == s
    decreases |s|
  {
    var k := IndexOf(s, sep);
    if k < |s| {
      var rest := SplitOn(s[k + 1..], sep);
      JoinSplitOn(s[k + 1..], sep);
      assert SplitOn(s, sep) == [s[..k]] + rest;
      assert s == s[..k] + [sep] + s[k + 1..];
    }
  }

  /** The first field of `s.split(sep)` is the text before the first separator. */
  lemma FirstFieldBeforeSeparator(s: string, sep: char)
    ensures SplitOn(s, sep)[0] == s[..IndexOf(s, sep)]
  {
  }

  function ToLowerAscii(c: char): (r: char)
    ensures 'A' <= c <= 'Z' ==> 'a' <= r <= 'z'
    ensures !('A' <= c <= 'Z') ==> r == c
  {
    if 'A' <= c <= 'Z' then (c as int + 32) as char else c
  }

  predicate IsAsciiUpper(c: char) {
    'A' <= c <= 'Z'
  }

  /**
   * `s.toLowerCase()` restricted to ASCII letters: no capital is left, every
   * other character stays where it was, and each capital becomes its own
   * small letter.
   */
  function Lower(s: string): (r: string)
    ensures |r| == |s|
    ensures forall i :: 0 <= i < |r| ==> !IsAsciiUpper(r[i])
    ensures forall i :: 0 <= i < |s| && !IsAsciiUpper(s[i]) ==> r[i] == s[i]
    ensures forall i :: 0 <= i < |s| && IsAsciiUpper(s[i]) ==> r[i] as int == s[i] as int + 32
  {
    seq(|s|, i requires 0 <= i < |s| => ToLowerAscii(s[i]))
  }

  /** Lower-casing twice is lower-casing once. */
  lemma LowerIdempotent(s: string)
    ensures Lower(Lower(s)) == Lower(s)
  {
    var once := Lower(s);
    var twice := Lower(once);
    forall i | 0 <= i < |s| ensures twice[i] == once[i] {
      assert !IsAsciiUpper(once[i]);
    }
  }

  /** Lower-casing distributes over concatenation. */
  lemma LowerAppend(a: string, b: string)
    ensures Lower(a + b) == Lower(a) + Lower(b)
  {
    var l := Lower(a + b);
    var r := Lower(a) + Lower(b);
    forall i | 0 <= i < |l| ensures l[i] == r[i] {
      if i < |a| {
        assert (a + b)[i] == a[i];
      } else {
        assert (a + b)[i] == b[i - |a|];
      }
    }
  }

  /** Length of the run of digits starting at `i` (what `\d+` consumes there). */
  function DigitRun(s: string, i: nat): (n: nat)
    requires i <= |s|
    ensures i + n <= |s| && AllDigits(s[i..i + n])
    ensures i + n < |s| ==> !IsDigit(s[i + n])
    decreases |s| - i
  {
    if i == |s| || !IsDigit(s[i]) then 0
    else
      var n := 1 + DigitRun(s, i + 1);
      assert s[i..i + n] == [s[i]] + s[i + 1..i + n];
      n
  }

  /** The digit run at `i` is exactly a run of digits that a non-digit or the end stops. */
  lemma {:induction false} DigitRunIs(s: string, i: nat, n: nat)
    requires i + n <= |s| && AllDigits(s[i..i + n]) && (i + n < |s| ==> !IsDigit(s[i + n]))
    ensures DigitRun(s, i) == n
  {
  }

  /** A string of digits is one run from its start. */
  lemma {:induction false} AllDigitsRun(s: string, i: nat)
    requires i <= |s| && AllDigits(s[i..])
    ensures DigitRun(s, i) == |s| - i
    decreases |s| - i
  {
    if i < |s| {
      assert s[i] == s[i..][0];
      assert s[i + 1..] == s[i..][1..];
      AllDigitsRun(s, i + 1);
    }
  }

  function DigitValue(c: char): (v: nat)
    requires IsDigit(c)
    ensures v < 10
  {
    c as int - '0' as int
  }

  function DigitChar(v: nat): (c: char)
    requires v < 10
    ensures IsDigit(c) && DigitValue(c) == v
  {
    ('0' as int + v) as char
  }

  /** The base-10 value of a string of ASCII digits. */
  function DigitsValue(s: string): (v: nat)
    requires AllDigits(s)
    ensures v < Pow10(|s|)
  {
    if s == [] then 0
    else DigitsValue(s[..|s| - 1]) * 10 + DigitValue(s[|s| - 1])
  }

  function Pow10(n: nat): (p: nat)
    ensures p >= 1
  {
    if n == 0 then 1 else 10 * Pow10(n - 1)
  }

  /** The decimal digits of `v`, left-padded with zeros to `width` characters. */
  function PadDigits(v: nat, width: nat): (s: string)
    requires v < Pow10(width)
    ensures |s| == width && AllDigits(s)
  {
    if width == 0 then ""
    else PadDigits(v / 10, width - 1) + [DigitChar(v % 10)]
  }

  /** Zero-padding is undone by reading the digits back. */
  lemma {:induction false} PadDigitsValue(v: nat, width: nat)
    requires v < Pow10(width)
    ensures DigitsValue(PadDigits(v, width)) == v
  {
    if width > 0 {
      var s := PadDigits(v, width);
      PadDigitsValue(v / 10, width - 1);
      assert s[..|s| - 1] == PadDigits(v / 10, width - 1);
    }
  }
}

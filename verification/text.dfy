/** The string functions of the Go standard library that the services rely
    on: strings.TrimSpace, strings.Trim, strings.SplitN(s, sep, 2),
    strings.HasPrefix and strconv.Atoi. Strings are sequences of Unicode
    scalar values; every character these functions test is a single
    character in both views. */
module Text {
  import opened Results

  /** The characters unicode.IsSpace calls white space (Go's TrimSpace). */
  const Whitespace: set<char> :=
    {'\t', '\n', '\U{0B}', '\U{0C}', '\r', ' ', '\U{85}', '\U{A0}', '\U{1680}',
     '\U{2000}', '\U{2001}', '\U{2002}', '\U{2003}', '\U{2004}', '\U{2005}',
     '\U{2006}', '\U{2007}', '\U{2008}', '\U{2009}', '\U{200A}',
     '\U{2028}', '\U{2029}', '\U{202F}', '\U{205F}', '\U{3000}'}

  /** How many characters at the front of `s` belong to `cut`. */
  function LeadingCount(s: string, cut: set<char>): (n: nat)
    ensures n <= |s|
    ensures forall k :: 0 <= k < n ==> s[k] in cut
    ensures n < |s| ==> s[n] !in cut
  {
    if |s| == 0 || s[0] !in cut then 0 else 1 + LeadingCount(s[1..], cut)
  }

  /** How many characters at the back of `s` belong to `cut`. */
  function TrailingCount(s: string, cut: set<char>): (n: nat)
    ensures n <= |s|
    ensures forall k :: |s| - n <= k < |s| ==> s[k] in cut
    ensures n < |s| ==> s[|s| - 1 - n] !in cut
  {
    if |s| == 0 || s[|s| - 1] !in cut then 0 else 1 + TrailingCount(s[..|s| - 1], cut)
  }

  /** `r` is `s` with a prefix and a suffix removed, both made only of characters in `cut`. */
  ghost predicate IsTrimmedFrom(r: string, s: string, cut: set<char>)
  {
    exists i :: 0 <= i <= |s| - |r| && s[i..][..|r|] == r
      && (forall k :: 0 <= k < i ==> s[k] in cut)
      && (forall k :: i + |r| <= k < |s| ==> s[k] in cut)
  }

  /** strings.Trim(s, cutset): every leading and trailing character in the
      cut set is removed (a set of characters, not one matched pair). */
  function Trim(s: string, cut: set<char>): (r: string)
    ensures IsTrimmedFrom(r, s, cut)
    ensures r == [] || (r[0] !in cut && r[|r| - 1] !in cut)
  {
    var i := LeadingCount(s, cut);
    var j := TrailingCount(s[i..], cut);
    WindowIsTrimmed(s, cut, i, j);
    s[i..][..|s| - i - j]
  }

  /** The window left after dropping `i` leading and `j` trailing cut
      characters, when the characters next to it are not cut characters. */
  lemma WindowIsTrimmed(s: string, cut: set<char>, i: nat, j: nat)
    requires i <= |s| && j <= |s| - i
    requires forall k :: 0 <= k < i ==> s[k] in cut
    requires i < |s| ==> s[i] !in cut
    requires forall k :: |s[i..]| - j <= k < |s[i..]| ==> s[i..][k] in cut
    requires j < |s[i..]| ==> s[i..][|s[i..]| - 1 - j] !in cut
    ensures IsTrimmedFrom(s[i..][..|s| - i - j], s, cut)
    ensures var r := s[i..][..|s| - i - j];
      r == [] || (r[0] !in cut && r[|r| - 1] !in cut)
  {
    var r := s[i..][..|s| - i - j];
    forall k | i + |r| <= k < |s| ensures s[k] in cut {
      assert s[k] == s[i..][k - i];
    }
    if |r| > 0 {
      assert r[0] == s[i];
      assert r[|r| - 1] == s[i..][|s[i..]| - 1 - j];
    }
  }

  /** Two windows of `s` whose outsides are all cut characters and whose
      ends are not are the same window. */
  lemma PaddingIsUnique(s: string, cut: set<char>, i: nat, n: nat, a: nat, len: nat)
    requires i + n <= |s| && a + len <= |s|
    requires forall k :: 0 <= k < i ==> s[k] in cut
    requires forall k :: i + n <= k < |s| ==> s[k] in cut
    requires n > 0 ==> s[i] !in cut && s[i + n - 1] !in cut
    requires forall k :: 0 <= k < a ==> s[k] in cut
    requires forall k :: a + len <= k < |s| ==> s[k] in cut
    requires len > 0 && s[a] !in cut && s[a + len - 1] !in cut
    ensures i == a && n == len
  {
  }

  /** A trimmed window of `s` is the window s[lo..hi] whose outsides are
      cut characters and whose ends are not. */
  lemma TrimmedWindowIs(s: string, cut: set<char>, r: string, lo: nat, hi: nat)
    requires lo <= hi <= |s|
    requires forall k :: 0 <= k < lo ==> s[k] in cut
    requires forall k :: hi <= k < |s| ==> s[k] in cut
    requires lo < hi ==> s[lo] !in cut && s[hi - 1] !in cut
    requires IsTrimmedFrom(r, s, cut)
    requires r == [] || (r[0] !in cut && r[|r| - 1] !in cut)
    ensures r == s[lo..hi]
  {
    var i :| 0 <= i <= |s| - |r| && s[i..][..|r|] == r
      && (forall k :: 0 <= k < i ==> s[k] in cut)
      && (forall k :: i + |r| <= k < |s| ==> s[k] in cut);
    if |r| > 0 {
      assert r[0] == s[i] && r[|r| - 1] == s[i + |r| - 1];
      PaddingIsUnique(s, cut, lo, hi - lo, i, |r|);
      assert s[i..][..|r|] == s[lo..hi];
    } else {
      assert forall k :: 0 <= k < |s| ==> s[k] in cut;
    }
  }

  /** Trim removes exactly the padding: a middle part that neither starts
      nor ends with a cut character survives intact whatever cut-only
      prefix and suffix surround it. */
  lemma TrimOfPadded(p: string, m: string, q: string, cut: set<char>)
    requires forall k :: 0 <= k < |p| ==> p[k] in cut
    requires forall k :: 0 <= k < |q| ==> q[k] in cut
    requires m == [] || (m[0] !in cut && m[|m| - 1] !in cut)
    ensures Trim(p + m + q, cut) == m
  {
    var s := p + m + q;
    forall k | 0 <= k < |p| ensures s[k] in cut {
      assert s[k] == p[k];
    }
    forall k | |p| + |m| <= k < |s| ensures s[k] in cut {
      assert s[k] == q[k - |p| - |m|];
    }
    assert s[|p|..|p| + |m|] == m;
    TrimmedWindowIs(s, cut, Trim(s, cut), |p|, |p| + |m|);
  }

  /** strings.TrimSpace. */
  function TrimSpace(s: string): (r: string)
    ensures IsTrimmedFrom(r, s, Whitespace)
    ensures r == [] || (r[0] !in Whitespace && r[|r| - 1] !in Whitespace)
  {
    Trim(s, Whitespace)
  }

  /** TrimSpace leaves a string that neither starts nor ends with white space. */
  lemma TrimSpaceKeeps(s: string)
    requires s == [] || (s[0] !in Whitespace && s[|s| - 1] !in Whitespace)
    ensures TrimSpace(s) == s
  {
    TrimOfPadded([], s, [], Whitespace);
    assert [] + s + [] == s;
  }

  /** strings.HasPrefix. */
  predicate HasPrefix(s: string, prefix: string)
  {
    |prefix| <= |s| && s[..|prefix|] == prefix
  }

  /** Position of the first occurrence of `c` in `s`. */
  function IndexOf(s: string, c: char): (r: Option<nat>)
    ensures r.None? <==> c !in s
    ensures r.Some? ==> r.value < |s| && s[r.value] == c && c !in s[..r.value]
  {
    if |s| == 0 then None
    else if s[0] == c then Some(0)
    else match IndexOf(s[1..], c)
      case None => None
      case Some(i) =>
        assert s[..i + 1] == [s[0]] + s[1..][..i];
        Some(i + 1)
  }

  /** strings.SplitN(s, sep, 2) when it yields two parts: the text before the
      first separator and everything after it. None when the separator is
      absent (SplitN then yields a single part). */
  function CutAtFirst(s: string, sep: char): (r: Option<(string, string)>)
    ensures r.None? <==> sep !in s
    ensures r.Some? ==> s == r.value.0 + [sep] + r.value.1 && sep !in r.value.0
  {
    match IndexOf(s, sep)
    case None => None
    case Some(i) =>
      assert s == s[..i] + [sep] + s[i + 1..];
      Some((s[..i], s[i + 1..]))
  }

  /** The split at the first separator is the only one whose left part is
      free of separators. */
  lemma CutAtFirstOf(a: string, sep: char, b: string)
    requires sep !in a
    ensures CutAtFirst(a + [sep] + b, sep) == Some((a, b))
  {
    var s := a + [sep] + b;
    var r := CutAtFirst(s, sep);
    assert r.Some?;
    var (x, y) := r.value;
    assert s[|a|] == sep && s[|x|] == sep;
    assert forall k :: 0 <= k < |a| ==> s[k] == a[k] && s[k] != sep;
    assert forall k :: 0 <= k < |x| ==> s[k] == x[k] && s[k] != sep;
    assert |x| == |a|;
    assert x == s[..|a|] == a;
    assert y == s[|a| + 1..] == b;
  }

  // ---- strconv.Atoi ----

  predicate IsDigit(c: char) { '0' <= c <= '9' }

  predicate AllDigits(s: string) { forall k :: 0 <= k < |s| ==> IsDigit(s[k]) }

  function DigitValue(c: char): (d: nat)
    requires IsDigit(c)
    ensures d < 10
  {
    (c as int) - ('0' as int)
  }

  function DigitChar(d: nat): (c: char)
    requires d < 10
    ensures IsDigit(c) && DigitValue(c) == d
  {
    ('0' as int + d) as char
  }

  /** The number a digit string denotes, most significant digit first. */
  function DecimalValue(ds: string): nat
    requires AllDigits(ds)
  {
    if |ds| == 0 then 0 else DecimalValue(ds[..|ds| - 1]) * 10 + DigitValue(ds[|ds| - 1])
  }

  const MinInt64: int := -0x8000_0000_0000_0000
  const MaxInt64: int := 0x7FFF_FFFF_FFFF_FFFF

  /** Length of the optional leading sign. */
  function SignLength(s: string): (n: nat)
    ensures n <= 1 && n <= |s|
  {
    if |s| > 0 && (s[0] == '+' || s[0] == '-') then 1 else 0
  }

  /** The syntax strconv.Atoi accepts: an optional `+` or `-`, then one or
      more decimal digits, nothing else. */
  predicate IntegerSyntax(s: string)
  {
    SignLength(s) < |s| && AllDigits(s[SignLength(s)..])
  }

  /** The integer such a string denotes. */
  function IntegerValue(s: string): int
    requires IntegerSyntax(s)
  {
    var magnitude: int := DecimalValue(s[SignLength(s)..]);
    if s[0] == '-' then -magnitude else magnitude
  }

  /** The digit scan strconv performs: consumes s[i..] left to right,
      multiplying the running value by ten at each digit. */
  function ScanDigits(s: string, start: nat, i: nat, acc: nat): (r: Option<nat>)
    requires start <= i <= |s|
    requires AllDigits(s[start..i]) && acc == DecimalValue(s[start..i])
    ensures r.Some? <==> AllDigits(s[start..])
    ensures r.Some? ==> r.value == DecimalValue(s[start..])
    decreases |s| - i
  {
    if i == |s| then
      assert s[start..i] == s[start..];
      Some(acc)
    else if !IsDigit(s[i]) then
      assert s[start..][i - start] == s[i];
      None
    else
      assert s[start..i + 1][..i - start] == s[start..i];
      ScanDigits(s, start, i + 1, acc * 10 + DigitValue(s[i]))
  }

  /** strconv.Atoi on a 64-bit platform: a syntax error or a value outside
      the int64 range is an error. */
  function Atoi(s: string): (r: Option<int>)
    ensures r.Some? <==> IntegerSyntax(s) && MinInt64 <= IntegerValue(s) <= MaxInt64
    ensures r.Some? ==> r.value == IntegerValue(s)
  {
    var d := SignLength(s);
    if d == |s| then None
    else match ScanDigits(s, d, d, 0)
      case None => None
      case Some(m) =>
        var v: int := if s[0] == '-' then 0 - (m as int) else m;
        if MinInt64 <= v <= MaxInt64 then Some(v) else None
  }

  /** Decimal rendering of a natural number, with no leading zeros. */
  function FormatNat(n: nat): (s: string)
    ensures |s| > 0 && AllDigits(s) && IsDigit(s[0])
    ensures DecimalValue(s) == n
  {
    if n < 10 then [DigitChar(n)]
    else
      var s := FormatNat(n / 10) + [DigitChar(n % 10)];
      assert s[..|s| - 1] == FormatNat(n / 10);
      s
  }

  /** Atoi reads back what FormatNat writes. */
  lemma AtoiFormatNat(n: nat)
    requires n <= MaxInt64
    ensures Atoi(FormatNat(n)) == Some(n)
  {
    var s := FormatNat(n);
    assert SignLength(s) == 0;
    assert s[0..] == s;
  }
}

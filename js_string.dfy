/** The JavaScript string primitives the two core files rely on, written out on
    `seq<char>`: `startsWith`, `split` with a one-character separator,
    `Array.prototype.join`, `findIndex` with an equality test, `indexOf` /
    `replace` with a string pattern, `trim`, `substring`, and the decimal
    rendering of a non-negative integer (`String(n)` for a safe integer). */
module JsString {

  /** `s.startsWith(p)` */
  predicate StartsWith(s: string, p: string) {
    |p| <= |s| && s[..|p|] == p
  }

  // ---------------------------------------------------------------------------
  // split and join

  /** `s.split(sep)` for a one-character separator: the maximal runs between
      separators, always at least one (`"".split(".")` is `[""]`). */
  function Split(s: string, sep: char): (parts: seq<string>)
    ensures |parts| >= 1
    decreases |s|
  {
    if s == [] then [""]
    else
      var rest := Split(s[1..], sep);
      if s[0] == sep then [""] + rest
      else [[s[0]] + rest[0]] + rest[1..]
  }

  /** `parts.join(sep)` (the empty array joins to `""`). */
  function Join(parts: seq<string>, sep: char): string
    decreases |parts|
  {
    if |parts| == 0 then ""
    else if |parts| == 1 then parts[0]
    else parts[0] + [sep] + Join(parts[1..], sep)
  }

  /** Joining the pieces of a split gives back the original string. */
  lemma {:induction false} JoinSplit(s: string, sep: char)
    ensures Join(Split(s, sep), sep) == s
    decreases |s|
  {
    if s != [] {
      var rest := Split(s[1..], sep);
      JoinSplit(s[1..], sep);
      assert s == [s[0]] + s[1..];
      if s[0] == sep {
        JoinCons("", rest, sep);
      } else {
        JoinExtendFirst(s[0], rest, sep);
      }
    }
  }

  /** Joining a piece in front of two or more pieces puts a separator between. */
  lemma JoinCons(x: string, rest: seq<string>, sep: char)
    requires |rest| >= 1
    ensures Join([x] + rest, sep) == x + [sep] + Join(rest, sep)
  {
    assert ([x] + rest)[1..] == rest;
  }

  /** Extending the first piece by a character in front extends the join. */
  lemma JoinExtendFirst(c: char, parts: seq<string>, sep: char)
    requires |parts| >= 1
    ensures Join([[c] + parts[0]] + parts[1..], sep) == [c] + Join(parts, sep)
  {
    if |parts| > 1 {
      JoinCons([c] + parts[0], parts[1..], sep);
      JoinCons(parts[0], parts[1..], sep);
      assert [parts[0]] + parts[1..] == parts;
    }
  }

  /** Splitting at a separator that is put between two strings gives the
      pieces of the first followed by the pieces of the second. */
  lemma {:induction false} SplitAround(a: string, b: string, sep: char)
    ensures Split(a + [sep] + b, sep) == Split(a, sep) + Split(b, sep)
    decreases |a|
  {
    if a == [] {
      assert a + [sep] + b == [sep] + b;
      SplitCons(sep, b, sep);
    } else {
      var c, tail := a[0], a[1..];
      assert a == [c] + tail;
      assert a + [sep] + b == [c] + (tail + [sep] + b);
      SplitAround(tail, b, sep);
      SplitCons(c, tail + [sep] + b, sep);
      SplitCons(c, tail, sep);
      SplitConsConcat(c, Split(tail, sep), Split(b, sep), sep);
    }
  }

  /** One step of `Split`: the first character either closes an empty piece
      or extends the first piece of the rest. */
  lemma SplitCons(c: char, tail: string, sep: char)
    ensures Split([c] + tail, sep) ==
      if c == sep then [""] + Split(tail, sep)
      else [[c] + Split(tail, sep)[0]] + Split(tail, sep)[1..]
  {
    assert ([c] + tail)[0] == c && ([c] + tail)[1..] == tail;
  }

  /** The sequence algebra behind `SplitAround`'s step. */
  lemma SplitConsConcat(c: char, left: seq<string>, right: seq<string>, sep: char)
    requires |left| >= 1
    ensures (if c == sep then [""] + (left + right)
             else [[c] + (left + right)[0]] + (left + right)[1..]) ==
            (if c == sep then [""] + left else [[c] + left[0]] + left[1..]) + right
  {
    assert (left + right)[0] == left[0];
    assert (left + right)[1..] == left[1..] + right;
  }

  /** No piece of a split holds the separator. */
  lemma {:induction false} SplitPiecesLackSeparator(s: string, sep: char)
    ensures forall i :: 0 <= i < |Split(s, sep)| ==> sep !in Split(s, sep)[i]
    decreases |s|
  {
    if s != [] {
      SplitPiecesLackSeparator(s[1..], sep);
    }
  }

  /** A split has a single piece exactly when the separator does not occur. */
  lemma {:induction false} SplitSingleIff(s: string, sep: char)
    ensures |Split(s, sep)| == 1 <==> sep !in s
    decreases |s|
  {
    if s != [] {
      SplitSingleIff(s[1..], sep);
      assert s == [s[0]] + s[1..];
    }
  }

  /** A string without the separator splits into itself alone. */
  lemma SplitWithoutSeparator(s: string, sep: char)
    requires sep !in s
    ensures Split(s, sep) == [s]
  {
    SplitSingleIff(s, sep);
    JoinSplit(s, sep);
  }

  /** Splitting a join of separator-free pieces gives back the pieces. */
  lemma {:induction false} SplitJoin(parts: seq<string>, sep: char)
    requires |parts| >= 1
    requires forall i :: 0 <= i < |parts| ==> sep !in parts[i]
    ensures Split(Join(parts, sep), sep) == parts
    decreases |parts|
  {
    if |parts| == 1 {
      SplitWithoutSeparator(parts[0], sep);
    } else {
      SplitJoin(parts[1..], sep);
      SplitAround(parts[0], Join(parts[1..], sep), sep);
      SplitWithoutSeparator(parts[0], sep);
      assert [parts[0]] + parts[1..] == parts;
    }
  }

  /** The last element of a non-empty sequence (`arr.pop()`'s value). */
  function Last<T>(xs: seq<T>): T
    requires |xs| > 0
  {
    xs[|xs| - 1]
  }

  /** The last piece of a split is the longest separator-free suffix: it is a
      suffix, it holds no separator, and it is the whole string or is preceded
      by a separator. */
  lemma {:induction false} LastPieceIsSuffix(s: string, sep: char)
    ensures var e := Last(Split(s, sep));
      |e| <= |s| && s[|s| - |e|..] == e && sep !in e &&
      (|e| < |s| ==> s[|s| - |e| - 1] == sep)
  {
    JoinSplit(s, sep);
    SplitPiecesLackSeparator(s, sep);
    var parts := Split(s, sep);
    var n := |parts|;
    if n == 1 {
      assert Join(parts, sep) == parts[0];
    } else {
      JoinPrefixLast(parts, sep);
    }
  }

  /** A join of two or more pieces ends with a separator and the last piece. */
  lemma {:induction false} JoinPrefixLast(parts: seq<string>, sep: char)
    requires |parts| >= 2
    ensures Join(parts, sep) == Join(parts[..|parts| - 1], sep) + [sep] + Last(parts)
    decreases |parts|
  {
    if |parts| > 2 {
      JoinPrefixLast(parts[1..], sep);
      assert parts[1..][..|parts| - 2] == parts[..|parts| - 1][1..];
    }
  }

  // ---------------------------------------------------------------------------
  // findIndex, indexOf and replace

  /** `xs.findIndex(p => p === x)`: the first position holding `x`, or -1. */
  function FindIndex<T(==)>(xs: seq<T>, x: T): (i: int)
    ensures -1 <= i < |xs|
    ensures i == -1 <==> x !in xs
    ensures i != -1 ==> xs[i] == x && x !in xs[..i]
  {
    if xs == [] then -1
    else if xs[0] == x then 0
    else
      var j := FindIndex(xs[1..], x);
      assert xs[1..][..if j == -1 then 0 else j] == xs[1..if j == -1 then 1 else j + 1];
      if j == -1 then -1 else j + 1
  }

  /** `p` occurs in `s` starting at position `i`. */
  predicate OccursAt(s: string, p: string, i: nat) {
    i + |p| <= |s| && s[i..i + |p|] == p
  }

  /** `s.indexOf(p, from)`: the first occurrence at or after `from`, or -1. */
  function IndexOfFrom(s: string, p: string, from: nat): (i: int)
    requires from <= |s|
    ensures i == -1 || (from <= i <= |s| && OccursAt(s, p, i))
    ensures forall k: nat :: from <= k && (i == -1 || k < i) ==> !OccursAt(s, p, k)
    decreases |s| - from
  {
    if OccursAt(s, p, from) then from
    else if from == |s| then -1
    else IndexOfFrom(s, p, from + 1)
  }

  /** `s.indexOf(p)` */
  function IndexOf(s: string, p: string): (i: int)
    ensures i == -1 || (0 <= i <= |s| && OccursAt(s, p, i))
    ensures forall k: nat :: i == -1 || k < i ==> !OccursAt(s, p, k)
  {
    IndexOfFrom(s, p, 0)
  }

  /** `s.replace(p, rep)` with a string pattern: only the first occurrence is
      replaced; a string that starts with the pattern loses exactly that prefix. */
  function ReplaceFirst(s: string, p: string, rep: string): (r: string)
    ensures (forall k: nat :: !OccursAt(s, p, k)) ==> r == s
    ensures StartsWith(s, p) ==> r == rep + s[|p|..]
  {
    var i := IndexOf(s, p);
    assert StartsWith(s, p) ==> OccursAt(s, p, 0);
    if i == -1 then s else s[..i] + rep + s[i + |p|..]
  }

  // ---------------------------------------------------------------------------
  // trim

  /** ECMAScript WhiteSpace and LineTerminator code points, the characters that
      `String.prototype.trim` removes (the Zs category listed by hand). */
  const WhiteSpace: set<char> :=
    {'\t', '\n', '\U{B}', '\U{C}', '\r', ' ', '\U{A0}', '\U{1680}',
     '\U{2000}', '\U{2001}', '\U{2002}', '\U{2003}', '\U{2004}', '\U{2005}',
     '\U{2006}', '\U{2007}', '\U{2008}', '\U{2009}', '\U{200A}',
     '\U{2028}', '\U{2029}', '\U{202F}', '\U{205F}', '\U{3000}', '\U{FEFF}'}

  predicate IsWhiteSpace(c: char) {
    c in WhiteSpace
  }

  /** Every character of `s` at a position in `[lo, hi)` is white space. */
  predicate WhiteBetween(s: string, lo: int, hi: int) {
    forall k :: lo <= k < hi && 0 <= k < |s| ==> IsWhiteSpace(s[k])
  }

  /** The first position at or after `i` that does not hold white space. */
  function SkipWhiteForward(s: string, i: nat): (j: nat)
    requires i <= |s|
    ensures i <= j <= |s| && WhiteBetween(s, i, j)
    ensures j < |s| ==> !IsWhiteSpace(s[j])
    decreases |s| - i
  {
    if i < |s| && IsWhiteSpace(s[i]) then SkipWhiteForward(s, i + 1) else i
  }

  /** The last position at or before `j`, and not before `lo`, that follows a
      character other than white space (or `lo`). */
  function SkipWhiteBackward(s: string, lo: nat, j: nat): (i: nat)
    requires lo <= j <= |s|
    ensures lo <= i <= j && WhiteBetween(s, i, j)
    ensures i > lo ==> !IsWhiteSpace(s[i - 1])
    decreases j
  {
    if j > lo && IsWhiteSpace(s[j - 1]) then SkipWhiteBackward(s, lo, j - 1) else j
  }

  /** `r` is the part of `s` that starts at `i`, with only white space before
      and after it in `s`. */
  predicate IsMiddle(s: string, r: string, i: nat) {
    i + |r| <= |s| && r == s[i..i + |r|] &&
    WhiteBetween(s, 0, i) && WhiteBetween(s, i + |r|, |s|)
  }

  /** `s.trim()`: the middle of `s` between a white-space prefix and a
      white-space suffix, beginning and ending with a non-white character. */
  function Trim(s: string): (r: string)
    ensures exists i: nat :: IsMiddle(s, r, i)
    ensures r == [] || (!IsWhiteSpace(r[0]) && !IsWhiteSpace(r[|r| - 1]))
  {
    var i := SkipWhiteForward(s, 0);
    var j := SkipWhiteBackward(s, i, |s|);
    assert IsMiddle(s, s[i..j], i);
    s[i..j]
  }

  /** A string trims to `""` exactly when it is all white space. */
  lemma TrimEmptyIff(s: string)
    ensures Trim(s) == "" <==> WhiteBetween(s, 0, |s|)
  {
    var r := Trim(s);
    var i: nat :| IsMiddle(s, r, i);
  }

  /** Trimming twice is trimming once. */
  lemma TrimIdempotent(s: string)
    ensures Trim(Trim(s)) == Trim(s)
  {
    var r := Trim(s);
    assert SkipWhiteForward(r, 0) == 0;
    assert SkipWhiteBackward(r, 0, |r|) == |r|;
  }

  // ---------------------------------------------------------------------------
  // substring

  function Clamp(i: int, n: nat): (c: nat)
    ensures c <= n
  {
    if i < 0 then 0 else if i > n then n else i
  }

  /** `s.substring(start, end)`: both bounds are clamped to `[0, |s|]` and
      swapped when the start is past the end. */
  function Substring(s: string, start: int, end: int): (r: string)
    ensures |r| <= |s|
    ensures 0 <= start <= end <= |s| ==> r == s[start..end]
    ensures 0 <= end <= start <= |s| ==> r == s[end..start]
    ensures |r| <= if start <= end then end - start else start - end
    // bounds outside the string are clamped to its ends
    ensures (start <= 0 && end <= 0) || (|s| <= start && |s| <= end) ==> r == ""
    ensures (start <= 0 && |s| <= end) || (end <= 0 && |s| <= start) ==> r == s
    ensures 0 <= start <= |s| <= end ==> r == s[start..]
    ensures 0 <= end <= |s| <= start ==> r == s[end..]
    ensures start <= 0 <= end <= |s| ==> r == s[..end]
    ensures end <= 0 <= start <= |s| ==> r == s[..start]
  {
    var a, b := Clamp(start, |s|), Clamp(end, |s|);
    if a <= b then s[a..b] else s[b..a]
  }

  // ---------------------------------------------------------------------------
  // decimal digits

  predicate IsDigit(c: char) {
    '0' <= c <= '9'
  }

  function DigitChar(d: nat): (c: char)
    requires d < 10
    ensures IsDigit(c) && c as int - '0' as int == d
  {
    ('0' as int + d) as char
  }

  /** `String(n)` for a non-negative safe integer: its decimal digits, with no
      leading zero. */
  function NatToDecimal(n: nat): (r: string)
    ensures |r| >= 1
    ensures forall i :: 0 <= i < |r| ==> IsDigit(r[i])
    ensures r[0] == '0' ==> n == 0
  {
    if n < 10 then [DigitChar(n)] else NatToDecimal(n / 10) + [DigitChar(n % 10)]
  }

  /** The value of a string of decimal digits (an independent reading of
      `NatToDecimal`'s output). */
  function DecimalValue(s: string): nat
    requires forall i :: 0 <= i < |s| ==> IsDigit(s[i])
  {
    if s == [] then 0
    else
      assert IsDigit(s[|s| - 1]);
      DecimalValue(s[..|s| - 1]) * 10 + (s[|s| - 1] as int - '0' as int)
  }

  /** Reading back the rendered digits gives the number. */
  lemma {:induction false} DecimalRoundTrip(n: nat)
    ensures DecimalValue(NatToDecimal(n)) == n
  {
    if n >= 10 {
      DecimalRoundTrip(n / 10);
      var r := NatToDecimal(n);
      assert r[..|r| - 1] == NatToDecimal(n / 10);
    }
  }
}

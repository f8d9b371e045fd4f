/** The pieces of Python's string behaviour that the service relies on:
    `str.strip()`, `sep.join(parts)`, `str.split(c)`, `str(n)` for a
    non-negative integer, `str.endswith` and POSIX `os.path.basename`. */
module Text {

  /** Python's `str.isspace()` on one character: the ASCII blanks, the
      information separators 0x1C-0x1F and the Unicode space separators. */
  predicate IsSpace(c: char) {
    || c == ' ' || c == '\t' || c == '\n' || c == '\r' || c == '\U{B}' || c == '\U{C}'
    || ('\U{1C}' <= c <= '\U{1F}') || c == '\U{85}' || c == '\U{A0}' || c == '\U{1680}'
    || ('\U{2000}' <= c <= '\U{200A}') || c == '\U{2028}' || c == '\U{2029}'
    || c == '\U{202F}' || c == '\U{205F}' || c == '\U{3000}'
  }

  ghost predicate AllSpace(s: string) {
    forall i :: 0 <= i < |s| ==> IsSpace(s[i])
  }

  /** `s.lstrip()`: the longest suffix of `s` that does not start with whitespace. */
  function StripLeft(s: string): (r: string)
    ensures |r| <= |s| && r == s[|s| - |r|..]
    ensures AllSpace(s[..|s| - |r|])
    ensures r == [] || !IsSpace(r[0])
  {
    if s != [] && IsSpace(s[0]) then StripLeft(s[1..]) else s
  }

  /** `s.rstrip()`: the longest prefix of `s` that does not end with whitespace. */
  function StripRight(s: string): (r: string)
    ensures |r| <= |s| && r == s[..|r|]
    ensures AllSpace(s[|r|..])
    ensures r == [] || !IsSpace(r[|r| - 1])
  {
    if s != [] && IsSpace(s[|s| - 1]) then StripRight(s[..|s| - 1]) else s
  }

  /** `s.strip()`: `s` without its leading and trailing whitespace. The result
      is empty exactly when `s` is all whitespace, and otherwise starts and
      ends with a non-blank character. */
  function Strip(s: string): (r: string)
    ensures |r| <= |s|
    ensures r == [] <==> AllSpace(s)
    ensures r != [] ==> !IsSpace(r[0]) && !IsSpace(r[|r| - 1])
    ensures exists a, b :: 0 <= a <= b <= |s| && r == s[a..b] && AllSpace(s[..a]) && AllSpace(s[b..])
  {
    var l := StripLeft(s);
    var r := StripRight(l);
    assert r == [] ==> AllSpace(s) by {
      if r == [] {
        assert s == s[..|s| - |l|] + l;
      }
    }
    StripIsSlice(s, l, r);
    r
  }

  /** Cutting a blank prefix off `s` and then a blank suffix off the rest
      leaves a slice of `s` between a blank prefix and a blank suffix. */
  lemma StripIsSlice(s: string, l: string, r: string)
    requires |l| <= |s| && l == s[|s| - |l|..] && AllSpace(s[..|s| - |l|])
    requires |r| <= |l| && r == l[..|r|] && AllSpace(l[|r|..])
    ensures exists a, b :: 0 <= a <= b <= |s| && r == s[a..b] && AllSpace(s[..a]) && AllSpace(s[b..])
  {
    var a := |s| - |l|;
    var b := a + |r|;
    assert r == s[a..b];
    assert s[b..] == l[|r|..];
  }

  /** `sep.join(parts)`. */
  function Join(sep: string, parts: seq<string>): string {
    if |parts| == 0 then ""
    else if |parts| == 1 then parts[0]
    else Join(sep, parts[..|parts| - 1]) + sep + parts[|parts| - 1]
  }

  /** Joining one more part appends the separator and the part. */
  lemma JoinAppend(sep: string, parts: seq<string>, p: string)
    ensures Join(sep, parts + [p]) == if parts == [] then p else Join(sep, parts) + sep + p
  {
    assert (parts + [p])[..|parts|] == parts;
  }

  /** `s.split(c)` for a one-character separator: the pieces between the
      occurrences of `c`; there is always at least one piece. */
  function Split(s: string, c: char): (r: seq<string>)
    ensures |r| >= 1
  {
    if s == [] then [[]]
    else
      var p := Split(s[..|s| - 1], c);
      if s[|s| - 1] == c then p + [[]]
      else p[..|p| - 1] + [p[|p| - 1] + [s[|s| - 1]]]
  }

  lemma {:induction false} SplitWithout(y: string, c: char)
    requires c !in y
    ensures Split(y, c) == [y]
  {
    if y != [] {
      SplitWithout(y[..|y| - 1], c);
      assert y[..|y| - 1] + [y[|y| - 1]] == y;
    }
  }

  lemma {:induction false} SplitLastPiece(x: string, c: char, y: string)
    requires c !in y
    ensures Split(x + [c] + y, c) == Split(x, c) + [y]
  {
    var s := x + [c] + y;
    if y == [] {
      assert s[..|s| - 1] == x;
    } else {
      var y' := y[..|y| - 1];
      SplitLastPiece(x, c, y');
      assert s[..|s| - 1] == x + [c] + y';
      assert y' + [y[|y| - 1]] == y;
    }
  }

  /** Splitting a join on its one-character separator gives back the parts,
      as long as no part contains the separator. */
  lemma {:induction false} SplitJoin(parts: seq<string>, c: char)
    requires |parts| >= 1
    requires forall i :: 0 <= i < |parts| ==> c !in parts[i]
    ensures Split(Join([c], parts), c) == parts
  {
    if |parts| == 1 {
      SplitWithout(parts[0], c);
    } else {
      var init := parts[..|parts| - 1];
      SplitJoin(init, c);
      SplitLastPiece(Join([c], init), c, parts[|parts| - 1]);
      assert init + [parts[|parts| - 1]] == parts;
    }
  }

  predicate IsDigit(c: char) {
    '0' <= c <= '9'
  }

  function DigitChar(d: nat): (c: char)
    requires d < 10
  {
    ('0' as int + d) as char
  }

  function DigitValue(c: char): nat
    requires IsDigit(c)
  {
    c as int - '0' as int
  }

  /** `str(n)` for a non-negative integer: its decimal digits, no sign and no
      leading zero. */
  function NatToString(n: nat): (r: string)
    ensures |r| >= 1
    ensures forall i :: 0 <= i < |r| ==> IsDigit(r[i])
  {
    if n < 10 then [DigitChar(n)] else NatToString(n / 10) + [DigitChar(n % 10)]
  }

  /** The number a string of decimal digits denotes (Python's `int(s)`). */
  function DecimalValue(s: string): nat
    requires forall i :: 0 <= i < |s| ==> IsDigit(s[i])
  {
    if s == [] then 0 else DecimalValue(s[..|s| - 1]) * 10 + DigitValue(s[|s| - 1])
  }

  /** `int(str(n)) == n`. */
  lemma {:induction false} DecimalRoundTrip(n: nat)
    ensures DecimalValue(NatToString(n)) == n
  {
    var r := NatToString(n);
    if n >= 10 {
      DecimalRoundTrip(n / 10);
      assert r[..|r| - 1] == NatToString(n / 10);
    }
  }

  /** Different numbers print differently. */
  lemma NatToStringInjective(i: nat, j: nat)
    requires NatToString(i) == NatToString(j)
    ensures i == j
  {
    DecimalRoundTrip(i);
    DecimalRoundTrip(j);
  }

  /** `s.endswith(suffix)`. */
  predicate EndsWith(s: string, suffix: string) {
    |suffix| <= |s| && s[|s| - |suffix|..] == suffix
  }

  /** A suffix of the last part is a suffix of the whole. */
  lemma EndsWithAppend(a: string, b: string, suffix: string)
    requires EndsWith(b, suffix)
    ensures EndsWith(a + b, suffix)
  {
    var ab := a + b;
    var x, y := ab[|ab| - |suffix|..], b[|b| - |suffix|..];
    forall i | 0 <= i < |suffix|
      ensures x[i] == y[i]
    {
      assert ab[|ab| - |suffix| + i] == b[|b| - |suffix| + i];
    }
    assert x == y;
  }

  /** What follows the last occurrence of `c` in `p` (all of `p` when `c`
      does not occur). */
  function AfterLast(p: string, c: char): (r: string)
    ensures |r| <= |p| && r == p[|p| - |r|..]
    ensures c !in r
    ensures |r| < |p| ==> p[|p| - |r| - 1] == c
  {
    if p == [] || p[|p| - 1] == c then [] else AfterLast(p[..|p| - 1], c) + [p[|p| - 1]]
  }

  /** The piece after the last `c` of `x + [c] + y` is `y` when `y` holds no `c`. */
  lemma {:induction false} AfterLastOfJoin(x: string, c: char, y: string)
    requires c !in y
    ensures AfterLast(x + [c] + y, c) == y
  {
    var p := x + [c] + y;
    if y != [] {
      var init := y[..|y| - 1];
      AfterLastOfJoin(x, c, init);
      assert p[..|p| - 1] == x + [c] + init;
      assert init + [y[|y| - 1]] == y;
    }
  }

  /** POSIX `os.path.basename(p)`: what follows the last `/` of `p`. */
  function BaseName(p: string): string {
    AfterLast(p, '/')
  }
}

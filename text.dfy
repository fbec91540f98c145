/**
 * The handful of Python `str` operations the course helper and the school web
 * site agent rely on, stated over `string` (a sequence of code points):
 * whitespace classification, `strip`, `split`, `lower`/`upper` (ASCII),
 * the `in` substring test, `rfind`, slicing with a possibly negative stop,
 * `sep.join(parts)` and `str(n)` for natural numbers.
 */
module Text {

  /** Python's `str.isspace` for a single code point (the complete list of
      whitespace code points of the Unicode database Python uses). */
  predicate IsSpace(c: char) {
    || ('\t' <= c <= '\r')              // U+0009 .. U+000D
    || ('\U{1C}' <= c <= ' ')           // U+001C .. U+0020
    || c == '\U{85}' || c == '\U{A0}' || c == '\U{1680}'
    || ('\U{2000}' <= c <= '\U{200A}')
    || c == '\U{2028}' || c == '\U{2029}' || c == '\U{202F}'
    || c == '\U{205F}' || c == '\U{3000}'
  }

  /** The index of the first non-whitespace code point at or after `i`, or
      `|s|` when there is none. */
  function FirstNonSpace(s: string, i: nat): (k: nat)
    requires i <= |s|
    ensures i <= k <= |s|
    ensures forall j :: i <= j < k ==> IsSpace(s[j])
    ensures k < |s| ==> !IsSpace(s[k])
    decreases |s| - i
  {
    if i < |s| && IsSpace(s[i]) then FirstNonSpace(s, i + 1) else i
  }

  /** The index just past the last non-whitespace code point before `j`, or
      0 when there is none. */
  function EndOfNonSpace(s: string, j: nat): (k: nat)
    requires j <= |s|
    ensures k <= j
    ensures forall m :: k <= m < j ==> IsSpace(s[m])
    ensures k > 0 ==> !IsSpace(s[k - 1])
  {
    if j > 0 && IsSpace(s[j - 1]) then EndOfNonSpace(s, j - 1) else j
  }

  /** `s.lstrip()`: drops the maximal run of leading whitespace. */
  function StripLeft(s: string): (r: string)
    ensures |r| <= |s| && r == s[|s| - |r|..]
    ensures forall i :: 0 <= i < |s| - |r| ==> IsSpace(s[i])
    ensures r != [] ==> !IsSpace(r[0])
  {
    s[FirstNonSpace(s, 0)..]
  }

  /** `s.rstrip()`: drops the maximal run of trailing whitespace. */
  function StripRight(s: string): (r: string)
    ensures |r| <= |s| && r == s[..|r|]
    ensures forall i :: |r| <= i < |s| ==> IsSpace(s[i])
    ensures r != [] ==> !IsSpace(r[|r| - 1])
  {
    s[..EndOfNonSpace(s, |s|)]
  }

  /** `s.strip()`. */
  function Strip(s: string): (r: string)
  {
    StripRight(StripLeft(s))
  }

  /** The number of maximal runs of non-whitespace in `s`, the length of
      `s.split()`; a run at the head of `s` is counted when `afterSpace`. */
  function WordsFrom(s: string, afterSpace: bool): nat {
    if s == [] then 0
    else (if afterSpace && !IsSpace(s[0]) then 1 else 0) + WordsFrom(s[1..], IsSpace(s[0]))
  }

  /** `len(s.split())`. */
  function WordCount(s: string): nat {
    WordsFrom(s, true)
  }

  /** A whitespace code point separates words: the words on either side of
      it add up. */
  lemma {:induction false} WordsAroundSpace(a: string, c: char, b: string, afterSpace: bool)
    requires IsSpace(c)
    ensures WordsFrom(a + [c] + b, afterSpace) == WordsFrom(a, afterSpace) + WordCount(b)
    decreases |a|
  {
    if a == [] {
      assert a + [c] + b == [c] + b;
      assert ([c] + b)[1..] == b;
    } else {
      assert (a + [c] + b)[1..] == a[1..] + [c] + b;
      WordsAroundSpace(a[1..], c, b, IsSpace(a[0]));
    }
  }

  /** A string of whitespace only has no words. */
  lemma {:induction false} WordsOfSpaces(s: string, afterSpace: bool)
    requires forall i :: 0 <= i < |s| ==> IsSpace(s[i])
    ensures WordsFrom(s, afterSpace) == 0
    decreases |s|
  {
    if s != [] {
      WordsOfSpaces(s[1..], true);
    }
  }

  /** A non-empty run of non-whitespace is one word. */
  lemma {:induction false} WordsOfWord(w: string)
    requires w != [] && forall i :: 0 <= i < |w| ==> !IsSpace(w[i])
    ensures WordCount(w) == 1
  {
    WordsInsideWord(w[1..]);
  }

  lemma {:induction false} WordsInsideWord(w: string)
    requires forall i :: 0 <= i < |w| ==> !IsSpace(w[i])
    ensures WordsFrom(w, false) == 0
    decreases |w|
  {
    if w != [] {
      WordsInsideWord(w[1..]);
    }
  }

  /** ASCII case mapping; other code points are left unchanged. */
  function LowerChar(c: char): char {
    if 'A' <= c <= 'Z' then (c as int + 32) as char else c
  }

  function UpperChar(c: char): char {
    if 'a' <= c <= 'z' then (c as int - 32) as char else c
  }

  /** `s.lower()`, restricted to ASCII letters. */
  function Lower(s: string): (r: string)
    ensures |r| == |s| && forall i :: 0 <= i < |s| ==> r[i] == LowerChar(s[i])
  {
    seq(|s|, i requires 0 <= i < |s| => LowerChar(s[i]))
  }

  /** `s.upper()`, restricted to ASCII letters. */
  function Upper(s: string): (r: string)
    ensures |r| == |s| && forall i :: 0 <= i < |s| ==> r[i] == UpperChar(s[i])
  {
    seq(|s|, i requires 0 <= i < |s| => UpperChar(s[i]))
  }

  /** `t` occurs in `s` starting at index `i`. */
  predicate OccursAt(s: string, t: string, i: int) {
    0 <= i && i + |t| <= |s| && s[i..i + |t|] == t
  }

  /** Python's `t in s` for strings. */
  predicate Contains(s: string, t: string)
    ensures Contains(s, t) <==> exists i :: OccursAt(s, t, i)
  {
    exists i | 0 <= i <= |s| - |t| :: OccursAt(s, t, i)
  }

  /** An occurrence in a part is an occurrence in the whole. */
  lemma ContainsInfix(a: string, t: string, b: string)
    ensures Contains(a + t + b, t)
  {
    assert OccursAt(a + t + b, t, |a|);
  }

  /** A piece with no whitespace at either end survives `strip` wherever it
      stands. */
  lemma StripKeepsInnerPiece(a: string, w: string, b: string)
    requires w != [] && !IsSpace(w[0]) && !IsSpace(w[|w| - 1])
    ensures Contains(Strip(a + w + b), w)
  {
    assert OccursAt(a + w + b, w, |a|) by {
      assert (a + w + b)[|a|..|a| + |w|] == w;
    }
    StripKeepsOccurrence(a + w + b, w, |a|);
  }

  lemma StripKeepsOccurrence(s: string, w: string, p: int)
    requires OccursAt(s, w, p) && w != [] && !IsSpace(w[0]) && !IsSpace(w[|w| - 1])
    ensures Contains(Strip(s), w)
  {
    var lo := StripKeepsBounds(s, w, p);
    ContainsAt(Strip(s), w, p - lo);
  }

  lemma StripKeepsBounds(s: string, w: string, p: int) returns (lo: int)
    requires OccursAt(s, w, p) && w != [] && !IsSpace(w[0]) && !IsSpace(w[|w| - 1])
    ensures OccursAt(Strip(s), w, p - lo)
  {
    lo := StripLeftSlice(s, w, p);
    StripRightSlice(StripLeft(s), w, p - lo);
  }

  lemma StripLeftSlice(s: string, t: string, p: int) returns (lo: int)
    requires OccursAt(s, t, p) && t != [] && !IsSpace(t[0])
    ensures lo <= p && OccursAt(StripLeft(s), t, p - lo)
  {
    var l := StripLeft(s);
    var q := p + |t|;
    lo := |s| - |l|;
    assert lo <= p by {
      assert s[p..q][0] == s[p];
      StripLeftKeeps(s, p);
    }
    assert l[p - lo..q - lo] == s[p..q] by {
      assert l == s[lo..|s|];
      SliceOfSlice(s, lo, |s|, p - lo, q - lo);
    }
  }

  lemma StripRightSlice(l: string, t: string, c: int)
    requires OccursAt(l, t, c) && t != [] && !IsSpace(t[|t| - 1])
    ensures OccursAt(StripRight(l), t, c)
  {
    var d := c + |t|;
    assert !IsSpace(l[d - 1]) by {
      assert l[c..d][|t| - 1] == l[d - 1];
    }
    StripRightKeeps(l, d - 1);
    SliceOfSlice(l, 0, |StripRight(l)|, c, d);
  }

  /** `lstrip` stops at the first non-whitespace code point. */
  lemma StripLeftKeeps(s: string, p: int)
    requires 0 <= p < |s| && !IsSpace(s[p])
    ensures |s| - |StripLeft(s)| <= p
  {
  }

  /** `rstrip` stops at the last non-whitespace code point. */
  lemma StripRightKeeps(s: string, k: int)
    requires 0 <= k < |s| && !IsSpace(s[k])
    ensures k < |StripRight(s)|
  {
  }

  lemma SliceOfSlice(s: string, a: int, b: int, c: int, d: int)
    requires 0 <= a <= b <= |s| && 0 <= c <= d <= b - a
    ensures s[a..b][c..d] == s[a + c..a + d]
  {
    assert |s[a..b][c..d]| == d - c;
    forall i | 0 <= i < d - c
      ensures s[a..b][c..d][i] == s[a + c..a + d][i]
    {
      assert s[a..b][c..d][i] == s[a + c + i];
    }
  }

  lemma ContainsAt(s: string, t: string, i: int)
    requires OccursAt(s, t, i)
    ensures Contains(s, t)
  {
  }

  /** Upper-casing keeps an occurrence, upper-cased. */
  lemma UpperKeepsOccurrence(s: string, t: string)
    requires Contains(s, t)
    ensures Contains(Upper(s), Upper(t))
  {
    var i :| OccursAt(s, t, i);
    assert Upper(s)[i..i + |t|] == Upper(t);
    assert OccursAt(Upper(s), Upper(t), i);
  }

  /** Lower-casing changes no whitespace, so it commutes with `strip`. */
  lemma {:induction false} FirstNonSpaceLower(s: string, i: nat)
    requires i <= |s|
    ensures FirstNonSpace(Lower(s), i) == FirstNonSpace(s, i)
    decreases |s| - i
  {
    if i < |s| && IsSpace(s[i]) {
      FirstNonSpaceLower(s, i + 1);
    }
  }

  lemma {:induction false} EndOfNonSpaceLower(s: string, j: nat)
    requires j <= |s|
    ensures EndOfNonSpace(Lower(s), j) == EndOfNonSpace(s, j)
  {
    if j > 0 && IsSpace(s[j - 1]) {
      EndOfNonSpaceLower(s, j - 1);
    }
  }

  lemma StripLeftLower(s: string)
    ensures StripLeft(Lower(s)) == Lower(StripLeft(s))
  {
    FirstNonSpaceLower(s, 0);
    var k := FirstNonSpace(s, 0);
    assert Lower(s)[k..] == Lower(s[k..]);
  }

  lemma StripRightLower(s: string)
    ensures StripRight(Lower(s)) == Lower(StripRight(s))
  {
    EndOfNonSpaceLower(s, |s|);
    var k := EndOfNonSpace(s, |s|);
    assert Lower(s)[..k] == Lower(s[..k]);
  }

  lemma StripLower(s: string)
    ensures Strip(Lower(s)) == Lower(Strip(s))
  {
    StripLeftLower(s);
    StripRightLower(StripLeft(s));
  }

  /** Upper-casing after lower-casing is upper-casing. */
  lemma UpperLower(s: string)
    ensures Upper(Lower(s)) == Upper(s)
  {
  }

  /** `s.rfind(c)`: the last index holding `c`, or -1. */
  function RFind(s: string, c: char): (r: int)
    ensures -1 <= r < |s|
    ensures r >= 0 ==> s[r] == c
    ensures forall j :: r < j < |s| ==> s[j] != c
  {
    if s == [] then -1
    else if s[|s| - 1] == c then |s| - 1
    else RFind(s[..|s| - 1], c)
  }

  /** Python's `s[:n]`: a negative stop counts from the end. */
  function SliceTo(s: string, n: int): (r: string)
    ensures r <= s
    ensures n >= 0 ==> |r| == if n <= |s| then n else |s|
    ensures n < 0 ==> |r| == if |s| + n >= 0 then |s| + n else 0
  {
    if n >= |s| then s
    else if n >= 0 then s[..n]
    else if |s| + n >= 0 then s[..|s| + n]
    else []
  }

  /** `sep.join(parts)`. */
  function Join(parts: seq<string>, sep: string): string
  {
    if parts == [] then []
    else if |parts| == 1 then parts[0]
    else parts[0] + sep + Join(parts[1..], sep)
  }

  /** Joining one more part adds the separator and that part at the end. */
  lemma {:induction false} JoinSnoc(parts: seq<string>, p: string, sep: string)
    requires parts != []
    ensures Join(parts + [p], sep) == Join(parts, sep) + sep + p
    decreases |parts|
  {
    if |parts| == 1 {
      assert parts + [p] == [parts[0], p];
    } else {
      assert (parts + [p])[1..] == parts[1..] + [p];
      JoinSnoc(parts[1..], p, sep);
    }
  }

  /** The joined string begins with the first part. */
  lemma {:induction false} JoinStartsWithFirst(parts: seq<string>, sep: string)
    requires parts != []
    ensures parts[0] <= Join(parts, sep)
  {
  }

  function DigitChar(d: nat): char
    requires d < 10
  {
    ['0', '1', '2', '3', '4', '5', '6', '7', '8', '9'][d]
  }

  /** An ASCII decimal digit. */
  predicate IsDigit(c: char) {
    '0' <= c <= '9'
  }

  /** `str(n)` for a natural number: decimal digits, no leading zero. */
  function NatToString(n: nat): (r: string)
    ensures r != []
    ensures forall i :: 0 <= i < |r| ==> IsDigit(r[i])
    ensures r[0] == '0' ==> n == 0
  {
    if n < 10 then [DigitChar(n)] else NatToString(n / 10) + [DigitChar(n % 10)]
  }

  /** The number a string of decimal digits denotes. */
  function DigitsValue(s: string): nat
    requires forall i :: 0 <= i < |s| ==> IsDigit(s[i])
  {
    if s == [] then 0
    else
      assert IsDigit(s[|s| - 1]);
      10 * DigitsValue(s[..|s| - 1]) + (s[|s| - 1] as int - '0' as int)
  }

  /** Reading back the decimal text of `n` gives `n`. */
  lemma {:induction false} NatToStringRoundTrip(n: nat)
    ensures DigitsValue(NatToString(n)) == n
  {
    if n >= 10 {
      NatToStringRoundTrip(n / 10);
      var r := NatToString(n);
      assert r[..|r| - 1] == NatToString(n / 10);
    }
  }

  /** Distinct numbers have distinct decimal texts. */
  lemma NatToStringInjective(m: nat, n: nat)
    requires NatToString(m) == NatToString(n)
    ensures m == n
  {
    NatToStringRoundTrip(m);
    NatToStringRoundTrip(n);
  }
}

/**
 * String operations of Python's `str` that the modelled code relies on:
 * `strip`, `split`, `join`, `replace`, `startswith`, `in`, `upper`,
 * `int(...)` on decimal text and `str(n)`. Strings are sequences of
 * Unicode scalar values, as Python's are.
 */
module Text {
  import opened Wrappers

  /**
   * Whitespace as `str.strip()` and `str.isspace()` see it: the characters
   * Unicode classes as space separators (Zs) or as bidirectional
   * whitespace, segment or paragraph separators.
   */
  predicate IsSpace(c: char) {
    || '\U{9}' <= c <= '\U{D}'
    || '\U{1C}' <= c <= '\U{20}'
    || c == '\U{85}' || c == '\U{A0}' || c == '\U{1680}'
    || '\U{2000}' <= c <= '\U{200A}'
    || c == '\U{2028}' || c == '\U{2029}' || c == '\U{202F}' || c == '\U{205F}' || c == '\U{3000}'
  }

  predicate AllSpace(s: string) {
    forall i :: 0 <= i < |s| ==> IsSpace(s[i])
  }

  /** `s.lstrip()`: the longest suffix of `s` that does not start with whitespace. */
  function LStrip(s: string): (r: string)
    ensures |r| <= |s| && r == s[|s| - |r|..]
    ensures r != [] ==> !IsSpace(r[0])
    ensures AllSpace(s[..|s| - |r|])
  {
    if s != [] && IsSpace(s[0]) then
      var t := LStrip(s[1..]);
      assert s[..|s| - |t|] == [s[0]] + s[1..][..|s[1..]| - |t|];
      t
    else s
  }

  /** `s.rstrip()`: the longest prefix of `s` that does not end with whitespace. */
  function RStrip(s: string): (r: string)
    ensures |r| <= |s| && r == s[..|r|]
    ensures r != [] ==> !IsSpace(r[|r| - 1])
    ensures AllSpace(s[|r|..])
  {
    if s != [] && IsSpace(s[|s| - 1]) then
      var t := RStrip(s[..|s| - 1]);
      assert s[|t|..] == s[..|s| - 1][|t|..] + [s[|s| - 1]];
      t
    else s
  }

  /** `s.strip()`. */
  function Strip(s: string): string {
    RStrip(LStrip(s))
  }

  /** Leading whitespace in front of a text that starts with a non-space is what `lstrip` removes. */
  lemma {:induction false} LStripSpacePrefix(pre: string, y: string)
    requires AllSpace(pre) && y != [] && !IsSpace(y[0])
    ensures LStrip(pre + y) == y
  {
    if pre == [] {
      assert pre + y == y;
    } else {
      assert (pre + y)[0] == pre[0];
      assert (pre + y)[1..] == pre[1..] + y;
      LStripSpacePrefix(pre[1..], y);
    }
  }

  /** Trailing whitespace behind a text that ends with a non-space is what `rstrip` removes. */
  lemma {:induction false} RStripSpaceSuffix(y: string, post: string)
    requires AllSpace(post) && y != [] && !IsSpace(y[|y| - 1])
    ensures RStrip(y + post) == y
    decreases |post|
  {
    if post == [] {
      assert y + post == y;
    } else {
      var q := post[..|post| - 1];
      assert (y + post)[|y + post| - 1] == post[|post| - 1];
      assert (y + post)[..|y + post| - 1] == y + q;
      RStripSpaceSuffix(y, q);
    }
  }

  /** Stripping a text framed by whitespace gives back exactly the text. */
  lemma StripFramed(pre: string, x: string, post: string)
    requires AllSpace(pre) && AllSpace(post)
    requires x != [] && !IsSpace(x[0]) && !IsSpace(x[|x| - 1])
    ensures Strip(pre + x + post) == x
  {
    assert pre + x + post == pre + (x + post);
    assert (x + post)[0] == x[0];
    LStripSpacePrefix(pre, x + post);
    RStripSpaceSuffix(x, post);
  }

  /** `lstrip` stops at the first non-space at the latest. */
  lemma LStripStopsAt(s: string, j: nat)
    requires j < |s| && !IsSpace(s[j])
    ensures |s| - |LStrip(s)| <= j
  {
    var cut := |s| - |LStrip(s)|;
    forall i | 0 <= i < cut
      ensures IsSpace(s[i])
    {
      assert s[..cut][i] == s[i];
    }
  }

  /** `rstrip` keeps every character up to the last non-space. */
  lemma RStripKeepsUpTo(s: string, k: nat)
    requires k < |s| && !IsSpace(s[k])
    ensures k < |RStrip(s)|
  {
    var r := RStrip(s);
    forall i | |r| <= i < |s|
      ensures IsSpace(s[i])
    {
      assert s[|r|..][i - |r|] == s[i];
    }
  }

  /** `strip` keeps a window of the text that starts inside `a` and ends after `x`. */
  lemma StripWindow(a: string, x: string, b: string) returns (cut: nat, n: nat)
    requires !AllSpace(a)
    requires !AllSpace(b) || (x != [] && !IsSpace(x[|x| - 1]))
    ensures cut <= |a| && |a| + |x| <= cut + n <= |a + x + b|
    ensures Strip(a + x + b) == (a + x + b)[cut..][..n]
  {
    var s := a + x + b;
    cut := LStripCutsInside(a, x + b);
    assert s == a + (x + b);
    RStripKeepsTail(a, x, b, cut);
    n := |RStrip(s[cut..])|;
  }

  /**
   * Stripping keeps whatever lies between a non-space in front of it and,
   * behind it, a non-space or its own non-space last character.
   */
  lemma StripKeepsInner(a: string, x: string, b: string)
    requires !AllSpace(a)
    requires !AllSpace(b) || (x != [] && !IsSpace(x[|x| - 1]))
    ensures Contains(Strip(a + x + b), x)
  {
    var s := a + x + b;
    var cut, n := StripWindow(a, x, b);
    assert s[|a|..|a| + |x|] == x;
    OccursInWindow(s, cut, n, |a|, x);
  }

  /** `lstrip` of a text whose head holds a non-space cuts inside that head. */
  lemma LStripCutsInside(a: string, y: string) returns (cut: nat)
    requires !AllSpace(a)
    ensures cut <= |a| && LStrip(a + y) == (a + y)[cut..]
  {
    var s := a + y;
    var j :| 0 <= j < |a| && !IsSpace(a[j]);
    assert s[j] == a[j];
    LStripStopsAt(s, j);
    cut := |s| - |LStrip(s)|;
  }

  /** Behind a cut made inside `a`, `rstrip` keeps all of `x`. */
  lemma RStripKeepsTail(a: string, x: string, b: string, cut: nat)
    requires cut <= |a|
    requires !AllSpace(b) || (x != [] && !IsSpace(x[|x| - 1]))
    ensures |a| + |x| - cut <= |RStrip((a + x + b)[cut..])|
  {
    var s := a + x + b;
    var l := s[cut..];
    var end := |a| + |x| - cut;
    if !AllSpace(b) {
      var m :| 0 <= m < |b| && !IsSpace(b[m]);
      assert l[end + m] == s[|a| + |x| + m] == b[m];
      RStripKeepsUpTo(l, end + m);
    } else {
      assert l[end - 1] == s[|a| + |x| - 1] == x[|x| - 1];
      RStripKeepsUpTo(l, end - 1);
    }
  }

  /** What occurs in `s` inside the window `s[cut..cut + n]` occurs in that window. */
  lemma OccursInWindow(s: string, cut: nat, n: nat, p: nat, x: string)
    requires cut <= p && p + |x| <= cut + n && cut + n <= |s|
    requires s[p..p + |x|] == x
    ensures OccursAt(s[cut..][..n], x, p - cut)
  {
    var w := s[cut..][..n];
    assert w == s[cut..cut + n];
    assert w[p - cut..p - cut + |x|] == s[p..p + |x|];
  }

  /** `x` occurs in `s` at position `k`. */
  predicate OccursAt(s: string, x: string, k: nat) {
    k + |x| <= |s| && s[k..k + |x|] == x
  }

  /** `x in s` for strings: `x` occurs as a contiguous piece of `s`. */
  predicate Contains(s: string, x: string) {
    exists k: nat | k <= |s| :: OccursAt(s, x, k)
  }

  lemma ContainsMiddle(a: string, x: string, b: string)
    ensures Contains(a + x + b, x)
  {
    assert (a + x + b)[|a|..|a| + |x|] == x;
    assert OccursAt(a + x + b, x, |a|);
  }

  /** Occurrence is transitive: a piece of a piece of `t` is a piece of `t`. */
  lemma ContainsTrans(t: string, s: string, x: string)
    requires Contains(t, s) && Contains(s, x)
    ensures Contains(t, x)
  {
    var k: nat :| k <= |t| && OccursAt(t, s, k);
    var j: nat :| j <= |s| && OccursAt(s, x, j);
    assert forall i :: 0 <= i < |x| ==> x[i] == s[j + i] == t[k + j + i];
    assert OccursAt(t, x, k + j);
  }

  predicate StartsWith(s: string, p: string) {
    |p| <= |s| && s[..|p|] == p
  }

  predicate EndsWith(s: string, p: string) {
    |p| <= |s| && s[|s| - |p|..] == p
  }

  /** Number of occurrences of the character `c` in `s`. */
  function CountChar(s: string, c: char): (n: nat)
    ensures n <= |s|
    ensures n == 0 <==> c !in s
  {
    if s == [] then 0
    else CountChar(s[..|s| - 1], c) + (if s[|s| - 1] == c then 1 else 0)
  }

  lemma {:induction false} CountCharConcat(a: string, b: string, c: char)
    ensures CountChar(a + b, c) == CountChar(a, c) + CountChar(b, c)
    decreases |b|
  {
    if b != [] {
      assert (a + b)[..|a + b| - 1] == a + b[..|b| - 1];
      CountCharConcat(a, b[..|b| - 1], c);
    } else {
      assert a + b == a;
    }
  }

  // ---------------------------------------------------------------- digits

  predicate IsDigit(c: char) { '0' <= c <= '9' }

  predicate AllDigits(s: string) {
    forall i :: 0 <= i < |s| ==> IsDigit(s[i])
  }

  function DigitChar(d: nat): (c: char)
    requires d < 10
    ensures IsDigit(c)
  {
    ('0' as int + d) as char
  }

  function DigitValue(c: char): (d: nat)
    requires IsDigit(c)
    ensures d < 10 && DigitChar(d) == c
  {
    (c as int - '0' as int) as nat
  }

  /** `str(n)` for a natural number: its decimal digits, without leading zeros. */
  function NatToString(n: nat): (s: string)
    ensures s != [] && AllDigits(s)
    ensures |s| > 1 ==> s[0] != '0'
  {
    if n < 10 then [DigitChar(n)] else NatToString(n / 10) + [DigitChar(n % 10)]
  }

  /** The value of a string of decimal digits. */
  function DigitsValue(s: string): nat
    requires AllDigits(s)
  {
    if s == [] then 0 else 10 * DigitsValue(s[..|s| - 1]) + DigitValue(s[|s| - 1])
  }

  /** The value of two digits. */
  lemma DigitsValueTwo(a: char, b: char)
    requires IsDigit(a) && IsDigit(b)
    ensures DigitsValue([a, b]) == 10 * DigitValue(a) + DigitValue(b)
  {
    var s := [a, b];
    assert s[..|s| - 1] == [a] && [a][..0] == [];
    assert DigitsValue([a]) == DigitValue(a);
  }

  /** Reading back what `str(n)` wrote gives `n`. */
  lemma {:induction false} DigitsValueOfNatToString(n: nat)
    ensures DigitsValue(NatToString(n)) == n
  {
    if n >= 10 {
      var s := NatToString(n);
      assert s[..|s| - 1] == NatToString(n / 10);
      DigitsValueOfNatToString(n / 10);
    }
  }

  /**
   * `int(s)` on text: optional surrounding whitespace, an optional sign,
   * then one or more ASCII digits; anything else is a ValueError (None).
   */
  function ParseInt(s: string): (r: Option<int>)
    ensures r.Some? ==> Strip(s) != []
    ensures AllDigits(Strip(s)) && Strip(s) != [] ==> r == Some(DigitsValue(Strip(s)))
  {
    var t := Strip(s);
    if t == [] then None
    else if (t[0] == '-' || t[0] == '+') && |t| > 1 && AllDigits(t[1..]) then
      var v: int := DigitsValue(t[1..]);
      Some(if t[0] == '-' then -v else v)
    else if AllDigits(t) then Some(DigitsValue(t))
    else None
  }

  /** A plain run of digits parses to its value. */
  lemma ParseIntDigits(s: string)
    requires s != [] && AllDigits(s)
    ensures ParseInt(s) == Some(DigitsValue(s))
  {
    var e: string := [];
    assert IsDigit(s[0]) && IsDigit(s[|s| - 1]);
    StripFramed(e, s, e);
    assert e + s + e == s;
  }

  /** `int(str(n))` is `n`: the decimal rendering of a number parses back to it. */
  lemma ParseIntOfNatToString(n: nat)
    ensures ParseInt(NatToString(n)) == Some(n)
  {
    ParseIntDigits(NatToString(n));
    DigitsValueOfNatToString(n);
  }

  /** `str(n)` for any integer: a minus sign in front of a negative one. */
  function IntToString(n: int): (s: string)
    ensures s != [] && !IsSpace(s[0]) && !IsSpace(s[|s| - 1])
  {
    if n < 0 then "-" + NatToString(-n) else NatToString(n)
  }

  /** A minus sign and digits have nothing to strip. */
  lemma StripSigned(digits: string)
    requires digits != [] && AllDigits(digits)
    ensures Strip("-" + digits) == "-" + digits
  {
    var t := "-" + digits;
    var e: string := [];
    assert IsDigit(t[|t| - 1]);
    StripFramed(e, t, e);
    assert e + t + e == t;
  }

  /** `int(str(n))` is `n` for every integer. */
  lemma ParseIntOfIntToString(n: int)
    ensures ParseInt(IntToString(n)) == Some(n)
  {
    if n >= 0 {
      ParseIntOfNatToString(n);
    } else {
      var digits := NatToString(-n);
      assert IntToString(n) == "-" + digits;
      ParseIntSigned(digits);
      DigitsValueOfNatToString(-n);
    }
  }

  /** A minus sign before digits reads as the negated value. */
  lemma ParseIntSigned(digits: string)
    requires digits != [] && AllDigits(digits)
    ensures ParseInt("-" + digits) == Some(-(DigitsValue(digits) as int))
  {
    var t := "-" + digits;
    assert t[0] == '-' && t[1..] == digits;
    assert Strip(t) == t by { StripSigned(digits); }
  }


  // ---------------------------------------------------------------- pieces

  /** The pieces of a text put one after another (an f-string, a run of `+=`). */
  function Concat(parts: seq<string>): string {
    if parts == [] then [] else Concat(parts[..|parts| - 1]) + parts[|parts| - 1]
  }

  /** Two runs of pieces put together. */
  lemma {:induction false} ConcatAppend(a: seq<string>, b: seq<string>)
    ensures Concat(a + b) == Concat(a) + Concat(b)
    decreases |b|
  {
    if b == [] {
      assert a + b == a;
    } else {
      var c := b[..|b| - 1];
      assert (a + b)[..|a + b| - 1] == a + c;
      assert (a + b)[|a + b| - 1] == b[|b| - 1];
      assert Concat(a + b) == Concat(a + c) + b[|b| - 1];
      ConcatAppend(a, c);
      assert Concat(b) == Concat(c) + b[|b| - 1];
    }
  }

  /** Every piece stands in the text, after the pieces before it and before the ones after it. */
  lemma ConcatPart(parts: seq<string>, i: int)
    requires 0 <= i < |parts|
    ensures Concat(parts) == Concat(parts[..i]) + parts[i] + Concat(parts[i + 1..])
  {
    var pre, mid, post := parts[..i], [parts[i]], parts[i + 1..];
    SplitAround(parts, i);
    ConcatAppend(pre + mid, post);
    ConcatAppend(pre, mid);
    assert Concat(mid) == parts[i] by {
      assert mid[..0] == [];
    }
  }

  lemma SplitAround<T>(s: seq<T>, i: int)
    requires 0 <= i < |s|
    ensures s == (s[..i] + [s[i]]) + s[i + 1..]
  {
  }

  /** Every piece occurs in the text. */
  lemma ConcatContains(parts: seq<string>, i: int)
    requires 0 <= i < |parts|
    ensures Contains(Concat(parts), parts[i])
  {
    ConcatPart(parts, i);
    ContainsMiddle(Concat(parts[..i]), parts[i], Concat(parts[i + 1..]));
  }

  /** A text whose first piece holds a non-space is not blank. */
  lemma ConcatNotBlank(parts: seq<string>)
    requires parts != [] && !AllSpace(parts[0])
    ensures !AllSpace(Concat(parts))
  {
    ConcatPart(parts, 0);
    var k :| 0 <= k < |parts[0]| && !IsSpace(parts[0][k]);
    assert Concat(parts)[k] == parts[0][k];
  }

  /** The first character of a text is that of its first piece. */
  lemma ConcatFirst(parts: seq<string>)
    requires parts != [] && parts[0] != []
    ensures Concat(parts) != [] && Concat(parts)[0] == parts[0][0]
  {
    ConcatPart(parts, 0);
  }

  lemma ConcatThree(a: string, b: string, c: string)
    ensures Concat([a, b, c]) == a + b + c
  {
    assert [a, b, c][..2] == [a, b] && [a, b][..1] == [a] && [a][..0] == [];
    assert Concat([a]) == a;
    assert Concat([a, b]) == a + b;
  }

  lemma ConcatFour(a: string, b: string, c: string, d: string)
    ensures Concat([a, b, c, d]) == a + b + c + d
  {
    assert [a, b, c, d][..3] == [a, b, c];
    assert Concat([a, b, c, d]) == Concat([a, b, c]) + d;
    ConcatThree(a, b, c);
  }

  /** Appending is associative; stated so a proof can regroup in one step. */
  lemma AppendAssoc(p: string, x: string, y: string)
    ensures p + (x + y) == (p + x) + y
  {
  }

  /** A text holding a non-space still holds it with more text on either side. */
  lemma NotBlankAround(a: string, x: string, b: string)
    requires !AllSpace(x)
    ensures !AllSpace(a + x + b)
  {
    var k :| 0 <= k < |x| && !IsSpace(x[k]);
    assert (a + x + b)[|a| + k] == x[k];
  }

  /**
   * Stripping keeps a middle text when a non-space comes before it and one
   * comes after it (in what follows, or as its own last character).
   */
  lemma StripKeepsMiddle(pre: string, x: string, post: string, tail: string)
    requires !AllSpace(pre)
    requires !AllSpace(post) || !AllSpace(tail) || (x != [] && !IsSpace(x[|x| - 1]))
    ensures Contains(Strip(pre + x + post + tail), x)
  {
    if !AllSpace(post) {
      NotBlankAround([], post, tail);
      assert [] + post + tail == post + tail;
    } else if !AllSpace(tail) {
      NotBlankAround(post, tail, []);
      assert post + tail + [] == post + tail;
    }
    assert pre + x + post + tail == pre + x + (post + tail);
    StripKeepsInner(pre, x, post + tail);
  }

  /**
   * Stripping a text keeps each inner piece when a non-space comes before
   * it and one comes after it (in a later piece, in what follows the
   * text, or as the piece's own last character).
   */
  lemma StripKeepsPiece(parts: seq<string>, k: int, tail: string)
    requires 0 < k < |parts| && !AllSpace(parts[0])
    requires (k + 1 < |parts| && !AllSpace(parts[k + 1])) || !AllSpace(tail)
             || (parts[k] != [] && !IsSpace(parts[k][|parts[k]| - 1]))
    ensures Contains(Strip(Concat(parts) + tail), parts[k])
  {
    var pre, post := Concat(parts[..k]), Concat(parts[k + 1..]);
    assert Concat(parts) == pre + parts[k] + post by {
      ConcatPart(parts, k);
    }
    assert !AllSpace(pre) by {
      assert parts[..k][0] == parts[0];
      ConcatNotBlank(parts[..k]);
    }
    assert !AllSpace(post) || !AllSpace(tail) || (parts[k] != [] && !IsSpace(parts[k][|parts[k]| - 1])) by {
      if k + 1 < |parts| && !AllSpace(parts[k + 1]) {
        assert parts[k + 1..][0] == parts[k + 1];
        ConcatNotBlank(parts[k + 1..]);
      }
    }
    StripKeepsMiddle(pre, parts[k], post, tail);
  }

  // ---------------------------------------------------------------- split / join

  /** Position of the first `c` in `s`. */
  function IndexOf(s: string, c: char): (k: nat)
    requires c in s
    ensures k < |s| && s[k] == c && c !in s[..k]
  {
    if s[0] == c then 0 else 1 + IndexOf(s[1..], c)
  }

  /** `sep.join(parts)` for a one-character separator. */
  function Join(parts: seq<string>, sep: char): string
    requires parts != []
  {
    if |parts| == 1 then parts[0] else parts[0] + [sep] + Join(parts[1..], sep)
  }

  /** `sep.join(parts)` for a separator string; every part appears in the result. */
  function JoinWith(parts: seq<string>, sep: string): (r: string)
    ensures |parts| == 1 ==> r == parts[0]
    ensures forall i :: 0 <= i < |parts| ==> Contains(r, parts[i])
  {
    if parts == [] then []
    else if |parts| == 1 then
      ContainsMiddle([], parts[0], []);
      assert [] + parts[0] + [] == parts[0];
      parts[0]
    else
      var rest := JoinWith(parts[1..], sep);
      var r := parts[0] + sep + rest;
      ContainsMiddle([], parts[0], sep + rest);
      assert [] + parts[0] + (sep + rest) == r;
      ContainsMiddle(parts[0] + sep, rest, []);
      assert parts[0] + sep + rest + [] == r;
      forall i | 1 <= i < |parts|
        ensures Contains(r, parts[i])
      {
        assert parts[1..][i - 1] == parts[i];
        ContainsTrans(r, rest, parts[i]);
      }
      r
  }

  /**
   * `s.split(sep)` for a one-character separator: the pieces between
   * separators, empty ones included, so that joining them back gives `s`.
   */
  function Split(s: string, sep: char): (parts: seq<string>)
    ensures parts != []
    ensures forall i :: 0 <= i < |parts| ==> sep !in parts[i]
    ensures Join(parts, sep) == s
    decreases |s|
  {
    if sep !in s then [s]
    else
      var k := IndexOf(s, sep);
      var rest := Split(s[k + 1..], sep);
      assert s == s[..k] + [sep] + s[k + 1..];
      [s[..k]] + rest
  }

  /** Splitting is the only way to cut `s` at every separator: any such cut equals Split. */
  lemma {:induction false} SplitUnique(parts: seq<string>, sep: char)
    requires parts != []
    requires forall i :: 0 <= i < |parts| ==> sep !in parts[i]
    ensures Split(Join(parts, sep), sep) == parts
    decreases |parts|
  {
    var s := Join(parts, sep);
    if |parts| == 1 {
    } else {
      var rest := Join(parts[1..], sep);
      assert s == parts[0] + [sep] + rest;
      assert sep in s by { assert s[|parts[0]|] == sep; }
      var k := IndexOf(s, sep);
      assert forall i :: 0 <= i < |parts[0]| ==> s[i] == parts[0][i];
      assert k >= |parts[0]|;
      assert forall i :: 0 <= i < k ==> s[..k][i] == s[i];
      assert k <= |parts[0]|;
      assert s[..k] == parts[0];
      assert s[k + 1..] == rest;
      SplitUnique(parts[1..], sep);
    }
  }

  // ---------------------------------------------------------------- replace

  /**
   * `s.replace(pat, rep)`: every occurrence of `pat`, found left to right
   * and without overlap, is replaced by `rep`; the result is not rescanned.
   */
  function ReplaceAll(s: string, pat: string, rep: string): string
    requires pat != []
    decreases |s|
  {
    if |s| < |pat| then s
    else if s[..|pat|] == pat then rep + ReplaceAll(s[|pat|..], pat, rep)
    else [s[0]] + ReplaceAll(s[1..], pat, rep)
  }

  /** Replacing text that does not mention `c` by text that does not mention `c` keeps the count of `c`. */
  lemma {:induction false} ReplaceAllKeepsCount(s: string, pat: string, rep: string, c: char)
    requires pat != [] && c !in pat && c !in rep
    ensures CountChar(ReplaceAll(s, pat, rep), c) == CountChar(s, c)
    decreases |s|
  {
    if |s| < |pat| {
    } else if s[..|pat|] == pat {
      var rest := s[|pat|..];
      assert CountChar(ReplaceAll(s, pat, rep), c) == CountChar(rest, c) by {
        ReplaceAllKeepsCount(rest, pat, rep, c);
        CountCharConcat(rep, ReplaceAll(rest, pat, rep), c);
      }
      assert CountChar(s, c) == CountChar(rest, c) by {
        assert s == pat + rest;
        CountCharConcat(pat, rest, c);
      }
    } else {
      var rest := s[1..];
      assert CountChar(ReplaceAll(s, pat, rep), c) == CountChar([s[0]], c) + CountChar(rest, c) by {
        ReplaceAllKeepsCount(rest, pat, rep, c);
        CountCharConcat([s[0]], ReplaceAll(rest, pat, rep), c);
      }
      assert CountChar(s, c) == CountChar([s[0]], c) + CountChar(rest, c) by {
        assert s == [s[0]] + rest;
        CountCharConcat([s[0]], rest, c);
      }
    }
  }

  /** A text without `pat` is left as it is. */
  lemma {:induction false} ReplaceAllAbsent(s: string, pat: string, rep: string)
    requires pat != [] && !Contains(s, pat)
    ensures ReplaceAll(s, pat, rep) == s
    decreases |s|
  {
    if |s| >= |pat| {
      assert !OccursAt(s, pat, 0);
      forall k: nat | OccursAt(s[1..], pat, k)
        ensures OccursAt(s, pat, k + 1)
      {
        assert s[k + 1..k + 1 + |pat|] == s[1..][k..k + |pat|];
      }
      ReplaceAllAbsent(s[1..], pat, rep);
    }
  }

  // ---------------------------------------------------------------- case, order

  /** ASCII upper-casing, one character. */
  function UpperChar(c: char): char {
    if 'a' <= c <= 'z' then (c as int - 32) as char else c
  }

  /** `s.upper()` restricted to ASCII letters. */
  function Upper(s: string): (r: string)
    ensures |r| == |s|
    ensures forall i :: 0 <= i < |s| ==> r[i] == UpperChar(s[i])
  {
    if s == [] then [] else [UpperChar(s[0])] + Upper(s[1..])
  }

  /** Lexicographic order on strings by code point (SQLite's BINARY collation on UTF-8 agrees). */
  predicate LexLe(a: string, b: string) {
    if a == [] then true
    else if b == [] then false
    else if a[0] != b[0] then a[0] < b[0]
    else LexLe(a[1..], b[1..])
  }

  lemma {:induction false} LexLeTotal(a: string, b: string)
    ensures LexLe(a, b) || LexLe(b, a)
  {
    if a != [] && b != [] && a[0] == b[0] {
      LexLeTotal(a[1..], b[1..]);
    }
  }

  lemma {:induction false} LexLeTrans(a: string, b: string, c: string)
    requires LexLe(a, b) && LexLe(b, c)
    ensures LexLe(a, c)
  {
    if a != [] && b != [] && c != [] && a[0] == b[0] && b[0] == c[0] {
      LexLeTrans(a[1..], b[1..], c[1..]);
    }
  }
}

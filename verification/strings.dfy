/** String helpers shared by the prompt builder, the sentinel check and the
    progress keys. Characters are Dafny `char`s; case mapping is ASCII-only. */
module Strings {

  /** `p` is a prefix of `s` (JavaScript `s.startsWith(p)`). */
  predicate StartsWith(s: string, p: string) {
    |p| <= |s| && s[..|p|] == p
  }

  /** `p` is a suffix of `s` (JavaScript `s.endsWith(p)`). */
  predicate EndsWith(s: string, p: string) {
    |p| <= |s| && s[|s| - |p|..] == p
  }

  /** `t` occurs in `s` at position `i`. */
  predicate OccursAt(s: string, t: string, i: int) {
    0 <= i && i + |t| <= |s| && s[i..i + |t|] == t
  }

  /** `t` occurs somewhere in `s` (JavaScript `s.includes(t)`). */
  predicate Contains(s: string, t: string) {
    exists i | 0 <= i <= |s| - |t| :: OccursAt(s, t, i)
  }

  /** ASCII upper-casing of one character. */
  function UpperChar(c: char): char {
    if 'a' <= c <= 'z' then (c as int - 32) as char else c
  }

  /** ASCII lower-casing of one character. */
  function LowerChar(c: char): char {
    if 'A' <= c <= 'Z' then (c as int + 32) as char else c
  }

  /** ASCII model of `toUpperCase`: every character is mapped on its own. */
  function Upper(s: string): (r: string)
    ensures |r| == |s|
    ensures forall i :: 0 <= i < |s| ==> r[i] == UpperChar(s[i])
  {
    seq(|s|, i requires 0 <= i < |s| => UpperChar(s[i]))
  }

  /** ASCII model of `toLowerCase`. */
  function Lower(s: string): (r: string)
    ensures |r| == |s|
    ensures forall i :: 0 <= i < |s| ==> r[i] == LowerChar(s[i])
  {
    seq(|s|, i requires 0 <= i < |s| => LowerChar(s[i]))
  }

  /** Upper-cased text has no ASCII lower-case letter left, and upper-casing
      forgets whether a letter was typed in lower or upper case. */
  lemma UpperOfLower(s: string)
    ensures Upper(Lower(s)) == Upper(s)
    ensures Upper(Upper(s)) == Upper(s)
  {
  }

  /** Characters removed by `String.prototype.trim` (WhiteSpace and
      LineTerminator, sections 12.2 and 12.3 of ECMA-262): ASCII white
      space, the no-break space, the byte-order mark, the two Unicode line
      breaks and the other space separators of Unicode category Zs. */
  predicate IsSpace(c: char) {
    c == ' ' || c == '\t' || c == '\n' || c == '\r' || c == '\U{B}' || c == '\U{C}'
    || c == '\U{A0}' || c == '\U{FEFF}' || c == '\U{2028}' || c == '\U{2029}'
    || c == '\U{1680}' || ('\U{2000}' <= c <= '\U{200A}') || c == '\U{202F}'
    || c == '\U{205F}' || c == '\U{3000}'
  }

  predicate NoSpace(t: string) {
    forall k :: 0 <= k < |t| ==> !IsSpace(t[k])
  }

  /** Index of the first character that is not white space. */
  function TrimStartIndex(s: string): (i: nat)
    ensures i <= |s|
    ensures forall k :: 0 <= k < i ==> IsSpace(s[k])
    ensures i < |s| ==> !IsSpace(s[i])
    decreases |s|
  {
    if |s| == 0 || !IsSpace(s[0]) then 0 else 1 + TrimStartIndex(s[1..])
  }

  /** Index just past the last character that is not white space. */
  function TrimEndIndex(s: string): (j: nat)
    ensures j <= |s|
    ensures forall k :: j <= k < |s| ==> IsSpace(s[k])
    ensures 0 < j ==> !IsSpace(s[j - 1])
    decreases |s|
  {
    if |s| == 0 || !IsSpace(s[|s| - 1]) then |s| else TrimEndIndex(s[..|s| - 1])
  }

  /** `s.trim()`: the slice between the leading and the trailing white space. */
  function Trim(s: string): (r: string)
    ensures |r| <= |s|
    ensures |r| == 0 || (!IsSpace(r[0]) && !IsSpace(r[|r| - 1]))
    ensures exists i, j :: 0 <= i <= j <= |s| && r == s[i..j]
                           && (forall k :: 0 <= k < i ==> IsSpace(s[k]))
                           && (forall k :: j <= k < |s| ==> IsSpace(s[k]))
  {
    var i := TrimStartIndex(s);
    var rest := s[i..];
    var j := TrimEndIndex(rest);
    assert rest[..j] == s[i..i + j];
    s[i..i + j]
  }

  /** An occurrence inside a slice is an occurrence in the whole text. */
  lemma ContainsOfSlice(s: string, i: int, j: int, t: string)
    requires 0 <= i <= j <= |s|
    requires Contains(s[i..j], t)
    ensures Contains(s, t)
  {
    var w := s[i..j];
    var p :| 0 <= p <= |w| - |t| && OccursAt(w, t, p);
    var outer, inner := s[i + p..i + p + |t|], w[p..p + |t|];
    assert forall k | 0 <= k < |t| :: outer[k] == inner[k];
    assert outer == inner;
    assert OccursAt(s, t, i + p);
  }

  /** Cutting white space off both ends of a text never loses an occurrence
      of a word that contains no white space. */
  lemma ContainsIgnoresSurroundingSpace(s: string, i: int, j: int, t: string)
    requires 0 <= i <= j <= |s|
    requires forall k :: 0 <= k < i ==> IsSpace(s[k])
    requires forall k :: j <= k < |s| ==> IsSpace(s[k])
    requires |t| > 0 && NoSpace(t)
    ensures Contains(s[i..j], t) <==> Contains(s, t)
  {
    if Contains(s[i..j], t) {
      ContainsOfSlice(s, i, j, t);
    }
    if Contains(s, t) {
      var p :| 0 <= p <= |s| - |t| && OccursAt(s, t, p);
      assert s[p] == t[0] && !IsSpace(t[0]);
      assert s[p + |t| - 1] == t[|t| - 1] && !IsSpace(t[|t| - 1]);
      assert i <= p && p + |t| <= j;
      var w := s[i..j];
      var inner, outer := w[p - i..p - i + |t|], s[p..p + |t|];
      assert forall k | 0 <= k < |t| :: inner[k] == outer[k];
      assert inner == outer;
      assert OccursAt(w, t, p - i);
    }
  }

  /** Trimming, then upper-casing, finds a space-free word exactly when
      upper-casing alone does. */
  lemma UpperTrimContains(s: string, t: string)
    requires |t| > 0 && NoSpace(t)
    ensures Contains(Upper(Trim(s)), t) <==> Contains(Upper(s), t)
  {
    var i, j :| 0 <= i <= j <= |s| && Trim(s) == s[i..j]
                && (forall k :: 0 <= k < i ==> IsSpace(s[k]))
                && (forall k :: j <= k < |s| ==> IsSpace(s[k]));
    UpperSlice(s, i, j);
    UpperKeepsSpace(s, i, j);
    ContainsIgnoresSurroundingSpace(Upper(s), i, j, t);
  }

  lemma UpperSlice(s: string, i: int, j: int)
    requires 0 <= i <= j <= |s|
    ensures Upper(s[i..j]) == Upper(s)[i..j]
  {
  }

  /** Upper-casing leaves white space where it was. */
  lemma UpperKeepsSpace(s: string, i: int, j: int)
    requires 0 <= i <= j <= |s|
    requires forall k :: 0 <= k < i ==> IsSpace(s[k])
    requires forall k :: j <= k < |s| ==> IsSpace(s[k])
    ensures forall k :: 0 <= k < i ==> IsSpace(Upper(s)[k])
    ensures forall k :: j <= k < |s| ==> IsSpace(Upper(s)[k])
  {
    var u := Upper(s);
    forall k | 0 <= k < i || j <= k < |s|
      ensures IsSpace(u[k])
    {
      assert IsSpace(s[k]);
      assert u[k] == UpperChar(s[k]) == s[k];
    }
  }

  /** A word found in a piece is found in any text that embeds the piece. */
  lemma ContainsInMiddle(a: string, m: string, b: string, t: string)
    requires Contains(m, t)
    ensures Contains(a + m + b, t)
  {
    var p :| 0 <= p <= |m| - |t| && OccursAt(m, t, p);
    assert (a + m + b)[|a| + p..|a| + p + |t|] == m[p..p + |t|];
    assert OccursAt(a + m + b, t, |a| + p);
  }

  /** Two texts that share everything but a middle piece are equal exactly
      when the middle pieces are. */
  lemma MiddleInjective(x: string, m1: string, m2: string, y: string)
    ensures x + m1 + y == x + m2 + y <==> m1 == m2
  {
    if x + m1 + y == x + m2 + y {
      var s1, s2 := x + m1 + y, x + m2 + y;
      assert |m1| == |m2|;
      assert m1 == s1[|x|..|x| + |m1|];
      assert m2 == s2[|x|..|x| + |m2|];
    }
  }

  /** The same, with the middle piece behind a fixed opening inside a
      suffix. */
  lemma MiddleInjectiveAfter(d: string, o: string, m1: string, m2: string, y: string)
    ensures d + (o + m1 + y) == d + (o + m2 + y) <==> m1 == m2
  {
    assert d + (o + m1 + y) == (d + o) + m1 + y;
    assert d + (o + m2 + y) == (d + o) + m2 + y;
    MiddleInjective(d + o, m1, m2, y);
  }

  /** Upper-casing works character by character, so it distributes over
      concatenation. */
  lemma UpperAppend(a: string, b: string)
    ensures Upper(a + b) == Upper(a) + Upper(b)
  {
  }

  /** A text starts with any of its prefixes, and anything found in the
      prefix is found in the whole. */
  lemma PrefixOfAppend(a: string, b: string, t: string)
    ensures StartsWith(a + b, a)
    ensures Contains(a, t) ==> Contains(a + b, t)
  {
    assert (a + b)[..|a|] == a;
    if Contains(a, t) {
      ContainsInMiddle("", a, b, t);
      assert "" + a + b == a + b;
    }
  }

  /** Where the pieces of a three-part text sit. */
  lemma ThreePieces(a: string, b: string, c: string)
    ensures StartsWith(a + b + c, a)
    ensures EndsWith(a + b + c, c)
    ensures c == "" ==> EndsWith(a + b + c, b)
    ensures b == "" && c == "" ==> a + b + c == a
  {
    var r := a + b + c;
    assert r[..|a|] == a;
    assert r[|r| - |c|..] == c;
    assert r[|r| - |b| - |c|..] == b + c;
  }

  lemma EmptyPadding(t: string)
    ensures "" + t + "" == t
  {
  }

  lemma ContainsSelf(t: string)
    ensures Contains(t, t)
  {
    assert OccursAt(t, t, 0);
  }

  /** `xs.join(sep)`. */
  function Join(xs: seq<string>, sep: string): (r: string)
    ensures |xs| == 0 ==> r == ""
    ensures |xs| == 1 ==> r == xs[0]
    ensures |xs| > 0 ==> StartsWith(r, xs[0])
  {
    if |xs| == 0 then ""
    else if |xs| == 1 then xs[0]
    else xs[0] + sep + Join(xs[1..], sep)
  }

  /** Number of occurrences of character `c` in `s`. */
  function CountChar(s: string, c: char): nat
  {
    if |s| == 0 then 0 else (if s[0] == c then 1 else 0) + CountChar(s[1..], c)
  }

  lemma {:induction false} CountCharAppend(a: string, b: string, c: char)
    ensures CountChar(a + b, c) == CountChar(a, c) + CountChar(b, c)
    decreases |a|
  {
    if |a| == 0 {
      assert a + b == b;
    } else {
      assert (a + b)[1..] == a[1..] + b;
      CountCharAppend(a[1..], b, c);
    }
  }

  lemma {:induction false} CountCharZero(s: string, c: char)
    ensures CountChar(s, c) == 0 <==> (forall k :: 0 <= k < |s| ==> s[k] != c)
    decreases |s|
  {
    if |s| > 0 {
      CountCharZero(s[1..], c);
      assert forall k :: 1 <= k < |s| ==> s[k] == s[1..][k - 1];
    }
  }
}

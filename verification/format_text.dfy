/** `formatTextToHtml` of components/ContentGenerator.tsx: `**bold**` and
    `*italic*` spans become `<strong>` and `<em>`, then every newline becomes
    `<br />`. The two regular expressions are global and lazy, and their `.`
    does not match a line terminator, so a span never crosses a line. */
module FormatText {
  import opened Types
  import opened Strings

  /** The characters a regular-expression `.` does not match. */
  predicate IsLineTerminator(c: char) {
    c == '\n' || c == '\r' || c == '\U{2028}' || c == '\U{2029}'
  }

  /** The delimiter `d` occurs in `s` at position `m`. */
  predicate DelimAt(s: string, m: int, d: string) {
    0 <= m && m + |d| <= |s| && s[m..m + |d|] == d
  }

  /** Where the lazy `(.*?)` after an opening delimiter at position 0 stops:
      the first position `k >= j` where the delimiter occurs again, provided
      no line terminator lies between. */
  function FindClose(s: string, j: nat, d: string): (r: Option<nat>)
    requires |d| > 0
    ensures r.Some? ==> j <= r.value && DelimAt(s, r.value, d)
    ensures r.Some? ==> forall m :: j <= m < r.value ==> !IsLineTerminator(s[m]) && !DelimAt(s, m, d)
    decreases |s| - j
  {
    if j + |d| > |s| then None
    else if DelimAt(s, j, d) then Some(j)
    else if IsLineTerminator(s[j]) then None
    else FindClose(s, j + 1, d)
  }

  /** `s.replace(/D(.*?)D/g, open + '$1' + close)` for a delimiter `d`:
      scanning left to right, each delimiter that has a closing one later on
      the same line opens a span; any other character is copied. */
  function ReplacePairs(s: string, d: string, open: string, close: string): (r: string)
    requires |d| > 0
    decreases |s|
  {
    if |s| == 0 then ""
    else if StartsWith(s, d) then
      match FindClose(s, |d|, d)
      case Some(k) => open + s[|d|..k] + close + ReplacePairs(s[k + |d|..], d, open, close)
      case None => [s[0]] + ReplacePairs(s[1..], d, open, close)
    else [s[0]] + ReplacePairs(s[1..], d, open, close)
  }

  /** `s.replace(/\n/g, '<br />')`. */
  function NewlinesToBr(s: string): (r: string)
    ensures forall k :: 0 <= k < |r| ==> r[k] != '\n'
    ensures |r| == |s| + 5 * CountChar(s, '\n')
  {
    if |s| == 0 then ""
    else if s[0] == '\n' then "<br />" + NewlinesToBr(s[1..])
    else [s[0]] + NewlinesToBr(s[1..])
  }

  const Bold: string := "**"
  const Italic: string := "*"

  function FormatTextToHtml(text: string): (r: string)
    ensures forall k :: 0 <= k < |r| ==> r[k] != '\n'
  {
    NewlinesToBr(ReplacePairs(ReplacePairs(text, Bold, "<strong>", "</strong>"), Italic, "<em>", "</em>"))
  }

  // ---------------------------------------------------------------------------
  // Properties

  /** Text without the delimiter's first character is copied unchanged. */
  lemma {:induction false} ReplacePairsIdentity(s: string, d: string, open: string, close: string)
    requires |d| > 0 && d[0] !in s
    ensures ReplacePairs(s, d, open, close) == s
    decreases |s|
  {
    if |s| > 0 {
      assert s[0] != d[0];
      assert !StartsWith(s, d);
      assert s[1..] == s[1..] && d[0] !in s[1..];
      ReplacePairsIdentity(s[1..], d, open, close);
    }
  }

  /** Text without newlines is not changed by the newline pass. */
  lemma {:induction false} NewlinesToBrIdentity(s: string)
    requires '\n' !in s
    ensures NewlinesToBr(s) == s
    decreases |s|
  {
    if |s| > 0 {
      assert '\n' !in s[1..];
      NewlinesToBrIdentity(s[1..]);
    }
  }

  /** The newline pass works piece by piece. */
  lemma {:induction false} NewlinesToBrAppend(a: string, b: string)
    ensures NewlinesToBr(a + b) == NewlinesToBr(a) + NewlinesToBr(b)
    decreases |a|
  {
    if |a| == 0 {
      assert a + b == b;
    } else {
      assert (a + b)[0] == a[0];
      assert (a + b)[1..] == a[1..] + b;
      NewlinesToBrAppend(a[1..], b);
      var head := if a[0] == '\n' then "<br />" else [a[0]];
      assert NewlinesToBr(a) == head + NewlinesToBr(a[1..]);
      assert NewlinesToBr(a + b) == head + NewlinesToBr(a[1..] + b);
    }
  }

  /** Plain text, with neither `*` nor a newline, comes out unchanged. */
  lemma PlainTextUnchanged(text: string)
    requires '*' !in text && '\n' !in text
    ensures FormatTextToHtml(text) == text
  {
    ReplacePairsIdentity(text, Bold, "<strong>", "</strong>");
    ReplacePairsIdentity(text, Italic, "<em>", "</em>");
    NewlinesToBrIdentity(text);
  }

  /** A span never swallows a line break, and the tags contain none: the
      emphasis passes keep every newline. */
  lemma {:induction false} ReplacePairsKeepsNewlines(s: string, d: string, open: string, close: string)
    requires |d| > 0 && '\n' !in d && '\n' !in open && '\n' !in close
    ensures CountChar(ReplacePairs(s, d, open, close), '\n') == CountChar(s, '\n')
    decreases |s|
  {
    if |s| == 0 {
    } else if StartsWith(s, d) && FindClose(s, |d|, d).Some? {
      var k := FindClose(s, |d|, d).value;
      ReplacePairsKeepsNewlines(s[k + |d|..], d, open, close);
      SpanKeepsNewlines(s, d, open, close, k);
    } else {
      ReplacePairsKeepsNewlines(s[1..], d, open, close);
      CopyKeepsNewlines(s, d, open, close);
    }
  }

  /** The span step of `ReplacePairsKeepsNewlines`: the tagged span holds no
      newline, and neither does the span it replaces. */
  lemma SpanKeepsNewlines(s: string, d: string, open: string, close: string, k: nat)
    requires |d| > 0 && '\n' !in d && '\n' !in open && '\n' !in close
    requires StartsWith(s, d) && FindClose(s, |d|, d) == Some(k)
    requires CountChar(ReplacePairs(s[k + |d|..], d, open, close), '\n') == CountChar(s[k + |d|..], '\n')
    ensures CountChar(ReplacePairs(s, d, open, close), '\n') == CountChar(s, '\n')
  {
    SpanUnfold(s, d, open, close, k);
    SourceSpanNewlines(s, d, k);
    TaggedSpanNewlines(s, d, open, close, k);
  }

  /** One step of the scan when a span opens at position 0 and closes at `k`. */
  lemma SpanUnfold(s: string, d: string, open: string, close: string, k: nat)
    requires |d| > 0 && StartsWith(s, d) && |d| <= k && DelimAt(s, k, d)
    requires forall m :: |d| <= m < k ==> !IsLineTerminator(s[m]) && !DelimAt(s, m, d)
    ensures ReplacePairs(s, d, open, close) == open + s[|d|..k] + close + ReplacePairs(s[k + |d|..], d, open, close)
  {
    FindCloseReaches(s, |d|, k, d);
    assert |s| > 0;
    var o := FindClose(s, |d|, d);
    assert o.Some? && o.value == k;
  }

  /** The newlines of the input all lie after the span. */
  lemma SourceSpanNewlines(s: string, d: string, k: nat)
    requires |d| > 0 && '\n' !in d && StartsWith(s, d) && FindClose(s, |d|, d) == Some(k)
    ensures CountChar(s, '\n') == CountChar(s[k + |d|..], '\n')
  {
    SpanHasNoNewline(s, d, k);
    assert s == s[..k + |d|] + s[k + |d|..];
    CountPrefixFree(s[..k + |d|], s[k + |d|..], '\n');
  }

  /** The newlines of the output all lie after the tagged span. */
  lemma TaggedSpanNewlines(s: string, d: string, open: string, close: string, k: nat)
    requires |d| > 0 && '\n' !in d && '\n' !in open && '\n' !in close
    requires StartsWith(s, d) && FindClose(s, |d|, d) == Some(k)
    ensures var tail := ReplacePairs(s[k + |d|..], d, open, close);
            CountChar(open + s[|d|..k] + close + tail, '\n') == CountChar(tail, '\n')
  {
    SpanHasNoNewline(s, d, k);
    assert '\n' !in open + s[|d|..k] + close;
    CountPrefixFree(open + s[|d|..k] + close, ReplacePairs(s[k + |d|..], d, open, close), '\n');
  }

  /** The copy step of `ReplacePairsKeepsNewlines`: the first character is
      copied as it is. */
  lemma CopyKeepsNewlines(s: string, d: string, open: string, close: string)
    requires |d| > 0 && |s| > 0
    requires !(StartsWith(s, d) && FindClose(s, |d|, d).Some?)
    requires CountChar(ReplacePairs(s[1..], d, open, close), '\n') == CountChar(s[1..], '\n')
    ensures CountChar(ReplacePairs(s, d, open, close), '\n') == CountChar(s, '\n')
  {
    assert ReplacePairs(s, d, open, close) == [s[0]] + ReplacePairs(s[1..], d, open, close);
    CountCharAppend([s[0]], ReplacePairs(s[1..], d, open, close), '\n');
    CountCharAppend([s[0]], s[1..], '\n');
    assert s == [s[0]] + s[1..];
  }

  /** A matched span, delimiters included, holds no newline. */
  lemma SpanHasNoNewline(s: string, d: string, k: nat)
    requires |d| > 0 && '\n' !in d && StartsWith(s, d)
    requires |d| <= k && DelimAt(s, k, d)
    requires forall m :: |d| <= m < k ==> !IsLineTerminator(s[m])
    ensures '\n' !in s[|d|..k] && '\n' !in s[..k + |d|]
  {
    forall m | 0 <= m < k + |d|
      ensures s[m] != '\n'
    {
      if m < |d| {
        assert s[m] == s[..|d|][m] == d[m];
      } else if m >= k {
        assert s[m] == s[k..k + |d|][m - k] == d[m - k];
      }
    }
    assert forall m :: 0 <= m < k - |d| ==> s[|d|..k][m] == s[|d| + m];
  }

  /** Characters other than `c` in front do not change the count of `c`. */
  lemma CountPrefixFree(x: string, y: string, c: char)
    requires c !in x
    ensures CountChar(x + y, c) == CountChar(y, c)
  {
    CountCharAppend(x, y, c);
    CountCharZero(x, c);
  }

  /** A lone newline becomes one line break. */
  lemma NewlineIsBr()
    ensures NewlinesToBr("\n") == "<br />"
  {
    var s := "\n";
    assert s[0] == '\n' && s[1..] == "";
  }

  /** Each newline, wherever it sits, becomes exactly one `<br />`, and the
      text on both sides of it is processed on its own. Together with
      `NewlinesToBrIdentity` this pins the newline pass down completely. */
  lemma NewlineBecomesBr(a: string, b: string)
    ensures NewlinesToBr(a + ("\n" + b)) == NewlinesToBr(a) + ("<br />" + NewlinesToBr(b))
  {
    NewlinesToBrAppend(a, "\n" + b);
    assert ("\n" + b)[0] == '\n' && ("\n" + b)[1..] == b;
  }

  /** The emphasis passes keep every newline, and the last pass turns each
      of them into one `<br />` (`NewlineBecomesBr`) and copies the rest: the
      output is the newline pass over the emphasis passes' output, which has
      as many newlines as the input, and so it is five characters longer per
      newline of the input. */
  lemma NewlineCountPreserved(text: string)
    ensures var e := ReplacePairs(ReplacePairs(text, Bold, "<strong>", "</strong>"), Italic, "<em>", "</em>");
            && FormatTextToHtml(text) == NewlinesToBr(e)
            && CountChar(e, '\n') == CountChar(text, '\n')
            && |FormatTextToHtml(text)| == |e| + 5 * CountChar(text, '\n')
  {
    ReplacePairsKeepsNewlines(text, Bold, "<strong>", "</strong>");
    ReplacePairsKeepsNewlines(ReplacePairs(text, Bold, "<strong>", "</strong>"), Italic, "<em>", "</em>");
  }

  /** A closed span whose text holds neither the delimiter's first
      character nor a line terminator becomes one tagged span, and the rest
      is processed on its own. */
  lemma SpanReplaced(w: string, rest: string, d: string, open: string, close: string)
    requires |d| > 0 && d[0] !in w
    requires forall m :: 0 <= m < |w| ==> !IsLineTerminator(w[m])
    ensures ReplacePairs(d + w + d + rest, d, open, close) == open + w + close + ReplacePairs(rest, d, open, close)
  {
    var s := d + w + d + rest;
    var k := |d| + |w|;
    assert s[..|d|] == d;
    assert s[k..k + |d|] == d;
    forall m | |d| <= m < k
      ensures !IsLineTerminator(s[m]) && !DelimAt(s, m, d)
    {
      assert s[m] == w[m - |d|];
    }
    FindCloseReaches(s, |d|, k, d);
    assert s[|d|..k] == w;
    assert s[k + |d|..] == rest;
  }

  /** Scanning from `j` reaches `k` when no earlier position holds the
      delimiter or a line terminator. */
  lemma {:induction false} FindCloseReaches(s: string, j: nat, k: nat, d: string)
    requires |d| > 0 && j <= k && DelimAt(s, k, d)
    requires forall m :: j <= m < k ==> !IsLineTerminator(s[m]) && !DelimAt(s, m, d)
    ensures FindClose(s, j, d) == Some(k)
    decreases k - j
  {
    if j < k {
      FindCloseReaches(s, j + 1, k, d);
    }
  }

  /** A span that fills the whole text becomes exactly one tagged span. */
  lemma WholeSpanReplaced(w: string, d: string, open: string, close: string)
    requires |d| > 0 && d[0] !in w
    requires forall m :: 0 <= m < |w| ==> !IsLineTerminator(w[m])
    ensures ReplacePairs(d + (w + d), d, open, close) == open + w + close
  {
    var e: string := [];
    SpanReplaced(w, e, d, open, close);
    assert d + w + d + e == d + (w + d);
    assert ReplacePairs(e, d, open, close) == e;
    assert open + w + close + e == open + w + close;
  }

  /** Between two newline-free pieces, the newline pass turns the one
      newline into a line break. */
  lemma NewlineJoin(x: string, y: string)
    requires '\n' !in x && '\n' !in y
    ensures NewlinesToBr(x + ("\n" + y)) == x + ("<br />" + y)
  {
    NewlinesToBrAppend(x, "\n" + y);
    NewlinesToBrIdentity(x);
    LeadingNewline(y);
  }

  /** A leading newline becomes a line break, and the rest is left alone. */
  lemma LeadingNewline(y: string)
    requires '\n' !in y
    ensures NewlinesToBr("\n" + y) == "<br />" + y
  {
    assert ("\n" + y)[0] == '\n' && ("\n" + y)[1..] == y;
    NewlinesToBrIdentity(y);
  }

  /** A bold line followed by an italic line, with plain words `a` and `b`,
      renders as a `<strong>` span, a line break and an `<em>` span. */
  lemma BoldLineThenItalicLine(a: string, b: string)
    requires '*' !in a && '*' !in b && |b| > 0
    requires forall m :: 0 <= m < |a| ==> !IsLineTerminator(a[m])
    requires forall m :: 0 <= m < |b| ==> !IsLineTerminator(b[m])
    ensures FormatTextToHtml(Bold + a + Bold + "\n" + Italic + b + Italic)
            == "<strong>" + a + "</strong>" + ("<br />" + ("<em>" + b + "</em>"))
  {
    assert Bold + a + Bold + "\n" + Italic + b + Italic == Bold + a + Bold + ("\n" + ("*" + (b + "*")));
    BoldLinePass(a, b);
    ItalicLinePass(a, b);
    assert '\n' !in a && '\n' !in b;
    BreakLinePass(a, b);
  }

  /** The bold pass of `BoldLineThenItalicLine`: the bold span is tagged and
      the italic line is copied. */
  lemma BoldLinePass(a: string, b: string)
    requires '*' !in a && '*' !in b && |b| > 0
    requires forall m :: 0 <= m < |a| ==> !IsLineTerminator(a[m])
    ensures ReplacePairs(Bold + a + Bold + ("\n" + ("*" + (b + "*"))), Bold, "<strong>", "</strong>")
            == "<strong>" + a + "</strong>" + ("\n" + ("*" + (b + "*")))
  {
    var italic := "*" + (b + "*");
    SpanReplaced(a, "\n" + italic, Bold, "<strong>", "</strong>");
    ReplacePairsPrefix("\n", italic, Bold, "<strong>", "</strong>");
    ItalicUntouchedByBold(b);
  }

  /** The italic pass of `BoldLineThenItalicLine`. */
  lemma ItalicLinePass(a: string, b: string)
    requires '*' !in a && '*' !in b
    requires forall m :: 0 <= m < |b| ==> !IsLineTerminator(b[m])
    ensures ReplacePairs("<strong>" + a + "</strong>" + ("\n" + ("*" + (b + "*"))), Italic, "<em>", "</em>")
            == "<strong>" + a + "</strong>" + ("\n" + ("<em>" + b + "</em>"))
  {
    var strong := "<strong>" + a + "</strong>";
    assert '*' !in strong;
    ReplacePairsPrefix(strong, "\n" + ("*" + (b + "*")), Italic, "<em>", "</em>");
    ReplacePairsPrefix("\n", "*" + (b + "*"), Italic, "<em>", "</em>");
    WholeSpanReplaced(b, Italic, "<em>", "</em>");
  }

  /** The newline pass of `BoldLineThenItalicLine`. */
  lemma BreakLinePass(a: string, b: string)
    requires '\n' !in a && '\n' !in b
    ensures NewlinesToBr("<strong>" + a + "</strong>" + ("\n" + ("<em>" + b + "</em>")))
            == "<strong>" + a + "</strong>" + ("<br />" + ("<em>" + b + "</em>"))
  {
    var strong, em := "<strong>" + a + "</strong>", "<em>" + b + "</em>";
    assert '\n' !in strong && '\n' !in em;
    NewlineJoin(strong, em);
  }

  /** `*b*` with `b` free of `*` holds no `**`, so the bold pass copies it. */
  lemma ItalicUntouchedByBold(b: string)
    requires '*' !in b && |b| > 0
    ensures ReplacePairs("*" + (b + "*"), Bold, "<strong>", "</strong>") == "*" + (b + "*")
  {
    LoneStarCopied(b + "*");
    ReplacePairsPrefix(b, "*", Bold, "<strong>", "</strong>");
    LastStarCopied();
  }

  lemma LastStarCopied()
    ensures ReplacePairs("*", Bold, "<strong>", "</strong>") == "*"
  {
  }

  /** A `*` not followed by another `*` is copied by the bold pass. */
  lemma LoneStarCopied(rest: string)
    requires |rest| > 0 && rest[0] != '*'
    ensures ReplacePairs("*" + rest, Bold, "<strong>", "</strong>") == "*" + ReplacePairs(rest, Bold, "<strong>", "</strong>")
  {
    var s := "*" + rest;
    assert s[1] == rest[0];
    assert !StartsWith(s, Bold);
    assert s[1..] == rest;
  }

  /** A prefix free of the delimiter's first character is copied, and the
      rest is processed on its own. */
  lemma {:induction false} ReplacePairsPrefix(p: string, s: string, d: string, open: string, close: string)
    requires |d| > 0 && d[0] !in p
    ensures ReplacePairs(p + s, d, open, close) == p + ReplacePairs(s, d, open, close)
    decreases |p|
  {
    if |p| == 0 {
      assert p + s == s;
    } else {
      var t := p + s;
      assert t[0] == p[0] != d[0];
      assert t[1..] == p[1..] + s;
      ReplacePairsPrefix(p[1..], s, d, open, close);
    }
  }
}

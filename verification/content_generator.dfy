/** The orchestration rules of components/ContentGenerator.tsx: the source
    check boxes, the checks made before each call to the generation service,
    the mapping of a failure to the message shown, and the appending of
    follow-up questions to the result. Loading flags and rendering are left
    out; the generation service is the oracle of the Gemini module. */
module ContentGenerator {
  import opened Types
  import opened Strings
  import opened Gemini

  // ---------------------------------------------------------------------------
  // The source check boxes

  /** `sources.filter(s => s !== x)`. */
  function Remove(xs: seq<string>, x: string): (r: seq<string>)
    ensures x !in r
    ensures forall y :: y in r <==> y in xs && y != x
    ensures |r| <= |xs|
  {
    if |xs| == 0 then []
    else if xs[0] == x then Remove(xs[1..], x)
    else [xs[0]] + Remove(xs[1..], x)
  }

  /** `handleSourceChange`: a checked source is unchecked (every copy of it
      is removed), an unchecked one is appended at the end. */
  function ToggleSource(sources: seq<string>, source: string): (r: seq<string>)
    ensures source in sources ==> r == Remove(sources, source)
    ensures source !in sources ==> r == sources + [source]
    ensures source in r <==> source !in sources
    ensures forall y :: y != source ==> (y in r <==> y in sources)
  {
    if source in sources then Remove(sources, source) else sources + [source]
  }

  /** Removal works piece by piece: together with `RemoveSingle` this says
      that it keeps every other source, in its order. */
  lemma {:induction false} RemoveAppend(a: seq<string>, b: seq<string>, x: string)
    ensures Remove(a + b, x) == Remove(a, x) + Remove(b, x)
    decreases |a|
  {
    if |a| == 0 {
      assert a + b == b;
    } else {
      assert (a + b)[0] == a[0];
      assert (a + b)[1..] == a[1..] + b;
      RemoveAppend(a[1..], b, x);
    }
  }

  lemma RemoveSingle(y: string, x: string)
    ensures Remove([y], x) == if y == x then [] else [y]
  {
    assert [y][1..] == [];
  }

  /** A list without the source is left as it is. */
  lemma {:induction false} RemoveAbsent(xs: seq<string>, x: string)
    requires x !in xs
    ensures Remove(xs, x) == xs
    decreases |xs|
  {
    if |xs| > 0 {
      assert x !in xs[1..];
      RemoveAbsent(xs[1..], x);
      assert xs == [xs[0]] + xs[1..];
    }
  }

  /** Checking and then unchecking a source gives back the original list. */
  lemma ToggleTwiceAbsent(sources: seq<string>, source: string)
    requires source !in sources
    ensures ToggleSource(ToggleSource(sources, source), source) == sources
  {
    RemoveAppend(sources, [source], source);
    RemoveSingle(source, source);
    RemoveAbsent(sources, source);
  }

  /** Unchecking and then checking a source moves it to the end, and any
      duplicate copies are gone. */
  lemma ToggleTwicePresent(sources: seq<string>, source: string)
    requires source in sources
    ensures ToggleSource(ToggleSource(sources, source), source) == Remove(sources, source) + [source]
  {
  }

  // ---------------------------------------------------------------------------
  // The screen state

  /** The messages shown to the user; each stands for one translated text,
      and those that interpolate a `message` carry it. */
  datatype Notice =
    | FillTheme
    | DoctrineNotice
    | GeneratingContent(message: string)
    | HymnSuggest
    | SuggestingHymns(message: string)
    | GeneratingQuestions(message: string)

  /** The state the three handlers read and write: the error line, the
      generated content, the hymn suggestion, the form and the active tab
      (`discurso` is a talk, `aula` a lesson). */
  datatype Screen = Screen(
    error: Option<Notice>,
    result: Option<string>,
    hymn: Option<string>,
    form: GeneratorOptions,
    tab: ContentKind)

  /** The message shown when generation fails with `message`. */
  function SubmitNotice(message: string): (n: Notice)
    ensures n == DoctrineNotice <==> message == DoctrineMessage
    ensures n != DoctrineNotice ==> n == GeneratingContent(message)
  {
    if message == DoctrineMessage then DoctrineNotice else GeneratingContent(message)
  }

  /** `handleSubmit`: an empty theme only sets the fill-theme error;
      otherwise the error, the result and the hymn suggestion are cleared and
      the content is requested. */
  function Submit(oracle: Request -> Reply, s: Screen, language: string): (r: Screen)
    ensures s.form.theme == "" ==> r == s.(error := Some(FillTheme))
    ensures r.form == s.form && r.tab == s.tab
    ensures s.form.theme != "" ==> r.hymn == None
    ensures s.form.theme != "" ==> var reply := oracle(LdsRequest(s.tab, s.form, language));
      && (r.result.Some? <==> r.error.None?)
      && (reply.Answer? && !FlagsDoctrine(reply.text) ==> r.result == Some(reply.text))
      && (r.error == Some(DoctrineNotice) <==> Interpret(reply) == DoctrinalRejection)
      && (r.error.Some? && r.error != Some(DoctrineNotice) ==> r.error == Some(GeneratingContent(FailureMessage)))
  {
    if s.form.theme == "" then s.(error := Some(FillTheme))
    else
      var o := GenerateLdsContent(oracle, s.tab, s.form, language);
      if o.Success? then s.(error := None, result := Some(o.text), hymn := None)
      else s.(error := Some(SubmitNotice(ThrownMessage(o))), result := None, hymn := None)
  }

  /** With an empty theme the service is never asked: the outcome does not
      depend on what it would answer. */
  lemma SubmitWithoutThemeMakesNoCall(o1: Request -> Reply, o2: Request -> Reply, s: Screen, language: string)
    requires s.form.theme == ""
    ensures Submit(o1, s, language) == Submit(o2, s, language)
  {
  }

  /** Every failure other than the doctrinal one is shown with the service's
      fixed message: the user never sees the underlying error text. */
  lemma SubmitShowsFixedFailure(oracle: Request -> Reply, s: Screen, language: string, m: string)
    requires s.form.theme != "" && m != DoctrineMessage
    requires oracle(LdsRequest(s.tab, s.form, language)) == Error(m) || oracle(LdsRequest(s.tab, s.form, language)) == NoText
    ensures Submit(oracle, s, language).error == Some(GeneratingContent(FailureMessage))
    ensures Submit(oracle, s, language).result == None
  {
    var reply := oracle(LdsRequest(s.tab, s.form, language));
    assert Interpret(reply) == Failure;
    assert GenerateLdsContent(oracle, s.tab, s.form, language) == Failure;
  }

  /** A Spanish-language refusal, worded as the es-ES rule asks, is shown as
      generated content and not as the doctrine message. */
  lemma SpanishRefusalShownAsContent(oracle: Request -> Reply, s: Screen, language: string)
    requires s.form.theme != ""
    requires oracle(LdsRequest(s.tab, s.form, language)) == Answer(RequestedToken(EsES))
    ensures Submit(oracle, s, language).result == Some(RequestedToken(EsES))
    ensures Submit(oracle, s, language).error == None
  {
    SpanishTokenSlipsThrough();
  }

  /** `handleSuggestHymn`: refused when both the theme and the context are
      empty; otherwise the suggestion and the error are cleared and a hymn is
      requested. Every failure, the doctrinal one included, is shown as a
      hymn failure carrying the message. */
  function SuggestHymnStep(oracle: Request -> Reply, s: Screen, language: string): (r: Screen)
    ensures s.form.theme == "" && s.form.contextText == "" ==> r == s.(error := Some(HymnSuggest))
    ensures r.form == s.form && r.tab == s.tab && r.result == s.result
    ensures !(s.form.theme == "" && s.form.contextText == "") ==>
      var o := Interpret(oracle(HymnRequest(s.form.theme, s.form.contextText, s.form.audience, language)));
      && (r.hymn.Some? <==> r.error.None?)
      && (o.Success? ==> r.hymn == Some(o.text))
      && (o == DoctrinalRejection ==> r.error == Some(SuggestingHymns(DoctrineMessage)))
      && (o == Failure ==> r.error == Some(SuggestingHymns(FailureMessage)))
  {
    if s.form.theme == "" && s.form.contextText == "" then s.(error := Some(HymnSuggest))
    else
      var o := SuggestHymn(oracle, s.form.theme, s.form.contextText, s.form.audience, language);
      if o.Success? then s.(hymn := Some(o.text), error := None)
      else s.(hymn := None, error := Some(SuggestingHymns(ThrownMessage(o))))
  }

  /** A context alone is enough to ask for a hymn, and the theme alone too. */
  lemma HymnNeedsThemeOrContext(oracle: Request -> Reply, s: Screen, language: string)
    ensures SuggestHymnStep(oracle, s, language).error == Some(HymnSuggest)
            <==> s.form.theme == "" && s.form.contextText == ""
  {
  }

  /** The separator written before the follow-up questions: a blank line,
      the heading in bold followed by a colon, a line break, and then the
      questions verbatim. */
  function QuestionsSection(heading: string, questions: string): (r: string)
    ensures |r| == |heading| + |questions| + 8
    ensures r[..4] == "\n\n**" && r[4..4 + |heading|] == heading
    ensures r[4 + |heading|..8 + |heading|] == ":**\n" && r[8 + |heading|..] == questions
  {
    "\n\n**" + heading + ":**\n" + questions
  }

  /** `handleMoreQuestions`: without a (non-empty) result nothing happens;
      otherwise the error is cleared and, on success, the questions are
      appended under the translated `heading`. */
  function MoreQuestionsStep(oracle: Request -> Reply, s: Screen, heading: string, language: string): (r: Screen)
    ensures s.result.None? || s.result.value == "" ==> r == s
    ensures r.form == s.form && r.tab == s.tab && r.hymn == s.hymn
    ensures s.result.Some? && s.result.value != "" ==>
      var o := Interpret(oracle(QuestionsRequest(s.result.value, s.form.audience, language)));
      && r.result.Some? && StartsWith(r.result.value, s.result.value)
      && (o.Success? ==> r.error == None && r.result.value[|s.result.value|..] == QuestionsSection(heading, o.text))
      && (!o.Success? ==> r.result == s.result && r.error == Some(GeneratingQuestions(ThrownMessage(o))))
  {
    if s.result.None? || s.result.value == "" then s
    else
      var prev := s.result.value;
      var o := GenerateMoreQuestions(oracle, prev, s.form.audience, language);
      if o.Success? then
        var next := prev + QuestionsSection(heading, o.text);
        assert next[..|prev|] == prev && next[|prev|..] == QuestionsSection(heading, o.text);
        s.(error := None, result := Some(next))
      else s.(error := Some(GeneratingQuestions(ThrownMessage(o))))
  }
}

/** The generation code of services/geminiService.ts: the per-language
    prompt bundle, the system and user prompts, the request parts, the
    sentinel check on the model's reply and the model chosen by each
    operation. The Gemini service itself is an oracle from request to reply. */
module Gemini {
  import opened Types
  import opened Strings

  // ---------------------------------------------------------------------------
  // Prompt bundles

  /** The bundle `getPrompts(language)` returns: the templates of the resolved
      locale, with the caller's language key interpolated wherever the
      templates write `${language}`. */
  datatype Prompts = Prompts(locale: Locale, language: string)

  /** `getPrompts`: a known key selects its own bundle, any other key the
      en-US one; the key itself is kept as given. */
  function GetPrompts(language: string): (p: Prompts)
    ensures p.language == language
    ensures language in {"pt-BR", "en-US", "es-ES"} ==> LocaleKey(p.locale) == language
    ensures language !in {"pt-BR", "en-US", "es-ES"} ==> p.locale == EnUS
  {
    Prompts(Resolve(language), language)
  }

  /** The word each locale's doctrinal rule tells the model to answer with
      when it refuses. */
  function RequestedToken(l: Locale): string {
    match l
    case PtBR => "ERRO_DOUTRINA"
    case EnUS => "DOCTRINE_ERROR"
    case EsES => "ERROR_DOCTRINA"
  }

  // The template texts are short stand-ins for the service's long prompt
  // texts; only the pieces the generation code depends on (the requested
  // word, the interpolated values and the `---` fences) are spelled out.

  function RuleOpening(l: Locale): string {
    match l
    case PtBR => "REGRA DE DOUTRINA: responda "
    case EnUS => "DOCTRINAL RULE: answer "
    case EsES => "REGLA DOCTRINAL: responde "
  }

  function RuleClosing(l: Locale): string {
    match l
    case PtBR => ".\n"
    case EnUS => ".\n"
    case EsES => ".\n"
  }

  function TalkOpening(l: Locale): string {
    match l
    case PtBR => "FORMATO (Discurso) MODO: "
    case EnUS => "FORMAT (Talk) MODE: "
    case EsES => "FORMATO (Discurso) MODO: "
  }

  function TalkMiddle(l: Locale): string {
    match l
    case PtBR => ". Idioma "
    case EnUS => ". Language "
    case EsES => ". Idioma "
  }

  function LessonOpening(l: Locale): string {
    match l
    case PtBR => "FORMATO (Aula). Idioma "
    case EnUS => "FORMAT (Lesson). Language "
    case EsES => "FORMATO (Lección). Idioma "
  }

  function FormatClosing(l: Locale): string {
    match l
    case PtBR => "."
    case EnUS => " language."
    case EsES => "."
  }

  function HymnText(l: Locale): string {
    match l
    case PtBR => "Sugira TRÊS hinos."
    case EnUS => "Suggest THREE hymns."
    case EsES => "Sugiere TRES himnos."
  }

  function QuestionsOpening(l: Locale): string {
    match l
    case PtBR => "Plano de Aula Existente:\n"
    case EnUS => "Existing Lesson Plan:\n"
    case EsES => "Plan de Lección Existente:\n"
  }

  /** The fences around the lesson plan in the follow-up questions prompt. */
  const FenceOpen: string := "---\n"
  const FenceClose: string := "\n---\n"

  /** `doctrinalRule`: the rule, quoting the locale's refusal word. */
  function DoctrinalRule(p: Prompts): (r: string)
    ensures Contains(r, RequestedToken(p.locale))
  {
    var r := RuleOpening(p.locale) + "\"" + RequestedToken(p.locale) + "\"" + RuleClosing(p.locale);
    ContainsSelf(RequestedToken(p.locale));
    ContainsInMiddle(RuleOpening(p.locale) + "\"", RequestedToken(p.locale), "\"" + RuleClosing(p.locale), RequestedToken(p.locale));
    assert r == (RuleOpening(p.locale) + "\"") + RequestedToken(p.locale) + ("\"" + RuleClosing(p.locale));
    r
  }

  /** `talkFormat(generationMode)`: embeds the mode and the language key. */
  function TalkFormat(p: Prompts, mode: string): string {
    TalkOpening(p.locale) + mode + (TalkMiddle(p.locale) + p.language + FormatClosing(p.locale))
  }

  /** `lessonFormat`: embeds the language key. */
  function LessonFormat(p: Prompts): string {
    LessonOpening(p.locale) + p.language + FormatClosing(p.locale)
  }

  function HymnPrompt(p: Prompts): string {
    HymnText(p.locale)
  }

  /** `moreQuestionsPrompt(existingContent)`: the lesson plan between fences. */
  function MoreQuestionsPrompt(p: Prompts, existingContent: string): string {
    QuestionsOpening(p.locale) + FenceOpen + existingContent + FenceClose
  }

  /** Reads the lesson plan back out of a follow-up questions prompt. */
  function EmbeddedContent(p: Prompts, prompt: string): (r: Option<string>)
    ensures r.Some? ==> MoreQuestionsPrompt(p, r.value) == prompt
  {
    var head := QuestionsOpening(p.locale) + FenceOpen;
    if StartsWith(prompt, head) && EndsWith(prompt[|head|..], FenceClose) then
      var body := prompt[|head|..][..|prompt| - |head| - |FenceClose|];
      assert prompt == prompt[..|head|] + prompt[|head|..];
      assert prompt[|head|..] == body + prompt[|head|..][|prompt| - |head| - |FenceClose|..];
      Some(body)
    else
      None
  }

  /** The lesson plan is embedded verbatim: it can always be read back. */
  lemma EmbeddedContentRoundTrip(p: Prompts, existingContent: string)
    ensures EmbeddedContent(p, MoreQuestionsPrompt(p, existingContent)) == Some(existingContent)
  {
    var head := QuestionsOpening(p.locale) + FenceOpen;
    var prompt := MoreQuestionsPrompt(p, existingContent);
    assert prompt == head + (existingContent + FenceClose);
    assert prompt[|head|..] == existingContent + FenceClose;
  }

  /** For a key outside the three, the bundle is en-US's: same rule, hymn
      prompt and follow-up template. Only the interpolated key differs, so the
      talk and lesson formats are NOT those of `"en-US"`. */
  lemma UnknownLanguageFallsBack(language: string, mode: string, existingContent: string)
    requires language !in {"pt-BR", "en-US", "es-ES"}
    ensures GetPrompts(language).locale == EnUS
    ensures DoctrinalRule(GetPrompts(language)) == DoctrinalRule(GetPrompts("en-US"))
    ensures HymnPrompt(GetPrompts(language)) == HymnPrompt(GetPrompts("en-US"))
    ensures MoreQuestionsPrompt(GetPrompts(language), existingContent) == MoreQuestionsPrompt(GetPrompts("en-US"), existingContent)
    ensures LessonFormat(GetPrompts(language)) != LessonFormat(GetPrompts("en-US"))
    ensures TalkFormat(GetPrompts(language), mode) != TalkFormat(GetPrompts("en-US"), mode)
  {
    var p, e := GetPrompts(language), GetPrompts("en-US");
    MiddleInjective(LessonOpening(EnUS), language, "en-US", FormatClosing(EnUS));
    MiddleInjectiveAfter("", TalkOpening(EnUS) + mode + TalkMiddle(EnUS), language, "en-US", FormatClosing(EnUS));
    assert TalkFormat(p, mode) == "" + (TalkOpening(EnUS) + mode + TalkMiddle(EnUS) + language + FormatClosing(EnUS));
  }

  // ---------------------------------------------------------------------------
  // System prompt

  /** The two kinds of content (`'discurso'` and `'aula'`). */
  datatype ContentKind = Talk | Lesson

  /** The mode a talk is written in when none is given. */
  const DefaultMode: string := "Texto Completo"

  /** `generationMode || 'Texto Completo'`: an absent or empty mode becomes
      the default. */
  function EffectiveMode(mode: Option<string>): (r: string)
    ensures r != ""
    ensures mode.Some? && mode.value != "" ==> r == mode.value
    ensures mode.None? || mode.value == "" ==> r == DefaultMode
  {
    if mode.None? || mode.value == "" then DefaultMode else mode.value
  }

  /** `buildSystemPrompt`: the doctrinal rule, then the talk or lesson
      format. The audience is accepted and not used. */
  function BuildSystemPrompt(kind: ContentKind, audience: string, mode: Option<string>, language: string): (r: string)
    ensures StartsWith(r, DoctrinalRule(GetPrompts(language)))
    ensures Contains(r, RequestedToken(GetPrompts(language).locale))
  {
    var p := GetPrompts(language);
    var format := if kind == Talk then TalkFormat(p, EffectiveMode(mode)) else LessonFormat(p);
    PrefixOfAppend(DoctrinalRule(p), format, RequestedToken(p.locale));
    DoctrinalRule(p) + format
  }

  /** A talk with no mode, an empty mode, or the default mode gets the same
      prompt. */
  lemma TalkModeDefault(audience: string, language: string)
    ensures BuildSystemPrompt(Talk, audience, None, language) == BuildSystemPrompt(Talk, audience, Some(""), language)
    ensures BuildSystemPrompt(Talk, audience, None, language) == BuildSystemPrompt(Talk, audience, Some(DefaultMode), language)
  {
  }

  /** Two talks with different (non-empty) modes get different prompts. */
  lemma TalkModeInjective(audience: string, m1: string, m2: string, language: string)
    requires m1 != "" && m2 != ""
    ensures BuildSystemPrompt(Talk, audience, Some(m1), language) == BuildSystemPrompt(Talk, audience, Some(m2), language) <==> m1 == m2
  {
    var p := GetPrompts(language);
    var y := TalkMiddle(p.locale) + p.language + FormatClosing(p.locale);
    MiddleInjectiveAfter(DoctrinalRule(p), TalkOpening(p.locale), m1, m2, y);
  }

  /** A lesson prompt depends on the language only: neither the audience nor
      the mode changes it. The audience does not change a talk prompt. */
  lemma SystemPromptIgnores(kind: ContentKind, a1: string, a2: string, m1: Option<string>, m2: Option<string>, language: string)
    ensures BuildSystemPrompt(Lesson, a1, m1, language) == BuildSystemPrompt(Lesson, a2, m2, language)
    ensures BuildSystemPrompt(kind, a1, m1, language) == BuildSystemPrompt(kind, a2, m1, language)
  {
  }

  /** A talk prompt and a lesson prompt differ: the two formats begin
      differently. */
  lemma TalkDiffersFromLesson(audience: string, mode: Option<string>, language: string)
    ensures BuildSystemPrompt(Talk, audience, mode, language) != BuildSystemPrompt(Lesson, audience, mode, language)
  {
    var p := GetPrompts(language);
    var d := DoctrinalRule(p);
    var t, l := BuildSystemPrompt(Talk, audience, mode, language), BuildSystemPrompt(Lesson, audience, mode, language);
    var k := |d| + 10;
    assert t[k] == TalkOpening(p.locale)[10];
    assert l[k] == LessonOpening(p.locale)[10];
  }

  // ---------------------------------------------------------------------------
  // User prompt

  /** The field labels of `buildUserPrompt`. */
  datatype UserLabels = UserLabels(
    theme: string, duration: string, audience: string, sources: string,
    referenceText: string, referenceImage: string)

  function UserLabelsFor(language: string): UserLabels {
    match Resolve(language)
    case PtBR => UserLabels("Tema", "Duração/Tempo", "Público", "Fontes Selecionadas",
                            "Texto de Referência Fornecido (Analise isto como base)",
                            "Imagem de Referência Fornecida (Analise esta imagem como inspiração ou contexto)")
    case EnUS => UserLabels("Theme", "Duration/Time", "Audience", "Selected Sources",
                            "Provided Reference Text (Analyze this as a basis)",
                            "Provided Reference Image (Analyze this image for inspiration or context)")
    case EsES => UserLabels("Tema", "Duración/Tiempo", "Público", "Fuentes Seleccionadas",
                            "Texto de Referencia Proporcionado (Analiza esto como base)",
                            "Imagen de Referencia Proporcionada (Analiza esta imagen como inspiración o contexto)")
  }

  /** The four fields, always present, in the order theme, duration,
      audience, sources. The duration is followed by "minutos." whatever the
      language. */
  function Header(t: UserLabels, o: GeneratorOptions): string {
    "\n        **" + t.theme + ":** " + o.theme
    + "\n        **" + t.duration + ":** " + o.time + " minutos."
    + "\n        **" + t.audience + ":** " + o.audience
    + "\n        **" + t.sources + ":** " + Join(o.sources, ", ")
    + "\n    "
  }

  function ReferenceBlock(t: UserLabels, contextText: string): string {
    "\n\n**" + t.referenceText + ":**\n" + contextText
  }

  function ImageMarker(t: UserLabels): string {
    "\n\n**" + t.referenceImage + ":**"
  }

  /** `buildUserPrompt`: the header, then the reference block when there is
      reference text, then the image marker when a file is attached. */
  function BuildUserPrompt(o: GeneratorOptions, language: string): (r: string)
    ensures StartsWith(r, Header(UserLabelsFor(language), o))
    ensures o.uploadedFile.Some? ==> EndsWith(r, ImageMarker(UserLabelsFor(language)))
    ensures o.uploadedFile.None? && o.contextText != "" ==> EndsWith(r, ReferenceBlock(UserLabelsFor(language), o.contextText))
    ensures o.uploadedFile.None? && o.contextText == "" ==> r == Header(UserLabelsFor(language), o)
  {
    var t := UserLabelsFor(language);
    var h := Header(t, o);
    var reference := if o.contextText != "" then ReferenceBlock(t, o.contextText) else "";
    var image := if o.uploadedFile.Some? then ImageMarker(t) else "";
    ThreePieces(h, reference, image);
    h + reference + image
  }

  /** Attaching a file appends exactly the image marker, after everything
      else, whatever the file's type. */
  lemma ImageMarkerAppendedLast(o: GeneratorOptions, f: UploadedFile, language: string)
    ensures BuildUserPrompt(o.(uploadedFile := Some(f)), language)
            == BuildUserPrompt(o.(uploadedFile := None), language) + ImageMarker(UserLabelsFor(language))
  {
  }

  /** Non-empty reference text inserts the reference block right after the
      header, ahead of any image marker. */
  lemma ReferenceBlockAfterHeader(o: GeneratorOptions, language: string)
    requires o.contextText != ""
    ensures var base := BuildUserPrompt(o.(contextText := ""), language);
            var n := |Header(UserLabelsFor(language), o)|;
            n <= |base| && BuildUserPrompt(o, language) == base[..n] + ReferenceBlock(UserLabelsFor(language), o.contextText) + base[n..]
  {
    var t := UserLabelsFor(language);
    var o2 := o.(contextText := "");
    var h := Header(t, o);
    assert Header(t, o2) == h;
    var image := if o.uploadedFile.Some? then ImageMarker(t) else "";
    var base := BuildUserPrompt(o2, language);
    assert base == h + "" + image;
    assert base[..|h|] == h && base[|h|..] == image;
  }

  /** The user prompt does not depend on the mode, nor on the file's name,
      data or type: only on whether a file is attached. */
  lemma UserPromptIgnores(o: GeneratorOptions, mode: string, f: UploadedFile, g: UploadedFile, language: string)
    ensures BuildUserPrompt(o.(generationMode := mode), language) == BuildUserPrompt(o, language)
    ensures BuildUserPrompt(o.(uploadedFile := Some(f)), language) == BuildUserPrompt(o.(uploadedFile := Some(g)), language)
  {
  }

  /** An unknown key gets the en-US labels. */
  lemma UnknownLanguageLabels(language: string, o: GeneratorOptions)
    requires language !in {"pt-BR", "en-US", "es-ES"}
    ensures UserLabelsFor(language) == UserLabelsFor("en-US")
    ensures BuildUserPrompt(o, language) == BuildUserPrompt(o, "en-US")
  {
  }

  // ---------------------------------------------------------------------------
  // Request parts

  /** One part of the request: the prompt text, or an inline file. */
  datatype Part = TextPart(text: string) | InlineData(mimeType: string, data: string)

  /** The parts sent: the user prompt, then the file only when its MIME type
      starts with `image/`. */
  function Parts(userPrompt: string, file: Option<UploadedFile>): (r: seq<Part>)
    ensures 1 <= |r| <= 2
    ensures r[0] == TextPart(userPrompt)
    ensures |r| == 2 <==> file.Some? && StartsWith(file.value.mimeType, "image/")
    ensures |r| == 2 ==> r[1] == InlineData(file.value.mimeType, file.value.base64Data)
  {
    if file.Some? && StartsWith(file.value.mimeType, "image/") then
      [TextPart(userPrompt), InlineData(file.value.mimeType, file.value.base64Data)]
    else
      [TextPart(userPrompt)]
  }

  // ---------------------------------------------------------------------------
  // The call and its outcome

  const ImageModel: string := "gemini-2.5-flash-image"
  const FlashModel: string := "gemini-2.5-flash"
  const ProModel: string := "gemini-2.5-pro"

  datatype Request = Request(model: string, systemInstruction: string, parts: seq<Part>)

  /** What the service gives back: a text, a response without text, or a
      thrown error with its message. */
  datatype Reply = Answer(text: string) | NoText | Error(message: string)

  /** What `callGemini` resolves or rejects with. */
  datatype Outcome = Success(text: string) | DoctrinalRejection | Failure

  /** The message an outcome is rejected with. */
  const DoctrineMessage: string := "ERRO_DOUTRINA"
  const FailureMessage: string := "A chamada para a API Gemini falhou."

  function ThrownMessage(o: Outcome): (m: string)
    requires !o.Success?
    ensures m == DoctrineMessage <==> o == DoctrinalRejection
  {
    if o == DoctrinalRejection then DoctrineMessage else FailureMessage
  }

  /** The two refusal words the reply is checked for. */
  const PtToken: string := "ERRO_DOUTRINA"
  const EnToken: string := "DOCTRINE_ERROR"

  /** `text.trim().toUpperCase().includes(...)` for either word. A reply
      shorter than the shorter word, white space aside, is never flagged. */
  function FlagsDoctrine(text: string): (flagged: bool)
    ensures flagged ==> |PtToken| <= |Trim(text)|
  {
    Contains(Upper(Trim(text)), PtToken) || Contains(Upper(Trim(text)), EnToken)
  }

  /** The classification in `callGemini`, as written: a flagged text is a
      doctrinal rejection, any other text is returned unchanged; a missing
      text fails on `trim`; a thrown error is re-thrown only when its message
      is the doctrine message, and otherwise replaced by the fixed message. */
  function Interpret(reply: Reply): (r: Outcome)
    ensures r.Success? ==> reply == Answer(r.text) && !FlagsDoctrine(r.text)
    ensures reply.Answer? && !FlagsDoctrine(reply.text) ==> r == Success(reply.text)
    ensures r == DoctrinalRejection <==> (reply.Answer? && FlagsDoctrine(reply.text)) || reply == Error(DoctrineMessage)
  {
    match reply
    case Answer(s) => if FlagsDoctrine(s) then DoctrinalRejection else Success(s)
    case NoText => Failure
    case Error(m) => if m == DoctrineMessage then DoctrinalRejection else Failure
  }

  /** Leading and trailing white space never matters to the check: a text is
      flagged exactly when its upper-cased form contains either word. */
  lemma FlagsIgnoresTrim(text: string)
    ensures FlagsDoctrine(text) <==> Contains(Upper(text), PtToken) || Contains(Upper(text), EnToken)
  {
    assert NoSpace(PtToken) && NoSpace(EnToken);
    UpperTrimContains(text, PtToken);
    UpperTrimContains(text, EnToken);
  }

  lemma UpperOfTokens()
    ensures Upper(PtToken) == PtToken && Upper(EnToken) == EnToken
    ensures Upper("erro_doutrina") == PtToken && Upper("doctrine_error") == EnToken
  {
    assert Upper(PtToken) == PtToken by {
      forall i | 0 <= i < |PtToken| ensures UpperChar(PtToken[i]) == PtToken[i] {}
    }
    assert Upper(EnToken) == EnToken by {
      forall i | 0 <= i < |EnToken| ensures UpperChar(EnToken[i]) == EnToken[i] {}
    }
  }

  /** Either word, in upper or lower case, anywhere in the reply makes it a
      doctrinal rejection. */
  lemma TokenAnywhereRejects(before: string, token: string, after: string)
    requires token in {PtToken, EnToken, "erro_doutrina", "doctrine_error"}
    ensures Interpret(Answer(before + token + after)) == DoctrinalRejection
  {
    var s := before + token + after;
    UpperOfTokens();
    UpperAppend(before + token, after);
    UpperAppend(before, token);
    ContainsSelf(Upper(token));
    ContainsInMiddle(Upper(before), Upper(token), Upper(after), Upper(token));
    FlagsIgnoresTrim(s);
  }

  /** The check is case-insensitive: lower-casing a reply does not change
      whether it is flagged. */
  lemma FlagsIgnoresCase(text: string)
    ensures FlagsDoctrine(Lower(text)) <==> FlagsDoctrine(text)
  {
    UpperOfLower(text);
    FlagsIgnoresTrim(text);
    FlagsIgnoresTrim(Lower(text));
  }

  /** The underlying error text is discarded: every error other than the
      doctrine message is rejected with the same fixed message. */
  lemma ErrorMessageDiscarded(m1: string, m2: string)
    requires m1 != DoctrineMessage && m2 != DoctrineMessage
    ensures Interpret(Error(m1)) == Interpret(Error(m2)) == Interpret(NoText) == Failure
    ensures ThrownMessage(Interpret(Error(m1))) == FailureMessage
  {
  }

  /** `callGemini`: build the parts, ask the service, classify the reply. */
  function CallGemini(oracle: Request -> Reply, model: string, systemInstruction: string, userPrompt: string, file: Option<UploadedFile>): (r: Outcome)
    ensures r.Success? ==> oracle(Request(model, systemInstruction, Parts(userPrompt, file))) == Answer(r.text)
  {
    Interpret(oracle(Request(model, systemInstruction, Parts(userPrompt, file))))
  }

  // ---------------------------------------------------------------------------
  // The three operations

  /** The request `generateLdsContent` sends. */
  function LdsRequest(kind: ContentKind, o: GeneratorOptions, language: string): (r: Request)
    ensures r.model == ImageModel <==> o.uploadedFile.Some?
    ensures r.model == FlashModel <==> o.uploadedFile.None?
    ensures 1 <= |r.parts| && r.parts[0] == TextPart(BuildUserPrompt(o, language))
    ensures StartsWith(r.systemInstruction, DoctrinalRule(GetPrompts(language)))
  {
    var model := if o.uploadedFile.Some? then ImageModel else FlashModel;
    Request(model, BuildSystemPrompt(kind, o.audience, Some(o.generationMode), language), Parts(BuildUserPrompt(o, language), o.uploadedFile))
  }

  function GenerateLdsContent(oracle: Request -> Reply, kind: ContentKind, o: GeneratorOptions, language: string): (r: Outcome)
    ensures r == Interpret(oracle(LdsRequest(kind, o, language)))
  {
    var model := if o.uploadedFile.Some? then ImageModel else FlashModel;
    CallGemini(oracle, model, BuildSystemPrompt(kind, o.audience, Some(o.generationMode), language), BuildUserPrompt(o, language), o.uploadedFile)
  }

  /** A non-image file (a PDF, say) still selects the image model and still
      adds the image marker to the prompt, but the file itself is not sent. */
  lemma NonImageFileNotSent(kind: ContentKind, o: GeneratorOptions, language: string)
    requires o.uploadedFile.Some? && !StartsWith(o.uploadedFile.value.mimeType, "image/")
    ensures LdsRequest(kind, o, language).model == ImageModel
    ensures LdsRequest(kind, o, language).parts == [TextPart(BuildUserPrompt(o, language))]
    ensures EndsWith(LdsRequest(kind, o, language).parts[0].text, ImageMarker(UserLabelsFor(language)))
  {
  }

  /** The labels of the hymn suggestion prompt. */
  datatype HymnLabels = HymnLabels(audience: string, theme: string, refText: string)

  function HymnLabelsFor(language: string): HymnLabels {
    match Resolve(language)
    case PtBR => HymnLabels("Público-Alvo", "Tema", "Texto de Referência")
    case EnUS => HymnLabels("Target Audience", "Theme", "Reference Text")
    case EsES => HymnLabels("Público Objetivo", "Tema", "Texto de Referencia")
  }

  /** The user prompt of `suggestHymn`: audience, theme and reference text. */
  function HymnUserPrompt(theme: string, context: string, audience: string, language: string): (r: string)
    ensures Contains(r, audience) && Contains(r, theme) && Contains(r, context)
  {
    var t := HymnLabelsFor(language);
    var a := "\n        " + t.audience + ": ";
    var b := "\n        " + t.theme + ": ";
    var c := "\n        " + t.refText + ": ";
    var e := "\n    ";
    var r := a + audience + b + theme + c + context + e;
    ContainsSelf(audience);
    ContainsSelf(theme);
    ContainsSelf(context);
    ContainsInMiddle(a, audience, b + theme + c + context + e, audience);
    assert r == a + audience + (b + theme + c + context + e);
    ContainsInMiddle(a + audience + b, theme, c + context + e, theme);
    assert r == (a + audience + b) + theme + (c + context + e);
    ContainsInMiddle(a + audience + b + theme + c, context, e, context);
    r
  }

  /** The request `suggestHymn` sends: always the flash model, the hymn
      prompt as instruction, and no file. */
  function HymnRequest(theme: string, context: string, audience: string, language: string): (r: Request)
    ensures r.model == FlashModel
    ensures r.systemInstruction == HymnPrompt(GetPrompts(language))
    ensures r.parts == [TextPart(HymnUserPrompt(theme, context, audience, language))]
  {
    Request(FlashModel, HymnPrompt(GetPrompts(language)), Parts(HymnUserPrompt(theme, context, audience, language), None))
  }

  function SuggestHymn(oracle: Request -> Reply, theme: string, context: string, audience: string, language: string): (r: Outcome)
    ensures r == Interpret(oracle(HymnRequest(theme, context, audience, language)))
  {
    CallGemini(oracle, FlashModel, HymnPrompt(GetPrompts(language)), HymnUserPrompt(theme, context, audience, language), None)
  }

  /** The request `generateMoreQuestions` sends: always the pro model, the
      lesson system prompt whatever the audience, the existing content
      verbatim between the fences, and no file. */
  function QuestionsRequest(existingContent: string, audience: string, language: string): (r: Request)
    ensures r.model == ProModel
    ensures forall a, m :: r.systemInstruction == BuildSystemPrompt(Lesson, a, m, language)
    ensures |r.parts| == 1 && r.parts[0].TextPart?
    ensures EmbeddedContent(GetPrompts(language), r.parts[0].text) == Some(existingContent)
  {
    var p := GetPrompts(language);
    EmbeddedContentRoundTrip(p, existingContent);
    Request(ProModel, BuildSystemPrompt(Lesson, audience, None, language), Parts(MoreQuestionsPrompt(p, existingContent), None))
  }

  function GenerateMoreQuestions(oracle: Request -> Reply, existingContent: string, audience: string, language: string): (r: Outcome)
    ensures r == Interpret(oracle(QuestionsRequest(existingContent, audience, language)))
  {
    var p := GetPrompts(language);
    CallGemini(oracle, ProModel, BuildSystemPrompt(Lesson, audience, None, language), MoreQuestionsPrompt(p, existingContent), None)
  }

  // ---------------------------------------------------------------------------
  // The Spanish refusal word

  /** The es-ES rule asks for `ERROR_DOCTRINA`, which contains neither word
      the check looks for: a model that obeys the Spanish rule has its refusal
      returned as content. The other two locales' words are caught. */
  lemma SpanishTokenSlipsThrough()
    ensures Interpret(Answer(RequestedToken(EsES))) == Success(RequestedToken(EsES))
    ensures Interpret(Answer(RequestedToken(PtBR))) == DoctrinalRejection
    ensures Interpret(Answer(RequestedToken(EnUS))) == DoctrinalRejection
  {
    BareTokenRejected(PtToken);
    BareTokenRejected(EnToken);
    SpanishTokenUpper();
    SpanishTokenLacksPtToken();
    SpanishTokenLacksEnToken();
    FlagsIgnoresTrim(RequestedToken(EsES));
  }

  lemma BareTokenRejected(token: string)
    requires token in {PtToken, EnToken}
    ensures Interpret(Answer(token)) == DoctrinalRejection
  {
    TokenAnywhereRejects("", token, "");
    EmptyPadding(token);
  }

  lemma SpanishTokenUpper()
    ensures Upper(RequestedToken(EsES)) == RequestedToken(EsES)
  {
    var s := RequestedToken(EsES);
    forall i | 0 <= i < |s| ensures UpperChar(s[i]) == s[i] {}
  }

  lemma SpanishTokenLacksPtToken()
    ensures !Contains(RequestedToken(EsES), PtToken)
  {
    var s := RequestedToken(EsES);
    forall i | 0 <= i <= |s| - |PtToken|
      ensures !OccursAt(s, PtToken, i)
    {
      if i == 0 {
        assert s[4] != PtToken[4];
        assert s[i..i + |PtToken|][4] == s[4];
      } else {
        assert i == 1 && s[1] != PtToken[0];
        assert s[i..i + |PtToken|][0] == s[1];
      }
    }
  }

  lemma SpanishTokenLacksEnToken()
    ensures !Contains(RequestedToken(EsES), EnToken)
  {
    var s := RequestedToken(EsES);
    forall i | 0 <= i <= |s| - |EnToken|
      ensures !OccursAt(s, EnToken, i)
    {
      assert i == 0 && s[0] != EnToken[0];
      assert s[i..i + |EnToken|][0] == s[0];
    }
  }

  /** The check as evidently intended: every locale's own refusal word is
      recognised. */
  predicate FlagsDoctrineCorrected(text: string) {
    FlagsDoctrine(text) || Contains(Upper(Trim(text)), RequestedToken(EsES))
  }

  function InterpretCorrected(reply: Reply): (r: Outcome)
    ensures r.Success? ==> reply == Answer(r.text) && !FlagsDoctrineCorrected(r.text)
    ensures r == DoctrinalRejection <==> (reply.Answer? && FlagsDoctrineCorrected(reply.text)) || reply == Error(DoctrineMessage)
  {
    match reply
    case Answer(s) => if FlagsDoctrineCorrected(s) then DoctrinalRejection else Success(s)
    case NoText => Failure
    case Error(m) => if m == DoctrineMessage then DoctrinalRejection else Failure
  }

  /** With the corrected check, a reply containing the word any locale's
      rule asks for, anywhere and in any case, is a doctrinal rejection; and
      every reply the original check rejects is still rejected. */
  lemma CorrectedCatchesEveryLocale(l: Locale, before: string, after: string, reply: Reply)
    ensures InterpretCorrected(Answer(before + RequestedToken(l) + after)) == DoctrinalRejection
    ensures InterpretCorrected(Answer(before + Lower(RequestedToken(l)) + after)) == DoctrinalRejection
    ensures Interpret(reply) == DoctrinalRejection ==> InterpretCorrected(reply) == DoctrinalRejection
  {
    var w := RequestedToken(l);
    assert Upper(w) == w by {
      forall i | 0 <= i < |w| ensures UpperChar(w[i]) == w[i] {}
    }
    assert NoSpace(w);
    UpperOfLower(w);
    forall x | x in {w, Lower(w)}
      ensures Contains(Upper(Trim(before + x + after)), w)
    {
      var s := before + x + after;
      UpperAppend(before + x, after);
      UpperAppend(before, x);
      ContainsSelf(w);
      ContainsInMiddle(Upper(before), Upper(x), Upper(after), w);
      UpperTrimContains(s, w);
    }
    if l == PtBR {
      assert w == PtToken;
    } else if l == EnUS {
      assert w == EnToken;
    }
  }
}

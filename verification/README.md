# LDS companion app: a Dafny model of its core logic

This project models the pure logic of a small React application for members of
The Church of Jesus Christ of Latter-day Saints. The application has two parts:

- **A content assistant.** It asks Google's Gemini service for a talk, a lesson, hymn suggestions or extra lesson questions, and refuses doctrinally unsafe requests.
- **A scripture-reading tracker.** It records which chapters of which books have been read and shows reading goals.

The model has one module per source file, plus shared helpers.

| module | source file | contents |
|---|---|---|
| `Types` | `types.ts` | record shapes; the locale lookup with its en-US fallback |
| `Constants`, `IdCodes`, `TableChecks` | `constants.ts` | the scripture table in three languages, with proofs about its keys and totals |
| `ProgressKeys` | — | the `volume_book`, `volume_goalDate` and `…_notes` key shapes, and why they never collide |
| `Gemini` | `services/geminiService.ts` | prompt bundles, system and user prompts, request parts, reply classification, model choice |
| `FormatText` | `components/ContentGenerator.tsx` | the Markdown-to-HTML transform |
| `ContentGenerator` | `components/ContentGenerator.tsx` | source check boxes; the submit, hymn and follow-up question handlers |
| `Tracker` | `components/ScriptureTracker.tsx` | chapter counting, volume totals, goal dates, the daily goal, navigation |
| `ChapterModal` | `components/ChapterModal.tsx` | the chapter dialog's marks and how they are saved |
| `Strings` | — | ASCII `toUpperCase`, `trim`, `includes`, `join` |

The Gemini service is a function parameter (`oracle: Request -> Reply`). A reply is one of three things:

- a text;
- a response without text;
- a thrown error with its message.

Dates in the daily goal are day numbers. Date parsing is a function parameter.

## Model

| member | source | states |
|---|---|---|
| Types.Resolve | services/geminiService.ts:162 | a known language tag selects its own locale; any other tag that is not the name of an `Object.prototype` member selects en-US |
| Types.ResolveLocaleKey | constants.ts:121-123 | every locale is found again from its own tag; an unknown tag that is not the name of an `Object.prototype` member lands on en-US |
| Constants.GetScriptures | constants.ts:121-123 | `getScriptures` returns the locale's table, or the en-US table for a tag outside the three that is not the name of an `Object.prototype` member |
| Constants.FindVolume | components/ScriptureTracker.tsx:292 | `scriptures[volumeId]` finds a volume exactly when the key is one of the table's keys, and returns that key's volume |
| Constants.VolumeKeysInEveryLocale | constants.ts:4-118 | every locale lists exactly the volume keys bom, dc, pgp, ot, nt, in that order |
| Constants.LayoutSharedByLocales | constants.ts:4-118 | per volume, the pt-BR and es-ES tables have the en-US book ids and chapter counts in the same order; only names differ |
| TableChecks.TableWellFormed | constants.ts:4-118 | in every locale, volume keys and book ids are distinct within their volume, none contains `_` or equals `goalDate`, and every book has at least one chapter |
| TableChecks.BookOfMormonChapters | constants.ts:7-24 | the first volume of every locale is `bom` and totals 239 chapters |
| TableChecks.SameLayoutSameTotal | constants.ts:55-118 | two book lists with the same ids and chapter counts have the same total |
| TableChecks.WellFormedTransfers | constants.ts:4-118 | the table's well-formedness depends only on ids and counts, so it carries from en-US to the other locales |
| TableChecks.DistinctByCode | constants.ts:58-86 | books with pairwise distinct numeric id codes have pairwise distinct ids |
| ProgressKeys.BookKey | components/ChapterModal.tsx:16 | the key `volumeId_bookId` has the volume id, then `_`, then the book id |
| ProgressKeys.GoalKey | components/ScriptureTracker.tsx:147 | a goal key has the shape of a book key whose book id is `goalDate` |
| ProgressKeys.NotesKey | components/ChapterModal.tsx:42 | the notes key is the progress key followed by `_notes` |
| ProgressKeys.BookKeyInjective | components/ChapterModal.tsx:16 | when volume ids have no `_`, two book keys are equal if and only if both parts are equal |
| ProgressKeys.BookKeyNotGoalKey | components/ScriptureTracker.tsx:147 | a book with a key-safe id never shares its key with a goal date |
| ProgressKeys.BookKeyNotNotesKey | components/ChapterModal.tsx:42-45 | a book whose id has no `_` never shares its key with any notes key |
| ProgressKeys.GoalKeyNotNotesKey | components/ChapterModal.tsx:42-45 | a goal key is never a notes key, so deleting notes never deletes a goal |
| ProgressKeys.KeysCollisionFree | constants.ts:4-118 | in a well-formed table, two book keys are equal exactly when they name the same book, and no book key equals a goal or notes key |
| ProgressKeys.TableKeysCollisionFree | constants.ts:4-118 | every locale's table gives collision-free progress keys |
| Gemini.GetPrompts | services/geminiService.ts:6-163 | a known key selects its own bundle and any other key that is not the name of an `Object.prototype` member the en-US bundle; the caller's key is kept for interpolation |
| Gemini.DoctrinalRule | services/geminiService.ts:10-116 | each locale's doctrinal rule quotes that locale's refusal word |
| Gemini.EmbeddedContent | services/geminiService.ts:50-57 | a lesson plan read back out of a follow-up prompt re-embeds to exactly that prompt |
| Gemini.EmbeddedContentRoundTrip | services/geminiService.ts:50-57 | the follow-up prompt embeds the lesson plan verbatim between the `---` fences, so it can always be read back |
| Gemini.UnknownLanguageFallsBack | services/geminiService.ts:162 | an unknown key that is not the name of an `Object.prototype` member gets en-US's rule, hymn prompt and follow-up template, but its talk and lesson formats differ from en-US's because the raw key is interpolated |
| Gemini.EffectiveMode | services/geminiService.ts:170 | an absent or empty generation mode becomes `Texto Completo`; any other mode is kept |
| Gemini.BuildSystemPrompt | services/geminiService.ts:165-175 | the system prompt starts with the language's doctrinal rule and so contains its refusal word |
| Gemini.TalkModeDefault | services/geminiService.ts:170 | a talk with no mode, an empty mode, or `Texto Completo` gets the same prompt |
| Gemini.TalkModeInjective | services/geminiService.ts:169-170 | two talks get the same prompt if and only if their non-empty modes are equal |
| Gemini.SystemPromptIgnores | services/geminiService.ts:165-175 | the audience never changes the system prompt; the mode never changes a lesson prompt |
| Gemini.TalkDiffersFromLesson | services/geminiService.ts:169-173 | a talk prompt and a lesson prompt always differ |
| Gemini.BuildUserPrompt | services/geminiService.ts:177-201 | the user prompt starts with the theme, duration, audience and sources; it ends with the image marker when a file is attached, otherwise with the reference block when there is reference text, otherwise it is the header alone |
| Gemini.ImageMarkerAppendedLast | services/geminiService.ts:196-198 | attaching any file appends exactly the image marker, after everything else |
| Gemini.ReferenceBlockAfterHeader | services/geminiService.ts:192-194 | non-empty reference text inserts the reference block right after the header, ahead of any image marker |
| Gemini.UserPromptIgnores | services/geminiService.ts:177-201 | the user prompt does not depend on the mode or on the file's contents or type, only on whether a file is attached |
| Gemini.UnknownLanguageLabels | services/geminiService.ts:183 | an unknown key that is not the name of an `Object.prototype` member gets the en-US field labels and the en-US user prompt |
| Gemini.Parts | services/geminiService.ts:204-213 | the first part is always the user prompt; a second, inline part is sent if and only if a file is attached and its MIME type starts with `image/` |
| Gemini.ThrownMessage | services/geminiService.ts:226-234 | a rejection carries `ERRO_DOUTRINA` exactly when it is the doctrinal one |
| Gemini.FlagsDoctrine | services/geminiService.ts:225 | a reply is flagged when, trimmed and upper-cased, it contains either refusal word; a reply shorter than the shorter word, white space aside, is never flagged (trimming itself never matters: `Gemini.FlagsIgnoresTrim`) |
| Gemini.Interpret | services/geminiService.ts:224-235 | a reply is a doctrinal rejection exactly when its text is flagged or the error message is `ERRO_DOUTRINA`; an unflagged text is returned unchanged and untrimmed; everything else is a failure |
| Gemini.FlagsIgnoresTrim | services/geminiService.ts:225 | trimming never changes whether a reply is flagged |
| Gemini.TokenAnywhereRejects | services/geminiService.ts:225 | either refusal word, in upper or lower case, anywhere in a reply makes it a doctrinal rejection |
| Gemini.FlagsIgnoresCase | services/geminiService.ts:225 | lower-casing a reply does not change whether it is flagged |
| Gemini.ErrorMessageDiscarded | services/geminiService.ts:229-235 | every non-doctrinal error, and a missing text, becomes the same failure with the fixed message |
| Gemini.CallGemini | services/geminiService.ts:203-236 | a success is exactly the text the service answered for the assembled request |
| Gemini.LdsRequest | services/geminiService.ts:238-243 | the image model is used if and only if a file is attached, whatever its type; the first part is the user prompt; the instruction starts with the doctrinal rule |
| Gemini.GenerateLdsContent | services/geminiService.ts:238-243 | generation classifies the service's reply to the content request |
| Gemini.NonImageFileNotSent | services/geminiService.ts:196-213 | a non-image file still selects the image model and adds the image marker, but it is not sent |
| Gemini.HymnUserPrompt | services/geminiService.ts:256-260 | the hymn prompt contains the audience, the theme and the reference text |
| Gemini.HymnRequest | services/geminiService.ts:245-262 | hymn suggestion always uses `gemini-2.5-flash`, the hymn instruction and no attachment |
| Gemini.SuggestHymn | services/geminiService.ts:245-262 | hymn suggestion classifies the service's reply to the hymn request |
| Gemini.QuestionsRequest | services/geminiService.ts:264-269 | follow-up questions always use `gemini-2.5-pro`, the lesson system prompt whatever the audience, no attachment, and embed the content verbatim |
| Gemini.GenerateMoreQuestions | services/geminiService.ts:264-269 | follow-up questions classify the service's reply to the questions request |
| Gemini.SpanishTokenSlipsThrough | services/geminiService.ts:116 | the es-ES refusal word `ERROR_DOCTRINA` alone is returned as content, while the pt-BR and en-US words are rejected |
| Gemini.InterpretCorrected | services/geminiService.ts:225 | with the es-ES word added to the check, a reply is rejected exactly when it is flagged by the corrected check or is the doctrinal error |
| Gemini.CorrectedCatchesEveryLocale | services/geminiService.ts:116 | the corrected check rejects every locale's refusal word in either case, and still rejects everything the original check rejects |
| FormatText.ReplacePairs | components/ContentGenerator.tsx:18-19 | one global lazy `replace` pass. Its behaviour is proved in lemmas, not in a contract: text without the delimiter's first character is copied (`FormatText.ReplacePairsIdentity`); a closed one-line span becomes one tagged span and the rest is processed on its own (`FormatText.SpanReplaced`); a prefix without the delimiter's first character is copied ahead of the rest (`FormatText.ReplacePairsPrefix`); every newline is kept (`FormatText.ReplacePairsKeepsNewlines`) |
| FormatText.FindClose | components/ContentGenerator.tsx:18-19 | the lazy `(.*?)` stops at the first later delimiter with no line terminator in between |
| FormatText.NewlinesToBr | components/ContentGenerator.tsx:20 | the newline pass leaves no `\n` and adds five characters per newline |
| FormatText.FormatTextToHtml | components/ContentGenerator.tsx:16-21 | the HTML output never contains `\n` |
| FormatText.PlainTextUnchanged | components/ContentGenerator.tsx:16-21 | text with neither `*` nor `\n` comes out unchanged |
| FormatText.ReplacePairsKeepsNewlines | components/ContentGenerator.tsx:18-19 | the emphasis passes keep every newline, because a span never crosses a line |
| FormatText.NewlineCountPreserved | components/ContentGenerator.tsx:16-21 | the output is the newline pass over the emphasis passes' output, which has as many newlines as the input; so, with `FormatText.NewlineBecomesBr`, each newline of the input becomes one `<br />` and the output is five characters longer per newline |
| FormatText.NewlineIsBr | components/ContentGenerator.tsx:20 | a lone newline becomes `<br />` |
| FormatText.NewlineBecomesBr | components/ContentGenerator.tsx:20 | each newline, wherever it sits, becomes exactly one `<br />`, and the text on either side of it goes through the pass on its own |
| FormatText.ReplacePairsIdentity | components/ContentGenerator.tsx:18-19 | text without the delimiter's first character is copied by an emphasis pass |
| FormatText.SpanReplaced | components/ContentGenerator.tsx:18-19 | a closed span on one line becomes one tagged span, and the rest is processed on its own |
| FormatText.WholeSpanReplaced | components/ContentGenerator.tsx:18-19 | a span that fills the whole text becomes exactly one tagged span |
| FormatText.ItalicUntouchedByBold | components/ContentGenerator.tsx:18 | `*b*` with no `*` inside is copied by the bold pass |
| FormatText.BoldLineThenItalicLine | components/ContentGenerator.tsx:16-21 | `**a**` on one line and `*b*` on the next render as a strong span, a line break and an em span |
| ContentGenerator.Remove | components/ContentGenerator.tsx:76 | `filter` drops every copy of the source and keeps every other element |
| ContentGenerator.ToggleSource | components/ContentGenerator.tsx:73-79 | a present source is removed, every copy of it; an absent one is appended; no other source changes membership |
| ContentGenerator.RemoveAppend | components/ContentGenerator.tsx:76 | removal works piece by piece, so the order of the remaining sources is kept |
| ContentGenerator.RemoveAbsent | components/ContentGenerator.tsx:76 | removing a source that is not there changes nothing |
| ContentGenerator.ToggleTwiceAbsent | components/ContentGenerator.tsx:73-79 | checking then unchecking a source gives back the original list |
| ContentGenerator.ToggleTwicePresent | components/ContentGenerator.tsx:73-79 | unchecking then checking a source moves it to the end and drops its duplicates |
| ContentGenerator.SubmitNotice | components/ContentGenerator.tsx:114-119 | the message `ERRO_DOUTRINA` maps to the doctrine notice; any other message maps to the generic notice carrying that text |
| ContentGenerator.Submit | components/ContentGenerator.tsx:99-123 | an empty theme only sets the fill-theme error; otherwise the hymn is cleared, exactly one of result and error is set, an unflagged reply becomes the result verbatim, and a failure shows the fixed message |
| ContentGenerator.SubmitWithoutThemeMakesNoCall | components/ContentGenerator.tsx:101-104 | with an empty theme, the outcome does not depend on the service |
| ContentGenerator.SubmitShowsFixedFailure | components/ContentGenerator.tsx:113-119 | a non-doctrinal error or a missing text is shown with the service's fixed message, never the underlying text |
| ContentGenerator.SpanishRefusalShownAsContent | components/ContentGenerator.tsx:110-112 | a refusal worded as the es-ES rule asks is shown as generated content |
| ContentGenerator.SuggestHymnStep | components/ContentGenerator.tsx:125-142 | a request with no theme and no context is refused without a call; otherwise exactly one of hymn and error is set, and every failure, the doctrinal one too, is a hymn failure carrying its message |
| ContentGenerator.HymnNeedsThemeOrContext | components/ContentGenerator.tsx:126-129 | the refusal notice appears exactly when both the theme and the context are empty |
| ContentGenerator.QuestionsSection | components/ContentGenerator.tsx:150 | the appended text is a blank line, the heading in bold with its colon, a line break, and the questions verbatim at the end |
| ContentGenerator.MoreQuestionsStep | components/ContentGenerator.tsx:144-157 | with no result or an empty one nothing changes; otherwise the old result stays a prefix, a success appends exactly the heading and the questions, and a failure keeps the result and shows the message |
| Tracker.Truthy | components/ScriptureTracker.tsx:12 | an index past the end of the stored array or string is `undefined`, so falsy; a stored string is truthy at exactly its character positions |
| Tracker.Stored | components/ScriptureTracker.tsx:9 | a missing key reads as the empty array, and the empty-array fallback never changes what is read: an index is truthy exactly when it is truthy in the stored entry |
| Tracker.CountTruthy | components/ScriptureTracker.tsx:11-15 | the count of truthy indices below `n` never exceeds `n` |
| Tracker.ProgressOf | components/ScriptureTracker.tsx:8-17 | a book's total is its chapter count; its completed count is at most the total, and 0 for a missing key |
| Tracker.CalculateProgress | components/ScriptureTracker.tsx:8-17 | the loop counts exactly the truthy stored marks below the chapter count |
| Tracker.CountIgnoresTail | components/ScriptureTracker.tsx:11 | marks at or beyond the chapter count are never read |
| Tracker.CountAllMarked | components/ScriptureTracker.tsx:11-15 | `n` or more read marks count as `n` |
| Tracker.CountNoneMarked | components/ScriptureTracker.tsx:11-15 | an array with no read mark counts as 0 |
| Tracker.FlipChangesCountByOne | components/ScriptureTracker.tsx:11-15 | flipping a mark below the chapter count changes the count by exactly one; flipping one beyond it changes nothing |
| Tracker.FoldBooks | components/ScriptureTracker.tsx:163-169 | the reduce adds the chapter totals, and completed stays at most total |
| Tracker.VolumeProgress | components/ScriptureTracker.tsx:101-107 | a volume's total is the sum of its books' chapters, and completed is at most total |
| Tracker.FoldIsSum | components/ScriptureTracker.tsx:162-170 | the reduce adds the per-book completed counts onto its accumulator |
| Tracker.VolumeIsSumOfBooks | components/ScriptureTracker.tsx:101-107 | a volume's tally is the sum of its books' tallies |
| Tracker.FoldReadsOnlyBookKeys | components/ScriptureTracker.tsx:164 | a volume's tally reads the progress map only at its books' keys |
| Tracker.FoldIgnoresNames | components/ScriptureTracker.tsx:164 | a volume's tally depends on book ids and chapter counts only |
| Tracker.ProgressSurvivesLanguageSwitch | components/ScriptureTracker.tsx:262 | switching language shows the same progress for every volume |
| Tracker.BookOfMormonOutOf239 | components/ScriptureTracker.tsx:101-107 | the Book of Mormon card counts out of 239 chapters in every language |
| Tracker.SaveGoal | components/ScriptureTracker.tsx:150-154 | saving sets the volume's goal key to the date and leaves every other key unchanged |
| Tracker.RemoveGoal | components/ScriptureTracker.tsx:156-160 | removing deletes only the volume's goal key |
| Tracker.SaveFromDialog | components/ScriptureTracker.tsx:48-52 | the dialog saves exactly when the date is non-empty |
| Tracker.SaveThenRemoveGoal | components/ScriptureTracker.tsx:150-160 | saving a goal on a map without one and then removing it gives back the original map |
| Tracker.GoalKeepsVolumeProgress | components/ScriptureTracker.tsx:150-160 | saving or removing any goal leaves every volume's progress unchanged |
| Tracker.CeilDiv | components/ScriptureTracker.tsx:29 | `Math.ceil(a / b)` is the least multiple count that reaches `a` |
| Tracker.CalculateDailyGoal | components/ScriptureTracker.tsx:19-35 | no goal date means no goal; a rate needs remaining chapters; `0.0` means none remain; `NaN` only for a date that does not parse |
| Tracker.DailyGoalDays | components/ScriptureTracker.tsx:22-34 | for a valid date, the goal lapses exactly when the day is past; otherwise the remaining chapters are spread over the goal day minus today plus one days |
| Tracker.SelectVolume | components/ScriptureTracker.tsx:269-272 | selecting a volume shows the book view with that volume |
| Tracker.Back | components/ScriptureTracker.tsx:278-281 | going back shows the library and clears the selected volume |
| Tracker.SelectBook | components/ScriptureTracker.tsx:274-276 | selecting a book changes only the open book |
| Tracker.CloseBook | components/ScriptureTracker.tsx:305 | closing the dialog changes only the open book |
| Tracker.NavigationShows | components/ScriptureTracker.tsx:286-308 | after selecting a volume its book list shows and the library does not; after going back the library shows and neither the book list nor the dialog does |
| Tracker.BackUndoesSelect | components/ScriptureTracker.tsx:269-281 | going back after selecting a volume returns to the library as it was |
| ChapterModal.Filled | components/ChapterModal.tsx:19 | `Array(n).fill(b)` has `n` entries, all `b` |
| ChapterModal.InitialLocal | components/ChapterModal.tsx:18-20 | the dialog starts from the stored array, an empty one included, or from one unread mark per chapter when the key is missing |
| ChapterModal.InitialLocalAgreesWithTracker | components/ChapterModal.tsx:18-20 | the dialog's initial marks count as the same number of chapters that the book's card reports |
| ChapterModal.ToggleChapter | components/ChapterModal.tsx:49-54 | within the array only index `i` is negated; past the end the array grows to `i + 1` with unread holes and a read mark at `i` |
| ChapterModal.ToggleTwice | components/ChapterModal.tsx:49-54 | flipping the same chapter twice restores the marks |
| ChapterModal.ToggleTwicePastEnd | components/ChapterModal.tsx:49-54 | past the end, flipping twice leaves the marks padded with unread chapters |
| ChapterModal.ToggleAll | components/ChapterModal.tsx:56-60 | mark all and unmark all give one mark per chapter, all equal |
| ChapterModal.HandleProgressUpdate | components/ChapterModal.tsx:36-47 | the book's key gets the new marks, its notes key is deleted, and every other key is unchanged |
| ChapterModal.UpdateIdempotent | components/ChapterModal.tsx:36-47 | saving the same marks twice is the same as saving them once |
| ChapterModal.ToggleAllReported | components/ChapterModal.tsx:56-60 | after mark all the book's card reports every chapter read; after unmark all, none |
| ChapterModal.ToggleChapterReported | components/ChapterModal.tsx:49-54 | flipping any shown chapter changes the book's card by exactly one: down for a read mark, up for an unread one, and up for a chapter at or past the end of shorter stored marks |
| ChapterModal.PastEndCount | components/ChapterModal.tsx:49-54 | flipping a chapter past the end of the marks adds one read chapter when it lies below the count's bound; the padding is unread |
| ChapterModal.UpdateKeepsOtherBooks | components/ChapterModal.tsx:36-47 | saving one book's marks leaves every other book of the table reading as before |
| Strings.Upper | services/geminiService.ts:225 | upper-casing maps each character on its own and keeps the length |
| Strings.Trim | services/geminiService.ts:225 | `trim` returns the slice between the leading and trailing white space, and it neither starts nor ends with white space; white space is the ECMAScript set, including every Unicode space separator |
| Strings.UpperTrimContains | services/geminiService.ts:225 | a word without white space occurs in the trimmed, upper-cased text exactly when it occurs in the upper-cased text |
| Strings.Join | services/geminiService.ts:189 | joining no sources gives the empty string, and joining one source gives that source |

## Notes on the source

- **Unknown language.** An unknown language key selects the en-US templates, but the raw key is interpolated into the talk and lesson formats, so those two texts differ from en-US's (`Gemini.UnknownLanguageFallsBack`).
- **Failure messages.** Failures other than the doctrinal one lose their message. The caller's "error generating content" notice therefore always carries the fixed text `A chamada para a API Gemini falhou.` (`ContentGenerator.SubmitShowsFixedFailure`).

## Left out

- The Gemini SDK, the API key and `console.error` are left out; they are foreign calls. The service is the `oracle` parameter.
- Template wording is left out. The long prompt texts are short stand-ins. The stand-ins keep what the generation code depends on:
  - each locale's refusal word;
  - the interpolated values;
  - the `---` fences.
- Translated UI texts (`t(...)`) become the constructors of `ContentGenerator.Notice`. The follow-up heading is the `heading` parameter.
- Strings.Upper: case mapping is ASCII-only. Unicode case folding is not modelled.
- React state, loading flags, JSX and CSS class builders are left out. So are `Layout.tsx`, `SettingsModal.tsx` and `App.tsx`'s settings persistence; they are UI.
- The form's `handleInputChange` is left out; it is a one-field record update.
- ContentGenerator.MoreQuestionsStep: the handler appends to the state value current when the reply arrives (`prevResult`). The model assumes nothing else changes the result in between, because async interleavings are not modelled.
- `FileReader`/base64 extraction, print, clipboard and PDF export are left out; they are browser I/O.
- localStorage and JSON persistence of progress are left out. So is the Escape-key listener.
- Tracker.CalculateDailyGoal has three limits:
  - The rate itself (`toFixed(1)` of a division) is not computed; it is floating point. The model returns the remaining chapters and the day count.
  - A day is exactly 24 hours of local time. Daylight-saving shifts are not modelled.
  - The card hides a rate that rounds to `0.0`. That rounding is not modelled.
- Tracker.Truthy: a value under a book key is a chapter array or a string; other JSON values are not modelled. A stored string is indexed by character, and each character is truthy. JavaScript indexes a string per UTF-16 code unit, while the model counts code points; they differ only for characters outside the Basic Multilingual Plane, which the model reads as one chapter instead of two.
- ChapterModal.InitialLocal: a non-empty string under a book key is kept as the dialog's state and indexed per UTF-16 code unit. It is spread into an array only when a chapter is toggled, and then by code point. The model holds one read mark per code point from the start; the two agree except for characters outside the Basic Multilingual Plane.
- ChapterModal.ToggleChapter: a toggle beyond the end leaves holes (`undefined`). The model stores them as unread marks; they read the same in every count.
- Types.Resolve: a tag that names an `Object.prototype` member (`constructor`, `toString`, `__proto__`, …) is not modelled. The source looks tags up in plain object literals, so the lookup returns the inherited member, which is truthy, and the en-US fallback never happens. Such a tag can only come from hand-edited stored settings.
- Types.ResolveLocaleKey: an unknown tag lands on en-US only when it is not the name of an `Object.prototype` member, as for Types.Resolve.
- Constants.GetScriptures: for a tag such as `constructor`, `getScriptures` returns the inherited `Object` function, which has no keys, so the library would show no volumes. This is not modelled.
- Gemini.GetPrompts: for a tag that names an `Object.prototype` member, the lookup returns the inherited member, and building the system prompt throws a `TypeError` outside the service's error handling. This is not modelled.
- Gemini.UnknownLanguageFallsBack: the proved en-US fallback matches the source only for tags that are not `Object.prototype` member names, as for Gemini.GetPrompts.
- Gemini.UnknownLanguageLabels: the label lookup has the same `Object.prototype` gap as Gemini.GetPrompts, and it is not modelled.
- Gemini.Interpret: the service is assumed to throw only `Error` objects or other non-null values, and those are classified as failures like any other non-doctrinal error. A thrown `null` or `undefined` is not modelled. Reading its `message` would itself throw a `TypeError`, and the screen would show that error's text in the generic notice. The Gemini SDK does not throw such values.

## Findings

| source | as written | input that shows it | evidently intended | confidence | as-written member | corrected member |
|---|---|---|---|---|---|---|
| services/geminiService.ts:116 and :225 | the es-ES doctrinal rule tells the model to answer `ERROR_DOCTRINA`, but the reply check looks only for `ERRO_DOUTRINA` and `DOCTRINE_ERROR` | a Spanish request the model refuses with the reply `ERROR_DOCTRINA` | every locale's refusal word is recognised, so a Spanish refusal is shown as the doctrine message | not executed | Gemini.SpanishTokenSlipsThrough | Gemini.InterpretCorrected |

The classifier the rest of the model uses is the as-written `Gemini.Interpret`, because services/geminiService.ts is modelled as it is. The corrected classifier and its proof sit beside it in `Gemini.CorrectedCatchesEveryLocale`. `ContentGenerator.SpanishRefusalShownAsContent` shows the effect on the screen.

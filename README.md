# Custom text translator — verified model

A Dafny model of the logic inside a small React front end. The front end translates typed or
image-extracted text between Korean, Japanese and English through a remote generative model.
The model covers four parts:

- **The prompt builder and client wrappers** (`GeminiService`, `gemini.dfy`).
  - The prompt is composed from:
    - the source line (the auto-detect instruction, or `출발 언어: <lang>.`);
    - the target line;
    - the glossary block, which lists the terms with both sides non-blank, numbered 1..N as `k. source -> target`;
    - the literal or natural style block;
    - the quoted text;
    - the closing "only the translation" instruction.
  - The fixed texts are kept character for character.
  - `translateText` returns `""` for blank text without asking the model. It maps an empty reply to `번역에 실패했습니다.` and rethrows failures.
  - `extractTextFromImage` maps an empty reply to `""`.
  - The model itself is a parameter: a function from the prompt to a reply.
- **The glossary list operations** (`GlossaryEditor`, `glossary.dfy`): add, update and remove by id, and the active count.
  - The editor counts a term as active when *either* side has content.
  - The prompt lists a term only when *both* sides do.
- **The page controller** (`App`, `app.dfy`): the class `Translator`, with one field per piece of page state.
  - It also holds the persisted history, the shared abort flag, a pending debounce timer and the translation calls in flight.
  - Every handler is a method, and so are the timer firing and a call settling.
  - Each method's contract ties the new snapshot of the fields to a pure transition function (`Rerun`, `Begin`, `Fire`, `Settle`, `Saved`, `Swapped`). The lemmas are about those functions.
  - The debounced effect re-runs after any handler that changes one of its dependencies (input text, languages, style, mode).
    - First, the previous run's cleanup clears the timer and raises the flag. Only a text-mode run arms that cleanup.
    - Then the new run, in text mode only, raises the flag and schedules the timer.
- **The image intake panel** (`ImageUploader`, `uploader.dfy`): the class `Uploader`.
  - It has its own preview, extraction flag, extracted text, step and abort flag.
  - It reports its busy state to the page and hands confirmed text to it.

`Types` (`types.dfy`) holds the shared enumerations and records. `JsStrings` (`jsstrings.dfy`) holds the JavaScript string built-ins the code relies on (`trim`, `startsWith`, `split`, `join`, integer `toString`) with their properties.

Behaviour of the code that the model keeps, including where it falls short of per-call cancellation:

- **The shared abort flag is not a per-call token.**
  - Every new call clears the one flag, so a call started earlier is not superseded by a later one. `App.OlderReplyStillApplied` exhibits this.
  - The only guarantee is that a reply settling while the flag is raised changes nothing.
- **Confirming OCR text switches the page to text mode, which re-runs the effect.**
  - The effect raises the flag again right after the OCR-chain call cleared it.
  - So a reply that arrives before the debounce timer fires is dropped (`App.OcrReplyBeforeTimerDiscarded`).
  - A reply that arrives after the timer fires is shown and saved (`App.OcrReplyAfterTimerSaved`).
- **Only the OCR chain writes the history.** The debounced and manual paths never do.
- **Stored history is loaded whenever present.** Corrupt stored data is not tolerated by the code, and the model claims nothing about it.

## Model

| member | source | states |
|---|---|---|
| Types.LanguageName | CustomTranslate/types.ts:1-6 | each language prints as its enum string, which is never empty |
| Types.LanguageNameInjective | CustomTranslate/types.ts:1-6 | distinct languages print differently |
| JsStrings.TrimEmptyIffBlank | services/geminiService.ts:32 | `s.trim()` is empty exactly when every character of `s` is JavaScript whitespace |
| JsStrings.Trim | services/geminiService.ts:32 | `s.trim()` is never longer than `s` and neither starts nor ends with whitespace (with TrimStart/TrimEnd: it is `s` without its leading and trailing whitespace) |
| JsStrings.StartsWith | components/ImageUploader.tsx:20 | `s.startsWith(prefix)` holds iff `s` is `prefix` followed by the rest of `s` |
| JsStrings.NatToString | services/geminiService.ts:33 | the decimal rendering is non-empty, all digits, without a leading zero |
| JsStrings.NatToStringRoundTrip | App.tsx:51 | reading the rendering back as a decimal gives the number |
| JsStrings.JoinListsEach | services/geminiService.ts:34 | every joined line occurs unchanged at its offset in the joined text |
| JsStrings.Join | services/geminiService.ts:34 | no lines join to `""` and one line joins to itself; see JoinListsEach and JoinSplit for the general case |
| JsStrings.JoinEmptyIff | services/geminiService.ts:34-36 | a join of non-empty lines is empty exactly when there are no lines |
| JsStrings.Split | components/ImageUploader.tsx:78 | `split` yields at least one field and no field contains the separator |
| JsStrings.JoinSplit | components/ImageUploader.tsx:78 | joining the fields back with the separator gives the original string |
| GeminiService.SourceInstructionIff | services/geminiService.ts:26 | the source line is the auto-detect instruction iff the source is AUTO, otherwise `출발 언어: <source>.` |
| GeminiService.SourceInstruction | services/geminiService.ts:26 | the source line is never empty and starts with `출발 언어: ` iff the source is not AUTO |
| GeminiService.TargetInstruction | services/geminiService.ts:50 | the target line is `도착 언어: ` followed by the target's name and a full stop |
| GeminiService.StyleInstruction | services/geminiService.ts:10-24 | the style block is one of the two fixed blocks; see StyleInstructionIff for which |
| GeminiService.IsListed | services/geminiService.ts:32 | a listed term has both sides non-empty; see ListedTerms for the filter |
| GeminiService.StyleInstructionIff | services/geminiService.ts:12-24 | LITERAL selects the literal block and every other style the natural block, both iff |
| GeminiService.ListedTerms | services/geminiService.ts:31-32 | a term is kept iff both its source and target are non-blank; never more terms than given |
| GeminiService.ListedTermsAppend | services/geminiService.ts:31-32 | the filter distributes over concatenation, so listed terms keep their original order |
| GeminiService.NumberLines | services/geminiService.ts:33 | line k is `"<first+k>. source -> target"` with the untrimmed sides, one line per term |
| GeminiService.GlossaryLine | services/geminiService.ts:33 | a line starts with its number and `. ` and ends with the untrimmed target |
| GeminiService.GlossaryItems | services/geminiService.ts:31-34 | the numbered list is empty iff no term is listed; see GlossaryBlockListsTerm for its lines |
| GeminiService.GlossaryInstruction | services/geminiService.ts:29-46 | the block is empty iff no term is listed, and otherwise starts with the fixed glossary header; see GlossaryBlockShape |
| GeminiService.NoGlossaryBlockIff | services/geminiService.ts:29-46 | the glossary block is empty exactly when no term has both sides non-blank |
| GeminiService.GlossaryBlockShape | services/geminiService.ts:36-45 | with a listed term, the block is the fixed header, the numbered list and the fixed footer |
| GeminiService.GlossaryBlockListsTerm | services/geminiService.ts:31-45 | the k-th listed term occurs in the block as line number k + 1 |
| GeminiService.RenderLayout | services/geminiService.ts:48-60 | in the template, source line < target line < glossary block < style block < quoted text, and it ends with the closing instruction |
| GeminiService.Render | services/geminiService.ts:48-60 | the template starts with the source slot and ends with the closing instruction; see RenderLayout for the order of all slots |
| GeminiService.BuildPrompt | services/geminiService.ts:9-61 | `buildPrompt`: the prompt starts with the source line and ends with the closing instruction; see PromptLayout and PromptListsGlossaryTerm |
| GeminiService.PromptLayout | services/geminiService.ts:48-60 | the built prompt contains the source, target, glossary, style and quoted-text parts in that order, then ends with "only the translated text" |
| GeminiService.RenderGlossaryContains | services/geminiService.ts:48-54 | anything inside the glossary block lies after the target line and before the style block |
| GeminiService.PromptListsGlossaryTerm | services/geminiService.ts:31-60 | every listed term's numbered line is in the prompt, between the target line and the style block |
| GeminiService.TranslationOutcome | services/geminiService.ts:70-88 | blank text gives `""`; otherwise a failure is rethrown (iff the reply failed), a non-empty reply text passes through, and an empty or missing reply text becomes `번역에 실패했습니다.` |
| GeminiService.TranslateText | services/geminiService.ts:63-89 | blank text gives `""` whatever the model; otherwise the model is asked with the built prompt and its reply settles as TranslationOutcome says: the error is rethrown iff the model fails, a non-empty text passes through, an empty or missing text becomes `번역에 실패했습니다.` |
| GeminiService.ExtractionOutcome | services/geminiService.ts:91-113 | a failure is rethrown iff the model failed; a reply's text passes through and a missing text becomes `""` |
| GlossaryEditor.AddTerm | CustomTranslate/components/GlossaryEditor.tsx:21-23 | exactly one term with empty sides and the given id is appended; the existing terms are unchanged |
| GlossaryEditor.WithField | CustomTranslate/components/GlossaryEditor.tsx:26 | the named side gets the value; the id and the other side are kept |
| GlossaryEditor.UpdateTerm | CustomTranslate/components/GlossaryEditor.tsx:25-27 | length and order are kept, only terms with the id change and only in the named field, and an absent id leaves the list unchanged |
| GlossaryEditor.RemoveTerm | CustomTranslate/components/GlossaryEditor.tsx:29-31 | no remaining term carries the id, and the list never grows |
| GlossaryEditor.RemoveTermMembers | CustomTranslate/components/GlossaryEditor.tsx:30 | the remaining terms are exactly the terms whose id differs |
| GlossaryEditor.RemoveTermAppend | CustomTranslate/components/GlossaryEditor.tsx:30 | removal distributes over concatenation, so the remaining terms keep their relative order |
| GlossaryEditor.RemoveAbsentId | CustomTranslate/components/GlossaryEditor.tsx:30 | removing an id no term carries leaves the list unchanged |
| GlossaryEditor.RemoveTermIdempotent | CustomTranslate/components/GlossaryEditor.tsx:29-31 | removing the same id twice equals removing it once |
| GlossaryEditor.RemoveTermCommutes | CustomTranslate/components/GlossaryEditor.tsx:29-31 | removing two ids gives the same list in either order |
| GlossaryEditor.ActiveTerms | CustomTranslate/components/GlossaryEditor.tsx:34 | the kept terms are exactly those with at least one non-blank side |
| GlossaryEditor.HasContent | CustomTranslate/components/GlossaryEditor.tsx:34 | every listed term has content, and a term with content has a non-empty side |
| GlossaryEditor.ActiveCount | CustomTranslate/components/GlossaryEditor.tsx:34 | the count is the number of terms with at least one non-blank side (the length of ActiveTerms), at most the list length, and zero iff no term has content |
| GlossaryEditor.ActiveTermsAppend | CustomTranslate/components/GlossaryEditor.tsx:34 | the active filter distributes over concatenation |
| GlossaryEditor.ListedAtMostActive | CustomTranslate/components/GlossaryEditor.tsx:34 | every term the prompt lists is counted as active, so the prompt lists at most `activeCount` terms |
| GlossaryEditor.HalfFilledTermCountedNotListed | CustomTranslate/components/GlossaryEditor.tsx:34 | the converse fails: a term with only a source is counted but yields no glossary block |
| GlossaryEditor.AddTermKeepsCounts | CustomTranslate/components/GlossaryEditor.tsx:21-23 | a new blank term changes neither the active count nor the listed terms |
| App.Rerun | App.tsx:66-102 | only the flag and the timer change; with unchanged dependencies nothing changes; otherwise the timer is pending iff text mode, and the flag is raised when the old or new run is in text mode; a pending timer implies text mode |
| App.Initial | App.tsx:13-44 | the first render loads the stored history when present, starts with empty texts and idle, and the mount run of the effect raises the flag and schedules the timer |
| App.InitialGlossaryIsInactive | App.tsx:26-30 | the three starting glossary rows count zero and produce no glossary block |
| App.Prepend | App.tsx:60 | the new entry is first, the length is min(old + 1, 50), and the rest are the previous first entries in order |
| App.NewItem | App.tsx:50-58 | the entry carries both texts, the current languages and style, and the clock reading as timestamp and as decimal id |
| App.Saved | App.tsx:47-63 | nothing happens when either text is empty; otherwise the capped list is stored and also written to storage |
| App.SavedEntryFirst | App.tsx:50-60 | the saved entry is first and carries the texts, the current languages and style, the clock reading as timestamp and as decimal id |
| App.SaveEvictsOldest | App.tsx:60 | with 50 entries, saving drops exactly the oldest one |
| App.Swapped | App.tsx:107-113 | AUTO source: nothing changes; otherwise the languages are exchanged and so are the input and translated texts |
| App.SwapTwiceRestores | App.tsx:109-112 | two swaps restore the state when neither language is AUTO |
| App.Begin | App.tsx:118-122 | starting a call shows `translating`, clears the shared flag and records the request with the current settings |
| App.Fire | App.tsx:72-96 | blank input clears the result and starts nothing; otherwise a debounced call starts; no timer is left pending |
| App.Settle | App.tsx:121-158 | a reply settling while the flag is raised changes nothing but the in-flight list; otherwise the outcome (or the fixed error text) is shown and the page goes idle; only an OCR-chain success can change history, and such a success with the flag down saves the call's text and result as the newest entry, in state and in storage |
| App.SettleShowsClientResult | App.tsx:122-129 | with the flag down, the shown text is what `translateText` returns for the call's request, or the error text when it throws |
| App.OcrReplyBeforeTimerDiscarded | App.tsx:137-159 | after an OCR confirmation from image mode, the flag is raised and the timer pending, so a reply before the timer changes neither text, history nor loading state |
| App.OcrReplyAfterTimerSaved | App.tsx:143-148 | when the timer fires first, the OCR-chain reply is shown and becomes the newest history entry |
| App.OlderReplyStillApplied | App.tsx:119 | with two calls started, the older call's reply is still shown: the flag is not a per-call token |
| App.Translator.constructor | App.tsx:13-44 | the page starts in the initial state |
| App.Translator.AfterRender | App.tsx:66-102 | the effect machinery after a render follows `Rerun` |
| App.Translator.SetInputText | App.tsx:272 | the input changes and the effect re-runs |
| App.Translator.SetMode | App.tsx:196-215 | the mode changes and the effect re-runs |
| App.Translator.SetSourceLang | App.tsx:224 | the source changes and the effect re-runs |
| App.Translator.SetTargetLang | App.tsx:225 | the target (never AUTO) changes and the effect re-runs |
| App.Translator.SetStyle | App.tsx:226 | the style changes and the effect re-runs |
| App.Translator.SetGlossaryTerms | App.tsx:233 | the glossary changes and, not being a dependency, schedules nothing |
| App.Translator.SetShowHistory | App.tsx:182 | only the sidebar flag changes |
| App.Translator.SetLoading | App.tsx:246 | the uploader's callback sets `extracting_text` or `idle` |
| App.Translator.Start | App.tsx:118-122 | the new state is `Begin` of the old one |
| App.Translator.SaveToHistory | App.tsx:47-63 | the new state is `Saved` of the old one |
| App.Translator.SwapLanguages | App.tsx:107-113 | the new state is the swap followed by the effect's re-run |
| App.Translator.ManualTranslation | App.tsx:115-135 | blank input leaves every field unchanged; otherwise a manual call starts |
| App.Translator.ImageTextExtracted | App.tsx:137-159 | the text becomes the input in text mode, an OCR-chain call starts, then the effect re-runs |
| App.Translator.StopTranslation | App.tsx:161-164 | the flag is raised and the page goes idle; the shown translation is unchanged |
| App.Translator.Reset | App.tsx:166-169 | the input is cleared and the effect re-runs; the result is cleared later by the timer |
| App.Translator.TimerFires | App.tsx:72-96 | the new state is `Fire` of the old one |
| App.Translator.AttemptSettles | App.tsx:121-158 | the new state is `Settle` of the old one |
| App.Translator.SelectHistoryItem | App.tsx:320-328 | the entry's languages, style and texts are restored, text mode is selected, the sidebar closes, and the effect re-runs |
| ImageUploader.IsImage | components/ImageUploader.tsx:20 | a file is accepted iff its MIME type is `image/` followed by anything |
| ImageUploader.DataPayload | components/ImageUploader.tsx:78 | there is a second field iff the URL has a comma, and that field contains no comma |
| ImageUploader.DataPayloadOfDataUrl | components/ImageUploader.tsx:77-78 | for `header,data` without further commas the payload is exactly `data` |
| ImageUploader.Staged | components/ImageUploader.tsx:19-29 | a non-image file changes nothing; an image becomes the preview with an empty text in the upload step |
| ImageUploader.Received | components/ImageUploader.tsx:48-67 | only the first file is processed, and the preview changes only to an image file's data |
| ImageUploader.OcrSettled | components/ImageUploader.tsx:79-96 | with the flag raised nothing changes; otherwise extraction ends, and a reply sets the text and the verify step while a failure leaves them |
| ImageUploader.EmptyAnswerVerifiesEmpty | components/ImageUploader.tsx:81-84 | a reply without text moves to the verify step with an empty text |
| ImageUploader.Uploader.constructor | components/ImageUploader.tsx:13-17 | no preview, not extracting, empty text, upload step, flag down |
| ImageUploader.Uploader.ProcessFile | components/ImageUploader.tsx:19-29 | the new state is `Staged` of the old one |
| ImageUploader.Uploader.ReceiveFiles | components/ImageUploader.tsx:48-67 | the new state is `Received` of the old one |
| ImageUploader.Uploader.HandlePaste | components/ImageUploader.tsx:31-46 | a paste has the same effect as receiving the pasted files |
| ImageUploader.Uploader.HandleOCR | components/ImageUploader.tsx:69-78 | with no preview nothing changes; otherwise extraction starts on the URL's second field, the flag is cleared and the page shows `extracting_text` |
| ImageUploader.Uploader.OcrSettles | components/ImageUploader.tsx:79-96 | the new state is `OcrSettled` of the old one, and the page goes idle unless the flag is raised |
| ImageUploader.Uploader.HandleStopOCR | components/ImageUploader.tsx:98-102 | the flag is raised, extraction ends and the page goes idle |
| ImageUploader.Uploader.HandleConfirmText | components/ImageUploader.tsx:104-109 | the page receives the current text; the panel clears text and preview and returns to the upload step |
| ImageUploader.Uploader.ClearImage | components/ImageUploader.tsx:111-116 | no preview, empty text, upload step |
| ImageUploader.Uploader.EditExtractedText | components/ImageUploader.tsx:193 | only the extracted text changes |

## Left out

- The generative-model SDK calls, the model name, the temperature and the system instruction are not modelled. The model is a function from prompt to reply, and an extraction call's reply is an event argument.
- Real time, `setTimeout` and the 800 ms delay are not modelled. Timer expiry and call settlement are explicit events, and `Date.now()` is a parameter.
  - `App.SaveToHistory` reads the clock once for both the id and the timestamp, where the code reads it twice.
- React's rendering and stale closures are simplified. Each handler works on the current state.
  - The debounce timer callback uses the glossary current when it fires. The code uses the glossary of the render that scheduled it.
  - The effect re-run is folded into the handler that changed a dependency.
- Unmounting is not modelled, including the uploader's unmount after a confirmation switches to text mode.
- `JSON.parse` and `JSON.stringify` are not modelled. Storage holds the history list directly, and a parse failure on corrupt data, which the code does not catch, is not represented.
- `ImageUploader.Uploader.ProcessFile` treats the file reader's load as immediate. The asynchronous `FileReader` is not modelled.
- The window paste listener registration, drag-over handling, clearing the file input element, `alert` and `console.error` are not modelled.
- The glossary panel's visibility toggle, all JSX and styling, the result card, the language controls and the text-to-speech voice map are not modelled.
  - The target selector's exclusion of AUTO is kept, as the precondition of `App.Translator.SetTargetLang`.
- The `speaking` loading state is declared but never entered.

/**
 * The translator page: its state, the debounced auto-translation effect and the
 * handlers. Timer expiry and the settling of a translation call are explicit events;
 * the effect's re-run after a render is performed by the handler that changed one of
 * its dependencies.
 */
module App {
  import opened Types
  import opened JsStrings
  import opened GeminiService
  import opened GlossaryEditor

  /** The history keeps at most this many entries. */
  const MaxHistory: nat := 50

  /** Shown when a translation call fails. */
  const TranslationErrorText: string := "번역 중 오류가 발생했습니다."

  /** Where a translation call was started: the debounce timer, the retranslate button, or an OCR confirmation. */
  datatype Path = Debounced | Manual | OcrChain

  /** A translation call that has started and not yet settled, with the request it made. */
  datatype Attempt = Attempt(path: Path, text: string, source: Language, target: Language,
                             style: TranslationStyle, glossary: seq<GlossaryTerm>)

  /** The prompt an attempt sent to the model. */
  function PromptOf(a: Attempt): string {
    BuildPrompt(a.text, a.source, a.target, a.style, a.glossary)
  }

  /** The dependencies of the debounced effect: it re-runs after a render in which one of them changed. */
  datatype Deps = Deps(inputText: string, sourceLang: Language, targetLang: Language,
                       style: TranslationStyle, mode: AppMode)

  /** Everything the page holds, including the persisted history, the timer and the calls in flight. */
  datatype State = State(
    mode: AppMode,
    sourceLang: Language,
    targetLang: Language,
    style: TranslationStyle,
    inputText: string,
    translatedText: string,
    loadingState: LoadingState,
    history: seq<TranslationHistoryItem>,
    stored: Option<seq<TranslationHistoryItem>>,
    showHistory: bool,
    glossaryTerms: seq<GlossaryTerm>,
    abortFlag: bool,
    timerPending: bool,
    inFlight: seq<Attempt>)

  function DepsOf(s: State): Deps {
    Deps(s.inputText, s.sourceLang, s.targetLang, s.style, s.mode)
  }

  /** A debounce timer is only ever pending in text mode. */
  predicate ValidState(s: State) {
    s.timerPending ==> s.mode == TextMode
  }

  /**
   * The effect after a render. When a dependency changed, the previous run's cleanup
   * (armed only by a text-mode run) clears its timer and raises the flag; then the new
   * run returns at once in image mode, and in text mode raises the flag and schedules
   * the timer. Nothing but the flag and the timer is touched.
   */
  function Rerun(prev: Deps, s: State): (r: State)
    ensures prev == DepsOf(s) ==> r == s
    ensures r == s.(abortFlag := r.abortFlag, timerPending := r.timerPending)
    ensures prev != DepsOf(s) ==> r.timerPending == (s.mode == TextMode || (prev.mode != TextMode && s.timerPending))
    ensures r.abortFlag == (s.abortFlag || (prev != DepsOf(s) && (prev.mode == TextMode || s.mode == TextMode)))
    ensures ValidState(s) ==> ValidState(r)
  {
    if prev == DepsOf(s) then s
    else if s.mode == TextMode then s.(abortFlag := true, timerPending := true)
    else if prev.mode == TextMode then s.(abortFlag := true, timerPending := false)
    else s
  }

  /** The page as first rendered: both mount effects have run, so the history is loaded and the timer scheduled. */
  function Initial(saved: Option<seq<TranslationHistoryItem>>): (r: State)
    ensures ValidState(r)
    ensures r.history == (if saved.Some? then saved.value else [])
    ensures r.timerPending && r.abortFlag && r.inFlight == []
    ensures r.inputText == [] && r.translatedText == [] && r.loadingState == Idle
  {
    State(TextMode, Auto, Korean, Literal, [], [], Idle,
          if saved.Some? then saved.value else [], saved, false,
          [GlossaryTerm("1", [], []), GlossaryTerm("2", [], []), GlossaryTerm("3", [], [])],
          true, true, [])
  }

  /** The three starting glossary rows are blank: the badge shows zero and the prompt has no glossary block. */
  lemma InitialGlossaryIsInactive(saved: Option<seq<TranslationHistoryItem>>)
    ensures ActiveCount(Initial(saved).glossaryTerms) == 0
    ensures ListedTerms(Initial(saved).glossaryTerms) == []
    ensures GlossaryInstruction(Initial(saved).glossaryTerms) == []
  {
    var g := Initial(saved).glossaryTerms;
    assert forall t :: t in g ==> !HasContent(t);
    NoGlossaryBlockIff(g);
  }

  /** `[newItem, ...history].slice(0, 50)`. */
  function Prepend(item: TranslationHistoryItem, history: seq<TranslationHistoryItem>): (r: seq<TranslationHistoryItem>)
    ensures |r| == (if |history| < MaxHistory then |history| + 1 else MaxHistory)
    ensures r[0] == item
    ensures r[1..] == history[..|r| - 1]
  {
    var all := [item] + history;
    if |all| <= MaxHistory then all else all[..MaxHistory]
  }

  /** The entry `saveToHistory` creates; `now` stands for the clock reading used for both id and timestamp. */
  function NewItem(s: State, original: string, translated: string, now: nat): (r: TranslationHistoryItem)
    ensures DecimalValue(r.id) == r.timestamp == now
    ensures r.originalText == original && r.translatedText == translated
    ensures r.sourceLang == s.sourceLang && r.targetLang == s.targetLang && r.style == s.style
  {
    NatToStringRoundTrip(now);
    TranslationHistoryItem(NatToString(now), now, s.sourceLang, s.targetLang, original, translated, s.style)
  }

  /** `saveToHistory`: nothing when either text is empty, else the capped new list, also written to storage. */
  function Saved(s: State, original: string, translated: string, now: nat): (r: State)
    ensures original == [] || translated == [] ==> r == s
    ensures r == s.(history := r.history, stored := r.stored)
    ensures original != [] && translated != [] ==>
              r.stored == Some(r.history) && r.history == Prepend(NewItem(s, original, translated, now), s.history)
  {
    if original == [] || translated == [] then s
    else
      var h := Prepend(NewItem(s, original, translated, now), s.history);
      s.(history := h, stored := Some(h))
  }

  /** A saved entry is first, carries the current languages and style, and pushes the others down by one. */
  lemma SavedEntryFirst(s: State, original: string, translated: string, now: nat)
    requires original != [] && translated != []
    ensures var h := Saved(s, original, translated, now).history;
            && |h| == (if |s.history| < MaxHistory then |s.history| + 1 else MaxHistory)
            && h[0].originalText == original && h[0].translatedText == translated
            && h[0].sourceLang == s.sourceLang && h[0].targetLang == s.targetLang && h[0].style == s.style
            && h[0].timestamp == now && DecimalValue(h[0].id) == now
            && forall k :: 1 <= k < |h| ==> h[k] == s.history[k - 1]
  {
    var h := Saved(s, original, translated, now).history;
    NatToStringRoundTrip(now);
    forall k | 1 <= k < |h|
      ensures h[k] == s.history[k - 1]
    {
      assert h[k] == h[1..][k - 1];
    }
  }

  /** Once the history holds 50 entries, every save drops the oldest one. */
  lemma SaveEvictsOldest(s: State, original: string, translated: string, now: nat)
    requires original != [] && translated != [] && |s.history| == MaxHistory
    ensures Saved(s, original, translated, now).history
            == [NewItem(s, original, translated, now)] + s.history[..MaxHistory - 1]
  {
    var h := Saved(s, original, translated, now).history;
    assert h == [h[0]] + h[1..];
  }

  /** `handleSwapLanguages` without the effect: nothing for an auto-detect source, else both pairs exchanged. */
  function Swapped(s: State): (r: State)
    ensures s.sourceLang == Auto ==> r == s
    ensures s.sourceLang != Auto ==>
              r == s.(sourceLang := s.targetLang, targetLang := s.sourceLang,
                       inputText := s.translatedText, translatedText := s.inputText)
  {
    if s.sourceLang == Auto then s
    else s.(sourceLang := s.targetLang, targetLang := s.sourceLang,
            inputText := s.translatedText, translatedText := s.inputText)
  }

  /** Swapping twice restores the languages and texts when neither language is auto-detect. */
  lemma SwapTwiceRestores(s: State)
    requires s.sourceLang != Auto && s.targetLang != Auto
    ensures Swapped(Swapped(s)) == s
  {
  }

  /** A new call: the page shows it is translating, the shared flag is cleared and the request is recorded. */
  function Begin(s: State, path: Path, text: string): (r: State)
    ensures !r.abortFlag && r.loadingState == Translating
    ensures r.inFlight == s.inFlight + [Attempt(path, text, s.sourceLang, s.targetLang, s.style, s.glossaryTerms)]
    ensures r == s.(abortFlag := false, loadingState := Translating, inFlight := r.inFlight)
  {
    s.(loadingState := Translating, abortFlag := false,
       inFlight := s.inFlight + [Attempt(path, text, s.sourceLang, s.targetLang, s.style, s.glossaryTerms)])
  }

  /** The debounce timer fires: blank input clears the result and calls nothing; otherwise a call starts. */
  function Fire(s: State): (r: State)
    ensures !r.timerPending
    ensures IsBlank(s.inputText) ==> r == s.(timerPending := false, translatedText := [])
    ensures !IsBlank(s.inputText) ==> r == Begin(s.(timerPending := false), Debounced, s.inputText)
    ensures ValidState(r)
  {
    var s' := s.(timerPending := false);
    if IsBlank(s.inputText) then s'.(translatedText := []) else Begin(s', Debounced, s.inputText)
  }

  /**
   * The `i`-th call settles with the model's reply. While the flag is raised nothing is
   * applied. Otherwise the outcome is shown (the fixed error text for a failure), the
   * page goes idle, and only a call from the OCR chain saves the result to the history.
   */
  function Settle(s: State, i: nat, reply: Reply, now: nat): (r: State)
    requires i < |s.inFlight|
    ensures r.inFlight == RemoveAt(s.inFlight, i)
    ensures s.abortFlag ==> r == s.(inFlight := r.inFlight)
    ensures r == s.(inFlight := r.inFlight, translatedText := r.translatedText, loadingState := r.loadingState,
                    history := r.history, stored := r.stored)
    ensures !s.abortFlag ==> r.loadingState == Idle
    ensures !s.abortFlag ==>
              r.translatedText == match TranslationOutcome(s.inFlight[i].text, reply)
                                  case Ok(t) => t
                                  case ProviderError => TranslationErrorText
    ensures s.inFlight[i].path != OcrChain || reply == Failed ==> r.history == s.history && r.stored == s.stored
    ensures !s.abortFlag && s.inFlight[i].path == OcrChain && TranslationOutcome(s.inFlight[i].text, reply).Ok? ==>
              var saved := Saved(s, s.inFlight[i].text, TranslationOutcome(s.inFlight[i].text, reply).text, now);
              r.history == saved.history && r.stored == saved.stored
  {
    var a := s.inFlight[i];
    var s' := s.(inFlight := RemoveAt(s.inFlight, i));
    if s.abortFlag then s'
    else match TranslationOutcome(a.text, reply)
      case Ok(t) =>
        var shown := s'.(translatedText := t, loadingState := Idle);
        if a.path == OcrChain then Saved(shown, a.text, t, now) else shown
      case ProviderError => s'.(translatedText := TranslationErrorText, loadingState := Idle)
  }

  /**
   * A settling call shows what `translateText` would have returned for its request (or the
   * error text when it throws), provided the flag is down.
   */
  lemma SettleShowsClientResult(s: State, i: nat, model: string -> Reply, now: nat)
    requires i < |s.inFlight| && !s.abortFlag
    ensures var a := s.inFlight[i];
            Settle(s, i, model(PromptOf(a)), now).translatedText
            == match TranslateText(a.text, a.source, a.target, a.style, a.glossary, model)
               case Ok(t) => t
               case ProviderError => TranslationErrorText
  {
    var a := s.inFlight[i];
    if !IsBlank(a.text) {
      assert TranslateText(a.text, a.source, a.target, a.style, a.glossary, model)
             == TranslationOutcome(a.text, model(PromptOf(a)));
    }
  }

  /**
   * An OCR confirmation from image mode switches to text mode, so the effect re-runs after
   * the call has cleared the flag and raises it again: a reply that arrives before the
   * debounce timer fires is discarded, and the history is not written.
   */
  lemma OcrReplyBeforeTimerDiscarded(s: State, text: string, reply: Reply, now: nat)
    requires s.mode == ImageMode
    ensures var t := Rerun(DepsOf(s), Begin(s.(inputText := text, mode := TextMode), OcrChain, text));
            && t.abortFlag && t.timerPending
            && var u := Settle(t, |t.inFlight| - 1, reply, now);
               u.translatedText == s.translatedText && u.history == s.history && u.loadingState == Translating
  {
  }

  /**
   * When the debounce timer fires first, it clears the flag again, and the OCR call's reply is
   * then shown and saved as the newest history entry.
   */
  lemma OcrReplyAfterTimerSaved(s: State, text: string, result: string, now: nat)
    requires s.mode == ImageMode && !IsBlank(text) && result != []
    ensures var t := Rerun(DepsOf(s), Begin(s.(inputText := text, mode := TextMode), OcrChain, text));
            var u := Settle(Fire(t), |s.inFlight|, Answered(Some(result)), now);
            && u.translatedText == result
            && u.history[0].originalText == text && u.history[0].translatedText == result
  {
    var t := Rerun(DepsOf(s), Begin(s.(inputText := text, mode := TextMode), OcrChain, text));
    var f := Fire(t);
    assert t.inFlight[|s.inFlight|].path == OcrChain;
    assert f.inFlight[|s.inFlight|] == t.inFlight[|s.inFlight|];
    var shown := f.(inFlight := RemoveAt(f.inFlight, |s.inFlight|), translatedText := result, loadingState := Idle);
    SavedEntryFirst(shown, text, result, now);
  }

  /**
   * The flag is shared, not a per-call token: when a second call starts before the first
   * settles, both clear the same flag, so the older call's reply is still shown.
   */
  lemma OlderReplyStillApplied(s: State, older: string, newer: string, result: string, now: nat)
    requires !IsBlank(older) && result != []
    ensures var t := Begin(Begin(s, Manual, older), Manual, newer);
            && t.inFlight[|s.inFlight|].text == older
            && Settle(t, |s.inFlight|, Answered(Some(result)), now).translatedText == result
  {
  }

  /** The page, with one field per piece of component state and the shared abort flag. */
  class Translator {
    var mode: AppMode
    var sourceLang: Language
    var targetLang: Language
    var style: TranslationStyle
    var inputText: string
    var translatedText: string
    var loadingState: LoadingState
    var history: seq<TranslationHistoryItem>
    /** What local storage holds under the history key. */
    var stored: Option<seq<TranslationHistoryItem>>
    var showHistory: bool
    var glossaryTerms: seq<GlossaryTerm>
    var abortFlag: bool
    /** The debounce timer has been scheduled and has neither fired nor been cleared. */
    var timerPending: bool
    /** The translation calls started and not yet settled. */
    var inFlight: seq<Attempt>

    function Snapshot(): State
      reads this
    {
      State(mode, sourceLang, targetLang, style, inputText, translatedText, loadingState, history, stored,
            showHistory, glossaryTerms, abortFlag, timerPending, inFlight)
    }

    predicate Valid()
      reads this
    {
      ValidState(Snapshot())
    }

    /** Mounting: the stored history is loaded and the debounced effect runs once in text mode. */
    constructor (saved: Option<seq<TranslationHistoryItem>>)
      ensures Valid()
      ensures Snapshot() == Initial(saved)
    {
      mode, sourceLang, targetLang, style := TextMode, Auto, Korean, Literal;
      inputText, translatedText, loadingState := [], [], Idle;
      history, stored, showHistory := [], saved, false;
      glossaryTerms := [GlossaryTerm("1", [], []), GlossaryTerm("2", [], []), GlossaryTerm("3", [], [])];
      abortFlag, timerPending, inFlight := false, false, [];
      if saved.Some? {
        history := saved.value;
      }
      abortFlag := true;
      timerPending := true;
    }

    /** The effect machinery after a render whose dependencies were `prev` before the handler ran. */
    method AfterRender(prev: Deps)
      modifies this
      ensures Snapshot() == Rerun(prev, old(Snapshot()))
    {
      if prev != DepsOf(Snapshot()) {
        if prev.mode == TextMode {
          timerPending := false;
          abortFlag := true;
        }
        if mode == TextMode {
          abortFlag := true;
          timerPending := true;
        }
      }
    }

    method SetInputText(text: string)
      requires Valid()
      modifies this
      ensures Valid()
      ensures Snapshot() == Rerun(DepsOf(old(Snapshot())), old(Snapshot()).(inputText := text))
    {
      var prev := DepsOf(Snapshot());
      inputText := text;
      AfterRender(prev);
    }

    method SetMode(m: AppMode)
      requires Valid()
      modifies this
      ensures Valid()
      ensures Snapshot() == Rerun(DepsOf(old(Snapshot())), old(Snapshot()).(mode := m))
    {
      var prev := DepsOf(Snapshot());
      mode := m;
      AfterRender(prev);
    }

    method SetSourceLang(l: Language)
      requires Valid()
      modifies this
      ensures Valid()
      ensures Snapshot() == Rerun(DepsOf(old(Snapshot())), old(Snapshot()).(sourceLang := l))
    {
      var prev := DepsOf(Snapshot());
      sourceLang := l;
      AfterRender(prev);
    }

    /** The target selector offers every language except auto-detect. */
    method SetTargetLang(l: Language)
      requires Valid() && l != Auto
      modifies this
      ensures Valid()
      ensures Snapshot() == Rerun(DepsOf(old(Snapshot())), old(Snapshot()).(targetLang := l))
    {
      var prev := DepsOf(Snapshot());
      targetLang := l;
      AfterRender(prev);
    }

    method SetStyle(st: TranslationStyle)
      requires Valid()
      modifies this
      ensures Valid()
      ensures Snapshot() == Rerun(DepsOf(old(Snapshot())), old(Snapshot()).(style := st))
    {
      var prev := DepsOf(Snapshot());
      style := st;
      AfterRender(prev);
    }

    /** The glossary is not a dependency of the effect: editing it schedules nothing. */
    method SetGlossaryTerms(terms: seq<GlossaryTerm>)
      requires Valid()
      modifies this
      ensures Valid()
      ensures Snapshot() == old(Snapshot()).(glossaryTerms := terms)
    {
      glossaryTerms := terms;
    }

    method SetShowHistory(show: bool)
      requires Valid()
      modifies this
      ensures Valid()
      ensures Snapshot() == old(Snapshot()).(showHistory := show)
    {
      showHistory := show;
    }

    /** The image uploader's loading callback. */
    method SetLoading(isLoading: bool)
      requires Valid()
      modifies this
      ensures Valid()
      ensures Snapshot() == old(Snapshot()).(loadingState := if isLoading then ExtractingText else Idle)
    {
      loadingState := if isLoading then ExtractingText else Idle;
    }

    /** Starts a translation call with the current settings. */
    method Start(path: Path, text: string)
      modifies this
      ensures Snapshot() == Begin(old(Snapshot()), path, text)
    {
      loadingState := Translating;
      abortFlag := false;
      inFlight := inFlight + [Attempt(path, text, sourceLang, targetLang, style, glossaryTerms)];
    }

    method SaveToHistory(original: string, translated: string, now: nat)
      modifies this
      ensures Snapshot() == Saved(old(Snapshot()), original, translated, now)
    {
      if original == [] || translated == [] {
        return;
      }
      var item := TranslationHistoryItem(NatToString(now), now, sourceLang, targetLang, original, translated, style);
      history := Prepend(item, history);
      stored := Some(history);
    }

    method SwapLanguages()
      requires Valid()
      modifies this
      ensures Valid()
      ensures Snapshot() == Rerun(DepsOf(old(Snapshot())), Swapped(old(Snapshot())))
    {
      if sourceLang == Auto {
        return;
      }
      var prev := DepsOf(Snapshot());
      sourceLang, targetLang := targetLang, sourceLang;
      inputText, translatedText := translatedText, inputText;
      AfterRender(prev);
    }

    /** The retranslate button: nothing for blank input, else a call with the current settings. */
    method ManualTranslation()
      requires Valid()
      modifies this
      ensures Valid()
      ensures IsBlank(old(inputText)) ==> Snapshot() == old(Snapshot())
      ensures !IsBlank(old(inputText)) ==> Snapshot() == Begin(old(Snapshot()), Manual, old(inputText))
    {
      if IsBlank(inputText) {
        return;
      }
      Start(Manual, inputText);
    }

    /** Confirmed OCR text: shown as input in text mode and translated at once. */
    method ImageTextExtracted(text: string)
      requires Valid()
      modifies this
      ensures Valid()
      ensures Snapshot() == Rerun(DepsOf(old(Snapshot())),
                                  Begin(old(Snapshot()).(inputText := text, mode := TextMode), OcrChain, text))
    {
      var prev := DepsOf(Snapshot());
      inputText := text;
      mode := TextMode;
      Start(OcrChain, text);
      AfterRender(prev);
    }

    /** Raises the flag and goes idle; the shown translation stays. */
    method StopTranslation()
      requires Valid()
      modifies this
      ensures Valid()
      ensures Snapshot() == old(Snapshot()).(abortFlag := true, loadingState := Idle)
      ensures translatedText == old(translatedText)
    {
      abortFlag := true;
      loadingState := Idle;
    }

    /** Clears the input; the result is cleared later, when the re-scheduled timer fires on blank input. */
    method Reset()
      requires Valid()
      modifies this
      ensures Valid()
      ensures Snapshot() == Rerun(DepsOf(old(Snapshot())), old(Snapshot()).(inputText := []))
    {
      var prev := DepsOf(Snapshot());
      inputText := [];
      AfterRender(prev);
    }

    method TimerFires()
      requires Valid() && timerPending
      modifies this
      ensures Valid()
      ensures Snapshot() == Fire(old(Snapshot()))
    {
      timerPending := false;
      if IsBlank(inputText) {
        translatedText := [];
      } else {
        Start(Debounced, inputText);
      }
    }

    /** The `i`-th call in flight settles with the model's reply to its prompt. */
    method AttemptSettles(i: nat, reply: Reply, now: nat)
      requires Valid() && i < |inFlight|
      modifies this
      ensures Valid()
      ensures Snapshot() == Settle(old(Snapshot()), i, reply, now)
    {
      var a := inFlight[i];
      inFlight := RemoveAt(inFlight, i);
      if !abortFlag {
        match TranslationOutcome(a.text, reply)
        case Ok(result) =>
          translatedText := result;
          loadingState := Idle;
          if a.path == OcrChain {
            SaveToHistory(a.text, result, now);
          }
        case ProviderError =>
          translatedText := TranslationErrorText;
          loadingState := Idle;
      }
    }

    /** Picking a history entry restores its settings and texts and closes the sidebar. */
    method SelectHistoryItem(i: nat)
      requires Valid() && i < |history|
      modifies this
      ensures Valid()
      ensures var item := old(history[i]);
              Snapshot() == Rerun(DepsOf(old(Snapshot())),
                                  old(Snapshot()).(sourceLang := item.sourceLang, targetLang := item.targetLang,
                                                   style := item.style, inputText := item.originalText,
                                                   translatedText := item.translatedText, mode := TextMode,
                                                   showHistory := false))
    {
      var prev := DepsOf(Snapshot());
      var item := history[i];
      sourceLang := item.sourceLang;
      targetLang := item.targetLang;
      style := item.style;
      inputText := item.originalText;
      translatedText := item.translatedText;
      mode := TextMode;
      showHistory := false;
      AfterRender(prev);
    }
  }
}

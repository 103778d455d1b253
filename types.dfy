/** Enumerations and records shared by the translator front end. */
module Types {

  /** A value that may be absent: JavaScript's `null` / `undefined`. */
  datatype Option<+T> = None | Some(value: T)

  /** The sequence without its `i`-th element; the others keep their order. */
  function RemoveAt<T>(s: seq<T>, i: nat): (r: seq<T>)
    requires i < |s|
    ensures |r| == |s| - 1
    ensures forall k :: 0 <= k < |r| ==> r[k] == s[if k < i then k else k + 1]
  {
    s[..i] + s[i + 1..]
  }

  /** The closed set of languages; `Auto` (auto-detect) is only ever a source language. */
  datatype Language = Auto | Korean | Japanese | English

  /** The string value of each enumeration member, which is what a template literal prints. */
  function LanguageName(l: Language): (r: string)
    ensures r != []
  {
    match l
    case Auto => "언어 감지"
    case Korean => "한국어"
    case Japanese => "일본어"
    case English => "영어"
  }

  /** Distinct languages print differently. */
  lemma LanguageNameInjective(l: Language, m: Language)
    requires LanguageName(l) == LanguageName(m)
    ensures l == m
  {
  }

  datatype TranslationStyle = Literal | Natural

  datatype AppMode = TextMode | ImageMode

  /** One user-defined terminology override. */
  datatype GlossaryTerm = GlossaryTerm(id: string, source: string, target: string)

  /** One completed translation, immutable once created. */
  datatype TranslationHistoryItem = TranslationHistoryItem(
    id: string,
    timestamp: nat,
    sourceLang: Language,
    targetLang: Language,
    originalText: string,
    translatedText: string,
    style: TranslationStyle)

  /** The loading phase shown by the page (`'speaking'` is declared but never set). */
  datatype LoadingState = Idle | Translating | ExtractingText | Speaking
}

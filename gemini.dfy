/**
 * The prompt builder and the two client calls of the translation service
 * (services/geminiService.ts). The remote model is a parameter: a function from
 * the request it is sent to its reply.
 */
module GeminiService {
  import opened Types
  import opened JsStrings

  // ---------------------------------------------------------------------------
  // Fixed instruction texts of the prompt
  // ---------------------------------------------------------------------------

  /** The style block for `LITERAL`. */
  const LiteralStyleBlock: string :=
    "\n    스타일 선택: ⚙️ 직역 (Literal)\n    당신은 현재 **출발 언어의 원문 구조와 단어의 의미를 훼손하지 않는** 번역가입니다. \n    번역할 텍스트의 어순과 표현을 **대상 언어의 문법 허용 범위 내에서 최대한 직역**하십시오. \n    원문의 전문 용어와 고유 명사는 그대로 유지하고, 문장 단위의 구조적 변화는 최소화하십시오."

  /** The style block for every other style. */
  const NaturalStyleBlock: string :=
    "\n    스타일 선택: 🗣️ 의역 (Natural)\n    당신은 현재 **대상 언어의 화자가 자연스럽게 이해할 수 있는** 번역가입니다. \n    번역할 텍스트를 **대상 언어의 관용적인 표현, 자연스러운 어투, 그리고 문화적 맥락에 맞게 유려하게 의역**하십시오. \n    불필요한 직역을 피하고, 문맥에 맞는 적절한 어휘를 사용하여 매끄럽게 만드십시오."

  /** The source line when the source language is auto-detect. */
  const AutoDetectInstruction: string := "출발 언어를 자동으로 감지하십시오."

  const SourcePrefix: string := "출발 언어: "

  const TargetPrefix: string := "도착 언어: "

  /** What precedes the numbered glossary list; it declares the glossary above every style instruction. */
  const GlossaryHeader: string :=
    "\n      ### 사용자 정의 용어 사전 규칙 (Glossary) ###\n      아래 목록은 사용자 정의 용어 사전 규칙입니다. 이 규칙은 **다른 모든 번역 스타일 지시보다 우선**하며, 번역 본문 전체에 걸쳐 철저히 준수되어야 합니다.\n      \n      **[용어 사전 목록 시작]**\n      "

  /** What follows the numbered glossary list. */
  const GlossaryFooter: string :=
    "\n      **[용어 사전 목록 끝]**\n      "

  /** The closing instruction: output only the translated text. */
  const OnlyTranslationInstruction: string := "오직 번역된 텍스트만 출력하십시오. 설명이나 주석을 덧붙이지 마십시오."

  /** The result of a translation whose reply carried no text. */
  const TranslationFailedText: string := "번역에 실패했습니다."

  // ---------------------------------------------------------------------------
  // Source, target and style instructions
  // ---------------------------------------------------------------------------

  /** The source line: the auto-detect instruction, or the source language named explicitly. */
  function SourceInstruction(source: Language): (r: string)
    ensures r != []
    ensures StartsWith(r, SourcePrefix) <==> source != Auto
  {
    assert !StartsWith(AutoDetectInstruction, SourcePrefix) by {
      assert AutoDetectInstruction[5] != SourcePrefix[5];
    }
    if source == Auto then AutoDetectInstruction else SourcePrefix + LanguageName(source) + "."
  }

  /** The source line is the auto-detect instruction exactly when the source is auto-detect. */
  lemma SourceInstructionIff(source: Language)
    ensures SourceInstruction(source) == AutoDetectInstruction <==> source == Auto
    ensures source != Auto ==> SourceInstruction(source) == SourcePrefix + LanguageName(source) + "."
  {
    if source != Auto {
      assert SourceInstruction(source) != AutoDetectInstruction;
    }
  }

  /** The target line, which always names the target language. */
  function TargetInstruction(target: Language): (r: string)
    ensures StartsWith(r, TargetPrefix) && |r| > |TargetPrefix| && r[|TargetPrefix|..|r| - 1] == LanguageName(target)
  {
    TargetPrefix + LanguageName(target) + "."
  }

  /** The style block chosen by the style. */
  function StyleInstruction(style: TranslationStyle): (r: string)
    ensures r == LiteralStyleBlock || r == NaturalStyleBlock
  {
    if style == Literal then LiteralStyleBlock else NaturalStyleBlock
  }

  /** The literal block is chosen exactly for `LITERAL`, the natural block exactly for every other style. */
  lemma StyleInstructionIff(style: TranslationStyle)
    ensures StyleInstruction(style) == LiteralStyleBlock <==> style == Literal
    ensures StyleInstruction(style) == NaturalStyleBlock <==> style != Literal
  {
    assert LiteralStyleBlock != NaturalStyleBlock;
  }

  // ---------------------------------------------------------------------------
  // Glossary block
  // ---------------------------------------------------------------------------

  /** A glossary term reaches the prompt only when both of its sides are non-blank. */
  predicate IsListed(t: GlossaryTerm)
    ensures IsListed(t) ==> t.source != [] && t.target != []
  {
    !IsBlank(t.source) && !IsBlank(t.target)
  }

  /** The filter over the glossary: the listed terms, in their original order. */
  function ListedTerms(glossary: seq<GlossaryTerm>): (r: seq<GlossaryTerm>)
    ensures |r| <= |glossary|
    ensures forall t :: t in r <==> t in glossary && IsListed(t)
  {
    if glossary == [] then []
    else (if IsListed(glossary[0]) then [glossary[0]] else []) + ListedTerms(glossary[1..])
  }

  /** Filtering distributes over concatenation, so the relative order of listed terms is kept. */
  lemma {:induction false} ListedTermsAppend(a: seq<GlossaryTerm>, b: seq<GlossaryTerm>)
    ensures ListedTerms(a + b) == ListedTerms(a) + ListedTerms(b)
  {
    if a != [] {
      ListedTermsAppend(a[1..], b);
      var head := if IsListed(a[0]) then [a[0]] else [];
      assert (a + b)[0] == a[0];
      assert (a + b)[1..] == a[1..] + b;
      assert ListedTerms(a + b) == head + ListedTerms(a[1..] + b);
      assert ListedTerms(a) == head + ListedTerms(a[1..]);
    } else {
      assert a + b == b;
    }
  }

  /** The line for one listed term: its number, then the untrimmed source and target. */
  function GlossaryLine(number: nat, t: GlossaryTerm): (r: string)
    ensures StartsWith(r, NatToString(number) + ". ")
    ensures |r| >= |t.target| && r[|r| - |t.target|..] == t.target
  {
    NatToString(number) + ". " + t.source + " -> " + t.target
  }

  /** Numbers the terms consecutively from `first`. */
  function NumberLines(terms: seq<GlossaryTerm>, first: nat): (r: seq<string>)
    ensures |r| == |terms|
    ensures forall k :: 0 <= k < |r| ==> r[k] == GlossaryLine(first + k, terms[k])
  {
    if terms == [] then []
    else [GlossaryLine(first, terms[0])] + NumberLines(terms[1..], first + 1)
  }

  /** The numbered list, one line per listed term, numbered 1..N. */
  function GlossaryItems(glossary: seq<GlossaryTerm>): (r: string)
    ensures r == [] <==> ListedTerms(glossary) == []
  {
    var lines := NumberLines(ListedTerms(glossary), 1);
    JoinEmptyIff(lines, "\n");
    Join(lines, "\n")
  }

  /** The glossary block, or nothing when the glossary is empty or lists no term. */
  function GlossaryInstruction(glossary: seq<GlossaryTerm>): (r: string)
    ensures r == [] <==> ListedTerms(glossary) == []
    ensures r != [] ==> StartsWith(r, GlossaryHeader)
  {
    assert ListedTerms(glossary) != [] ==> ListedTerms(glossary)[0] in glossary;
    if |glossary| > 0 && GlossaryItems(glossary) != [] then
      GlossaryHeader + GlossaryItems(glossary) + GlossaryFooter
    else []
  }

  /** No glossary block is emitted exactly when no term has both sides non-blank. */
  lemma NoGlossaryBlockIff(glossary: seq<GlossaryTerm>)
    ensures GlossaryInstruction(glossary) == [] <==> forall t :: t in glossary ==> !IsListed(t)
  {
    var lines := NumberLines(ListedTerms(glossary), 1);
    JoinEmptyIff(lines, "\n");
    if ListedTerms(glossary) != [] {
      assert ListedTerms(glossary)[0] in ListedTerms(glossary);
    }
  }

  /** `part` occurs in `s` starting at position `at`. */
  predicate Occurs(s: string, part: string, at: nat) {
    at + |part| <= |s| && forall i :: 0 <= i < |part| ==> s[at + i] == part[i]
  }

  /** The last piece of a concatenation occurs right after the first. */
  lemma OccursAtEnd(a: string, b: string)
    ensures Occurs(a + b, b, |a|)
  {
  }

  /** An occurrence survives appending more text. */
  lemma OccursExtend(s: string, part: string, at: nat, t: string)
    requires Occurs(s, part, at)
    ensures Occurs(s + t, part, at)
  {
  }

  /** An occurrence survives prepending and appending text, shifted by what was prepended. */
  lemma OccursShift(s: string, part: string, at: nat, a: string, c: string)
    requires Occurs(s, part, at)
    ensures Occurs(a + s + c, part, |a| + at)
  {
  }

  /** The k-th listed term appears in the glossary block as line number k + 1. */
  lemma GlossaryBlockListsTerm(glossary: seq<GlossaryTerm>, k: nat) returns (at: nat)
    requires k < |ListedTerms(glossary)|
    ensures Occurs(GlossaryInstruction(glossary), GlossaryLine(k + 1, ListedTerms(glossary)[k]), at)
  {
    GlossaryBlockShape(glossary);
    var lines := NumberLines(ListedTerms(glossary), 1);
    WrappedJoinListsEach(GlossaryHeader, lines, GlossaryFooter, k);
    at := |GlossaryHeader| + JoinOffset(lines, "\n", k);
  }

  /** When some term is listed, the glossary block is the header, the numbered list and the footer. */
  lemma GlossaryBlockShape(glossary: seq<GlossaryTerm>)
    requires ListedTerms(glossary) != []
    ensures GlossaryInstruction(glossary) == GlossaryHeader + GlossaryItems(glossary) + GlossaryFooter
  {
    var lines := NumberLines(ListedTerms(glossary), 1);
    assert ListedTerms(glossary)[0] in glossary;
    JoinListsEach(lines, "\n", 0);
  }

  /** Every line of a newline-joined list, wrapped between two texts, occurs in the result. */
  lemma WrappedJoinListsEach(header: string, lines: seq<string>, footer: string, k: nat)
    requires k < |lines|
    ensures Occurs(header + Join(lines, "\n") + footer, lines[k], |header| + JoinOffset(lines, "\n", k))
  {
    JoinListsEach(lines, "\n", k);
    OccursShift(Join(lines, "\n"), lines[k], JoinOffset(lines, "\n", k), header, footer);
  }

  // ---------------------------------------------------------------------------
  // The prompt
  // ---------------------------------------------------------------------------

  /** The text to translate, wrapped in double quotes. */
  function Quoted(text: string): string {
    "\"" + text + "\""
  }

  /** The five variable parts of the prompt, in the order the template places them. */
  datatype PromptParts = PromptParts(source: string, target: string, glossary: string, style: string, quoted: string)

  /** The prompt template with its parts filled in. */
  function Render(parts: PromptParts): (r: string)
    ensures StartsWith(r, "\n    " + parts.source)
    ensures var tail := OnlyTranslationInstruction + "\n  "; |r| > |tail| && r[|r| - |tail|..] == tail
  {
    "\n    " + parts.source
    + "\n    " + parts.target
    + "\n    \n    " + parts.glossary
    + "\n\n    " + parts.style
    + "\n    \n    번역할 텍스트:\n    " + parts.quoted
    + "\n    \n    " + OnlyTranslationInstruction + "\n  "
  }

  /** The full request text sent to the translation model. */
  function BuildPrompt(text: string, source: Language, target: Language, style: TranslationStyle,
                       glossary: seq<GlossaryTerm>): (r: string)
    ensures StartsWith(r, "\n    " + SourceInstruction(source))
    ensures var tail := OnlyTranslationInstruction + "\n  "; |r| > |tail| && r[|r| - |tail|..] == tail
  {
    Render(PromptParts(SourceInstruction(source), TargetInstruction(target), GlossaryInstruction(glossary),
                       StyleInstruction(style), Quoted(text)))
  }

  /**
   * The shape of the prompt template with its five slots abstracted: each slot occurs
   * after the previous one, separated by a non-empty text, and the template ends with
   * its closing pieces.
   */
  lemma TemplateLayout(c0: string, x1: string, c1: string, x2: string, c2: string, x3: string,
                       c3: string, x4: string, c4: string, x5: string, c5: string, c6: string, c7: string)
    requires c1 != [] && c2 != [] && c3 != [] && c4 != [] && c5 != []
    ensures var p := c0 + x1 + c1 + x2 + c2 + x3 + c3 + x4 + c4 + x5 + c5 + c6 + c7;
            && Occurs(p, x1, |c0|)
            && Occurs(p, x2, |c0 + x1 + c1|)
            && Occurs(p, x3, |c0 + x1 + c1 + x2 + c2|)
            && Occurs(p, x4, |c0 + x1 + c1 + x2 + c2 + x3 + c3|)
            && Occurs(p, x5, |c0 + x1 + c1 + x2 + c2 + x3 + c3 + x4 + c4|)
            && |c0 + x1 + c1 + x2 + c2 + x3 + c3 + x4 + c4 + x5| < |p| - |c6 + c7|
            && p[|p| - |c6 + c7|..] == c6 + c7
  {
    var s1 := c0 + x1;
    var s2 := s1 + c1;
    var s3 := s2 + x2;
    var s4 := s3 + c2;
    var s5 := s4 + x3;
    var s6 := s5 + c3;
    var s7 := s6 + x4;
    var s8 := s7 + c4;
    var s9 := s8 + x5;
    var s10 := s9 + c5;
    var s11 := s10 + c6;
    var p := s11 + c7;
    OccursAtEnd(c0, x1);
    OccursAtEnd(s2, x2);
    OccursAtEnd(s4, x3);
    OccursAtEnd(s6, x4);
    OccursAtEnd(s8, x5);
    OccursExtend(s1, x1, |c0|, c1);
    OccursExtend(s2, x1, |c0|, x2);
    OccursExtend(s3, x1, |c0|, c2);
    OccursExtend(s3, x2, |s2|, c2);
    OccursExtend(s4, x1, |c0|, x3);
    OccursExtend(s4, x2, |s2|, x3);
    OccursExtend(s5, x1, |c0|, c3);
    OccursExtend(s5, x2, |s2|, c3);
    OccursExtend(s5, x3, |s4|, c3);
    OccursExtend(s6, x1, |c0|, x4);
    OccursExtend(s6, x2, |s2|, x4);
    OccursExtend(s6, x3, |s4|, x4);
    OccursExtend(s7, x1, |c0|, c4);
    OccursExtend(s7, x2, |s2|, c4);
    OccursExtend(s7, x3, |s4|, c4);
    OccursExtend(s7, x4, |s6|, c4);
    OccursExtend(s8, x1, |c0|, x5);
    OccursExtend(s8, x2, |s2|, x5);
    OccursExtend(s8, x3, |s4|, x5);
    OccursExtend(s8, x4, |s6|, x5);
    var rest := c5 + c6 + c7;
    assert p == s9 + rest;
    OccursExtend(s9, x1, |c0|, rest);
    OccursExtend(s9, x2, |s2|, rest);
    OccursExtend(s9, x3, |s4|, rest);
    OccursExtend(s9, x4, |s6|, rest);
    OccursExtend(s9, x5, |s8|, rest);
    assert p == s10 + (c6 + c7);
    assert p[|p| - |c6 + c7|..] == c6 + c7;
  }

  /**
   * The layout of the template: the source line, then the target line, then the glossary
   * block, then the style block, then the quoted text, none overlapping; and the prompt
   * ends with the instruction to output only the translation.
   */
  lemma RenderLayout(parts: PromptParts)
    returns (atSource: nat, atTarget: nat, atGlossary: nat, atStyle: nat, atText: nat)
    ensures Occurs(Render(parts), parts.source, atSource)
    ensures atSource + |parts.source| < atTarget
    ensures Occurs(Render(parts), parts.target, atTarget)
    ensures atTarget + |parts.target| < atGlossary
    ensures Occurs(Render(parts), parts.glossary, atGlossary)
    ensures atGlossary + |parts.glossary| < atStyle
    ensures Occurs(Render(parts), parts.style, atStyle)
    ensures atStyle + |parts.style| < atText
    ensures Occurs(Render(parts), parts.quoted, atText)
    ensures var p, tail := Render(parts), OnlyTranslationInstruction + "\n  ";
            atText + |parts.quoted| < |p| - |tail| && p[|p| - |tail|..] == tail
  {
    var c0, c1, c2, c3, c4, c5 := "\n    ", "\n    ", "\n    \n    ", "\n\n    ",
      "\n    \n    번역할 텍스트:\n    ", "\n    \n    ";
    TemplateLayout(c0, parts.source, c1, parts.target, c2, parts.glossary, c3, parts.style, c4, parts.quoted,
                   c5, OnlyTranslationInstruction, "\n  ");
    atSource := |c0|;
    atTarget := |c0 + parts.source + c1|;
    atGlossary := |c0 + parts.source + c1 + parts.target + c2|;
    atStyle := |c0 + parts.source + c1 + parts.target + c2 + parts.glossary + c3|;
    atText := |c0 + parts.source + c1 + parts.target + c2 + parts.glossary + c3 + parts.style + c4|;
  }

  /**
   * The layout of the prompt: the source line, then the target line, then the glossary
   * block, then the style block, then the quoted text, none overlapping; and the prompt
   * ends with the instruction to output only the translation.
   */
  lemma PromptLayout(text: string, source: Language, target: Language, style: TranslationStyle,
                     glossary: seq<GlossaryTerm>)
    returns (atSource: nat, atTarget: nat, atGlossary: nat, atStyle: nat, atText: nat)
    ensures Occurs(BuildPrompt(text, source, target, style, glossary), SourceInstruction(source), atSource)
    ensures atSource + |SourceInstruction(source)| < atTarget
    ensures Occurs(BuildPrompt(text, source, target, style, glossary), TargetInstruction(target), atTarget)
    ensures atTarget + |TargetInstruction(target)| < atGlossary
    ensures Occurs(BuildPrompt(text, source, target, style, glossary), GlossaryInstruction(glossary), atGlossary)
    ensures atGlossary + |GlossaryInstruction(glossary)| < atStyle
    ensures Occurs(BuildPrompt(text, source, target, style, glossary), StyleInstruction(style), atStyle)
    ensures atStyle + |StyleInstruction(style)| < atText
    ensures Occurs(BuildPrompt(text, source, target, style, glossary), Quoted(text), atText)
    ensures var p, tail := BuildPrompt(text, source, target, style, glossary), OnlyTranslationInstruction + "\n  ";
            atText + |Quoted(text)| < |p| - |tail| && p[|p| - |tail|..] == tail
  {
    atSource, atTarget, atGlossary, atStyle, atText := RenderLayout(PromptParts(SourceInstruction(source),
      TargetInstruction(target), GlossaryInstruction(glossary), StyleInstruction(style), Quoted(text)));
  }

  /** An occurrence inside an occurrence is an occurrence. */
  lemma OccursWithin(p: string, g: string, atG: nat, part: string, at: nat)
    requires Occurs(p, g, atG) && Occurs(g, part, at)
    ensures Occurs(p, part, atG + at)
  {
  }

  /** Whatever the glossary block contains lies between the target line and the style block. */
  lemma RenderGlossaryContains(parts: PromptParts, part: string, o: nat)
    returns (at: nat, atTarget: nat, atStyle: nat)
    requires Occurs(parts.glossary, part, o)
    ensures Occurs(Render(parts), part, at)
    ensures Occurs(Render(parts), parts.target, atTarget)
    ensures Occurs(Render(parts), parts.style, atStyle)
    ensures atTarget + |parts.target| < at
    ensures at + |part| < atStyle
  {
    var atSource, atGlossary, atText;
    atSource, atTarget, atGlossary, atStyle, atText := RenderLayout(parts);
    OccursWithin(Render(parts), parts.glossary, atGlossary, part, o);
    at := atGlossary + o;
  }

  /**
   * Every listed glossary term's numbered line is in the prompt, after the target line
   * and before the style block.
   */
  lemma PromptListsGlossaryTerm(text: string, source: Language, target: Language, style: TranslationStyle,
                                glossary: seq<GlossaryTerm>, k: nat)
    returns (at: nat, atTarget: nat, atStyle: nat)
    requires k < |ListedTerms(glossary)|
    ensures Occurs(BuildPrompt(text, source, target, style, glossary), GlossaryLine(k + 1, ListedTerms(glossary)[k]), at)
    ensures Occurs(BuildPrompt(text, source, target, style, glossary), TargetInstruction(target), atTarget)
    ensures Occurs(BuildPrompt(text, source, target, style, glossary), StyleInstruction(style), atStyle)
    ensures atTarget + |TargetInstruction(target)| < at
    ensures at + |GlossaryLine(k + 1, ListedTerms(glossary)[k])| < atStyle
  {
    var parts := PromptParts(SourceInstruction(source), TargetInstruction(target), GlossaryInstruction(glossary),
                             StyleInstruction(style), Quoted(text));
    var o := GlossaryBlockListsTerm(glossary, k);
    at, atTarget, atStyle := RenderGlossaryContains(parts, GlossaryLine(k + 1, ListedTerms(glossary)[k]), o);
  }

  // ---------------------------------------------------------------------------
  // The client calls
  // ---------------------------------------------------------------------------

  /** What the model call produced: a failure, or a response whose `text` may be undefined. */
  datatype Reply = Failed | Answered(text: Option<string>)

  /** How a client call settles: with a text, or by rethrowing the provider's error. */
  datatype Outcome = Ok(text: string) | ProviderError

  /**
   * How `translateText` settles for `text` given the model's reply: blank text settles
   * with "" (no call is made, so the reply plays no part); otherwise a failure is
   * rethrown and an empty or missing text becomes the fixed failure text.
   */
  function TranslationOutcome(text: string, reply: Reply): (r: Outcome)
    ensures IsBlank(text) ==> r == Ok([])
    ensures !IsBlank(text) ==> (r == ProviderError <==> reply == Failed)
    ensures !IsBlank(text) && r.Ok? ==> r.text != []
    ensures !IsBlank(text) && reply.Answered? && reply.text.Some? && reply.text.value != [] ==> r == Ok(reply.text.value)
    ensures !IsBlank(text) && reply.Answered? && (reply.text.None? || reply.text.value == []) ==> r == Ok(TranslationFailedText)
  {
    if IsBlank(text) then Ok([])
    else match reply
      case Failed => ProviderError
      case Answered(t) => Ok(if t.None? || t.value == [] then TranslationFailedText else t.value)
  }

  /** `translateText` against a translation model: the model is asked with the built prompt. */
  function TranslateText(text: string, source: Language, target: Language, style: TranslationStyle,
                         glossary: seq<GlossaryTerm>, model: string -> Reply): (r: Outcome)
    ensures IsBlank(text) ==> r == Ok([])
    ensures !IsBlank(text) ==> (r == ProviderError <==> model(BuildPrompt(text, source, target, style, glossary)) == Failed)
    ensures !IsBlank(text) && r.Ok? ==> r.text != []
    ensures !IsBlank(text) ==> r == TranslationOutcome(text, model(BuildPrompt(text, source, target, style, glossary)))
  {
    TranslationOutcome(text, if IsBlank(text) then Failed else model(BuildPrompt(text, source, target, style, glossary)))
  }

  /** `extractTextFromImage`: a failure is rethrown; a missing or empty text becomes "". */
  function ExtractionOutcome(reply: Reply): (r: Outcome)
    ensures r == ProviderError <==> reply == Failed
    ensures reply.Answered? && reply.text.Some? ==> r == Ok(reply.text.value)
    ensures reply == Answered(None) ==> r == Ok([])
  {
    match reply
    case Failed => ProviderError
    case Answered(t) => Ok(if t.Some? then t.value else [])
  }
}

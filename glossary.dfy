/**
 * The list operations of the glossary editor. Each builds a new list from the
 * current one and hands it back to the page; none changes a list in place.
 */
module GlossaryEditor {
  import opened Types
  import opened JsStrings
  import opened GeminiService

  /** The side of a term that an edit targets. */
  datatype Field = SourceField | TargetField

  /** `addTerm`: one new term with both sides empty, appended at the end. */
  function AddTerm(terms: seq<GlossaryTerm>, id: string): (r: seq<GlossaryTerm>)
    ensures |r| == |terms| + 1
    ensures r[..|terms|] == terms
    ensures r[|terms|].id == id && r[|terms|].source == [] && r[|terms|].target == []
  {
    terms + [GlossaryTerm(id, [], [])]
  }

  /** `{ ...t, [field]: value }`: the named side replaced, the id and the other side kept. */
  function WithField(t: GlossaryTerm, field: Field, value: string): (r: GlossaryTerm)
    ensures r.id == t.id
    ensures r.source == (if field == SourceField then value else t.source)
    ensures r.target == (if field == TargetField then value else t.target)
  {
    match field
    case SourceField => t.(source := value)
    case TargetField => t.(target := value)
  }

  /** `updateTerm`: every term with the given id gets the new value in the named side. */
  function UpdateTerm(terms: seq<GlossaryTerm>, id: string, field: Field, value: string): (r: seq<GlossaryTerm>)
    ensures |r| == |terms|
    ensures forall k :: 0 <= k < |r| && terms[k].id == id ==> r[k] == WithField(terms[k], field, value)
    ensures forall k :: 0 <= k < |r| && terms[k].id != id ==> r[k] == terms[k]
    ensures (forall k :: 0 <= k < |terms| ==> terms[k].id != id) ==> r == terms
  {
    if terms == [] then []
    else
      [if terms[0].id == id then WithField(terms[0], field, value) else terms[0]]
      + UpdateTerm(terms[1..], id, field, value)
  }

  /** `removeTerm`: the terms whose id differs, in their original order. */
  function RemoveTerm(terms: seq<GlossaryTerm>, id: string): (r: seq<GlossaryTerm>)
    ensures |r| <= |terms|
    ensures forall k :: 0 <= k < |r| ==> r[k].id != id
  {
    if terms == [] then []
    else (if terms[0].id != id then [terms[0]] else []) + RemoveTerm(terms[1..], id)
  }

  /** Removing distributes over concatenation, so the kept terms stay in their relative order. */
  lemma {:induction false} RemoveTermAppend(a: seq<GlossaryTerm>, b: seq<GlossaryTerm>, id: string)
    ensures RemoveTerm(a + b, id) == RemoveTerm(a, id) + RemoveTerm(b, id)
  {
    if a != [] {
      var head := if a[0].id != id then [a[0]] else [];
      calc {
        RemoveTerm(a + b, id);
        { assert (a + b)[0] == a[0] && (a + b)[1..] == a[1..] + b; }
        head + RemoveTerm(a[1..] + b, id);
        { RemoveTermAppend(a[1..], b, id); }
        head + (RemoveTerm(a[1..], id) + RemoveTerm(b, id));
        RemoveTerm(a, id) + RemoveTerm(b, id);
      }
    } else {
      assert a + b == b;
    }
  }

  /** The kept terms are exactly the terms with a different id. */
  lemma {:induction false} RemoveTermMembers(terms: seq<GlossaryTerm>, id: string, t: GlossaryTerm)
    ensures t in RemoveTerm(terms, id) <==> t in terms && t.id != id
  {
    if terms != [] {
      RemoveTermMembers(terms[1..], id, t);
      assert terms == [terms[0]] + terms[1..];
    }
  }

  /** Removing an id no term carries leaves the list as it was. */
  lemma {:induction false} RemoveAbsentId(terms: seq<GlossaryTerm>, id: string)
    requires forall k :: 0 <= k < |terms| ==> terms[k].id != id
    ensures RemoveTerm(terms, id) == terms
  {
    if terms != [] {
      RemoveAbsentId(terms[1..], id);
    }
  }

  /** Removing the same id twice is the same as removing it once. */
  lemma RemoveTermIdempotent(terms: seq<GlossaryTerm>, id: string)
    ensures RemoveTerm(RemoveTerm(terms, id), id) == RemoveTerm(terms, id)
  {
    RemoveAbsentId(RemoveTerm(terms, id), id);
  }

  /** Removing two ids gives the same list in either order. */
  lemma {:induction false} RemoveTermCommutes(terms: seq<GlossaryTerm>, a: string, b: string)
    ensures RemoveTerm(RemoveTerm(terms, a), b) == RemoveTerm(RemoveTerm(terms, b), a)
  {
    if terms != [] {
      RemoveTermCommutes(terms[1..], a, b);
      var t := terms[0];
      var ha := if t.id != a then [t] else [];
      var hb := if t.id != b then [t] else [];
      RemoveTermAppend(ha, RemoveTerm(terms[1..], a), b);
      RemoveTermAppend(hb, RemoveTerm(terms[1..], b), a);
    }
  }

  /** Counted by the editor: at least one side has content once trimmed. */
  predicate HasContent(t: GlossaryTerm)
    ensures IsListed(t) ==> HasContent(t)
    ensures HasContent(t) ==> t.source != [] || t.target != []
  {
    !IsBlank(t.source) || !IsBlank(t.target)
  }

  /** The terms the editor counts as active, in order. */
  function ActiveTerms(terms: seq<GlossaryTerm>): (r: seq<GlossaryTerm>)
    ensures |r| <= |terms|
    ensures forall t :: t in r <==> t in terms && HasContent(t)
  {
    if terms == [] then []
    else (if HasContent(terms[0]) then [terms[0]] else []) + ActiveTerms(terms[1..])
  }

  /** `activeCount`: how many terms have at least one non-blank side. */
  function ActiveCount(terms: seq<GlossaryTerm>): (r: nat)
    ensures r <= |terms|
    ensures r == 0 <==> forall t :: t in terms ==> !HasContent(t)
    ensures r == |ActiveTerms(terms)|
  {
    var active := ActiveTerms(terms);
    if active != [] then assert active[0] in active; |active| else 0
  }

  /** Counting distributes over concatenation. */
  lemma {:induction false} ActiveTermsAppend(a: seq<GlossaryTerm>, b: seq<GlossaryTerm>)
    ensures ActiveTerms(a + b) == ActiveTerms(a) + ActiveTerms(b)
  {
    if a != [] {
      ActiveTermsAppend(a[1..], b);
      var head := if HasContent(a[0]) then [a[0]] else [];
      assert (a + b)[0] == a[0];
      assert (a + b)[1..] == a[1..] + b;
      assert ActiveTerms(a + b) == head + ActiveTerms(a[1..] + b);
      assert ActiveTerms(a) == head + ActiveTerms(a[1..]);
    } else {
      assert a + b == b;
    }
  }

  /**
   * A term the prompt lists (both sides non-blank) is one the editor counts (one side
   * non-blank), so the prompt never lists more terms than the editor's badge shows.
   */
  lemma {:induction false} ListedAtMostActive(terms: seq<GlossaryTerm>)
    ensures forall t :: IsListed(t) ==> HasContent(t)
    ensures |ListedTerms(terms)| <= ActiveCount(terms)
  {
    if terms != [] {
      ListedAtMostActive(terms[1..]);
      assert |ActiveTerms(terms)| == (if HasContent(terms[0]) then 1 else 0) + |ActiveTerms(terms[1..])|;
    }
  }

  /** The converse fails: a term with only its source filled in is counted but not listed. */
  lemma HalfFilledTermCountedNotListed(id: string)
    ensures var g := [GlossaryTerm(id, "a", "")];
            ActiveCount(g) == 1 && ListedTerms(g) == [] && GlossaryInstruction(g) == []
  {
    var g := [GlossaryTerm(id, "a", "")];
    assert g[0].source[0] == 'a' && !IsJsWhitespace(g[0].source[0]);
    assert HasContent(g[0]) && !IsListed(g[0]);
    assert ActiveTerms(g) == [g[0]] + ActiveTerms([]);
    NoGlossaryBlockIff(g);
  }

  /** A new blank term changes neither the editor's count nor the prompt's glossary block. */
  lemma AddTermKeepsCounts(terms: seq<GlossaryTerm>, id: string)
    ensures ActiveCount(AddTerm(terms, id)) == ActiveCount(terms)
    ensures ListedTerms(AddTerm(terms, id)) == ListedTerms(terms)
  {
    var blank := GlossaryTerm(id, [], []);
    ActiveTermsAppend(terms, [blank]);
    ListedTermsAppend(terms, [blank]);
    assert ActiveTerms([blank]) == [] + ActiveTerms([]);
    assert ListedTerms([blank]) == [] + ListedTerms([]);
  }
}

/**
 * What the streaming FAQ matcher learns from a finished reply: a leading
 * `[NO_MATCH]` or `[FAQ:n]` marker, and failing those, whether the text reads as
 * a decline and which category its wording suggests.
 */
module FaqAiMatcherStreaming {
  import opened Wrappers
  import opened Text
  import opened Numbers
  import opened FaqData

  datatype Metadata = Metadata(
    matched: bool,
    category: Option<string>,
    cleanResponse: string,
    faqNumber: Option<nat>,
    originalAnswer: Option<string>)

  const NoMatchMarker: string := "[NO_MATCH]"
  const FaqMarkerOpen: string := "[FAQ:"
  const DefaultCategory: string := "General"

  const DeclinePatterns: seq<string> := [
    "don't have information",
    "can't help with",
    "not able to answer",
    "outside what I can",
    "don't have details",
    "not something I can",
    "don't have more information",
    "specific detail isn't",
    "not equipped to",
    "unable to provide",
    "can't provide",
    "not in my knowledge",
    "beyond my scope",
    "outside my expertise",
    "that's not something",
    "I focus on",
    "I'm here to help with"
  ]

  /** A category rule: either keyword names the category; the rules are tried in this order. */
  datatype CategoryRule = CategoryRule(first: string, second: string, category: string)

  const CategoryRules: seq<CategoryRule> := [
    CategoryRule("podcast", "episode", "Huberman Lab"),
    CategoryRule("premium", "subscriber", "Huberman Lab Premium"),
    CategoryRule("newsletter", "neural network", "Neural Network Newsletter"),
    CategoryRule("event", "live", "Huberman Lab Live Events"),
    CategoryRule("sponsor", "partner", "Sponsors & Partners"),
    CategoryRule("protocols", "book", "Protocols Book"),
    CategoryRule("dr. huberman", "andrew", "About Dr. Huberman")
  ]

  /**
   * The leading `[FAQ:digits]` marker: the number it names and the marker's
   * length. The digits are decimal, so `parseInt` reads their decimal value.
   */
  function FaqMarker(response: string): (r: Option<(nat, nat)>)
    ensures r.Some? ==>
      var (n, len) := r.value;
      6 < len <= |response| && StartsWith(response, FaqMarkerOpen) && response[len - 1] == ']' &&
      AllDigits(response[5..len - 1]) && n == DigitsValue(response[5..len - 1])
  {
    if StartsWith(response, FaqMarkerOpen) then
      var e := DigitsEnd(response, 5);
      if e > 5 && e < |response| && response[e] == ']' then Some((DigitsValue(response[5..e]), e + 1)) else None
    else None
  }

  /** Some decline wording occurs in the lower-cased reply. */
  predicate IsDecline(response: string) {
    AnyContained(LowerStr(response), DeclinePatterns)
  }

  predicate RuleHits(lower: string, k: nat)
    requires k < |CategoryRules|
  {
    Contains(lower, CategoryRules[k].first) || Contains(lower, CategoryRules[k].second)
  }

  /** The category of the first rule from `k` on whose keyword occurs, or the default. */
  function CategoryFrom(lower: string, k: nat): string
    requires k <= |CategoryRules|
    decreases |CategoryRules| - k
  {
    if k == |CategoryRules| then DefaultCategory
    else if RuleHits(lower, k) then CategoryRules[k].category
    else CategoryFrom(lower, k + 1)
  }

  function GuessCategory(response: string): string {
    CategoryFrom(LowerStr(response), 0)
  }

  /** The fallback when no marker settles it: a decline is unmatched, anything else matched with a guessed category. */
  function Heuristic(response: string): (m: Metadata)
    ensures m.cleanResponse == response && m.faqNumber.None? && m.originalAnswer.None?
    ensures m.matched <==> !IsDecline(response)
    ensures m.matched ==> m.category == Some(GuessCategory(response))
    ensures !m.matched ==> m.category.None?
  {
    if IsDecline(response) then Metadata(false, None, response, None, None)
    else Metadata(true, Some(GuessCategory(response)), response, None, None)
  }

  /** `extractStreamMetadata`, with the FAQ lookup read off the numbering. */
  function StreamMetadata(cats: seq<Category>, response: string): (m: Metadata)
    ensures StartsWith(response, NoMatchMarker) ==>
      m == Metadata(false, None, Trim(response[|NoMatchMarker|..]), None, None)
    ensures m.faqNumber.Some? ==>
      var n := m.faqNumber.value;
      FaqMarker(response).Some? && FaqMarker(response).value.0 == n && 1 <= n <= |Entries(cats)| &&
      m.matched && m.category == Some(Entries(cats)[n - 1].category) &&
      m.originalAnswer == Some(Entries(cats)[n - 1].answer) &&
      m.cleanResponse == Trim(response[FaqMarker(response).value.1..])
  {
    if StartsWith(response, NoMatchMarker) then Metadata(false, None, Trim(response[|NoMatchMarker|..]), None, None)
    else match FaqMarker(response)
      case None => Heuristic(response)
      case Some((n, len)) =>
        match FaqNumbered(cats, n)
        case None => Heuristic(response)
        case Some(e) => Metadata(true, Some(e.category), Trim(response[len..]), Some(n), Some(e.answer))
  }

  /** `extractStreamMetadata`: the marker checks, the counting lookup, then the heuristics. */
  method ExtractStreamMetadata(cats: seq<Category>, response: string) returns (m: Metadata)
    ensures m == StreamMetadata(cats, response)
  {
    if StartsWith(response, NoMatchMarker) {
      return Metadata(false, None, Trim(response[|NoMatchMarker|..]), None, None);
    }
    var marker := FaqMarker(response);
    if marker.Some? {
      var (n, len) := marker.value;
      var clean := Trim(response[len..]);
      var found := FindFaq(cats, n);
      if found.Some? {
        return Metadata(true, Some(found.value.category), clean, Some(n), Some(found.value.answer));
      }
    }
    if IsDecline(response) {
      return Metadata(false, None, response, None, None);
    }
    m := Metadata(true, Some(GuessCategory(response)), response, None, None);
  }

  // ---------------------------------------------------------------------------
  // Properties
  // ---------------------------------------------------------------------------

  /**
   * The number in a marker is resolved with the numbering the prompt showed: the
   * FAQ listed as number n in the prompt is the one whose category and answer
   * come back.
   */
  lemma MarkerNamesPromptedFaq(cats: seq<Category>, response: string, k: nat)
    requires k < |Numbered(cats)|
    requires !StartsWith(response, NoMatchMarker)
    requires FaqMarker(response).Some? && FaqMarker(response).value.0 == Numbered(cats)[k].num
    ensures var m := StreamMetadata(cats, response);
      var f := Numbered(cats)[k];
      m.matched && m.faqNumber == Some(f.num) && m.category == Some(f.category) && m.originalAnswer == Some(f.answer)
  {
    LookupAgreesWithNumbering(cats, k);
  }

  /** A marker naming no FAQ is ignored: the heuristics decide, and the marker stays in the text. */
  lemma UnknownNumberFallsThrough(cats: seq<Category>, response: string)
    requires !StartsWith(response, NoMatchMarker)
    requires FaqMarker(response).Some?
    requires var n := FaqMarker(response).value.0; n < 1 || n > |Entries(cats)|
    ensures StreamMetadata(cats, response) == Heuristic(response)
    ensures StreamMetadata(cats, response).cleanResponse == response && StartsWith(response, FaqMarkerOpen)
  {
  }

  /** Without a marker, a decline wording anywhere leaves the reply unmatched and unchanged. */
  lemma DeclineLeavesReplyUnmatched(cats: seq<Category>, response: string)
    requires !StartsWith(response, NoMatchMarker) && FaqMarker(response).None?
    ensures var m := StreamMetadata(cats, response);
      (!m.matched <==> IsDecline(response)) && m.cleanResponse == response
  {
  }

  /** A lower-cased string holds no ASCII capital. */
  lemma NoCapitalAfterLower(s: string, c: char)
    requires IsAsciiUpper(c)
    ensures c !in LowerStr(s)
  {
  }

  /**
   * The three decline patterns written with a capital `I` are compared with the
   * lower-cased reply, so none of them can ever match.
   */
  lemma CapitalPatternsNeverMatch(response: string)
    ensures !Contains(LowerStr(response), DeclinePatterns[3])
    ensures !Contains(LowerStr(response), DeclinePatterns[15])
    ensures !Contains(LowerStr(response), DeclinePatterns[16])
  {
    NoCapitalAfterLower(response, 'I');
    assert DeclinePatterns[3][13] == 'I';
    NotContainsMissingChar(LowerStr(response), DeclinePatterns[3], 'I');
    assert DeclinePatterns[15][0] == 'I';
    NotContainsMissingChar(LowerStr(response), DeclinePatterns[15], 'I');
    assert DeclinePatterns[16][0] == 'I';
    NotContainsMissingChar(LowerStr(response), DeclinePatterns[16], 'I');
  }

  /** The category guess is the first rule, in priority order, whose keyword occurs. */
  lemma {:induction false} CategoryIsFirstHit(lower: string, k: nat, from: nat)
    requires from <= k < |CategoryRules|
    requires RuleHits(lower, k)
    requires forall j :: from <= j < k ==> !RuleHits(lower, j)
    ensures CategoryFrom(lower, from) == CategoryRules[k].category
    decreases k - from
  {
    if from < k {
      CategoryIsFirstHit(lower, k, from + 1);
    }
  }

  /** With no keyword at all the category is the default. */
  lemma {:induction false} NoKeywordGeneral(lower: string, from: nat)
    requires from <= |CategoryRules|
    requires forall j :: from <= j < |CategoryRules| ==> !RuleHits(lower, j)
    ensures CategoryFrom(lower, from) == DefaultCategory
    decreases |CategoryRules| - from
  {
    if from < |CategoryRules| {
      NoKeywordGeneral(lower, from + 1);
    }
  }

  /** The default is chosen only when no keyword occurs: no rule names it. */
  lemma {:induction false} GeneralOnlyWithoutKeyword(lower: string, from: nat)
    requires from <= |CategoryRules|
    requires CategoryFrom(lower, from) == DefaultCategory
    ensures forall j :: from <= j < |CategoryRules| ==> !RuleHits(lower, j)
    decreases |CategoryRules| - from
  {
    if from < |CategoryRules| {
      assert CategoryRules[from].category != DefaultCategory;
      GeneralOnlyWithoutKeyword(lower, from + 1);
    }
  }
}

/**
 * The lexical FAQ matcher: a word-set (Jaccard) similarity between the user's
 * question and every FAQ question, the best score above 0.6 winning, and a
 * keyword table as the fallback. Each match carries the links found in its answer.
 */
module FaqMatcher {
  import opened Wrappers
  import opened Text
  import opened FaqData

  /**
   * A match. Its resource list is a function of its answer alone, so it is
   * derived from the answer rather than stored.
   */
  datatype FaqMatch = FaqMatch(question: string, answer: string, confidence: real, category: string) {
    function Resources(): seq<string> {
      ExtractResources(answer)
    }
  }

  /** A lexical match must score strictly above this. */
  const Threshold: real := 0.6
  /** What a keyword match reports as its confidence. */
  const KeywordConfidence: real := 0.5
  /** Added to the word overlap when one text contains the other. */
  const PhraseBonus: real := 0.3

  // ---------------------------------------------------------------------------
  // Similarity
  // ---------------------------------------------------------------------------

  /** Index of the first whitespace character at or after `i`, or `|s|` when there is none. */
  function SpaceIndex(s: string, i: nat): (r: nat)
    requires i <= |s|
    ensures i <= r <= |s|
    ensures forall k :: i <= k < r ==> !IsSpace(s[k])
    ensures r < |s| ==> IsSpace(s[r])
    decreases |s| - i
  {
    if i == |s| || IsSpace(s[i]) then i else SpaceIndex(s, i + 1)
  }

  predicate NoSpace(w: string) {
    forall k :: 0 <= k < |w| ==> !IsSpace(w[k])
  }

  /**
   * `s.split(/\s+/)`: the pieces between maximal runs of whitespace. A leading or
   * trailing run leaves an empty piece at that end, and the empty string splits
   * into one empty piece.
   */
  function Words(s: string): (ws: seq<string>)
    ensures |ws| >= 1
    decreases |s|
  {
    var j := SpaceIndex(s, 0);
    if j == |s| then [s] else [s[..j]] + Words(s[SpaceEnd(s, j)..])
  }

  /** No word holds whitespace, and text without whitespace is one word. */
  lemma {:induction false} WordsHaveNoSpace(s: string)
    ensures forall k :: 0 <= k < |Words(s)| ==> NoSpace(Words(s)[k])
    ensures NoSpace(s) ==> Words(s) == [s]
    decreases |s|
  {
    var j := SpaceIndex(s, 0);
    if j < |s| {
      assert !NoSpace(s);
      WordsHaveNoSpace(s[SpaceEnd(s, j)..]);
    }
  }

  function WordSet(s: string): (r: set<string>)
    ensures r != {}
  {
    var r := set w | w in Words(s);
    assert Words(s)[0] in r;
    r
  }

  /**
   * `calculateSimilarity`: shared distinct words over all distinct words, plus
   * the phrase bonus when either text contains the other, capped at 1.
   */
  function Similarity(s1: string, s2: string): (r: real)
    ensures 0.0 <= r <= 1.0
  {
    var a := WordSet(s1);
    var b := WordSet(s2);
    if |a + b| == 0 then 0.0
    else
      var overlap := (|a * b| as real) / (|a + b| as real);
      var scored := if Contains(s1, s2) || Contains(s2, s1) then overlap + PhraseBonus else overlap;
      if scored < 1.0 then scored else 1.0
  }

  /** The comparison reads the user's question lower-cased and trimmed. */
  function Normalize(userQuestion: string): string {
    Trim(LowerStr(userQuestion))
  }

  /** The similarity of the normalized question `q` to an FAQ's lower-cased question. */
  function Score(q: string, e: Entry): real {
    Similarity(q, LowerStr(e.question))
  }

  // ---------------------------------------------------------------------------
  // Resources
  // ---------------------------------------------------------------------------

  const Homepage: string := "https://www.hubermanlab.com"
  const SiteName: string := "hubermanlab.com"

  /** The scheme prefix that starts a link at `i`, or "" when none does. */
  function SchemeAt(s: string, i: nat): (p: string)
    ensures p == "" || p == "http://" || p == "https://"
    ensures p != "" ==> OccursAt(s, p, i)
  {
    if OccursAt(s, "https://", i) then "https://"
    else if OccursAt(s, "http://", i) then "http://"
    else ""
  }

  /** A link as the pattern `https?://[^\s]+` takes it: a scheme, then at least one non-space character, then no space. */
  predicate IsLink(u: string) {
    ((StartsWith(u, "http://") && |u| > 7) || (StartsWith(u, "https://") && |u| > 8)) && NoSpace(u)
  }

  /** `s.match(/(https?:\/\/[^\s]+)/g)` from index `i` on: every link, left to right, none overlapping. */
  function LinksFrom(s: string, i: nat): (us: seq<string>)
    requires i <= |s|
    decreases |s| - i
  {
    if i == |s| then []
    else
      var p := SchemeAt(s, i);
      var e := if p == "" then i else SpaceIndex(s, i + |p|);
      if e > i + |p| then [s[i..e]] + LinksFrom(s, e) else LinksFrom(s, i + 1)
  }

  /** Everything the scan takes is a link, and occurs in the text. */
  lemma {:induction false} LinksAreLinks(s: string, i: nat)
    requires i <= |s|
    ensures forall u :: u in LinksFrom(s, i) ==> IsLink(u) && Contains(s, u)
    decreases |s| - i
  {
    if i < |s| {
      var p := SchemeAt(s, i);
      var e := if p == "" then i else SpaceIndex(s, i + |p|);
      if e > i + |p| {
        LinkAt(s, i, p, e);
        LinksAreLinks(s, e);
      } else {
        LinksAreLinks(s, i + 1);
      }
    }
  }

  /** A scheme followed by a non-empty run of non-space characters is a link, and it occurs where it was read. */
  lemma LinkAt(s: string, i: nat, p: string, e: nat)
    requires p == "http://" || p == "https://"
    requires OccursAt(s, p, i) && i + |p| < e <= |s|
    requires forall k :: i + |p| <= k < e ==> !IsSpace(s[k])
    ensures IsLink(s[i..e]) && Contains(s, s[i..e])
  {
    var u := s[i..e];
    assert u[..|p|] == s[i..i + |p|] == p;
    forall k | 0 <= k < |u|
      ensures !IsSpace(u[k])
    {
      if k < |p| {
        assert u[k] == p[k];
      } else {
        assert u[k] == s[i + k];
      }
    }
    assert OccursAt(s, u, i);
  }

  /**
   * `extractResourcesFromAnswer`: the answer's links, then the site's homepage
   * when the answer names the site, each once.
   */
  function ExtractResources(answer: string): seq<string> {
    var links := LinksFrom(answer, 0);
    Dedup(links + (if Contains(LowerStr(answer), SiteName) then [Homepage] else []))
  }

  /** The resources are distinct, and are exactly the answer's links plus the homepage when the site is named. */
  lemma ResourcesDistinctAndComplete(answer: string)
    ensures var r := ExtractResources(answer);
      forall i, j :: 0 <= i < j < |r| ==> r[i] != r[j]
    ensures forall u :: u in ExtractResources(answer) <==>
      u in LinksFrom(answer, 0) || (u == Homepage && Contains(LowerStr(answer), SiteName))
  {
    var links := LinksFrom(answer, 0);
    var found := links + (if Contains(LowerStr(answer), SiteName) then [Homepage] else []);
    assert forall u :: u in found <==> u in links || (u == Homepage && Contains(LowerStr(answer), SiteName));
  }

  /** Every resource other than the homepage is a link written in the answer. */
  lemma ResourcesAreLinks(answer: string)
    ensures forall u :: u in ExtractResources(answer) ==> u == Homepage || (IsLink(u) && Contains(answer, u))
  {
    ResourcesDistinctAndComplete(answer);
    LinksAreLinks(answer, 0);
  }

  function MatchOf(e: Entry, confidence: real): FaqMatch {
    FaqMatch(e.question, e.answer, confidence, e.category)
  }

  // ---------------------------------------------------------------------------
  // Lexical pass
  // ---------------------------------------------------------------------------

  /** The scores of `es` against `q`, in order. */
  function Scores(q: string, es: seq<Entry>): (r: seq<real>)
    ensures |r| == |es|
    ensures forall k :: 0 <= k < |es| ==> r[k] == Score(q, es[k])
  {
    seq(|es|, k requires 0 <= k < |es| => Score(q, es[k]))
  }

  /**
   * The position the lexical pass keeps after reading `scores` in order: a score
   * replaces the kept one only when it is higher, and above the threshold.
   */
  function BestOf(scores: seq<real>): (r: Option<nat>)
    ensures r.Some? ==> r.value < |scores|
  {
    if scores == [] then None
    else
      var prev := BestOf(scores[..|scores| - 1]);
      var high := if prev.Some? then scores[prev.value] else 0.0;
      var s := scores[|scores| - 1];
      if s > high && s > Threshold then Some(|scores| - 1) else prev
  }

  // ---------------------------------------------------------------------------
  // Keyword fallback
  // ---------------------------------------------------------------------------

  /** A keyword-table row: category-name fragment `key`, tried when one of `keywords` occurs. */
  datatype KeywordGroup = KeywordGroup(key: string, keywords: seq<string>)

  const KeywordMap: seq<KeywordGroup> := [
    KeywordGroup("premium", ["premium", "subscription", "member", "cost", "price"]),
    KeywordGroup("newsletter", ["newsletter", "email", "subscribe"]),
    KeywordGroup("episodes", ["episode", "podcast", "listen", "watch", "schedule"]),
    KeywordGroup("huberman", ["andrew", "huberman", "credentials", "who is"]),
    KeywordGroup("sponsors", ["sponsor", "advertising", "partnership"]),
    KeywordGroup("events", ["event", "speaking", "live", "conference"]),
    KeywordGroup("merchandise", ["merch", "shop", "merchandise", "store"])
  ]


  /** `categories.find(cat => cat.name.toLowerCase().includes(key))`: the first such category's index. */
  function FindCategory(cats: seq<Category>, key: string, from: nat): (r: Option<nat>)
    requires from <= |cats|
    ensures r.Some? ==> from <= r.value < |cats| && Contains(LowerStr(cats[r.value].name), key)
    ensures r.Some? ==> forall k :: from <= k < r.value ==> !Contains(LowerStr(cats[k].name), key)
    ensures r.None? ==> forall k :: from <= k < |cats| ==> !Contains(LowerStr(cats[k].name), key)
    decreases |cats| - from
  {
    if from == |cats| then None
    else if Contains(LowerStr(cats[from].name), key) then Some(from)
    else FindCategory(cats, key, from + 1)
  }

  /** The category a key finds has a question to offer. */
  predicate Usable(cats: seq<Category>, key: string) {
    var f := FindCategory(cats, key, 0);
    f.Some? && |cats[f.value].questions| > 0
  }

  /** A row answers when one of its keywords is in the question and its key finds a category with questions. */
  predicate Fires(cats: seq<Category>, q: string, row: KeywordGroup) {
    AnyContained(q, row.keywords) && Usable(cats, row.key)
  }

  /** The first question of the category `key` finds, reported at the keyword confidence. */
  function KeywordAnswer(cats: seq<Category>, key: string): (m: FaqMatch)
    requires Usable(cats, key)
    ensures m.confidence == KeywordConfidence
  {
    var c := cats[FindCategory(cats, key, 0).value];
    var qa := c.questions[0];
    FaqMatch(qa.question, qa.answer, KeywordConfidence, c.name)
  }

  /** The answer of the first row of `table` from `g` on that fires. */
  function KeywordFrom(cats: seq<Category>, q: string, table: seq<KeywordGroup>, g: nat): Option<FaqMatch>
    requires g <= |table|
    decreases |table| - g
  {
    if g == |table| then None
    else if Fires(cats, q, table[g]) then Some(KeywordAnswer(cats, table[g].key))
    else KeywordFrom(cats, q, table, g + 1)
  }

  /** `matchFAQ`: the lexical winner if there is one, the keyword fallback otherwise. */
  function Match(cats: seq<Category>, userQuestion: string): Option<FaqMatch> {
    var q := Normalize(userQuestion);
    var es := Entries(cats);
    match BestOf(Scores(q, es))
    case Some(k) => Some(MatchOf(es[k], Score(q, es[k])))
    case None => KeywordFrom(cats, q, KeywordMap, 0)
  }

  // ---------------------------------------------------------------------------
  // The loops
  // ---------------------------------------------------------------------------

  /**
   * `keywordMatch` over a keyword table: every row in order, every keyword of the
   * row in order; the first keyword found whose row's category has questions decides.
   */
  method KeywordMatch(cats: seq<Category>, q: string, table: seq<KeywordGroup>) returns (m: Option<FaqMatch>)
    ensures m == KeywordFrom(cats, q, table, 0)
  {
    var g := 0;
    while g < |table|
      invariant 0 <= g <= |table|
      invariant KeywordFrom(cats, q, table, 0) == KeywordFrom(cats, q, table, g)
    {
      var row := table[g];
      var j := 0;
      while j < |row.keywords|
        invariant 0 <= j <= |row.keywords|
        invariant !Usable(cats, row.key) || forall t :: 0 <= t < j ==> !Contains(q, row.keywords[t])
      {
        if Contains(q, row.keywords[j]) {
          var f := FindCategory(cats, row.key, 0);
          if f.Some? && |cats[f.value].questions| > 0 {
            RowFires(cats, q, table, g, j);
            return Some(KeywordAnswer(cats, row.key));
          }
        }
        j := j + 1;
      }
      RowSkipped(cats, q, table, g);
      g := g + 1;
    }
    m := None;
  }

  /** A row whose keyword `j` occurs and whose category has questions answers. */
  lemma RowFires(cats: seq<Category>, q: string, table: seq<KeywordGroup>, g: nat, j: nat)
    requires g < |table| && j < |table[g].keywords|
    requires Contains(q, table[g].keywords[j]) && Usable(cats, table[g].key)
    ensures KeywordFrom(cats, q, table, g) == Some(KeywordAnswer(cats, table[g].key))
  {
    assert Fires(cats, q, table[g]);
  }

  /** A row none of whose keywords occurs, or whose category is unusable, passes to the next one. */
  lemma RowSkipped(cats: seq<Category>, q: string, table: seq<KeywordGroup>, g: nat)
    requires g < |table|
    requires !Usable(cats, table[g].key) || forall t :: 0 <= t < |table[g].keywords| ==> !Contains(q, table[g].keywords[t])
    ensures KeywordFrom(cats, q, table, g) == KeywordFrom(cats, q, table, g + 1)
  {
    assert !Fires(cats, q, table[g]);
  }

  /** One more score read: it is kept when it beats the kept score and the threshold. */
  lemma BestSnoc(scores: seq<real>, s: real)
    ensures var prev := BestOf(scores);
      var high := if prev.Some? then scores[prev.value] else 0.0;
      BestOf(scores + [s]) == if s > high && s > Threshold then Some(|scores|) else prev
  {
    var all := scores + [s];
    assert all[..|all| - 1] == scores;
  }

  /** What the scan holds after reading `seen`: the kept position, its score and the match built from it. */
  ghost predicate Kept(q: string, seen: seq<Entry>, best: Option<nat>, highest: real, bestMatch: Option<FaqMatch>) {
    best == BestOf(Scores(q, seen)) &&
    (best.None? ==> bestMatch.None? && highest == 0.0) &&
    (best.Some? ==> best.value < |seen| && highest == Score(q, seen[best.value]) && bestMatch == Some(MatchOf(seen[best.value], highest)))
  }

  /** Reading one more FAQ keeps `Kept`, whether the FAQ replaces the kept one or not. */
  lemma KeptStep(q: string, seen: seq<Entry>, e: Entry, best: Option<nat>, highest: real, bestMatch: Option<FaqMatch>)
    requires Kept(q, seen, best, highest, bestMatch)
    ensures var score := Score(q, e);
      if score > highest && score > Threshold then Kept(q, seen + [e], Some(|seen|), score, Some(MatchOf(e, score)))
      else Kept(q, seen + [e], best, highest, bestMatch)
  {
    assert Scores(q, seen + [e]) == Scores(q, seen) + [Score(q, e)];
    BestSnoc(Scores(q, seen), Score(q, e));
    if best.Some? {
      assert (seen + [e])[best.value] == seen[best.value];
    }
  }

  /** The corpus read up to category `i + 1` is the corpus up to `i`, then category `i`'s FAQs. */
  lemma EntriesStep(cats: seq<Category>, i: nat)
    requires i < |cats|
    ensures Entries(cats[..i + 1]) == Entries(cats[..i]) + CategoryEntries(cats[i])
  {
    assert cats[..i + 1][..i] == cats[..i];
  }

  /** Once the whole corpus is read, the kept match is `Match`'s lexical winner, and without one `Match` falls back. */
  lemma MatchFromKept(cats: seq<Category>, userQuestion: string, best: Option<nat>, highest: real, bestMatch: Option<FaqMatch>)
    requires Kept(Normalize(userQuestion), Entries(cats), best, highest, bestMatch)
    ensures bestMatch.Some? ==> bestMatch == Match(cats, userQuestion)
    ensures bestMatch.None? ==> Match(cats, userQuestion) == KeywordFrom(cats, Normalize(userQuestion), KeywordMap, 0)
  {
  }

  /** One more question of a category read: the prefix read grows by that question's entry. */
  lemma ReadOneMore(seen: seq<Entry>, c: Category, j: nat)
    requires j < |c.questions|
    ensures seen + CategoryEntries(c)[..j + 1] == seen + CategoryEntries(c)[..j] + [Entry(c.questions[j].question, c.questions[j].answer, c.name)]
  {
    var es := CategoryEntries(c);
    assert es[..j + 1] == es[..j] + [es[j]];
  }

  /** The inner loop of `matchFAQ`: one category's questions, each scored and kept when it beats the kept score. */
  method ScanCategory(q: string, c: Category, ghost seen: seq<Entry>, ghost best: Option<nat>, highest: real, bestMatch: Option<FaqMatch>)
    returns (ghost best': Option<nat>, highest': real, bestMatch': Option<FaqMatch>)
    requires Kept(q, seen, best, highest, bestMatch)
    ensures Kept(q, seen + CategoryEntries(c), best', highest', bestMatch')
  {
    best', highest', bestMatch' := best, highest, bestMatch;
    ghost var read := seen;
    var j := 0;
    while j < |c.questions|
      invariant 0 <= j <= |c.questions|
      invariant read == seen + CategoryEntries(c)[..j]
      invariant Kept(q, read, best', highest', bestMatch')
    {
      var qa := c.questions[j];
      var e := Entry(qa.question, qa.answer, c.name);
      KeptStep(q, read, e, best', highest', bestMatch');
      ReadOneMore(seen, c, j);
      var score := Similarity(q, LowerStr(qa.question));
      if score > highest' && score > Threshold {
        highest' := score;
        bestMatch' := Some(MatchOf(e, score));
        best' := Some(|read|);
      }
      read := read + [e];
      j := j + 1;
    }
    assert CategoryEntries(c)[..j] == CategoryEntries(c);
  }

  /** `matchFAQ`: the nested scan keeping the best score, then the keyword fallback. */
  method MatchFaq(cats: seq<Category>, userQuestion: string) returns (m: Option<FaqMatch>)
    ensures m == Match(cats, userQuestion)
  {
    var q := Normalize(userQuestion);
    var bestMatch: Option<FaqMatch> := None;
    var highest := 0.0;
    ghost var best: Option<nat> := None;
    var i := 0;
    while i < |cats|
      invariant 0 <= i <= |cats|
      invariant Kept(q, Entries(cats[..i]), best, highest, bestMatch)
    {
      best, highest, bestMatch := ScanCategory(q, cats[i], Entries(cats[..i]), best, highest, bestMatch);
      EntriesStep(cats, i);
      i := i + 1;
    }
    assert cats[..i] == cats;
    MatchFromKept(cats, userQuestion, best, highest, bestMatch);
    if bestMatch.Some? {
      return bestMatch;
    }
    m := KeywordMatch(cats, q, KeywordMap);
  }

  // ---------------------------------------------------------------------------
  // Properties
  // ---------------------------------------------------------------------------

  /** The similarity does not depend on the order of its arguments. */
  lemma SimilaritySymmetric(s1: string, s2: string)
    ensures Similarity(s1, s2) == Similarity(s2, s1)
  {
    var a := WordSet(s1);
    var b := WordSet(s2);
    assert a + b == b + a;
    assert a * b == b * a;
  }

  /** A text scores 1 against itself. */
  lemma SameTextScoresOne(s: string)
    ensures Similarity(s, s) == 1.0
  {
    var a := WordSet(s);
    assert a + a == a && a * a == a;
    assert OccursAt(s, s, 0);
  }

  /** Splitting always yields a word, so the guard against an empty union never fires. */
  lemma UnionNeverEmpty(s1: string, s2: string)
    ensures |WordSet(s1) + WordSet(s2)| > 0
  {
    assert Words(s1)[0] in WordSet(s1) + WordSet(s2);
  }

  /** With no word in common and neither text inside the other, the score is 0. */
  lemma DisjointScoresZero(s1: string, s2: string)
    requires WordSet(s1) * WordSet(s2) == {}
    requires !Contains(s1, s2) && !Contains(s2, s1)
    ensures Similarity(s1, s2) == 0.0
  {
    UnionNeverEmpty(s1, s2);
  }

  /** One text inside the other scores at least the phrase bonus. */
  lemma ContainmentScoresBonus(s1: string, s2: string)
    requires Contains(s1, s2) || Contains(s2, s1)
    ensures Similarity(s1, s2) >= PhraseBonus
  {
    UnionNeverEmpty(s1, s2);
  }

  /** Position `r` holds the highest score, above the threshold, and every earlier score is strictly less. */
  predicate EarliestMaximum(scores: seq<real>, r: nat)
    requires r < |scores|
  {
    scores[r] > Threshold &&
    (forall k :: 0 <= k < |scores| ==> scores[k] <= scores[r]) &&
    (forall k :: 0 <= k < r ==> scores[k] < scores[r])
  }

  predicate NoneAbove(scores: seq<real>) {
    forall k :: 0 <= k < |scores| ==> scores[k] <= Threshold
  }

  /**
   * The lexical pass keeps the earliest highest score, provided that score is
   * above the threshold; it keeps none exactly when no score is above it.
   */
  lemma {:induction false} BestIsEarliestMaximum(scores: seq<real>)
    ensures BestOf(scores).Some? ==> EarliestMaximum(scores, BestOf(scores).value)
    ensures BestOf(scores).None? <==> NoneAbove(scores)
  {
    if scores != [] {
      var n := |scores| - 1;
      var init := scores[..n];
      assert scores == init + [scores[n]];
      BestIsEarliestMaximum(init);
      BestSnoc(init, scores[n]);
      assert forall k :: 0 <= k < n ==> init[k] == scores[k];
    }
  }

  /** A keyword match always reports 0.5, below any lexical score, so the two are told apart by confidence. */
  lemma {:induction false} KeywordConfidenceBelowThreshold(cats: seq<Category>, q: string, table: seq<KeywordGroup>, g: nat)
    requires g <= |table|
    ensures KeywordFrom(cats, q, table, g).Some? ==> KeywordFrom(cats, q, table, g).value.confidence == KeywordConfidence < Threshold
    decreases |table| - g
  {
    if g < |table| {
      KeywordConfidenceBelowThreshold(cats, q, table, g + 1);
    }
  }

  /**
   * The keyword fallback answers with the first row, in table order, that has a
   * keyword in the question and a category with questions; with no such row it
   * answers nothing.
   */
  lemma {:induction false} KeywordIsFirstFiringRow(cats: seq<Category>, q: string, table: seq<KeywordGroup>, g: nat)
    requires g <= |table|
    ensures KeywordFrom(cats, q, table, g).Some? <==> exists h :: g <= h < |table| && Fires(cats, q, table[h])
    ensures forall h :: g <= h < |table| && Fires(cats, q, table[h]) && (forall x :: g <= x < h ==> !Fires(cats, q, table[x])) ==>
      KeywordFrom(cats, q, table, g) == Some(KeywordAnswer(cats, table[h].key))
    decreases |table| - g
  {
    if g < |table| {
      KeywordIsFirstFiringRow(cats, q, table, g + 1);
    }
  }

  /** A question scoring above the threshold against some FAQ is answered lexically, never by keyword. */
  lemma LexicalBeforeKeywords(cats: seq<Category>, userQuestion: string, k: nat)
    requires k < |Entries(cats)|
    requires Score(Normalize(userQuestion), Entries(cats)[k]) > Threshold
    ensures var m := Match(cats, userQuestion);
      m.Some? && m.value.confidence >= Score(Normalize(userQuestion), Entries(cats)[k]) > Threshold
  {
    BestIsEarliestMaximum(Scores(Normalize(userQuestion), Entries(cats)));
  }

  /** A question repeating an FAQ's question, up to case and surrounding space, gets a full-confidence match. */
  lemma ExactQuestionMatches(cats: seq<Category>, userQuestion: string, k: nat)
    requires k < |Entries(cats)|
    requires Normalize(userQuestion) == LowerStr(Entries(cats)[k].question)
    ensures var m := Match(cats, userQuestion);
      m.Some? && m.value.confidence == 1.0
  {
    var q := Normalize(userQuestion);
    SameTextScoresOne(q);
    BestIsEarliestMaximum(Scores(q, Entries(cats)));
  }
}

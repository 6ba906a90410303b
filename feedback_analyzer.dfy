/**
 * The deterministic half of the feedback analyzer: the rating extractor, the
 * skip-intent detector, and the post-processing applied to the language
 * model's replies when categorising, scoring sentiment and writing
 * transitions. A model reply is an `Option<string>`: `None` stands for a call
 * that threw.
 */
module FeedbackAnalyzer {
  import opened Wrappers
  import opened Text
  import opened Numbers

  // ---------------------------------------------------------------------------
  // extractRating: the first match of \b(\d+(?:\.\d+)?)\b, then number words
  // ---------------------------------------------------------------------------

  /** A character of the regular-expression class `\w`. */
  predicate IsWordChar(c: char) {
    IsAsciiLetter(c) || IsDigit(c) || c == '_'
  }

  /** Index `i` of `s` exists and holds a `\w` character. */
  predicate WordCharAt(s: string, i: int) {
    0 <= i < |s| && IsWordChar(s[i])
  }

  /** A string of the shape `\d+(\.\d+)?`. */
  predicate NumberToken(t: string) {
    |t| > 0 && IsDigit(t[0]) &&
    (AllDigits(t) ||
     (var d := DigitsEnd(t, 0); d + 1 < |t| && t[d] == '.' && AllDigits(t[d + 1..])))
  }

  /**
   * Where the pattern `\b\d+(?:\.\d+)?\b` ends when tried at index `i`, or
   * `None` when it does not match there. Both `\d+` runs are greedy and can
   * only give back digits, which would break the closing `\b`, so the only
   * choice left is whether the fraction is taken.
   */
  function TokenEnd(s: string, i: nat): (r: Option<nat>)
    requires i <= |s|
    ensures r.Some? ==> i < r.value <= |s| && NumberToken(s[i..r.value])
    ensures r.Some? ==> !WordCharAt(s, i - 1) && !WordCharAt(s, r.value)
    ensures i < |s| && IsDigit(s[i]) && !WordCharAt(s, i - 1) && !WordCharAt(s, DigitsEnd(s, i)) ==> r.Some?
    ensures i < |s| && IsDigit(s[i]) && !WordCharAt(s, i - 1) ==>
      var d := DigitsEnd(s, i);
      if d + 1 < |s| && s[d] == '.' && IsDigit(s[d + 1]) && !WordCharAt(s, DigitsEnd(s, d + 1)) then
        r == Some(DigitsEnd(s, d + 1))
      else
        r == (if WordCharAt(s, d) then None else Some(d))
  {
    if i == |s| || !IsDigit(s[i]) || WordCharAt(s, i - 1) then None
    else
      var d := DigitsEnd(s, i);
      if d + 1 < |s| && s[d] == '.' && IsDigit(s[d + 1]) && !WordCharAt(s, DigitsEnd(s, d + 1)) then
        var f := DigitsEnd(s, d + 1);
        assert AllDigits(s[i..f][d - i + 1..]) by { assert s[i..f][d - i + 1..] == s[d + 1..f]; }
        assert DigitsEnd(s[i..f], 0) == d - i by { DigitsEndShift(s, i, f); }
        Some(f)
      else if !WordCharAt(s, d) then Some(d)
      else None
  }

  /** `DigitsEnd` on a slice is `DigitsEnd` on the whole string, shifted. */
  lemma {:induction false} DigitsEndShift(s: string, i: nat, f: nat)
    requires i <= f <= |s| && i < |s| && IsDigit(s[i])
    requires DigitsEnd(s, i) < f
    ensures DigitsEnd(s[i..f], 0) == DigitsEnd(s, i) - i
  {
    var t := s[i..f];
    var d := DigitsEnd(s, i);
    assert forall k :: 0 <= k < d - i ==> t[k] == s[i + k];
    assert t[d - i] == s[d];
    DigitsEndIs(t, 0, d - i);
  }

  /** The leftmost match at or after `i`, as a start and an end. */
  function FirstToken(s: string, i: nat): (r: Option<(nat, nat)>)
    requires i <= |s|
    ensures r.Some? ==> i <= r.value.0 <= |s| && TokenEnd(s, r.value.0) == Some(r.value.1)
    ensures r.Some? ==> forall j :: i <= j < r.value.0 ==> TokenEnd(s, j) == None
    ensures r.None? ==> forall j :: i <= j <= |s| ==> TokenEnd(s, j) == None
    decreases |s| - i
  {
    match TokenEnd(s, i)
    case Some(e) => Some((i, e))
    case None => if i == |s| then None else FirstToken(s, i + 1)
  }

  /** `parseFloat` of a matched token; a token always starts with a digit, so it always parses. */
  function TokenValue(t: string): (v: real)
    requires NumberToken(t)
    ensures v >= 0.0
    ensures AllDigits(t) ==> v == DigitsValue(t) as real
    ensures !AllDigits(t) ==>
      var d := DigitsEnd(t, 0);
      d + 1 < |t| && v == DigitsValue(t[..d]) as real + FractionValue(t[d + 1..])
  {
    if AllDigits(t) then
      ParseFloatOfDigits(t);
      DigitsValue(t) as real
    else
      var d := DigitsEnd(t, 0);
      assert t == t[..d] + "." + t[d + 1..];
      ParseFloatOfDecimal(t[..d], t[d + 1..]);
      match ParseFloat(t)
      case Some(Finite(x)) => x
      case _ => 0.0
  }

  const NumberWords: seq<string> := ["zero", "one", "two", "three", "four", "five", "six", "seven", "eight", "nine", "ten"]

  /** The first number word, in the order zero to ten, that occurs in `t`, searched from word `k`. */
  function WordRating(t: string, k: nat): (r: Option<nat>)
    requires k <= |NumberWords|
    ensures r.Some? ==> k <= r.value < |NumberWords| && Contains(t, NumberWords[r.value])
    ensures r.Some? ==> forall j :: k <= j < r.value ==> !Contains(t, NumberWords[j])
    ensures r.None? ==> forall j :: k <= j < |NumberWords| ==> !Contains(t, NumberWords[j])
    decreases |NumberWords| - k
  {
    if k == |NumberWords| then None
    else if Contains(t, NumberWords[k]) then Some(k)
    else WordRating(t, k + 1)
  }

  /**
   * `extractRating`: the first numeric token, when its value lies in [0, 10];
   * otherwise (no token, or one out of range) the first number word found.
   */
  function ExtractRating(text: string): (r: Option<real>)
    ensures r.Some? ==> 0.0 <= r.value <= 10.0
    ensures r.None? ==> forall j :: 0 <= j < |NumberWords| ==> !Contains(LowerStr(text), NumberWords[j])
  {
    var t := LowerStr(text);
    var direct :=
      match FirstToken(t, 0)
      case Some((i, e)) => if TokenValue(t[i..e]) <= 10.0 then Some(TokenValue(t[i..e])) else None
      case None => None;
    if direct.Some? then direct
    else match WordRating(t, 0)
      case Some(k) => Some(k as real)
      case None => None
  }

  /** A first number in range is the answer, whatever words follow it. */
  lemma RatingFromFirstToken(text: string, i: nat, e: nat)
    requires FirstToken(LowerStr(text), 0) == Some((i, e))
    requires TokenValue(LowerStr(text)[i..e]) <= 10.0
    ensures ExtractRating(text) == Some(TokenValue(LowerStr(text)[i..e]))
  {
  }

  /**
   * An out-of-range first number is not rejected outright: the search falls
   * through to the number words, so "15 out of ten" rates 10.
   */
  lemma RatingFallsThrough(text: string, i: nat, e: nat)
    requires FirstToken(LowerStr(text), 0) == Some((i, e))
    requires TokenValue(LowerStr(text)[i..e]) > 10.0
    ensures ExtractRating(text) == (match WordRating(LowerStr(text), 0) case Some(k) => Some(k as real) case None => None)
  {
  }

  /** Without any digit, the rating is exactly the first number word present. */
  lemma RatingOfWordsOnly(text: string, k: nat)
    requires forall j :: 0 <= j < |text| ==> !IsDigit(text[j])
    requires k < |NumberWords| && Contains(LowerStr(text), NumberWords[k])
    requires forall j :: 0 <= j < k ==> !Contains(LowerStr(text), NumberWords[j])
    ensures ExtractRating(text) == Some(k as real)
  {
    NoDigitNoToken(LowerStr(text), 0);
    WordRatingIs(LowerStr(text), 0, k);
  }

  /** With no bounded number token (digits inside a word, as in "8th"), only the number-word search decides. */
  lemma RatingWithoutToken(text: string)
    requires FirstToken(LowerStr(text), 0).None?
    ensures ExtractRating(text).Some? <==> WordRating(LowerStr(text), 0).Some?
    ensures WordRating(LowerStr(text), 0).Some? ==> ExtractRating(text) == Some(WordRating(LowerStr(text), 0).value as real)
  {
  }

  lemma {:induction false} WordRatingIs(t: string, j: nat, k: nat)
    requires j <= k < |NumberWords| && Contains(t, NumberWords[k])
    requires forall m :: j <= m < k ==> !Contains(t, NumberWords[m])
    ensures WordRating(t, j) == Some(k)
    decreases k - j
  {
    if j < k {
      WordRatingIs(t, j + 1, k);
    }
  }

  lemma {:induction false} NoDigitNoToken(t: string, i: nat)
    requires i <= |t|
    requires forall j :: 0 <= j < |t| ==> !IsDigit(t[j])
    ensures FirstToken(t, i) == None
    decreases |t| - i
  {
    if i < |t| {
      NoDigitNoToken(t, i + 1);
    }
  }

  /** The leftmost match is the first digit that starts one. */
  lemma {:induction false} FirstTokenIs(s: string, i: nat, j: nat, e: nat)
    requires i <= j <= |s|
    requires forall k :: i <= k < j ==> !IsDigit(s[k])
    requires TokenEnd(s, j) == Some(e)
    ensures FirstToken(s, i) == Some((j, e))
    decreases j - i
  {
    if i < j {
      FirstTokenIs(s, i + 1, j, e);
    }
  }

  /** A first token of plain digits worth at most 10 is the rating, read as a decimal integer. */
  lemma RatingOfDigitsToken(text: string, i: nat, e: nat)
    requires FirstToken(LowerStr(text), 0) == Some((i, e))
    requires AllDigits(LowerStr(text)[i..e]) && DigitsValue(LowerStr(text)[i..e]) <= 10
    ensures ExtractRating(text) == Some(DigitsValue(LowerStr(text)[i..e]) as real)
  {
    var token := LowerStr(text)[i..e];
    ParseFloatOfDigits(token);
    assert TokenValue(token) == DigitsValue(token) as real;
    RatingFromFirstToken(text, i, e);
  }

  /** A first token `digits.digits` worth at most 10 is the rating: whole part plus fraction. */
  lemma {:induction false} RatingOfDecimalToken(text: string, i: nat, e: nat, a: string, f: string)
    requires FirstToken(LowerStr(text), 0) == Some((i, e))
    requires a != [] && AllDigits(a) && f != [] && AllDigits(f)
    requires LowerStr(text)[i..e] == a + "." + f
    requires DigitsValue(a) as real + FractionValue(f) <= 10.0
    ensures ExtractRating(text) == Some(DigitsValue(a) as real + FractionValue(f))
  {
    DecimalTokenValue(LowerStr(text)[i..e], a, f);
    RatingFromFirstToken(text, i, e);
  }

  /** The token `digits.digits` is worth its whole part plus its fraction. */
  lemma DecimalTokenValue(token: string, a: string, f: string)
    requires a != [] && AllDigits(a) && f != [] && AllDigits(f)
    requires token == a + "." + f
    ensures NumberToken(token) && TokenValue(token) == DigitsValue(a) as real + FractionValue(f)
  {
    assert forall k :: 0 <= k < |a| ==> token[k] == a[k];
    assert forall k :: |a| + 1 <= k < |token| ==> token[k] == f[k - |a| - 1];
    DigitsEndIs(token, 0, |a|);
    assert token[..|a|] == a && token[|a| + 1..] == f;
    assert !AllDigits(token) by { assert !IsDigit(token[|a|]); }
  }

  /** "7.5" is one token: the fraction is taken, since nothing follows it. */
  lemma SevenPointFiveToken(t: string)
    requires t == "7.5"
    ensures FirstToken(LowerStr(t), 0) == Some((0, 3))
    ensures LowerStr(t)[0..3] == "7" + "." + "5"
  {
    var u := LowerStr(t);
    assert u == t;
    DigitsEndIs(u, 0, 1);
    DigitsEndIs(u, 2, 3);
    assert TokenEnd(u, 0) == Some(3);
  }

  /** "7.5" rates 7.5: decimals are kept. */
  lemma RatingSevenPointFive(t: string)
    requires t == "7.5"
    ensures ExtractRating(t) == Some(7.5)
  {
    SevenPointFiveToken(t);
    assert DigitsValue("7") == 7 by { assert "7"[..0] == []; }
    assert DigitsValue("5") == 5 by { assert "5"[..0] == []; }
    assert FractionValue("5") == 0.5;
    RatingOfDecimalToken(t, 0, 3, "7", "5");
  }

  /** The only number in "I would rate it an 8", lower-cased, is its last character, the digit 8. */
  lemma TrailingEightToken(t: string)
    requires t == "I would rate it an 8"
    ensures FirstToken(LowerStr(t), 0) == Some((19, 20))
    ensures AllDigits(LowerStr(t)[19..20]) && DigitsValue(LowerStr(t)[19..20]) == 8
  {
    var u := LowerStr(t);
    assert u == "i would rate it an 8";
    assert TokenEnd(u, 19) == Some(20);
    FirstTokenIs(u, 0, 19, 20);
    assert u[19..20] == "8";
  }

  /** "I would rate it an 8" rates 8. */
  lemma RatingTrailingDigit(t: string)
    requires t == "I would rate it an 8"
    ensures ExtractRating(t) == Some(8.0)
  {
    TrailingEightToken(t);
    RatingOfDigitsToken(t, 19, 20);
  }

  /** "10" is one token, the number 10. */
  lemma TenToken(t: string)
    requires t == "10"
    ensures FirstToken(LowerStr(t), 0) == Some((0, 2))
    ensures AllDigits(LowerStr(t)[0..2]) && DigitsValue(LowerStr(t)[0..2]) == 10
  {
    var u := LowerStr(t);
    assert u == t;
    DigitsEndIs(u, 0, 2);
    assert TokenEnd(u, 0) == Some(2);
    assert u[0..2] == "10";
    assert DigitsValue("10") == 10 by {
      assert "10"[..1] == "1" && "1"[..0] == [];
    }
  }

  /** "10" rates 10: the upper bound is included. */
  lemma RatingTen(t: string)
    requires t == "10"
    ensures ExtractRating(t) == Some(10.0)
  {
    TenToken(t);
    RatingOfDigitsToken(t, 0, 2);
  }

  /** "one" does not occur in a word without an 'o' followed by " out of ten". */
  lemma NoOneBeforeOutOfTen(w: string)
    requires 'o' !in w
    ensures !Contains(w + [' '] + "out of ten", "one")
  {
    NotContainsMissingChar(w, "one", 'o');
    NotContainsMissingChar("out", "one", 'n');
    NotContainsMissingChar("of", "one", 'n');
    NotContainsMissingChar("ten", "one", 'o');
    NotContainsAcross("of", ' ', "ten", "one");
    assert "of" + [' '] + "ten" == "of ten";
    NotContainsAcross("out", ' ', "of ten", "one");
    assert "out" + [' '] + "of ten" == "out of ten";
    NotContainsAcross(w, ' ', "out of ten", "one");
  }

  /** "15 out of ten": 15 is out of range, and the number words give 10. */
  lemma RatingFifteenOutOfTen(t: string)
    requires t == "15 out of ten"
    ensures ExtractRating(t) == Some(10.0)
  {
    FifteenToken(t);
    FifteenValue();
    WordsOfFifteenOutOfTen(LowerStr(t));
    RatingFallsThrough(t, 0, 2);
  }

  /** The first token of "15 out of ten" is "15", worth more than 10. */
  lemma FifteenToken(t: string)
    requires t == "15 out of ten"
    ensures LowerStr(t) == t
    ensures FirstToken(LowerStr(t), 0) == Some((0, 2))
    ensures LowerStr(t)[0..2] == "15"
  {
    var u := LowerStr(t);
    assert u == t;
    DigitsEndIs(u, 0, 2);
    assert TokenEnd(u, 0) == Some(2);
    assert u[0..2] == "15";
  }

  /** "15" is a number token worth 15. */
  lemma FifteenValue()
    ensures NumberToken("15") && TokenValue("15") == 15.0
  {
    ParseFloatOfDigits("15");
    assert DigitsValue("15") == 15 by {
      assert "15"[..1] == "1" && "1"[..0] == [];
    }
  }

  lemma WordsOfFifteenOutOfTen(u: string)
    requires u == "15 out of ten"
    ensures WordRating(u, 0) == Some(10)
  {
    forall m | 0 <= m < 10
      ensures !Contains(u, NumberWords[m])
    {
      if m == 1 {
        NoOneBeforeOutOfTen("15");
        assert "15" + [' '] + "out of ten" == u;
      } else {
        NotContainsMissingChar(u, NumberWords[m], "zzwrrvssgi"[m]);
      }
    }
    assert OccursAt(u, NumberWords[10], 10);
    WordRatingIs(u, 0, 10);
  }

  /** "eight out of ten" holds no number word before "eight". */
  lemma NoWordBeforeEight(t: string)
    requires t == "eight out of ten"
    ensures forall m :: 0 <= m < 8 ==> !Contains(t, NumberWords[m])
  {
    forall m | 0 <= m < 8
      ensures !Contains(t, NumberWords[m])
    {
      if m == 1 {
        NoOneBeforeOutOfTen("eight");
        assert "eight" + [' '] + "out of ten" == t;
      } else {
        NotContainsMissingChar(t, NumberWords[m], "zzwrrvss"[m]);
      }
    }
  }

  /** "eight out of ten" rates 8. */
  lemma RatingEightOutOfTen(t: string)
    requires t == "eight out of ten"
    ensures ExtractRating(t) == Some(8.0)
  {
    assert LowerStr(t) == t;
    NoWordBeforeEight(t);
    assert OccursAt(t, NumberWords[8], 0);
    RatingOfWordsOnly(t, 8);
  }

  /** "seven" rates 7. */
  lemma RatingSeven(t: string)
    requires t == "seven"
    ensures ExtractRating(t) == Some(7.0)
  {
    assert LowerStr(t) == t;
    NoneContained(t, NumberWords[..7], "zottffi");
    assert OccursAt(t, NumberWords[7], 0);
    RatingOfWordsOnly(t, 7);
  }

  /** "not sure" has neither a number nor a number word, so there is no rating. */
  lemma RatingNotSure(t: string)
    requires t == "not sure"
    ensures ExtractRating(t) == None
  {
    assert LowerStr(t) == t;
    NoDigitNoToken(t, 0);
    forall m | 0 <= m < |NumberWords|
      ensures !Contains(t, NumberWords[m])
    {
      if m == 1 || m == 10 {
        NotContainsMissingChar("not", NumberWords[m], 'e');
        NotContainsMissingChar("sure", NumberWords[m], if m == 1 then 'o' else 't');
        NotContainsAcross("not", ' ', "sure", NumberWords[m]);
        assert "not" + [' '] + "sure" == t;
      } else {
        NotContainsMissingChar(t, NumberWords[m], "zzwhffivgiz"[m]);
      }
    }
    WordRatingNone(t, 0);
  }

  lemma {:induction false} WordRatingNone(t: string, j: nat)
    requires j <= |NumberWords|
    requires forall m :: j <= m < |NumberWords| ==> !Contains(t, NumberWords[m])
    ensures WordRating(t, j) == None
    decreases |NumberWords| - j
  {
    if j < |NumberWords| {
      WordRatingNone(t, j + 1);
    }
  }

  // ---------------------------------------------------------------------------
  // detectSkipIntent
  // ---------------------------------------------------------------------------

  const SkipPhrases: seq<string> := [
    "skip", "pass", "next question", "move on", "don't know", "not sure", "rather not say",
    "prefer not to answer", "end", "stop", "quit", "done", "finish"
  ]

  /** `detectSkipIntent`: some skip phrase occurs, as a substring, in the lower-cased text. */
  predicate DetectSkipIntent(text: string)
    ensures DetectSkipIntent(text) <==> exists k :: 0 <= k < |SkipPhrases| && Contains(LowerStr(text), SkipPhrases[k])
  {
    AnyContained(LowerStr(text), SkipPhrases)
  }

  /** Detection ignores the case of the text. */
  lemma SkipIgnoresCase(text: string)
    ensures DetectSkipIntent(LowerStr(text)) == DetectSkipIntent(text)
  {
    LowerStrIdempotent(text);
  }

  /** Surrounding a skip request with more words keeps it a skip request. */
  lemma {:induction false} SkipSurvivesContext(before: string, text: string, after: string)
    requires DetectSkipIntent(text)
    ensures DetectSkipIntent(before + text + after)
  {
    var k :| 0 <= k < |SkipPhrases| && Contains(LowerStr(text), SkipPhrases[k]);
    var whole := LowerStr(before + text + after);
    assert whole == LowerStr(before) + LowerStr(text) + LowerStr(after);
    assert OccursAt(whole, LowerStr(text), |before|) by {
      assert whole[|before|..|before| + |text|] == LowerStr(text);
    }
    ContainsTransitive(whole, LowerStr(text), SkipPhrases[k]);
  }

  /** Matching is by substring, so an answer that only says "recommend" is read as a skip ("end"). */
  lemma SkipOnRecommend(text: string)
    requires text == "I would recommend it"
    ensures DetectSkipIntent(text)
  {
    assert LowerStr(text) == "i would recommend it";
    assert OccursAt(LowerStr(text), SkipPhrases[8], 14);
  }

  /** "I want to skip this" is a skip request. */
  lemma SkipOnSkipWord(text: string)
    requires text == "I want to skip this"
    ensures DetectSkipIntent(text)
  {
    assert LowerStr(text) == "i want to skip this";
    assert OccursAt(LowerStr(text), SkipPhrases[0], 10);
  }

  /** "next question please" is a skip request. */
  lemma SkipOnNextQuestion(text: string)
    requires text == "next question please"
    ensures DetectSkipIntent(text)
  {
    assert LowerStr(text) == text;
    assert OccursAt(LowerStr(text), SkipPhrases[2], 0);
  }

  /** "I don't know" is a skip request. */
  lemma SkipOnDontKnow(text: string)
    requires text == "I don't know"
    ensures DetectSkipIntent(text)
  {
    assert LowerStr(text) == "i don't know";
    assert OccursAt(LowerStr(text), SkipPhrases[4], 2);
  }

  /** "pass" is a skip request. */
  lemma SkipOnPass(text: string)
    requires text == "pass"
    ensures DetectSkipIntent(text)
  {
    assert LowerStr(text) == text;
    assert OccursAt(LowerStr(text), SkipPhrases[1], 0);
  }

  /** "this is my answer" contains none of the skip phrases. */
  lemma NoSkipPhraseInPlainAnswer(l: string)
    requires l == "this is my answer"
    ensures forall k :: 0 <= k < |SkipPhrases| ==> !Contains(l, SkipPhrases[k])
  {
    NoneContained(l, SkipPhrases, "kpxv'uopdoqdf");
  }

  /** "This is my answer" is not a skip request. */
  lemma NoSkipInPlainAnswer(text: string)
    requires text == "This is my answer"
    ensures !DetectSkipIntent(text)
  {
    assert LowerStr(text) == "this is my answer";
    NoSkipPhraseInPlainAnswer(LowerStr(text));
  }

  // ---------------------------------------------------------------------------
  // Post-processing of model replies
  // ---------------------------------------------------------------------------

  /** `categories[0] || 'Uncategorized'`: an empty first category counts as missing. */
  function CategoryFallback(categories: seq<string>): (r: string)
    ensures r in categories || r == "Uncategorized"
    ensures r != ""
    ensures |categories| > 0 && categories[0] != "" ==> r == categories[0]
    ensures |categories| == 0 || categories[0] == "" ==> r == "Uncategorized"
  {
    if |categories| > 0 && categories[0] != "" then categories[0] else "Uncategorized"
  }

  /** `categorizeResponse`: the trimmed reply when it is exactly one of the categories, else the fallback. */
  function PickCategory(reply: Option<string>, categories: seq<string>): (r: string)
    ensures r in categories || r == "Uncategorized"
    ensures reply.Some? && Trim(reply.value) in categories ==> r == Trim(reply.value)
    ensures !(reply.Some? && Trim(reply.value) in categories) ==> r == CategoryFallback(categories)
  {
    match reply
    case Some(text) => if Trim(text) in categories then Trim(text) else CategoryFallback(categories)
    case None => CategoryFallback(categories)
  }

  /** A reply that is not one of the categories never leaks into the result. */
  lemma PickCategoryRejectsUnknown(reply: string, categories: seq<string>)
    requires Trim(reply) !in categories
    ensures PickCategory(Some(reply), categories) == PickCategory(None, categories)
    ensures PickCategory(Some(reply), categories) != Trim(reply) || Trim(reply) == "Uncategorized"
  {
  }

  /** `analyzeSentiment`: the trimmed reply read by `parseFloat`, clamped to [-1, 1]; 0 when unreadable or on error. */
  function AnalyzeSentiment(reply: Option<string>): (r: real)
    ensures -1.0 <= r <= 1.0
    ensures reply.None? ==> r == 0.0
    ensures reply.Some? && ParseFloat(Trim(reply.value)).None? ==> r == 0.0
  {
    match reply
    case None => 0.0
    case Some(text) => ReadSentiment(Trim(text))
  }

  /** A reading already within range is kept as is. */
  lemma SentimentWithinRange(text: string, v: real)
    requires ParseFloat(Trim(text)) == Some(Finite(v)) && -1.0 <= v <= 1.0
    ensures AnalyzeSentiment(Some(text)) == v
  {
  }

  /** `generateTransition`: the trimmed reply with every quote mark removed; a fixed phrase on error. */
  function GenerateTransition(reply: Option<string>): (r: string)
    ensures '"' !in r && '\'' !in r
    ensures reply.None? ==> r == "Thanks for sharing."
    ensures reply.Some? ==> |r| <= |reply.value|
    ensures reply.Some? ==> forall c :: c != '"' && c != '\'' ==> multiset(r)[c] == multiset(Trim(reply.value))[c]
  {
    match reply
    case None => "Thanks for sharing."
    case Some(text) => RemoveChars(Trim(text), {'"', '\''})
  }

  /** A reply free of quotes that neither starts nor ends with whitespace comes through unchanged. */
  lemma TransitionKeepsCleanReply(text: string)
    requires '"' !in text && '\'' !in text
    requires text == [] || (!IsSpace(text[0]) && !IsSpace(text[|text| - 1]))
    ensures GenerateTransition(Some(text)) == text
  {
    TrimOfTrimmed(text);
  }

  /** Whitespace around the reply is dropped and the quote marks inside it are removed, the rest kept in order. */
  lemma TransitionStripsPaddingAndQuotes(pre: string, core: string, post: string)
    requires forall k :: 0 <= k < |pre| ==> IsSpace(pre[k])
    requires forall k :: 0 <= k < |post| ==> IsSpace(post[k])
    requires core == [] || (!IsSpace(core[0]) && !IsSpace(core[|core| - 1]))
    ensures GenerateTransition(Some(pre + core + post)) == RemoveChars(core, {'"', '\''})
  {
    TrimOfPadded(pre, core, post);
  }
}

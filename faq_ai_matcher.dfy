/**
 * How the AI FAQ matcher reads the model's reply: `none` declines, a first line
 * `CONTEXT` answers from background material, `MATCH:n` / `PARTIAL:n` (or a bare
 * number) picks FAQ n, and an optional second line `NATURAL:` carries the spoken
 * version of the answer.
 *
 * The model's reply and the reply to the follow-up decline request are parameters
 * (`None` when the call fails).
 */
module FaqAiMatcher {
  import opened Wrappers
  import opened Text
  import opened Numbers
  import opened FaqData

  datatype Confidence = High | Medium

  datatype MatchResult =
    | FaqMatch(question: string, answer: string, naturalAnswer: string, category: string, confidence: Confidence)
    | NoMatch(response: string)
    | Failed

  const DefaultDecline: string := "I don't have information about that."
  const ContextCategory: string := "About Dr. Huberman"
  const NaturalPrefix: string := "NATURAL:"

  /** `generateNaturalDecline`: the model's decline, or the stock sentence when it is empty or the call fails. */
  function DeclineText(declineReply: Option<string>): (r: string)
    ensures r != ""
    ensures declineReply.Some? && declineReply.value != "" ==> r == declineReply.value
    ensures declineReply.None? || declineReply.value == "" ==> r == DefaultDecline
  {
    if declineReply.Some? && declineReply.value != "" then declineReply.value else DefaultDecline
  }

  /**
   * The spoken answer carried by the second line: the text after a leading
   * `NATURAL:` in any case, trimmed; empty when the line does not start so.
   */
  function NaturalFrom(naturalLine: string): (r: string)
    ensures |r| <= |naturalLine|
    ensures !StartsWith(UpperStr(naturalLine), NaturalPrefix) ==> r == ""
    ensures StartsWith(UpperStr(naturalLine), NaturalPrefix) ==> r == Trim(naturalLine[|NaturalPrefix|..])
  {
    if StartsWith(UpperStr(naturalLine), NaturalPrefix) then Trim(naturalLine[|NaturalPrefix|..]) else ""
  }

  /**
   * The text holding the FAQ number, and the confidence it carries: what follows
   * `MATCH:` (high) or `PARTIAL:` (medium) on the upper-cased first line,
   * trimmed; otherwise the whole reply (high).
   */
  function NumberText(response: string, matchLine: string): (string, Confidence) {
    if StartsWith(matchLine, "MATCH:") then (Trim(matchLine[6..]), High)
    else if StartsWith(matchLine, "PARTIAL:") then (Trim(matchLine[8..]), Medium)
    else (response, High)
  }

  /** The first line of the reply, upper-cased. */
  function MatchLine(response: string): string {
    UpperStr(Split(response, '\n')[0])
  }

  /** The second line of the reply, or empty. */
  function NaturalLine(response: string): string {
    var lines := Split(response, '\n');
    if |lines| > 1 then lines[1] else ""
  }

  /** The result for a valid or invalid FAQ number, with the spoken answer falling back to the FAQ's own. */
  function NumberedMatch(cats: seq<Category>, n: Option<int>, confidence: Confidence, natural: string): (r: MatchResult)
    ensures r.FaqMatch? || r == Failed
    ensures r.FaqMatch? <==> n.Some? && 1 <= n.value <= |Entries(cats)|
  {
    if n.None? then Failed
    else match FaqNumbered(cats, n.value)
      case None => Failed
      case Some(e) => FaqMatch(e.question, e.answer, if natural != "" then natural else e.answer, e.category, confidence)
  }

  /** The reply text read as the matcher reads it. */
  function ReadReply(cats: seq<Category>, userQuestion: string, response: string, declineReply: Option<string>): MatchResult {
    if LowerStr(response) == "none" then NoMatch(DeclineText(declineReply))
    else
      var matchLine := MatchLine(response);
      var natural := NaturalFrom(NaturalLine(response));
      if matchLine == "CONTEXT" then FaqMatch(userQuestion, natural, natural, ContextCategory, High)
      else
        var (text, confidence) := NumberText(response, matchLine);
        NumberedMatch(cats, ParseInt(text), confidence, natural)
  }

  /** `matchFAQWithAI` after the model call; a failed call gives no result. */
  function MatchFaq(cats: seq<Category>, userQuestion: string, reply: Option<string>, declineReply: Option<string>): (r: MatchResult)
    ensures r.NoMatch? <==> reply.Some? && LowerStr(reply.value) == "none"
    ensures r.NoMatch? ==> r.response == DeclineText(declineReply)
    ensures reply.None? ==> r == Failed
    ensures r.FaqMatch? && r.category != ContextCategory ==> r.naturalAnswer != "" || r.answer == ""
  {
    match reply
    case None => Failed
    case Some(response) => ReadReply(cats, userQuestion, response, declineReply)
  }

  // ---------------------------------------------------------------------------
  // Properties
  // ---------------------------------------------------------------------------

  /** A `CONTEXT` first line answers the user's own question, whatever the number check would say. */
  lemma ContextAnswersFromBackground(cats: seq<Category>, userQuestion: string, response: string, declineReply: Option<string>)
    requires LowerStr(response) != "none" && MatchLine(response) == "CONTEXT"
    ensures var r := MatchFaq(cats, userQuestion, Some(response), declineReply);
      r.FaqMatch? && r.question == userQuestion && r.category == ContextCategory && r.confidence == High &&
      r.answer == r.naturalAnswer == NaturalFrom(NaturalLine(response))
  {
  }

  /**
   * Every other match is the FAQ with the number the reply names, in 1..N, and
   * its confidence is medium exactly when the first line starts with `PARTIAL:`.
   */
  lemma MatchIsNumberedFaq(cats: seq<Category>, userQuestion: string, response: string, declineReply: Option<string>)
    requires MatchLine(response) != "CONTEXT"
    requires MatchFaq(cats, userQuestion, Some(response), declineReply).FaqMatch?
    ensures var r := MatchFaq(cats, userQuestion, Some(response), declineReply);
      var n := ParseInt(NumberText(response, MatchLine(response)).0);
      n.Some? && 1 <= n.value <= |Entries(cats)| &&
      var e := Entries(cats)[n.value - 1];
      r.question == e.question && r.answer == e.answer && r.category == e.category &&
      (r.confidence == Medium <==> !StartsWith(MatchLine(response), "MATCH:") && StartsWith(MatchLine(response), "PARTIAL:"))
  {
    var ml := MatchLine(response);
    var (text, confidence) := NumberText(response, ml);
    var n := ParseInt(text);
    var natural := NaturalFrom(NaturalLine(response));
    assert LowerStr(response) != "none";
    assert MatchFaq(cats, userQuestion, Some(response), declineReply) == NumberedMatch(cats, n, confidence, natural);
  }

  /** A number that does not parse, or names no FAQ, gives no result at all (not a decline). */
  lemma BadNumberFails(cats: seq<Category>, userQuestion: string, response: string, declineReply: Option<string>)
    requires LowerStr(response) != "none" && MatchLine(response) != "CONTEXT"
    requires var n := ParseInt(NumberText(response, MatchLine(response)).0);
      n.None? || n.value < 1 || n.value > |Entries(cats)|
    ensures MatchFaq(cats, userQuestion, Some(response), declineReply) == Failed
  {
  }

  /** Without a usable `NATURAL:` line the FAQ's own answer is spoken. */
  lemma NaturalFallsBackToAnswer(cats: seq<Category>, userQuestion: string, response: string, declineReply: Option<string>)
    requires MatchLine(response) != "CONTEXT" && NaturalFrom(NaturalLine(response)) == ""
    requires MatchFaq(cats, userQuestion, Some(response), declineReply).FaqMatch?
    ensures var r := MatchFaq(cats, userQuestion, Some(response), declineReply);
      r.naturalAnswer == r.answer
  {
  }

  lemma UpperOfUpper(s: string)
    requires forall k :: 0 <= k < |s| ==> !IsAsciiLower(s[k])
    ensures UpperStr(s) == s
  {
  }

  /** A first line `MATCH:n` with a usable natural line picks FAQ n with high confidence. */
  lemma MatchLineChoosesFaq(cats: seq<Category>, userQuestion: string, response: string, declineReply: Option<string>, n: int, natural: string)
    requires LowerStr(response) != "none"
    requires StartsWith(MatchLine(response), "MATCH:") && ParseInt(Trim(MatchLine(response)[6..])) == Some(n)
    requires 1 <= n <= |Entries(cats)|
    requires NaturalFrom(NaturalLine(response)) == natural && natural != ""
    ensures var e := Entries(cats)[n - 1];
      MatchFaq(cats, userQuestion, Some(response), declineReply) == FaqMatch(e.question, e.answer, natural, e.category, High)
  {
    MatchPrefixNumber(response, MatchLine(response));
    ReadsAsNumber(cats, userQuestion, response, declineReply, Trim(MatchLine(response)[6..]), High, natural);
    ValidNumberMatches(cats, n, High, natural);
  }

  lemma MatchPrefixNumber(response: string, matchLine: string)
    requires StartsWith(matchLine, "MATCH:")
    ensures matchLine != "CONTEXT"
    ensures NumberText(response, matchLine) == (Trim(matchLine[6..]), High)
  {
    assert matchLine[0] == matchLine[..6][0] == 'M';
  }

  lemma ReadsAsNumber(cats: seq<Category>, userQuestion: string, response: string, declineReply: Option<string>,
                      text: string, confidence: Confidence, natural: string)
    requires LowerStr(response) != "none" && MatchLine(response) != "CONTEXT"
    requires NumberText(response, MatchLine(response)) == (text, confidence)
    requires NaturalFrom(NaturalLine(response)) == natural
    ensures MatchFaq(cats, userQuestion, Some(response), declineReply) == NumberedMatch(cats, ParseInt(text), confidence, natural)
  {
  }

  lemma ValidNumberMatches(cats: seq<Category>, n: int, confidence: Confidence, natural: string)
    requires 1 <= n <= |Entries(cats)| && natural != ""
    ensures var e := Entries(cats)[n - 1];
      NumberedMatch(cats, Some(n), confidence, natural) == FaqMatch(e.question, e.answer, natural, e.category, confidence)
  {
  }

  /** Upper-casing keeps a prefix that has no lower-case letters. */
  lemma UpperKeepsPrefix(s: string, p: string)
    requires StartsWith(s, p)
    requires forall k :: 0 <= k < |p| ==> !IsAsciiLower(p[k])
    ensures StartsWith(UpperStr(s), p)
  {
    assert forall k :: 0 <= k < |p| ==> UpperStr(s)[k] == Upper(s[k]) == p[k];
    assert UpperStr(s)[..|p|] == p;
  }

  /** `MATCH:2` with a natural line picks the second FAQ with high confidence and speaks the natural line. */
  lemma MatchTwoExample(cats: seq<Category>, userQuestion: string, response: string, declineReply: Option<string>)
    requires |Entries(cats)| >= 2
    requires response == "MATCH:2\nNATURAL: Sure."
    ensures var e := Entries(cats)[1];
      MatchFaq(cats, userQuestion, Some(response), declineReply) == FaqMatch(e.question, e.answer, "Sure.", e.category, High)
  {
    ExampleReply(response);
    MatchLineChoosesFaq(cats, userQuestion, response, declineReply, 2, "Sure.");
  }

  /** How the reply `MATCH:2` / `NATURAL: Sure.` reads: not a decline, FAQ number 2, natural text "Sure.". */
  lemma ExampleReply(response: string)
    requires response == "MATCH:2\nNATURAL: Sure."
    ensures LowerStr(response) != "none"
    ensures StartsWith(MatchLine(response), "MATCH:") && ParseInt(Trim(MatchLine(response)[6..])) == Some(2)
    ensures NaturalFrom(NaturalLine(response)) == "Sure."
  {
    assert response == "MATCH:2" + ['\n'] + "NATURAL: Sure.";
    ExampleLines(response, "MATCH:2", "NATURAL: Sure.");
    var first := MatchLine(response);
    assert StartsWith(first, "MATCH:") by {
      assert first[..6] == "MATCH:";
    }
    assert first[6..] == "2";
    ParseTwo(first[6..]);
    NaturalSure(NaturalLine(response));
  }

  lemma ExampleLines(response: string, first: string, second: string)
    requires first == "MATCH:2" && second == "NATURAL: Sure."
    requires response == first + ['\n'] + second
    ensures MatchLine(response) == first && NaturalLine(response) == second
    ensures LowerStr(response) != "none"
  {
    SplitTwoLines(response, first, second);
    UpperOfUpper(first);
    assert |LowerStr(response)| != |"none"|;
  }

  lemma ParseTwo(t: string)
    requires t == "2"
    ensures ParseInt(Trim(t)) == Some(2)
  {
    TrimOfNoSpace(t);
    ParseIntOfDigits(t);
    assert DigitsValue(t) == 2 by {
      assert t[..0] == [];
    }
  }

  lemma NaturalSure(line: string)
    requires line == "NATURAL: Sure."
    ensures NaturalFrom(line) == "Sure."
  {
    assert StartsWith(line, NaturalPrefix) by {
      assert line[..8] == NaturalPrefix;
    }
    UpperKeepsPrefix(line, NaturalPrefix);
    assert line[8..] == " Sure.";
    TrimSure(" Sure.");
  }

  lemma TrimSure(t: string)
    requires t == " Sure."
    ensures Trim(t) == "Sure."
  {
    assert IsSpace(t[0]) && !IsSpace(t[1]);
    assert SpaceEnd(t, 1) == 1;
    assert SpaceEnd(t, 0) == 1;
    assert TrimStart(t) == t[1..];
    TrimOfTrimmed(t[1..]);
    assert t[1..] == "Sure.";
  }

  /** A reply of two lines with no other newline splits into exactly those two lines. */
  lemma SplitTwoLines(s: string, first: string, second: string)
    requires '\n' !in first && '\n' !in second
    requires s == first + ['\n'] + second
    ensures Split(s, '\n') == [first, second]
  {
    var parts := Split(s, '\n');
    JoinSplitsUniquely(parts, [first, second], s);
  }

  lemma JoinSplitsUniquely(parts: seq<string>, other: seq<string>, s: string)
    requires |parts| >= 1 && |other| >= 1
    requires forall k :: 0 <= k < |parts| ==> '\n' !in parts[k]
    requires forall k :: 0 <= k < |other| ==> '\n' !in other[k]
    requires Join(parts, '\n') == s && Join(other, '\n') == s
    ensures parts == other
    decreases |s|
  {
    JoinUnique(parts, other, '\n');
  }

  /** `Join` is injective on parts free of the separator. */
  lemma {:induction false} JoinUnique(a: seq<string>, b: seq<string>, sep: char)
    requires |a| >= 1 && |b| >= 1
    requires forall k :: 0 <= k < |a| ==> sep !in a[k]
    requires forall k :: 0 <= k < |b| ==> sep !in b[k]
    requires Join(a, sep) == Join(b, sep)
    ensures a == b
    decreases |a|
  {
    var s := Join(a, sep);
    if |a| == 1 {
      assert Join(a, sep) == a[0];
      if |b| > 1 {
        assert false;
      }
      assert Join(b, sep) == b[0];
    } else {
      assert Join(a, sep) == a[0] + [sep] + Join(a[1..], sep);
      if |b| == 1 {
        assert false;
      }
      assert Join(b, sep) == b[0] + [sep] + Join(b[1..], sep);
      HeadPartsEqual(a[0], Join(a[1..], sep), b[0], Join(b[1..], sep), sep);
      JoinUnique(a[1..], b[1..], sep);
      assert a == [a[0]] + a[1..] && b == [b[0]] + b[1..];
    }
  }

  lemma HeadPartsEqual(x: string, xs: string, y: string, ys: string, sep: char)
    requires sep !in x && sep !in y
    requires x + [sep] + xs == y + [sep] + ys
    ensures x == y && xs == ys
  {
    var s := x + [sep] + xs;
    if |x| < |y| {
      SeparatorAt(x, xs, sep);
      assert false;
    } else if |y| < |x| {
      SeparatorAt(y, ys, sep);
      assert false;
    }
    assert x == s[..|x|] == y;
    assert xs == s[|x| + 1..] == ys;
  }

  lemma SeparatorAt(x: string, xs: string, sep: char)
    ensures (x + [sep] + xs)[|x|] == sep
  {
  }


  /** The word `none` alone declines in any case, with the model's decline or the stock one. */
  lemma NoneInAnyCaseDeclines(cats: seq<Category>, userQuestion: string, response: string)
    requires response == "NoNe"
    ensures MatchFaq(cats, userQuestion, Some(response), None) == NoMatch(DefaultDecline)
    ensures MatchFaq(cats, userQuestion, Some(response), Some("")) == NoMatch(DefaultDecline)
  {
    assert LowerStr(response) == "none";
  }
}

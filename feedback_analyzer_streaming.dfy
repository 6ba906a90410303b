/**
 * The streaming feedback analyzer's reply parser: the model is asked to answer
 * `SENTIMENT: <number>` and `TRANSITION: <phrase>` on two lines, and one parse of
 * the finished text yields both the clamped sentiment and the transition phrase,
 * with a sentiment-dependent fallback phrase. Also the stand-alone
 * `analyzeSentimentFast`.
 */
module FeedbackAnalyzerStreaming {
  import opened Wrappers
  import opened Text
  import opened Numbers

  const SentimentMarker: string := "SENTIMENT:"
  const TransitionMarker: string := "TRANSITION:"

  // ---------------------------------------------------------------------------
  // SENTIMENT:\s*(-?\d+\.?\d*)
  // ---------------------------------------------------------------------------

  /** End of `-?\d+\.?\d*` matched from index `w` (every part greedy), or `None`. */
  function SignedNumberEnd(s: string, w: nat): (r: Option<nat>)
    requires w <= |s|
    ensures r.Some? ==> w < r.value <= |s|
    ensures r.Some? <==> (w < |s| && IsDigit(s[w])) || (w + 1 < |s| && s[w] == '-' && IsDigit(s[w + 1]))
  {
    var a := if w < |s| && s[w] == '-' then w + 1 else w;
    if a < |s| && IsDigit(s[a]) then
      var d := DigitsEnd(s, a);
      Some(if d < |s| && s[d] == '.' then DigitsEnd(s, d + 1) else d)
    else None
  }

  /**
   * The number captured when the pattern is tried at index `i`. `\s*` is greedy
   * and a whitespace character cannot start the number, so only the full
   * whitespace run needs trying.
   */
  function SentimentCaptureAt(s: string, i: nat): (r: Option<string>)
    requires i <= |s|
    ensures r.Some? ==> OccursAt(s, SentimentMarker, i) && r.value != []
    ensures r.Some? ==> IsDigit(r.value[0]) || (r.value[0] == '-' && |r.value| > 1 && IsDigit(r.value[1]))
  {
    if !OccursAt(s, SentimentMarker, i) then None
    else
      var w := SpaceEnd(s, i + |SentimentMarker|);
      match SignedNumberEnd(s, w)
      case Some(e) => Some(s[w..e])
      case None => None
  }

  /** The leftmost index at or after `i` where the sentiment pattern matches. */
  function FirstSentimentAt(s: string, i: nat): (r: Option<nat>)
    requires i <= |s|
    ensures r.Some? ==> i <= r.value <= |s| && SentimentCaptureAt(s, r.value).Some?
    ensures r.Some? ==> forall j :: i <= j < r.value ==> SentimentCaptureAt(s, j).None?
    ensures r.None? ==> forall j :: i <= j <= |s| ==> SentimentCaptureAt(s, j).None?
    decreases |s| - i
  {
    if SentimentCaptureAt(s, i).Some? then Some(i)
    else if i == |s| then None
    else FirstSentimentAt(s, i + 1)
  }

  // ---------------------------------------------------------------------------
  // TRANSITION:\s*(.+)
  // ---------------------------------------------------------------------------

  /** Index of the first line terminator at or after `p` (`.` stops there), or `|s|`. */
  function LineEnd(s: string, p: nat): (r: nat)
    requires p <= |s|
    ensures p <= r <= |s|
    ensures forall k :: p <= k < r ==> !IsLineTerminator(s[k])
    ensures r < |s| ==> IsLineTerminator(s[r])
    decreases |s| - p
  {
    if p == |s| || IsLineTerminator(s[p]) then p else LineEnd(s, p + 1)
  }

  /** The last index in `[j, w)` that is not a line terminator, if any. */
  function LastNonTerminator(s: string, j: nat, w: nat): (r: Option<nat>)
    requires j <= w <= |s|
    ensures r.Some? ==> j <= r.value < w && !IsLineTerminator(s[r.value])
    ensures r.Some? ==> forall k :: r.value < k < w ==> IsLineTerminator(s[k])
    ensures r.None? ==> forall k :: j <= k < w ==> IsLineTerminator(s[k])
    decreases w - j
  {
    if w == j then None
    else if !IsLineTerminator(s[w - 1]) then Some(w - 1)
    else LastNonTerminator(s, j, w - 1)
  }

  /**
   * The phrase captured when the pattern is tried at index `i`. After the
   * whitespace run, `.+` takes the rest of the line; when the run is followed by
   * the end of the line, the regex backtracks and `.+` takes the last
   * whitespace character of the run that is not a line terminator. When there
   * is none, the pattern fails here.
   */
  function TransitionCaptureAt(s: string, i: nat): (r: Option<string>)
    requires i <= |s|
    ensures r.Some? ==> OccursAt(s, TransitionMarker, i) && r.value != []
    ensures r.Some? ==> forall k :: 0 <= k < |r.value| ==> !IsLineTerminator(r.value[k])
  {
    if !OccursAt(s, TransitionMarker, i) then None
    else
      var j := i + |TransitionMarker|;
      var w := SpaceEnd(s, j);
      if w < |s| && !IsLineTerminator(s[w]) then Some(s[w..LineEnd(s, w)])
      else match LastNonTerminator(s, j, w)
        case Some(p) => Some([s[p]])
        case None => None
  }

  /** The leftmost index at or after `i` where the transition pattern matches. */
  function FirstTransitionAt(s: string, i: nat): (r: Option<nat>)
    requires i <= |s|
    ensures r.Some? ==> i <= r.value <= |s| && TransitionCaptureAt(s, r.value).Some?
    ensures r.Some? ==> forall j :: i <= j < r.value ==> TransitionCaptureAt(s, j).None?
    ensures r.None? ==> forall j :: i <= j <= |s| ==> TransitionCaptureAt(s, j).None?
    decreases |s| - i
  {
    if TransitionCaptureAt(s, i).Some? then Some(i)
    else if i == |s| then None
    else FirstTransitionAt(s, i + 1)
  }

  // ---------------------------------------------------------------------------
  // The shared parse
  // ---------------------------------------------------------------------------

  datatype Parsed = Parsed(sentiment: real, transition: string)

  /** The phrase used when the reply carries no usable transition. */
  function FallbackTransition(sentiment: real): (r: string)
    ensures sentiment > 0.3 ==> r == "That's great!"
    ensures sentiment < -0.3 ==> r == "I understand."
    ensures -0.3 <= sentiment <= 0.3 ==> r == "Thanks for sharing."
  {
    if sentiment > 0.3 then "That's great!"
    else if sentiment < -0.3 then "I understand."
    else "Thanks for sharing."
  }

  /** The captured phrase, trimmed and with every quote mark removed; empty when there is none. */
  function CleanTransition(text: string): (r: string)
    ensures '"' !in r && '\'' !in r
  {
    match FirstTransitionAt(text, 0)
    case Some(i) => RemoveChars(Trim(TransitionCaptureAt(text, i).value), {'"', '\''})
    case None => []
  }

  /** The sentiment read from the first matching `SENTIMENT:` field, clamped; 0 when there is none. */
  function ParsedSentiment(text: string): (r: real)
    ensures -1.0 <= r <= 1.0
    ensures FirstSentimentAt(text, 0).None? ==> r == 0.0
  {
    match FirstSentimentAt(text, 0)
    case Some(i) => ReadSentiment(SentimentCaptureAt(text, i).value)
    case None => 0.0
  }

  /**
   * The `.then` callback of `streamSentimentAndTransition`: both results come from
   * the same finished text. The transition is never empty.
   */
  function ParseReply(text: string): (r: Parsed)
    ensures -1.0 <= r.sentiment <= 1.0
    ensures r.transition != []
    ensures r.sentiment == ParsedSentiment(text)
    ensures CleanTransition(text) != [] ==> r.transition == CleanTransition(text)
    ensures CleanTransition(text) == [] ==> r.transition == FallbackTransition(r.sentiment)
  {
    var sentiment := ParsedSentiment(text);
    var cleaned := CleanTransition(text);
    Parsed(sentiment, if cleaned == [] then FallbackTransition(sentiment) else cleaned)
  }

  /** `analyzeSentimentFast`: the whole trimmed reply read by `parseFloat`, clamped; 0 when unreadable. */
  function AnalyzeSentimentFast(reply: string): (r: real)
    ensures -1.0 <= r <= 1.0
    ensures ParseFloat(Trim(reply)).None? ==> r == 0.0
  {
    ReadSentiment(Trim(reply))
  }

  // ---------------------------------------------------------------------------
  // Properties
  // ---------------------------------------------------------------------------

  /** A number the sentiment pattern captures whole: `-?\d+` then optionally `.` and more digits. */
  predicate SentimentNumeral(sign: string, ip: string, dotfp: string) {
    (sign == "" || sign == "-") && ip != [] && AllDigits(ip) &&
    (dotfp == "" || (dotfp[0] == '.' && AllDigits(dotfp[1..])))
  }

  /**
   * A reply in exactly the requested two-line format parses back to its parts:
   * the sentiment is what `analyzeSentimentFast` reads from the number alone, and
   * the transition is the phrase.
   */
  lemma {:induction false} RequestedFormatParses(text: string, sign: string, ip: string, dotfp: string, phrase: string)
    requires SentimentNumeral(sign, ip, dotfp)
    requires phrase != [] && !IsSpace(phrase[0]) && !IsSpace(phrase[|phrase| - 1])
    requires forall k :: 0 <= k < |phrase| ==> !IsLineTerminator(phrase[k])
    requires '"' !in phrase && '\'' !in phrase
    requires text == "SENTIMENT: " + (sign + ip + dotfp) + ("\nTRANSITION: " + phrase)
    ensures ParseReply(text) == Parsed(AnalyzeSentimentFast(sign + ip + dotfp), phrase)
  {
    var num := sign + ip + dotfp;
    var first := "SENTIMENT: " + num;
    SentimentFieldParses(text, sign, ip, dotfp, "\nTRANSITION: " + phrase);
    NoRInFirstLine(sign, ip, dotfp);
    assert text == first + "\nTRANSITION: " + phrase;
    TransitionFieldParses(text, first, phrase);
    TrimOfTrimmed(phrase);
    assert CleanTransition(text) == phrase;
  }

  lemma NoRInFirstLine(sign: string, ip: string, dotfp: string)
    requires SentimentNumeral(sign, ip, dotfp)
    ensures 'R' !in "SENTIMENT: " + (sign + ip + dotfp)
  {
    var first := "SENTIMENT: " + (sign + ip + dotfp);
    forall k | 0 <= k < |first|
      ensures first[k] != 'R'
    {
      if k < 11 {
        assert first[k] == "SENTIMENT: "[k];
      } else if k < 11 + |sign| {
        assert first[k] == sign[k - 11];
      } else if k < 11 + |sign| + |ip| {
        assert first[k] == ip[k - 11 - |sign|];
      } else if k > 11 + |sign| + |ip| {
        assert first[k] == dotfp[1..][k - 12 - |sign| - |ip|];
      }
    }
  }

  /** The sentiment half of `RequestedFormatParses`. */
  lemma {:induction false} SentimentFieldParses(s: string, sign: string, ip: string, dotfp: string, rest: string)
    requires SentimentNumeral(sign, ip, dotfp)
    requires rest != [] && rest[0] == '\n'
    requires s == "SENTIMENT: " + (sign + ip + dotfp) + rest
    ensures ParsedSentiment(s) == AnalyzeSentimentFast(sign + ip + dotfp)
  {
    var num := sign + ip + dotfp;
    SentimentCaptureOfField(s, sign, ip, dotfp, rest);
    assert FirstSentimentAt(s, 0) == Some(0);
    NumeralIsTrimmed(sign, ip, dotfp);
  }

  lemma NumeralIsTrimmed(sign: string, ip: string, dotfp: string)
    requires SentimentNumeral(sign, ip, dotfp)
    ensures Trim(sign + ip + dotfp) == sign + ip + dotfp
  {
    var num := sign + ip + dotfp;
    assert !IsSpace(num[0]);
    assert !IsSpace(num[|num| - 1]) by {
      if dotfp == "" {
        assert num[|num| - 1] == ip[|ip| - 1];
      } else if |dotfp| > 1 {
        assert num[|num| - 1] == dotfp[1..][|dotfp| - 2];
      }
    }
    TrimOfTrimmed(num);
  }

  lemma {:induction false} SentimentCaptureOfField(s: string, sign: string, ip: string, dotfp: string, rest: string)
    requires SentimentNumeral(sign, ip, dotfp)
    requires rest != [] && rest[0] == '\n'
    requires s == "SENTIMENT: " + (sign + ip + dotfp) + rest
    ensures SentimentCaptureAt(s, 0) == Some(sign + ip + dotfp)
  {
    var head := "SENTIMENT: ";
    var num := sign + ip + dotfp;
    assert s == head + num + rest;
    SentimentCaptureAfterHead(s, head, sign, ip, dotfp, rest);
  }

  lemma {:induction false} SentimentCaptureAfterHead(s: string, head: string, sign: string, ip: string, dotfp: string, rest: string)
    requires SentimentNumeral(sign, ip, dotfp)
    requires |head| == 11 && head[..10] == SentimentMarker && head[10] == ' '
    requires rest != [] && rest[0] == '\n'
    requires s == head + (sign + ip + dotfp) + rest
    ensures SentimentCaptureAt(s, 0) == Some(sign + ip + dotfp)
  {
    var num := sign + ip + dotfp;
    var e := 11 + |num|;
    assert s[..10] == SentimentMarker;
    assert s[10] == ' ';
    assert s[11] == num[0];
    SpaceEndSkipsTo(s, 10, 11);
    assert s[11..e] == num;
    assert s[e] == '\n';
    NumberEndsAtNewline(s, 11, num, sign, ip, dotfp);
  }

  /** A number written at `w` and followed by a line break is matched exactly, up to the break. */
  lemma {:induction false} NumberEndsAtNewline(s: string, w: nat, num: string, sign: string, ip: string, dotfp: string)
    requires SentimentNumeral(sign, ip, dotfp) && num == sign + ip + dotfp
    requires w + |num| < |s| && s[w + |num|] == '\n'
    requires forall k :: 0 <= k < |num| ==> s[w + k] == num[k]
    ensures SignedNumberEnd(s, w) == Some(w + |num|)
  {
    var a := w + |sign|;
    var d := a + |ip|;
    var e := w + |num|;
    forall k | a <= k < d
      ensures IsDigit(s[k])
    {
      assert s[k] == num[k - w] == ip[k - a];
    }
    assert s[w] == num[0];
    if dotfp != "" {
      assert s[d..e] == dotfp by {
        forall k | 0 <= k < |dotfp|
          ensures s[d..e][k] == dotfp[k]
        {
          assert s[d + k] == num[d + k - w];
        }
      }
    }
    DigitsEndStop(s, a, d, e, ip, dotfp);
  }

  /** The digit runs of the number end where the number does. */
  lemma {:induction false} DigitsEndStop(s: string, a: nat, d: nat, e: nat, ip: string, dotfp: string)
    requires a <= d <= e < |s| && s[e] == '\n'
    requires d - a == |ip| && e - d == |dotfp| && AllDigits(ip)
    requires dotfp == "" || (dotfp[0] == '.' && AllDigits(dotfp[1..]))
    requires forall k :: a <= k < d ==> IsDigit(s[k])
    requires dotfp != "" ==> s[d..e] == dotfp
    ensures DigitsEnd(s, a) == d
    ensures dotfp != "" ==> s[d] == '.' && DigitsEnd(s, d + 1) == e
  {
    if dotfp == "" {
      DigitsEndIs(s, a, d);
    } else {
      assert s[d] == s[d..e][0] == '.';
      DigitsEndIs(s, a, d);
      forall k | d + 1 <= k < e
        ensures IsDigit(s[k])
      {
        assert s[k] == s[d..e][k - d] == dotfp[1..][k - d - 1];
      }
      DigitsEndIs(s, d + 1, e);
    }
  }

  /** The transition half of `RequestedFormatParses`. */
  lemma {:induction false} TransitionFieldParses(s: string, first: string, phrase: string)
    requires 'R' !in first
    requires phrase != [] && !IsSpace(phrase[0])
    requires forall k :: 0 <= k < |phrase| ==> !IsLineTerminator(phrase[k])
    requires s == first + "\nTRANSITION: " + phrase
    ensures CleanTransition(s) == RemoveChars(Trim(phrase), {'"', '\''})
  {
    var mid := "\nTRANSITION: ";
    assert mid[1..12] == TransitionMarker;
    TransitionAfterMid(s, first, mid, phrase);
  }

  lemma {:induction false} TransitionAfterMid(s: string, first: string, mid: string, phrase: string)
    requires 'R' !in first
    requires |mid| == 13 && mid[0] == '\n' && mid[1..12] == TransitionMarker && mid[12] == ' '
    requires phrase != [] && !IsSpace(phrase[0])
    requires forall k :: 0 <= k < |phrase| ==> !IsLineTerminator(phrase[k])
    requires s == first + mid + phrase
    ensures CleanTransition(s) == RemoveChars(Trim(phrase), {'"', '\''})
  {
    var q := |first| + 1;
    NoTransitionInFirstLine(s, first, |first| + |mid| + |phrase|);
    assert s[q..q + 11] == TransitionMarker by {
      assert s[q..q + 11] == mid[1..12];
    }
    assert OccursAt(s, TransitionMarker, q);
    var w := q + 12;
    assert s[q + 11] == ' ' && s[w] == phrase[0];
    SpaceEndSkipsTo(s, q + 11, w);
    assert s[w..] == phrase;
    assert !IsLineTerminator(s[w]);
    LineEndAtEnd(s, w);
    assert s[w..LineEnd(s, w)] == phrase;
    assert TransitionCaptureAt(s, q) == Some(phrase);
    FirstTransitionIs(s, 0, q);
  }

  /** `TRANSITION:` has an `R` in second place, so it cannot start inside a first line without one. */
  lemma {:induction false} NoTransitionInFirstLine(s: string, first: string, n: nat)
    requires 'R' !in first
    requires |s| == n && |first| < n && s[..|first| + 1] == first + "\n"
    ensures forall i :: 0 <= i <= |first| ==> TransitionCaptureAt(s, i).None?
  {
    forall i | 0 <= i <= |first|
      ensures !OccursAt(s, TransitionMarker, i)
    {
      if i + |TransitionMarker| <= |s| {
        if i < |first| {
          assert s[i + 1] == (first + "\n")[i + 1] != 'R';
          assert s[i..i + |TransitionMarker|][1] == s[i + 1];
        } else {
          assert s[i] == '\n';
          assert s[i..i + |TransitionMarker|][0] == s[i];
        }
      }
    }
  }

  lemma {:induction false} LineEndAtEnd(s: string, p: nat)
    requires p <= |s|
    requires forall k :: p <= k < |s| ==> !IsLineTerminator(s[k])
    ensures LineEnd(s, p) == |s|
    decreases |s| - p
  {
    if p < |s| {
      LineEndAtEnd(s, p + 1);
    }
  }

  lemma {:induction false} FirstTransitionIs(s: string, i: nat, q: nat)
    requires i <= q <= |s|
    requires forall j :: i <= j < q ==> TransitionCaptureAt(s, j).None?
    requires TransitionCaptureAt(s, q).Some?
    ensures FirstTransitionAt(s, i) == Some(q)
    decreases q - i
  {
    if i < q {
      FirstTransitionIs(s, i + 1, q);
    }
  }

  /**
   * The pattern `-?\d+\.?\d*` needs a digit before any dot, so "SENTIMENT: .5"
   * reads as no sentiment at all: 0, and the neutral fallback phrase.
   */
  lemma BareFractionReadsZero(text: string)
    requires text == "SENTIMENT: .5"
    ensures ParseReply(text) == Parsed(0.0, "Thanks for sharing.")
  {
    assert SpaceEnd(text, 11) == 11;
    assert SpaceEnd(text, 10) == 11;
    assert SignedNumberEnd(text, 11).None?;
    forall j | 0 <= j <= |text|
      ensures SentimentCaptureAt(text, j).None?
    {
      if 0 < j && j + |SentimentMarker| <= |text| {
        assert text[j..j + |SentimentMarker|][9] == text[j + 9] != ':';
      }
    }
    NoSentimentFrom(text, 0);
    forall j | 0 <= j <= |text|
      ensures TransitionCaptureAt(text, j).None?
    {
      if j + |TransitionMarker| <= |text| {
        assert text[j..j + |TransitionMarker|][1] == text[j + 1] != 'R';
      }
    }
    NoTransitionFrom(text, 0);
  }

  lemma {:induction false} NoSentimentFrom(s: string, i: nat)
    requires i <= |s|
    requires forall j :: i <= j <= |s| ==> SentimentCaptureAt(s, j).None?
    ensures FirstSentimentAt(s, i).None?
    decreases |s| - i
  {
    if i < |s| {
      NoSentimentFrom(s, i + 1);
    }
  }

  lemma {:induction false} NoTransitionFrom(s: string, i: nat)
    requires i <= |s|
    requires forall j :: i <= j <= |s| ==> TransitionCaptureAt(s, j).None?
    ensures FirstTransitionAt(s, i).None?
    decreases |s| - i
  {
    if i < |s| {
      NoTransitionFrom(s, i + 1);
    }
  }

  /**
   * A `TRANSITION:` field that holds only spaces up to the end of the reply:
   * `.+` backtracks into the spaces and captures one, which trims away, so the
   * fallback phrase is used. (`\s*` also crosses line breaks, so a blank field
   * followed by another line would capture that line instead.)
   */
  lemma {:induction false} BlankTransitionFallsBack(first: string, pad: string)
    requires 'R' !in first
    requires pad != [] && forall k :: 0 <= k < |pad| ==> pad[k] == ' '
    ensures CleanTransition(first + "\nTRANSITION:" + pad) == []
  {
    var s := first + "\nTRANSITION:" + pad;
    var q := |first| + 1;
    forall i | 0 <= i < q
      ensures TransitionCaptureAt(s, i).None?
    {
      if i + 1 < q {
        assert s[i + 1] != 'R';
        if i + |TransitionMarker| <= |s| {
          assert s[i..i + |TransitionMarker|][1] == s[i + 1];
        }
      } else {
        assert s[i] == '\n';
        assert s[i..i + |TransitionMarker|][0] == s[i];
      }
    }
    assert forall k :: 0 <= k < 11 ==> s[q + k] == TransitionMarker[k];
    assert OccursAt(s, TransitionMarker, q) by {
      assert s[q..q + |TransitionMarker|] == TransitionMarker;
    }
    var j := q + 11;
    assert forall k :: j <= k < |s| ==> s[k] == pad[k - j];
    SpaceEndSkipsTo(s, j, |s|);
    assert LastNonTerminator(s, j, |s|) == Some(|s| - 1);
    assert TransitionCaptureAt(s, q) == Some([' ']);
    FirstTransitionIs(s, 0, q);
    assert SpaceEnd([' '], 0) == 1;
  }

  /** Over a run of whitespace that ends at `w`, `SpaceEnd` arrives at `w`. */
  lemma {:induction false} SpaceEndSkipsTo(s: string, j: nat, w: nat)
    requires j <= w <= |s|
    requires forall k :: j <= k < w ==> IsSpace(s[k])
    requires w == |s| || !IsSpace(s[w])
    ensures SpaceEnd(s, j) == w
    decreases w - j
  {
    if j < w {
      SpaceEndSkipsTo(s, j + 1, w);
    }
  }
}

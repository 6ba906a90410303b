/**
 * The feedback database helpers: the metrics computed when a survey completes
 * (mean sentiment, duration, completion rate and the recommendation score),
 * and the session row created on first contact.
 *
 * The two tables the helpers touch are fields of a `FeedbackDatabase`; the
 * clock is the parameter `now` (milliseconds).
 */
module FeedbackStorage {
  import opened Wrappers
  import opened Text
  import opened QuestionFlowManager

  // ---------------------------------------------------------------------------
  // Mean sentiment
  // ---------------------------------------------------------------------------

  /** The sentiment scores that are present, in response order. */
  function Sentiments(rs: seq<Response>): (ss: seq<real>)
    ensures |ss| <= |rs|
  {
    if rs == [] then []
    else
      var last := rs[|rs| - 1];
      Sentiments(rs[..|rs| - 1]) + (if last.sentiment.Some? then [last.sentiment.value] else [])
  }

  function Total(ss: seq<real>): real {
    if ss == [] then 0.0 else Total(ss[..|ss| - 1]) + ss[|ss| - 1]
  }

  /** The mean of the present sentiment scores, and 0 when no response has one. */
  function AverageSentiment(rs: seq<Response>): real {
    var ss := Sentiments(rs);
    if |ss| > 0 then Total(ss) / (|ss| as real) else 0.0
  }

  /** Every collected score is the score of some response. */
  lemma {:induction false} SentimentsComeFromResponses(rs: seq<Response>, lo: real, hi: real)
    requires forall k :: 0 <= k < |rs| && rs[k].sentiment.Some? ==> lo <= rs[k].sentiment.value <= hi
    ensures forall j :: 0 <= j < |Sentiments(rs)| ==> lo <= Sentiments(rs)[j] <= hi
  {
    if rs != [] {
      SentimentsComeFromResponses(rs[..|rs| - 1], lo, hi);
    }
  }

  lemma {:induction false} TotalBounds(ss: seq<real>, lo: real, hi: real)
    requires forall j :: 0 <= j < |ss| ==> lo <= ss[j] <= hi
    ensures lo * (|ss| as real) <= Total(ss) <= hi * (|ss| as real)
  {
    if ss != [] {
      TotalBounds(ss[..|ss| - 1], lo, hi);
    }
  }

  lemma QuotientBounds(t: real, n: real, lo: real, hi: real)
    requires n > 0.0 && lo * n <= t <= hi * n
    ensures lo <= t / n <= hi
  {
    assert t / n * n == t;
  }

  lemma MeanOfBounded(ss: seq<real>, lo: real, hi: real)
    requires ss != [] && forall j :: 0 <= j < |ss| ==> lo <= ss[j] <= hi
    ensures lo <= Total(ss) / (|ss| as real) <= hi
  {
    TotalBounds(ss, lo, hi);
    QuotientBounds(Total(ss), |ss| as real, lo, hi);
  }

  /**
   * When every present score lies in [lo, hi] and at least one is present, so
   * does the mean; with none present the mean is 0.
   */
  lemma MeanWithinBounds(rs: seq<Response>, lo: real, hi: real)
    requires forall k :: 0 <= k < |rs| && rs[k].sentiment.Some? ==> lo <= rs[k].sentiment.value <= hi
    ensures Sentiments(rs) != [] ==> lo <= AverageSentiment(rs) <= hi
    ensures Sentiments(rs) == [] ==> AverageSentiment(rs) == 0.0
  {
    if Sentiments(rs) != [] {
      SentimentsComeFromResponses(rs, lo, hi);
      MeanOfBounded(Sentiments(rs), lo, hi);
    }
  }

  /** A response without a score leaves the mean as it was. */
  lemma MeanIgnoresMissing(rs: seq<Response>, r: Response)
    requires r.sentiment.None?
    ensures AverageSentiment(rs + [r]) == AverageSentiment(rs)
  {
    assert (rs + [r])[..|rs|] == rs;
    assert Sentiments(rs + [r]) == Sentiments(rs);
  }

  /** No response carries a score exactly when the mean is taken over nothing. */
  lemma {:induction false} NoScoresIffNoneCollected(rs: seq<Response>)
    ensures Sentiments(rs) == [] <==> forall k :: 0 <= k < |rs| ==> rs[k].sentiment.None?
  {
    if rs != [] {
      var init := rs[..|rs| - 1];
      NoScoresIffNoneCollected(init);
      if rs[|rs| - 1].sentiment.None? {
        assert forall k :: 0 <= k < |init| ==> init[k] == rs[k];
      }
    }
  }

  // ---------------------------------------------------------------------------
  // Recommendation score
  // ---------------------------------------------------------------------------

  /**
   * What one response says about recommending: only a question mentioning
   * "recommend" counts; an answer mentioning "yes" scores 10, otherwise one
   * mentioning "no" scores 0, otherwise nothing.
   */
  function Verdict(r: Response): (v: Option<int>)
    ensures v.Some? ==> Contains(LowerStr(r.questionText), "recommend")
    ensures v == Some(10) <==> Contains(LowerStr(r.questionText), "recommend") && Contains(LowerStr(r.userResponse), "yes")
    ensures v == Some(0) <==>
      Contains(LowerStr(r.questionText), "recommend") && !Contains(LowerStr(r.userResponse), "yes") && Contains(LowerStr(r.userResponse), "no")
    ensures v == None || v == Some(0) || v == Some(10)
  {
    if Contains(LowerStr(r.questionText), "recommend") then
      var answer := LowerStr(r.userResponse);
      if Contains(answer, "yes") then Some(10)
      else if Contains(answer, "no") then Some(0)
      else None
    else None
  }

  /** The score after reading the responses in order: each verdict overwrites the previous one. */
  function Nps(rs: seq<Response>): Option<int> {
    if rs == [] then None
    else
      var v := Verdict(rs[|rs| - 1]);
      if v.Some? then v else Nps(rs[..|rs| - 1])
  }

  /** There is no score exactly when no response has a verdict. */
  lemma {:induction false} NoScoreIffNoVerdict(rs: seq<Response>)
    ensures Nps(rs).None? <==> forall k :: 0 <= k < |rs| ==> Verdict(rs[k]).None?
  {
    if rs != [] {
      var init := rs[..|rs| - 1];
      NoScoreIffNoVerdict(init);
      assert forall k :: 0 <= k < |init| ==> init[k] == rs[k];
    }
  }

  /** A score is the verdict of the last response that has one. */
  lemma {:induction false} NpsIsLastVerdict(rs: seq<Response>)
    ensures Nps(rs).Some? ==>
      exists k :: 0 <= k < |rs| && Nps(rs) == Verdict(rs[k]) && forall j :: k < j < |rs| ==> Verdict(rs[j]).None?
  {
    if rs != [] {
      var n := |rs| - 1;
      var init := rs[..n];
      if Verdict(rs[n]).Some? {
        assert Nps(rs) == Verdict(rs[n]);
      } else if Nps(init).Some? {
        NpsIsLastVerdict(init);
        var k :| 0 <= k < |init| && Nps(init) == Verdict(init[k]) && forall j :: k < j < |init| ==> Verdict(init[j]).None?;
        assert init[k] == rs[k];
        assert forall j :: k < j < n ==> init[j] == rs[j];
      }
    }
  }

  /** Without a question mentioning "recommend" the score stays null. */
  lemma NoRecommendNoScore(rs: seq<Response>)
    requires forall k :: 0 <= k < |rs| ==> !Contains(LowerStr(rs[k].questionText), "recommend")
    ensures Nps(rs) == None
  {
    NoScoreIffNoVerdict(rs);
  }

  /** The score is null, 0 or 10. */
  lemma {:induction false} NpsValues(rs: seq<Response>)
    ensures Nps(rs) == None || Nps(rs) == Some(0) || Nps(rs) == Some(10)
  {
    if rs != [] {
      NpsValues(rs[..|rs| - 1]);
    }
  }

  /** A later decisive answer overrides an earlier one. */
  lemma LastDecisiveAnswerWins(rs: seq<Response>, r: Response)
    requires Verdict(r).Some?
    ensures Nps(rs + [r]) == Verdict(r)
  {
    assert (rs + [r])[|rs + [r]| - 1] == r;
  }

  // ---------------------------------------------------------------------------
  // Metrics
  // ---------------------------------------------------------------------------

  datatype Metrics = Metrics(completionRate: real, totalDuration: int, sentimentAverage: real, npsScore: Option<int>)

  /** Whole seconds from the session's start to now, rounded down; 0 when the start is unknown. */
  function Duration(startedAt: Option<int>, now: int): (d: int)
    ensures startedAt.Some? ==> d * 1000 <= now - startedAt.value < d * 1000 + 1000
    ensures startedAt.None? ==> d == 0
  {
    if startedAt.Some? then (now - startedAt.value) / 1000 else 0
  }

  function MetricsFor(rs: seq<Response>, startedAt: Option<int>, now: int): Metrics {
    Metrics(1.0, Duration(startedAt, now), AverageSentiment(rs), Nps(rs))
  }

  /** The computation in `calculateAndStoreMetrics`, with the session's start time read from the table. */
  method CalculateMetrics(rs: seq<Response>, startedAt: Option<int>, now: int) returns (m: Metrics)
    ensures m == MetricsFor(rs, startedAt, now)
    ensures m.completionRate == 1.0
  {
    var avg := AverageSentiment(rs);
    var duration := 0;
    if startedAt.Some? {
      duration := (now - startedAt.value) / 1000;
    }
    var nps: Option<int> := None;
    var i := 0;
    while i < |rs|
      invariant 0 <= i <= |rs|
      invariant nps == Nps(rs[..i])
    {
      assert rs[..i + 1][..i] == rs[..i];
      var lowerQuestion := LowerStr(rs[i].questionText);
      if Contains(lowerQuestion, "recommend") {
        var lowerResponse := LowerStr(rs[i].userResponse);
        if Contains(lowerResponse, "yes") {
          nps := Some(10);
        } else if Contains(lowerResponse, "no") {
          nps := Some(0);
        }
      }
      i := i + 1;
    }
    assert rs[..i] == rs;
    m := Metrics(1.0, duration, avg, nps);
  }

  // ---------------------------------------------------------------------------
  // The session and metrics tables
  // ---------------------------------------------------------------------------

  datatype SessionRow = SessionRow(pageUrl: string, startedAt: int, totalQuestions: int, completedQuestions: int)

  datatype MetricsRow = MetricsRow(sessionId: string, metrics: Metrics)

  /** The sessions after `ensureSession`: a missing row is created with zero counts, an existing one is left alone. */
  function Ensured(sessions: map<string, SessionRow>, id: string, pageUrl: Option<string>, now: int): (r: map<string, SessionRow>)
    ensures id in r && r.Keys == sessions.Keys + {id}
    ensures forall k :: k in sessions ==> r[k] == sessions[k]
    ensures id !in sessions ==> r[id].totalQuestions == 0 && r[id].completedQuestions == 0 && r[id].startedAt == now
  {
    if id in sessions then sessions else sessions[id := SessionRow(pageUrl.GetOr(""), now, 0, 0)]
  }

  /** Ensuring a session twice is ensuring it once: the second call finds the row and changes nothing. */
  lemma EnsureIdempotent(sessions: map<string, SessionRow>, id: string, url1: Option<string>, now1: int, url2: Option<string>, now2: int)
    ensures Ensured(Ensured(sessions, id, url1, now1), id, url2, now2) == Ensured(sessions, id, url1, now1)
  {
  }

  class FeedbackDatabase {
    var sessions: map<string, SessionRow>
    var metrics: seq<MetricsRow>

    constructor()
      ensures sessions == map[] && metrics == []
    {
      sessions := map[];
      metrics := [];
    }

    /** `ensureSession(sessionId, pageUrl)`: insert the row only when none exists for the id. */
    method EnsureSession(sessionId: string, pageUrl: Option<string>, now: int)
      modifies this
      ensures sessions == Ensured(old(sessions), sessionId, pageUrl, now)
      ensures metrics == old(metrics)
    {
      if sessionId !in sessions {
        var url := if pageUrl.Some? && pageUrl.value != "" then pageUrl.value else "";
        sessions := sessions[sessionId := SessionRow(url, now, 0, 0)];
      }
    }

    /** `calculateAndStoreMetrics`: compute the metrics for a session and append one metrics row. */
    method StoreMetrics(sessionId: string, rs: seq<Response>, now: int)
      modifies this
      ensures sessions == old(sessions)
      ensures metrics == old(metrics) + [MetricsRow(sessionId, MetricsFor(rs, StartOf(sessions, sessionId), now))]
    {
      var startedAt := if sessionId in sessions then Some(sessions[sessionId].startedAt) else None;
      var m := CalculateMetrics(rs, startedAt, now);
      metrics := metrics + [MetricsRow(sessionId, m)];
    }
  }

  /** The start time the metrics read: the session's `started_at`, when the row exists. */
  function StartOf(sessions: map<string, SessionRow>, id: string): (s: Option<int>)
    ensures s.Some? <==> id in sessions
    ensures s.Some? ==> s.value == sessions[id].startedAt
  {
    if id in sessions then Some(sessions[id].startedAt) else None
  }
}

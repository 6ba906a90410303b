/**
 * The widget's tracking endpoint: each tracked question bumps its session's
 * counters (creating the session on first sight) and, once the session row is
 * written, appends one message row.
 *
 * The two tables are fields of a `TrackDatabase`. Which database writes fail is
 * a parameter (`Failures`), the clock is `now`, and a request body that cannot
 * be parsed is `None`.
 */
module Track {
  import opened Wrappers

  // ---------------------------------------------------------------------------
  // Data
  // ---------------------------------------------------------------------------

  /** The JSON body; `matched` is its truthiness. */
  datatype TrackBody = TrackBody(
    sessionId: Option<string>,
    question: Option<string>,
    matched: bool,
    category: Option<string>,
    pageUrl: Option<string>)

  /** A `conversation_sessions` row; the counters and the page address may be null. */
  datatype SessionRow = SessionRow(
    totalQuestions: Option<int>,
    matchedQuestions: Option<int>,
    pageUrl: Option<string>,
    endedAt: Option<int>)

  datatype MessageRow = MessageRow(sessionId: string, question: string, matched: bool, category: Option<string>)

  /** Which of the three writes the database rejects. */
  datatype Failures = Failures(create: bool, update: bool, message: bool)

  datatype TrackResult = TrackResult(success: bool, error: Option<string>)

  datatype Tables = Tables(sessions: map<string, SessionRow>, messages: seq<MessageRow>)

  const UnknownSession: string := "unknown"

  // ---------------------------------------------------------------------------
  // The request, field by field
  // ---------------------------------------------------------------------------

  /** A string field's JavaScript truthiness: present and non-empty. */
  function Given(s: Option<string>): (r: Option<string>)
    ensures r.Some? <==> s.Some? && s.value != ""
    ensures r.Some? ==> r == s
  {
    if s.Some? && s.value != "" then s else None
  }

  /** `body.session_id || 'unknown'`. */
  function SessionKey(body: TrackBody): (key: string)
    ensures key != ""
    ensures Given(body.sessionId).Some? ==> key == body.sessionId.value
    ensures Given(body.sessionId).None? ==> key == UnknownSession
  {
    if Given(body.sessionId).Some? then body.sessionId.value else UnknownSession
  }

  /** A null counter reads as 0. */
  function Count(c: Option<int>): int {
    if c.Some? then c.value else 0
  }

  function Bit(b: bool): (n: int)
    ensures 0 <= n <= 1 && (n == 1 <==> b)
  {
    if b then 1 else 0
  }

  /** The row inserted for a session seen for the first time. */
  function Created(body: TrackBody): SessionRow {
    SessionRow(Some(1), Some(Bit(body.matched)), Given(body.pageUrl), None)
  }

  /** The row after the update of a known session; the page address is written only into a row that has none. */
  function Updated(row: SessionRow, body: TrackBody, now: int): SessionRow {
    var pageUrl := if Given(row.pageUrl).None? && Given(body.pageUrl).Some? then body.pageUrl else row.pageUrl;
    SessionRow(Some(Count(row.totalQuestions) + 1), Some(Count(row.matchedQuestions) + Bit(body.matched)), pageUrl, Some(now))
  }

  function MessageOf(body: TrackBody): MessageRow {
    MessageRow(SessionKey(body), body.question.GetOr(""), body.matched, Given(body.category))
  }

  /** The tables and the answer after one request. */
  function Posted(db: Tables, body: Option<TrackBody>, fail: Failures, now: int): (Tables, TrackResult) {
    if body.None? then (db, TrackResult(true, None))
    else
      var b := body.value;
      var key := SessionKey(b);
      if key !in db.sessions && fail.create then (db, TrackResult(false, Some("Session creation failed")))
      else if key in db.sessions && fail.update then (db, TrackResult(false, Some("Session update failed")))
      else
        var row := if key in db.sessions then Updated(db.sessions[key], b, now) else Created(b);
        var sessions := db.sessions[key := row];
        if fail.message then (Tables(sessions, db.messages), TrackResult(false, Some("Message insert failed")))
        else (Tables(sessions, db.messages + [MessageOf(b)]), TrackResult(true, None))
  }

  // ---------------------------------------------------------------------------
  // The endpoint
  // ---------------------------------------------------------------------------

  class TrackDatabase {
    var sessions: map<string, SessionRow>
    var messages: seq<MessageRow>

    constructor()
      ensures sessions == map[] && messages == []
    {
      sessions := map[];
      messages := [];
    }

    /** `POST /api/track`. */
    method Post(body: Option<TrackBody>, fail: Failures, now: int) returns (result: TrackResult)
      modifies this
      ensures (Tables(sessions, messages), result) == Posted(Tables(old(sessions), old(messages)), body, fail, now)
    {
      if body.None? {
        return TrackResult(true, None);
      }
      var b := body.value;
      var sessionId := SessionKey(b);
      if sessionId !in sessions {
        if fail.create {
          return TrackResult(false, Some("Session creation failed"));
        }
        sessions := sessions[sessionId := SessionRow(Some(1), Some(Bit(b.matched)), Given(b.pageUrl), None)];
      } else {
        var session := sessions[sessionId];
        var updateData := SessionRow(Some(Count(session.totalQuestions) + 1), Some(Count(session.matchedQuestions) + Bit(b.matched)), session.pageUrl, Some(now));
        if Given(session.pageUrl).None? && Given(b.pageUrl).Some? {
          updateData := updateData.(pageUrl := b.pageUrl);
        }
        assert updateData == Updated(session, b, now);
        if fail.update {
          return TrackResult(false, Some("Session update failed"));
        }
        sessions := sessions[sessionId := updateData];
      }
      if fail.message {
        return TrackResult(false, Some("Message insert failed"));
      }
      messages := messages + [MessageRow(sessionId, b.question.GetOr(""), b.matched, Given(b.category))];
      result := TrackResult(true, None);
    }
  }

  // ---------------------------------------------------------------------------
  // Properties
  // ---------------------------------------------------------------------------

  /** Every session has counted no more matched questions than questions. */
  predicate Consistent(sessions: map<string, SessionRow>) {
    forall k :: k in sessions ==>
      0 <= Count(sessions[k].matchedQuestions) <= Count(sessions[k].totalQuestions)
  }

  /** A request keeps matched between 0 and total in every session, whatever fails. */
  lemma TrackKeepsConsistent(db: Tables, body: Option<TrackBody>, fail: Failures, now: int)
    requires Consistent(db.sessions)
    ensures Consistent(Posted(db, body, fail, now).0.sessions)
  {
    if body.Some? {
      var key := SessionKey(body.value);
      if key in db.sessions {
        var row := db.sessions[key];
        assert 0 <= Count(row.matchedQuestions) <= Count(row.totalQuestions);
      }
    }
  }

  /** A session seen for the first time counts one question, matched when the body says so, with the body's page address or null. */
  lemma NewSessionRow(db: Tables, body: TrackBody, fail: Failures, now: int)
    requires SessionKey(body) !in db.sessions && !fail.create
    ensures var after := Posted(db, Some(body), fail, now).0.sessions;
      SessionKey(body) in after &&
      after[SessionKey(body)].totalQuestions == Some(1) &&
      after[SessionKey(body)].matchedQuestions == Some(if body.matched then 1 else 0) &&
      (after[SessionKey(body)].pageUrl.Some? <==> body.pageUrl.Some? && body.pageUrl.value != "")
  {
  }

  /** A known session's counters go up by one question and by one match when matched, a null counter counting as 0. */
  lemma KnownSessionIncrements(db: Tables, body: TrackBody, fail: Failures, now: int)
    requires SessionKey(body) in db.sessions && !fail.update
    ensures var before := db.sessions[SessionKey(body)];
      var after := Posted(db, Some(body), fail, now).0.sessions[SessionKey(body)];
      Count(after.totalQuestions) == Count(before.totalQuestions) + 1 &&
      Count(after.matchedQuestions) == Count(before.matchedQuestions) + (if body.matched then 1 else 0) &&
      after.endedAt == Some(now)
  {
  }

  /**
   * A known session's page address is written only when it has none and the
   * body brings one; a set address is never overwritten.
   */
  lemma PageUrlSetOnce(db: Tables, body: TrackBody, fail: Failures, now: int)
    requires SessionKey(body) in db.sessions && !fail.update
    ensures var before := db.sessions[SessionKey(body)];
      var after := Posted(db, Some(body), fail, now).0.sessions[SessionKey(body)];
      (before.pageUrl.Some? && before.pageUrl.value != "" ==> after.pageUrl == before.pageUrl) &&
      (after.pageUrl != before.pageUrl <==>
        (before.pageUrl.None? || before.pageUrl.value == "") && body.pageUrl.Some? && body.pageUrl.value != "" && body.pageUrl != before.pageUrl)
  {
  }

  /** Only the request's own session row changes, and the messages only grow. */
  lemma OnlyOwnSessionChanges(db: Tables, body: TrackBody, fail: Failures, now: int)
    ensures var after := Posted(db, Some(body), fail, now).0;
      after.sessions.Keys == db.sessions.Keys || after.sessions.Keys == db.sessions.Keys + {SessionKey(body)}
    ensures var after := Posted(db, Some(body), fail, now).0;
      forall k :: k in db.sessions && k != SessionKey(body) ==> after.sessions[k] == db.sessions[k]
    ensures var after := Posted(db, Some(body), fail, now).0;
      |after.messages| >= |db.messages| && after.messages[..|db.messages|] == db.messages
  {
  }

  /**
   * A message row is added exactly when the request succeeds, and then the
   * session row has been written first; a failed session write changes nothing.
   */
  lemma MessageOnlyAfterSessionWrite(db: Tables, body: TrackBody, fail: Failures, now: int)
    ensures var (after, result) := Posted(db, Some(body), fail, now);
      (after.messages != db.messages <==> result.success) &&
      (result.success ==> after.messages == db.messages + [MessageOf(body)] && SessionKey(body) in after.sessions) &&
      (after.sessions == db.sessions ==> after.messages == db.messages)
    ensures SessionKey(body) !in db.sessions && fail.create ==>
      Posted(db, Some(body), fail, now) == (db, TrackResult(false, Some("Session creation failed")))
    ensures SessionKey(body) in db.sessions && fail.update ==>
      Posted(db, Some(body), fail, now) == (db, TrackResult(false, Some("Session update failed")))
  {
    var (after, result) := Posted(db, Some(body), fail, now);
    var key := SessionKey(body);
    if result.success {
      assert |after.messages| == |db.messages| + 1;
    }
    if key in db.sessions && !fail.update {
      var before := db.sessions[key];
      assert after.sessions[key].totalQuestions != before.totalQuestions;
    }
  }

  /** A body that cannot be read is answered with success and writes nothing. */
  lemma UnreadableBodyIsSuccess(db: Tables, fail: Failures, now: int)
    ensures Posted(db, None, fail, now) == (db, TrackResult(true, None))
  {
  }

  /** A body without a session id is counted under 'unknown'. */
  lemma MissingIdIsUnknown(db: Tables, body: TrackBody, fail: Failures, now: int)
    requires body.sessionId.None? || body.sessionId == Some("")
    requires !fail.create && !fail.update
    ensures UnknownSession in Posted(db, Some(body), fail, now).0.sessions
  {
  }
}

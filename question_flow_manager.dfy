/**
 * The survey state machine: one `ConversationState` per session, kept in a map
 * owned by a `FlowManager`, moved forward question by question with optional
 * follow-up questions, plus the five-minute cache of the active question flow.
 *
 * The clock reading and the database's answer for the active flow are
 * parameters (`now`, `fetched`).
 */
module QuestionFlowManager {
  import opened Wrappers
  import opened Text

  // ---------------------------------------------------------------------------
  // Data
  // ---------------------------------------------------------------------------

  datatype QuestionType = Open | Rating | YesNo | MultipleChoice

  datatype Condition = Negative | Positive | SpecificAnswer

  datatype Question = Question(
    id: string,
    text: string,
    qtype: QuestionType,
    options: Option<seq<string>>,
    followUp: Option<FollowUp>)

  datatype FollowUp = FollowUp(condition: Condition, question: Question)

  datatype QuestionFlow = QuestionFlow(
    id: string,
    name: string,
    questions: seq<Question>,
    welcomeMessage: string,
    thankYouMessage: string)

  datatype Response = Response(
    questionId: string,
    questionText: string,
    userResponse: string,
    sentiment: Option<real>)

  datatype ConversationState = ConversationState(
    sessionId: string,
    index: nat,
    flow: QuestionFlow,
    responses: seq<Response>,
    complete: bool,
    pending: Option<Question>)

  /** The `question_flows` row the database returns for the active flow. */
  datatype FlowRow = FlowRow(id: string, flowName: string, questions: seq<Question>)

  // ---------------------------------------------------------------------------
  // The active question flow and its cache
  // ---------------------------------------------------------------------------

  /** Five minutes, in milliseconds. */
  const CacheDuration: int := 5 * 60 * 1000

  const DatabaseWelcome: string := "Hi! I'd love to hear about your experience with our product. This will just take 2 minutes."
  const DatabaseThankYou: string := "Thank you so much for your feedback! Your insights help us improve the product for everyone."

  const FallbackWelcome: string := "Hi! I'd love to hear about your experience. This will just take 2 minutes."
  const FallbackThankYou: string := "Thank you so much for your feedback! Your insights are really valuable to us."

  /** The four questions of the built-in flow; only the second is a rating, and none has a follow-up. */
  const FallbackQuestions: seq<Question> := [
    Question("q1", "How long have you been using our product?", Open, None, None),
    Question("q2", "On a scale of 1 to 10, how satisfied are you?", Rating, None, None),
    Question("q3", "What feature do you use the most?", Open, None, None),
    Question("q4", "What could we improve?", Open, None, None)
  ]

  /** The built-in flow used whenever the database cannot be read. */
  function FallbackQuestionFlow(): (f: QuestionFlow)
    ensures |f.questions| == 4
    ensures forall k :: 0 <= k < 4 ==> f.questions[k].followUp.None?
    ensures f.questions[1].qtype == Rating
    ensures forall k :: 0 <= k < 4 && k != 1 ==> f.questions[k].qtype == Open
  {
    QuestionFlow("fallback", "Product Feedback", FallbackQuestions, FallbackWelcome, FallbackThankYou)
  }

  /** A database row as a flow: its questions, with the fixed greeting and closing messages. */
  function FlowFromRow(row: FlowRow): (f: QuestionFlow)
    ensures f.questions == row.questions && f.id == row.id && f.name == row.flowName
    ensures f.welcomeMessage == DatabaseWelcome && f.thankYouMessage == DatabaseThankYou
  {
    QuestionFlow(row.id, row.flowName, row.questions, DatabaseWelcome, DatabaseThankYou)
  }

  /** The cache: the last flow read from the database and when it was read. */
  datatype FlowCache = FlowCache(flow: Option<QuestionFlow>, timestamp: int)

  predicate CacheFresh(cache: FlowCache, now: int) {
    cache.flow.Some? && now - cache.timestamp < CacheDuration
  }

  /**
   * `getActiveQuestionFlow` as a decision: the flow returned and the cache
   * afterwards. A fresh cached flow wins without looking at the database; a
   * failed read gives the fallback flow and leaves the cache alone; a successful
   * read is cached with the current time.
   */
  function ActiveFlow(cache: FlowCache, now: int, fetched: Option<FlowRow>): (QuestionFlow, FlowCache) {
    if CacheFresh(cache, now) then (cache.flow.value, cache)
    else match fetched
      case None => (FallbackQuestionFlow(), cache)
      case Some(row) => (FlowFromRow(row), FlowCache(Some(FlowFromRow(row)), now))
  }

  /** Once a flow is read, every request in the next five minutes gets it, whatever the database says. */
  lemma CachedFlowServedWithinWindow(cache: FlowCache, t: int, row: FlowRow, later: int, fetched: Option<FlowRow>)
    requires !CacheFresh(cache, t)
    requires t <= later < t + CacheDuration
    ensures var (f, c) := ActiveFlow(cache, t, Some(row));
            ActiveFlow(c, later, fetched) == (f, c) && f == FlowFromRow(row)
  {
  }

  /** A failed read is never cached: the next request goes to the database again. */
  lemma FailedReadNotCached(cache: FlowCache, now: int, later: int, row: FlowRow)
    requires !CacheFresh(cache, now) && !CacheFresh(cache, later)
    ensures ActiveFlow(cache, now, None) == (FallbackQuestionFlow(), cache)
    ensures ActiveFlow(ActiveFlow(cache, now, None).1, later, Some(row)).0 == FlowFromRow(row)
  {
  }

  /** After five minutes the cached flow is no longer served: a new read replaces it. */
  lemma CacheExpires(cache: FlowCache, now: int, row: FlowRow)
    requires cache.flow.Some? && now >= cache.timestamp + CacheDuration
    ensures ActiveFlow(cache, now, Some(row)) == (FlowFromRow(row), FlowCache(Some(FlowFromRow(row)), now))
  {
  }

  // ---------------------------------------------------------------------------
  // Follow-up trigger rules
  // ---------------------------------------------------------------------------

  const NegativeKeywords: seq<string> := ["no", "not", "never", "bad", "poor", "disappointed", "unhappy"]
  const PositiveKeywords: seq<string> := ["yes", "great", "excellent", "love", "happy", "amazing"]

  /** `shouldTriggerFollowUp`. */
  predicate ShouldTriggerFollowUp(response: string, sentiment: Option<real>, condition: Condition) {
    var lower := LowerStr(response);
    match condition
    case Negative => (sentiment.Some? && sentiment.value < -0.2) || AnyContained(lower, NegativeKeywords)
    case Positive => (sentiment.Some? && sentiment.value > 0.3) || AnyContained(lower, PositiveKeywords)
    case SpecificAnswer => Contains(lower, "no") || Contains(lower, "not")
  }

  /** `negative` fires exactly on a sentiment below -0.2 or a negative keyword in the lower-cased answer. */
  lemma NegativeTriggerIff(response: string, sentiment: Option<real>)
    ensures ShouldTriggerFollowUp(response, sentiment, Negative) <==>
      (sentiment.Some? && sentiment.value < -0.2) ||
      exists k :: 0 <= k < |NegativeKeywords| && Contains(LowerStr(response), NegativeKeywords[k])
  {
  }

  /** `positive` fires exactly on a sentiment above 0.3 or a positive keyword in the lower-cased answer. */
  lemma PositiveTriggerIff(response: string, sentiment: Option<real>)
    ensures ShouldTriggerFollowUp(response, sentiment, Positive) <==>
      (sentiment.Some? && sentiment.value > 0.3) ||
      exists k :: 0 <= k < |PositiveKeywords| && Contains(LowerStr(response), PositiveKeywords[k])
  {
  }

  /**
   * "not" contains "no", so `specific_answer` fires exactly when the answer contains
   * "no" anywhere, sentiment ignored (so "I know" fires it too).
   */
  lemma SpecificAnswerIsContainsNo(response: string, sentiment: Option<real>)
    ensures ShouldTriggerFollowUp(response, sentiment, SpecificAnswer) <==> Contains(LowerStr(response), "no")
  {
    if Contains(LowerStr(response), "not") {
      assert OccursAt("not", "no", 0);
      ContainsTransitive(LowerStr(response), "not", "no");
    }
  }

  /** Whatever fires `specific_answer` also fires `negative`. */
  lemma SpecificAnswerImpliesNegative(response: string, s1: Option<real>, s2: Option<real>)
    requires ShouldTriggerFollowUp(response, s1, SpecificAnswer)
    ensures ShouldTriggerFollowUp(response, s2, Negative)
  {
    SpecificAnswerIsContainsNo(response, s1);
    assert NegativeKeywords[0] == "no";
  }

  lemma KnowTriggersSpecificAnswer(response: string)
    requires response == "I know"
    ensures ShouldTriggerFollowUp(response, None, SpecificAnswer)
  {
    assert LowerStr(response) == "i know";
    assert OccursAt("i know", "no", 3);
  }

  // ---------------------------------------------------------------------------
  // One conversation
  // ---------------------------------------------------------------------------

  /** The state `initializeConversation` creates. */
  function Fresh(sessionId: string, flow: QuestionFlow): ConversationState {
    ConversationState(sessionId, 0, flow, [], false, None)
  }

  /** The flow's question at the current index, if the index is in range. */
  function QuestionAt(s: ConversationState): Option<Question> {
    if s.index < |s.flow.questions| then Some(s.flow.questions[s.index]) else None
  }

  /** `getCurrentQuestion` on a state: none once complete, else the main question at the index. */
  function Current(s: ConversationState): Option<Question> {
    if s.complete then None else QuestionAt(s)
  }

  /** `getProgress` on a state: (index + 1, number of questions). */
  function Progress(s: ConversationState): (nat, nat) {
    (s.index + 1, |s.flow.questions|)
  }

  /** `storeResponse` on a state: one more response, at the end. */
  function WithResponse(s: ConversationState, r: Response): ConversationState {
    s.(responses := s.responses + [r])
  }

  /** The follow-up the current question would ask after this answer, if its condition fires. */
  function TriggeredFollowUp(s: ConversationState, previous: Option<string>, sentiment: Option<real>): Option<Question> {
    match QuestionAt(s)
    case Some(q) =>
      if q.followUp.Some? && previous.Some? && previous.value != "" &&
         ShouldTriggerFollowUp(previous.value, sentiment, q.followUp.value.condition)
      then Some(q.followUp.value.question)
      else None
    case None => None
  }

  /**
   * `getNextQuestion` on a state: the new state and the question returned. A
   * pending follow-up is handed out and cleared; a follow-up that fires is
   * returned and left pending; otherwise the index moves on by one, and running
   * past the last question completes the conversation.
   */
  function Next(s: ConversationState, previous: Option<string>, sentiment: Option<real>): (ConversationState, Option<Question>) {
    if s.pending.Some? then (s.(pending := None), s.pending)
    else match TriggeredFollowUp(s, previous, sentiment)
      case Some(f) => (s.(pending := Some(f)), Some(f))
      case None =>
        var i := s.index + 1;
        if i >= |s.flow.questions| then (s.(index := i, complete := true), None)
        else (s.(index := i), Some(s.flow.questions[i]))
  }

  /** `completeConversation` on a state. */
  function Completed(s: ConversationState): ConversationState {
    s.(complete := true)
  }

  /**
   * The state invariant: an unfinished conversation points at a question (or at
   * index 0 of an empty flow), and a pending follow-up is the follow-up of the
   * question at the index.
   */
  predicate Consistent(s: ConversationState) {
    (!s.complete ==> s.index == 0 || s.index < |s.flow.questions|) &&
    (s.pending.Some? ==>
      s.index < |s.flow.questions| &&
      s.flow.questions[s.index].followUp.Some? &&
      s.pending.value == s.flow.questions[s.index].followUp.value.question)
  }

  lemma FreshConsistent(sessionId: string, flow: QuestionFlow)
    ensures Consistent(Fresh(sessionId, flow))
    ensures Current(Fresh(sessionId, flow)) == (if |flow.questions| > 0 then Some(flow.questions[0]) else None)
    ensures Progress(Fresh(sessionId, flow)) == (1, |flow.questions|)
  {
  }

  /** `Next` keeps the invariant, never lowers the index, raises it by at most one, and never un-completes. */
  lemma NextPreservesConsistent(s: ConversationState, previous: Option<string>, sentiment: Option<real>)
    requires Consistent(s)
    ensures var (t, _) := Next(s, previous, sentiment);
      Consistent(t) &&
      (t.index == s.index || t.index == s.index + 1) &&
      (s.complete ==> t.complete) &&
      t.responses == s.responses && t.flow == s.flow && t.sessionId == s.sessionId
  {
  }

  /** A pending follow-up is returned and cleared, and the index stays put. */
  lemma NextReturnsPending(s: ConversationState, previous: Option<string>, sentiment: Option<real>)
    requires s.pending.Some?
    ensures Next(s, previous, sentiment) == (s.(pending := None), s.pending)
  {
  }

  /**
   * A follow-up that fires is returned without moving on, and because it is left
   * pending, the next call returns the very same question again, whatever the
   * answer; only the call after that moves on.
   */
  lemma FollowUpReturnedTwice(s: ConversationState, previous: Option<string>, sentiment: Option<real>,
                              previous2: Option<string>, sentiment2: Option<real>)
    requires Consistent(s) && s.pending.None?
    requires TriggeredFollowUp(s, previous, sentiment).Some?
    ensures var f := TriggeredFollowUp(s, previous, sentiment);
      var (t, q) := Next(s, previous, sentiment);
      var (u, q2) := Next(t, previous2, sentiment2);
      q == f && t.index == s.index && q2 == f && u.index == s.index && u.pending.None?
  {
  }

  /** Without a pending or firing follow-up the index moves on by exactly one. */
  lemma NextAdvances(s: ConversationState, previous: Option<string>, sentiment: Option<real>)
    requires s.pending.None? && TriggeredFollowUp(s, previous, sentiment).None?
    ensures var (t, q) := Next(s, previous, sentiment);
      t.index == s.index + 1 &&
      (t.complete <==> s.complete || s.index + 1 >= |s.flow.questions|) &&
      (q.None? <==> s.index + 1 >= |s.flow.questions|) &&
      (q.Some? ==> q.value == s.flow.questions[s.index + 1])
  {
  }

  /** No answer (a skip) can fire a follow-up. */
  lemma NoAnswerNoFollowUp(s: ConversationState, sentiment: Option<real>)
    ensures TriggeredFollowUp(s, None, sentiment).None?
    ensures TriggeredFollowUp(s, Some(""), sentiment).None?
  {
  }

  /** While unfinished, progress reads between 1 and the number of questions. */
  lemma ProgressInRange(s: ConversationState)
    requires Consistent(s) && !s.complete && |s.flow.questions| > 0
    ensures 1 <= Progress(s).0 <= Progress(s).1
  {
  }

  /** The current question ignores a pending follow-up: it is still the main question at the index. */
  lemma CurrentIgnoresPending(s: ConversationState, p: Option<Question>)
    ensures Current(s.(pending := p)) == Current(s)
  {
  }

  lemma StoreKeepsConsistent(s: ConversationState, r: Response)
    requires Consistent(s)
    ensures Consistent(WithResponse(s, r)) && Current(WithResponse(s, r)) == Current(s)
    ensures |WithResponse(s, r).responses| == |s.responses| + 1
  {
  }

  lemma CompletedConsistent(s: ConversationState)
    requires Consistent(s)
    ensures Consistent(Completed(s)) && Current(Completed(s)).None?
  {
  }

  /** The state after `n` calls of `getNextQuestion` with no answer. */
  function Skipped(s: ConversationState, n: nat): ConversationState
    decreases n
  {
    if n == 0 then s else Skipped(Next(s, None, None).0, n - 1)
  }

  /**
   * Skipping through a fresh conversation visits every question in turn: after
   * `n` skips the index is `n`, and the conversation is complete exactly when at
   * least one skip was made and no question is left.
   */
  lemma {:induction false} SkippingWalksTheFlow(sessionId: string, flow: QuestionFlow, n: nat)
    ensures Skipped(Fresh(sessionId, flow), n).index == n
    ensures Skipped(Fresh(sessionId, flow), n).complete <==> n > 0 && n >= |flow.questions|
    ensures Skipped(Fresh(sessionId, flow), n).pending.None?
    ensures Skipped(Fresh(sessionId, flow), n).flow == flow
  {
    if n > 0 {
      SkippingWalksTheFlow(sessionId, flow, n - 1);
      SkippedStep(Fresh(sessionId, flow), n - 1);
      var before := Skipped(Fresh(sessionId, flow), n - 1);
      NoAnswerNoFollowUp(before, None);
      NextAdvances(before, None, None);
    }
  }

  lemma {:induction false} SkippedStep(s: ConversationState, n: nat)
    ensures Skipped(s, n + 1) == Next(Skipped(s, n), None, None).0
    decreases n
  {
    if n > 0 {
      SkippedStep(Next(s, None, None).0, n - 1);
    }
  }

  // ---------------------------------------------------------------------------
  // The per-process store
  // ---------------------------------------------------------------------------

  /**
   * The module-level state of `question-flow-manager.ts`: the map from session
   * id to conversation state, and the flow cache.
   */
  class FlowManager {
    var states: map<string, ConversationState>
    var cache: FlowCache

    /** Every stored state is consistent and filed under its own session id. */
    ghost predicate Valid()
      reads this
    {
      forall id :: id in states ==> Consistent(states[id]) && states[id].sessionId == id
    }

    constructor()
      ensures states == map[] && cache == FlowCache(None, 0)
      ensures Valid()
    {
      states := map[];
      cache := FlowCache(None, 0);
    }

    /** `getActiveQuestionFlow`. */
    method GetActiveQuestionFlow(now: int, fetched: Option<FlowRow>) returns (flow: QuestionFlow)
      modifies this
      ensures (flow, cache) == ActiveFlow(old(cache), now, fetched)
      ensures states == old(states)
    {
      if cache.flow.Some? && now - cache.timestamp < CacheDuration {
        return cache.flow.value;
      }
      if fetched.None? {
        return FallbackQuestionFlow();
      }
      flow := FlowFromRow(fetched.value);
      cache := FlowCache(Some(flow), now);
    }

    /** `initializeConversation`: a fresh state for the session, replacing any earlier one. */
    method InitializeConversation(sessionId: string, now: int, fetched: Option<FlowRow>) returns (state: ConversationState)
      requires Valid()
      modifies this
      ensures state == Fresh(sessionId, ActiveFlow(old(cache), now, fetched).0)
      ensures state.index == 0 && state.responses == [] && !state.complete && state.pending.None?
      ensures states == old(states)[sessionId := state]
      ensures cache == ActiveFlow(old(cache), now, fetched).1
      ensures Valid()
    {
      var flow := GetActiveQuestionFlow(now, fetched);
      state := ConversationState(sessionId, 0, flow, [], false, None);
      FreshConsistent(sessionId, flow);
      states := states[sessionId := state];
    }

    /** `getConversationState`. */
    function GetConversationState(sessionId: string): (r: Option<ConversationState>)
      reads this
      ensures r.Some? <==> sessionId in states
      ensures r.Some? ==> r.value == states[sessionId]
    {
      if sessionId in states then Some(states[sessionId]) else None
    }

    /** `storeResponse`: appends one response to the session's list; an unknown session is left alone. */
    method StoreResponse(sessionId: string, questionId: string, questionText: string, userResponse: string, sentiment: Option<real>)
      requires Valid()
      modifies this
      ensures sessionId in old(states) ==>
        states == old(states)[sessionId := WithResponse(old(states)[sessionId], Response(questionId, questionText, userResponse, sentiment))]
      ensures sessionId !in old(states) ==> states == old(states)
      ensures cache == old(cache)
      ensures Valid()
    {
      if sessionId !in states {
        return;
      }
      var state := states[sessionId];
      StoreKeepsConsistent(state, Response(questionId, questionText, userResponse, sentiment));
      states := states[sessionId := state.(responses := state.responses + [Response(questionId, questionText, userResponse, sentiment)])];
    }

    /** `getNextQuestion`. */
    method GetNextQuestion(sessionId: string, previous: Option<string>, sentiment: Option<real>) returns (q: Option<Question>)
      requires Valid()
      modifies this
      ensures sessionId !in old(states) ==> q.None? && states == old(states)
      ensures sessionId in old(states) ==>
        var (t, r) := Next(old(states)[sessionId], previous, sentiment);
        q == r && states == old(states)[sessionId := t]
      ensures cache == old(cache)
      ensures Valid()
    {
      if sessionId !in states {
        return None;
      }
      var state := states[sessionId];
      NextPreservesConsistent(state, previous, sentiment);
      if state.pending.Some? {
        q := state.pending;
        states := states[sessionId := state.(pending := None)];
        return;
      }
      var current := if state.index < |state.flow.questions| then Some(state.flow.questions[state.index]) else None;
      if current.Some? && current.value.followUp.Some? && previous.Some? && previous.value != "" {
        var shouldFollow := ShouldTriggerFollowUp(previous.value, sentiment, current.value.followUp.value.condition);
        if shouldFollow {
          q := Some(current.value.followUp.value.question);
          states := states[sessionId := state.(pending := q)];
          return;
        }
      }
      state := state.(index := state.index + 1);
      if state.index >= |state.flow.questions| {
        state := state.(complete := true);
        states := states[sessionId := state];
        return None;
      }
      states := states[sessionId := state];
      q := Some(state.flow.questions[state.index]);
    }

    /** `completeConversation`: sets the flag of a known session; nothing else changes. */
    method CompleteConversation(sessionId: string)
      requires Valid()
      modifies this
      ensures sessionId in old(states) ==> states == old(states)[sessionId := Completed(old(states)[sessionId])]
      ensures sessionId !in old(states) ==> states == old(states)
      ensures cache == old(cache)
      ensures Valid()
    {
      if sessionId in states {
        CompletedConsistent(states[sessionId]);
        states := states[sessionId := states[sessionId].(complete := true)];
      }
    }

    /** `cleanupConversation`: forgets the session and only that session. */
    method CleanupConversation(sessionId: string)
      requires Valid()
      modifies this
      ensures states == old(states) - {sessionId}
      ensures cache == old(cache)
      ensures Valid()
    {
      states := states - {sessionId};
    }

    /** `getProgress`: `None` for an unknown session. */
    function GetProgress(sessionId: string): (r: Option<(nat, nat)>)
      reads this
      ensures r.Some? <==> sessionId in states
      ensures r.Some? ==> r.value.0 == states[sessionId].index + 1 && r.value.1 == |states[sessionId].flow.questions|
    {
      if sessionId in states then Some(Progress(states[sessionId])) else None
    }

    /** `getCurrentQuestion`: `None` for an unknown or completed session. */
    function GetCurrentQuestion(sessionId: string): (r: Option<Question>)
      reads this
      ensures sessionId !in states ==> r.None?
      ensures sessionId in states && states[sessionId].complete ==> r.None?
      ensures r.Some? ==>
        sessionId in states &&
        states[sessionId].index < |states[sessionId].flow.questions| &&
        r.value == states[sessionId].flow.questions[states[sessionId].index]
      ensures (sessionId in states && !states[sessionId].complete &&
               states[sessionId].index < |states[sessionId].flow.questions|) ==>
        r == Some(states[sessionId].flow.questions[states[sessionId].index])
    {
      if sessionId in states then Current(states[sessionId]) else None
    }
  }
}

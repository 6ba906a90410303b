/**
 * The voice webhook's event dispatcher: for each event it drives the question
 * flow manager and produces the spoken replies and data frames sent down the
 * stream, and the database writes it starts.
 *
 * The language model's sentiment-and-transition reply is a parameter
 * (`llmReply`, `None` when the call fails), and the database writes are
 * returned as records rather than performed.
 */
module Webhook {
  import opened Wrappers
  import opened Text
  import opened QuestionFlowManager
  import FeedbackAnalyzer
  import FeedbackAnalyzerStreaming

  datatype Event = SessionStart | SessionEnd | SessionUpdate | InterimDelta | Message | Other(name: string)

  datatype Request = Request(
    event: Event,
    conversationId: Option<string>,
    sessionId: Option<string>,
    text: Option<string>)

  /** What goes down the response stream. */
  datatype Frame =
    | Tts(text: string)
    | ProgressData(current: nat, total: nat)
    | CompleteData(totalQuestions: nat, averageSentiment: real)
    | End

  /** The writes to the database the turn starts. */
  datatype DbWrite =
    | EnsureSession(key: string, pageUrl: Option<string>)
    | ConversationMessage(key: string, text: string, qtype: QuestionType)
    | FeedbackResponse(key: string, questionId: string, questionText: string, answer: string, sentiment: real)
    | SessionMetrics(key: string, completedQuestions: nat)
    | AggregateMetrics(key: string, responses: seq<Response>)

  /** The flow manager's state: the session map and the flow cache. */
  datatype World = World(states: map<string, ConversationState>, cache: FlowCache)

  datatype Outcome = Outcome(world: World, frames: seq<Frame>, writes: seq<DbWrite>)

  const StartError: string := "I'm sorry, there was an error starting the feedback session. Please try again."
  const ProcessingError: string := "I'm sorry, there was an error processing your response. Could you try again?"
  const NoCurrentQuestion: string := "Thank you for your feedback!"
  const SkipPrefix: string := "No problem. "

  /** `conversation_id || session_id || 'unknown'`: an empty id counts as missing. */
  function ConversationKey(conversationId: Option<string>, sessionId: Option<string>): (key: string)
    ensures conversationId.Some? && conversationId.value != "" ==> key == conversationId.value
    ensures (conversationId.None? || conversationId.value == "") && sessionId.Some? && sessionId.value != "" ==> key == sessionId.value
    ensures key == "unknown" || (conversationId.Some? && key == conversationId.value) || (sessionId.Some? && key == sessionId.value)
    ensures key != ""
  {
    if conversationId.Some? && conversationId.value != "" then conversationId.value
    else if sessionId.Some? && sessionId.value != "" then sessionId.value
    else "unknown"
  }

  /** `session.start`: a fresh state, the greeting with the first question, and the progress. */
  function StartTurn(w: World, key: string, now: int, fetched: Option<FlowRow>): Outcome {
    var (flow, cache) := ActiveFlow(w.cache, now, fetched);
    var s := Fresh(key, flow);
    var world := World(w.states[key := s], cache);
    var ensure := [EnsureSession(key, Some("widget"))];
    match Current(s)
    case None => Outcome(world, [Tts(StartError), End], ensure)
    case Some(q) =>
      var (current, total) := Progress(s);
      Outcome(world, [Tts(flow.welcomeMessage + " " + q.text), ProgressData(current, total), End],
              ensure + [ConversationMessage(key, q.text, q.qtype)])
  }

  /** The state a `message` works on: the stored one, or a fresh one when the process has none. */
  function MessageWorld(w: World, key: string, now: int, fetched: Option<FlowRow>): (r: (World, seq<DbWrite>))
    ensures key in r.0.states
    ensures key in w.states ==> r == (w, [])
  {
    if key in w.states then (w, [])
    else
      var (flow, cache) := ActiveFlow(w.cache, now, fetched);
      (World(w.states[key := Fresh(key, flow)], cache), [EnsureSession(key, None)])
  }

  /** A skip request: no answer is recorded and the flow moves on without one. */
  function SkipTurn(w: World, key: string, before: seq<DbWrite>): Outcome
    requires key in w.states
  {
    var s := w.states[key];
    var (t, next) := Next(s, None, None);
    match next
    case Some(q) =>
      var (current, total) := Progress(t);
      Outcome(w.(states := w.states[key := t]), [Tts(SkipPrefix + q.text), ProgressData(current, total), End],
              before + [ConversationMessage(key, q.text, q.qtype)])
    case None =>
      var done := Completed(t);
      Outcome(w.(states := w.states[key := done]), [Tts(s.flow.thankYouMessage), End],
              before + [SessionMetrics(key, |done.responses|), AggregateMetrics(key, done.responses)])
  }

  /** An answer to the current question: recorded, then the flow moves on with it. */
  function AnswerTurn(w: World, key: string, text: string, cur: Question, parsed: FeedbackAnalyzerStreaming.Parsed, before: seq<DbWrite>): Outcome
    requires key in w.states
  {
    var s := w.states[key];
    var sentiment := parsed.sentiment;
    var stored := WithResponse(s, Response(cur.id, cur.text, text, Some(sentiment)));
    var (t, next) := Next(stored, Some(text), Some(sentiment));
    var feedback := FeedbackResponse(key, cur.id, cur.text, text, sentiment);
    match next
    case Some(q) =>
      var (current, total) := Progress(t);
      Outcome(w.(states := w.states[key := t]),
              [Tts(parsed.transition + " " + q.text), ProgressData(current, total), End],
              before + [feedback, ConversationMessage(key, q.text, q.qtype)])
    case None =>
      var done := Completed(t);
      Outcome(w.(states := w.states[key := done]),
              [Tts(s.flow.thankYouMessage), CompleteData(|done.responses|, sentiment), End],
              before + [feedback, SessionMetrics(key, |done.responses|), AggregateMetrics(key, done.responses)])
  }

  /** A `message` with text. */
  function MessageTurn(w: World, key: string, text: string, now: int, fetched: Option<FlowRow>, llmReply: Option<string>): Outcome {
    var (w1, before) := MessageWorld(w, key, now, fetched);
    if FeedbackAnalyzer.DetectSkipIntent(text) then SkipTurn(w1, key, before)
    else match Current(w1.states[key])
      case None => Outcome(w1, [Tts(NoCurrentQuestion), End], before)
      case Some(cur) =>
        match llmReply
        case None => Outcome(w1, [Tts(ProcessingError), End], before)
        case Some(reply) => AnswerTurn(w1, key, text, cur, FeedbackAnalyzerStreaming.ParseReply(reply), before)
  }

  /** The whole dispatch for one webhook request. */
  function Turn(w: World, req: Request, now: int, fetched: Option<FlowRow>, llmReply: Option<string>): Outcome {
    var key := ConversationKey(req.conversationId, req.sessionId);
    match req.event
    case SessionStart => StartTurn(w, key, now, fetched)
    case SessionEnd => Outcome(w.(states := w.states - {key}), [End], [])
    case Message =>
      if req.text.Some? && req.text.value != "" then MessageTurn(w, key, req.text.value, now, fetched, llmReply)
      else Outcome(w, [End], [])
    case _ => Outcome(w, [End], [])
  }

  // ---------------------------------------------------------------------------
  // Properties of a turn
  // ---------------------------------------------------------------------------

  /** Every stored state is consistent and filed under its own id (the manager's invariant, on values). */
  predicate WorldValid(w: World) {
    forall id :: id in w.states ==> Consistent(w.states[id]) && w.states[id].sessionId == id
  }

  /** `session.start` keeps the invariant. */
  lemma StartKeepsValid(w: World, key: string, now: int, fetched: Option<FlowRow>)
    requires WorldValid(w)
    ensures WorldValid(StartTurn(w, key, now, fetched).world)
  {
    FreshConsistent(key, ActiveFlow(w.cache, now, fetched).0);
  }

  /** Restoring a missing state keeps the invariant. */
  lemma MessageWorldKeepsValid(w: World, key: string, now: int, fetched: Option<FlowRow>)
    requires WorldValid(w)
    ensures WorldValid(MessageWorld(w, key, now, fetched).0)
  {
    FreshConsistent(key, ActiveFlow(w.cache, now, fetched).0);
  }

  /** A skip keeps the invariant. */
  lemma SkipKeepsValid(w: World, key: string, before: seq<DbWrite>)
    requires key in w.states && WorldValid(w)
    ensures WorldValid(SkipTurn(w, key, before).world)
  {
    var s := w.states[key];
    NextPreservesConsistent(s, None, None);
    CompletedConsistent(Next(s, None, None).0);
  }

  /** An answer keeps the invariant. */
  lemma AnswerKeepsValid(w: World, key: string, text: string, cur: Question, parsed: FeedbackAnalyzerStreaming.Parsed, before: seq<DbWrite>)
    requires key in w.states && WorldValid(w)
    ensures WorldValid(AnswerTurn(w, key, text, cur, parsed, before).world)
  {
    var s := w.states[key];
    var sentiment := parsed.sentiment;
    var r := Response(cur.id, cur.text, text, Some(sentiment));
    StoreKeepsConsistent(s, r);
    NextPreservesConsistent(WithResponse(s, r), Some(text), Some(sentiment));
    CompletedConsistent(Next(WithResponse(s, r), Some(text), Some(sentiment)).0);
  }

  /** Every turn keeps the manager's invariant. */
  lemma TurnPreservesValid(w: World, req: Request, now: int, fetched: Option<FlowRow>, llmReply: Option<string>)
    requires WorldValid(w)
    ensures WorldValid(Turn(w, req, now, fetched, llmReply).world)
  {
    var key := ConversationKey(req.conversationId, req.sessionId);
    match req.event
    case SessionStart => StartKeepsValid(w, key, now, fetched);
    case Message =>
      if req.text.Some? && req.text.value != "" {
        MessageKeepsValid(w, key, req.text.value, now, fetched, llmReply);
      }
    case _ =>
  }

  /** A message keeps the invariant, whichever way it goes. */
  lemma MessageKeepsValid(w: World, key: string, text: string, now: int, fetched: Option<FlowRow>, llmReply: Option<string>)
    requires WorldValid(w)
    ensures WorldValid(MessageTurn(w, key, text, now, fetched, llmReply).world)
  {
    MessageWorldKeepsValid(w, key, now, fetched);
    var (w1, before) := MessageWorld(w, key, now, fetched);
    if FeedbackAnalyzer.DetectSkipIntent(text) {
      SkipKeepsValid(w1, key, before);
    } else if Current(w1.states[key]).Some? && llmReply.Some? {
      AnswerKeepsValid(w1, key, text, Current(w1.states[key]).value, FeedbackAnalyzerStreaming.ParseReply(llmReply.value), before);
    }
  }

  /** `session.start` greets with the welcome message and the first question, and starts from a fresh state. */
  lemma StartGreets(w: World, req: Request, now: int, fetched: Option<FlowRow>, llmReply: Option<string>)
    requires req.event == SessionStart
    requires |ActiveFlow(w.cache, now, fetched).0.questions| > 0
    ensures var flow := ActiveFlow(w.cache, now, fetched).0;
      var key := ConversationKey(req.conversationId, req.sessionId);
      var out := Turn(w, req, now, fetched, llmReply);
      out.frames == [Tts(flow.welcomeMessage + " " + flow.questions[0].text), ProgressData(1, |flow.questions|), End] &&
      out.world.states == w.states[key := Fresh(key, flow)] &&
      out.writes == [EnsureSession(key, Some("widget")), ConversationMessage(key, flow.questions[0].text, flow.questions[0].qtype)]
  {
  }

  /** An empty flow cannot start: the apology is spoken, though the state was already created. */
  lemma StartWithEmptyFlowApologizes(w: World, req: Request, now: int, fetched: Option<FlowRow>, llmReply: Option<string>)
    requires req.event == SessionStart
    requires |ActiveFlow(w.cache, now, fetched).0.questions| == 0
    ensures var key := ConversationKey(req.conversationId, req.sessionId);
      var out := Turn(w, req, now, fetched, llmReply);
      out.frames == [Tts(StartError), End] && key in out.world.states
  {
  }

  /** `session.end` forgets the session, and only that session. */
  lemma EndForgetsSession(w: World, req: Request, now: int, fetched: Option<FlowRow>, llmReply: Option<string>)
    requires req.event == SessionEnd
    ensures var key := ConversationKey(req.conversationId, req.sessionId);
      var out := Turn(w, req, now, fetched, llmReply);
      key !in out.world.states &&
      (forall id :: id != key ==> (id in out.world.states <==> id in w.states)) &&
      out.frames == [End] && out.writes == []
  {
  }

  /** `session.update`, interim transcripts, unknown events and empty messages change nothing. */
  lemma QuietEventsChangeNothing(w: World, req: Request, now: int, fetched: Option<FlowRow>, llmReply: Option<string>)
    requires req.event == SessionUpdate || req.event == InterimDelta || req.event.Other? ||
             (req.event == Message && (req.text.None? || req.text.value == ""))
    ensures Turn(w, req, now, fetched, llmReply) == Outcome(w, [End], [])
  {
  }

  /** A message for a session this process does not know starts it afresh before anything else. */
  lemma MessageRestoresMissingState(w: World, req: Request, now: int, fetched: Option<FlowRow>, llmReply: Option<string>)
    requires req.event == Message && req.text.Some? && req.text.value != ""
    requires ConversationKey(req.conversationId, req.sessionId) !in w.states
    ensures var key := ConversationKey(req.conversationId, req.sessionId);
      var out := Turn(w, req, now, fetched, llmReply);
      key in out.world.states && |out.writes| > 0 && out.writes[0] == EnsureSession(key, None)
  {
    var key := ConversationKey(req.conversationId, req.sessionId);
    assert Turn(w, req, now, fetched, llmReply) == MessageTurn(w, key, req.text.value, now, fetched, llmReply);
    MessageWritesFollowRestore(w, key, req.text.value, now, fetched, llmReply);
  }

  /** Whatever a message does, its writes come after those of restoring the state, and the session is kept. */
  lemma MessageWritesFollowRestore(w: World, key: string, text: string, now: int, fetched: Option<FlowRow>, llmReply: Option<string>)
    ensures var (w1, before) := MessageWorld(w, key, now, fetched);
      var out := MessageTurn(w, key, text, now, fetched, llmReply);
      key in out.world.states && |before| <= |out.writes| && out.writes[..|before|] == before
  {
    var (w1, before) := MessageWorld(w, key, now, fetched);
    if FeedbackAnalyzer.DetectSkipIntent(text) {
      SkipWritesFollow(w1, key, before);
    } else if Current(w1.states[key]).Some? && llmReply.Some? {
      AnswerWritesFollow(w1, key, text, Current(w1.states[key]).value, FeedbackAnalyzerStreaming.ParseReply(llmReply.value), before);
    }
  }

  lemma SkipWritesFollow(w: World, key: string, before: seq<DbWrite>)
    requires key in w.states
    ensures var out := SkipTurn(w, key, before);
      key in out.world.states && |before| <= |out.writes| && out.writes[..|before|] == before
  {
  }

  lemma AnswerWritesFollow(w: World, key: string, text: string, cur: Question, parsed: FeedbackAnalyzerStreaming.Parsed, before: seq<DbWrite>)
    requires key in w.states
    ensures var out := AnswerTurn(w, key, text, cur, parsed, before);
      key in out.world.states && |before| <= |out.writes| && out.writes[..|before|] == before
  {
  }

  /**
   * A skip records nothing and never leaves a follow-up pending: the flow moves
   * on as if there were no answer.
   */
  lemma SkipRecordsNothing(w: World, key: string, text: string, now: int, fetched: Option<FlowRow>, llmReply: Option<string>)
    requires key in w.states && WorldValid(w)
    requires FeedbackAnalyzer.DetectSkipIntent(text)
    ensures var out := MessageTurn(w, key, text, now, fetched, llmReply);
      key in out.world.states &&
      out.world.states[key].responses == w.states[key].responses &&
      out.world.states[key].pending.None? &&
      out.world.states[key].index <= w.states[key].index + 1
  {
    NoAnswerNoFollowUp(w.states[key], None);
  }

  /**
   * An answer records exactly one response, for the question `getCurrentQuestion`
   * reports, with the sentiment parsed from the model's reply.
   */
  lemma AnswerRecordsOneResponse(w: World, key: string, text: string, now: int, fetched: Option<FlowRow>, reply: string)
    requires key in w.states && WorldValid(w)
    requires !FeedbackAnalyzer.DetectSkipIntent(text)
    requires Current(w.states[key]).Some?
    ensures var cur := Current(w.states[key]).value;
      var out := MessageTurn(w, key, text, now, fetched, Some(reply));
      key in out.world.states &&
      out.world.states[key].responses ==
        w.states[key].responses + [Response(cur.id, cur.text, text, Some(FeedbackAnalyzerStreaming.ParseReply(reply).sentiment))]
  {
    var cur := Current(w.states[key]).value;
    var parsed := FeedbackAnalyzerStreaming.ParseReply(reply);
    assert MessageTurn(w, key, text, now, fetched, Some(reply)) == AnswerTurn(w, key, text, cur, parsed, []);
    AnswerTurnRecords(w, key, text, cur, parsed);
  }

  lemma AnswerTurnRecords(w: World, key: string, text: string, cur: Question, parsed: FeedbackAnalyzerStreaming.Parsed)
    requires key in w.states && WorldValid(w)
    ensures var out := AnswerTurn(w, key, text, cur, parsed, []);
      key in out.world.states &&
      out.world.states[key].responses == w.states[key].responses + [Response(cur.id, cur.text, text, Some(parsed.sentiment))]
  {
    var s := w.states[key];
    var sentiment := parsed.sentiment;
    NextPreservesConsistent(WithResponse(s, Response(cur.id, cur.text, text, Some(sentiment))), Some(text), Some(sentiment));
  }

  /**
   * The answer to a follow-up is filed under the main question's id and text,
   * since the current question ignores the pending follow-up; and the reply asks
   * the same follow-up once more, because it is still pending.
   */
  lemma FollowUpAnswerFiledUnderMainQuestion(w: World, key: string, text: string, now: int, fetched: Option<FlowRow>, reply: string)
    requires key in w.states && WorldValid(w)
    requires !FeedbackAnalyzer.DetectSkipIntent(text)
    requires !w.states[key].complete && w.states[key].pending.Some?
    ensures var s := w.states[key];
      var main := s.flow.questions[s.index];
      var f := s.pending.value;
      var out := MessageTurn(w, key, text, now, fetched, Some(reply));
      main.followUp.Some? && f == main.followUp.value.question &&
      out.world.states[key].responses[|out.world.states[key].responses| - 1].questionId == main.id &&
      out.frames[0] == Tts(FeedbackAnalyzerStreaming.ParseReply(reply).transition + " " + f.text)
  {
    AnswerRecordsOneResponse(w, key, text, now, fetched, reply);
  }

  /** Once a session is complete, an answer only gets a thank-you: nothing is recorded or changed. */
  lemma CompletedSessionThanks(w: World, key: string, text: string, now: int, fetched: Option<FlowRow>, llmReply: Option<string>)
    requires key in w.states && w.states[key].complete
    requires !FeedbackAnalyzer.DetectSkipIntent(text)
    ensures MessageTurn(w, key, text, now, fetched, llmReply) == Outcome(w, [Tts(NoCurrentQuestion), End], [])
  {
  }

  /**
   * Answering the last question completes the session, thanks the user and reports
   * the number of responses, with the last answer's sentiment as the "average".
   */
  lemma LastAnswerCompletes(w: World, key: string, text: string, now: int, fetched: Option<FlowRow>, reply: string)
    requires key in w.states && WorldValid(w)
    requires !FeedbackAnalyzer.DetectSkipIntent(text)
    requires var s := w.states[key];
      !s.complete && s.pending.None? && s.index + 1 == |s.flow.questions|
    requires TriggeredFollowUp(w.states[key], Some(text), Some(FeedbackAnalyzerStreaming.ParseReply(reply).sentiment)).None?
    ensures var s := w.states[key];
      var sentiment := FeedbackAnalyzerStreaming.ParseReply(reply).sentiment;
      var out := MessageTurn(w, key, text, now, fetched, Some(reply));
      out.world.states[key].complete &&
      out.frames == [Tts(s.flow.thankYouMessage), CompleteData(|s.responses| + 1, sentiment), End]
  {
    var s := w.states[key];
    var parsed := FeedbackAnalyzerStreaming.ParseReply(reply);
    var cur := s.flow.questions[s.index];
    assert Current(s) == Some(cur);
    assert MessageTurn(w, key, text, now, fetched, Some(reply)) == AnswerTurn(w, key, text, cur, parsed, []);
    LastAnswerTurnCompletes(w, key, text, cur, parsed);
  }

  lemma LastAnswerTurnCompletes(w: World, key: string, text: string, cur: Question, parsed: FeedbackAnalyzerStreaming.Parsed)
    requires key in w.states
    requires var s := w.states[key];
      !s.complete && s.pending.None? && s.index + 1 == |s.flow.questions| && cur == s.flow.questions[s.index]
    requires TriggeredFollowUp(w.states[key], Some(text), Some(parsed.sentiment)).None?
    ensures var s := w.states[key];
      var out := AnswerTurn(w, key, text, cur, parsed, []);
      key in out.world.states && out.world.states[key].complete &&
      out.frames == [Tts(s.flow.thankYouMessage), CompleteData(|s.responses| + 1, parsed.sentiment), End]
  {
    var s := w.states[key];
    var sentiment := parsed.sentiment;
    var stored := WithResponse(s, Response(cur.id, cur.text, text, Some(sentiment)));
    assert TriggeredFollowUp(stored, Some(text), Some(sentiment)) == TriggeredFollowUp(s, Some(text), Some(sentiment));
    assert Next(stored, Some(text), Some(sentiment)) == (stored.(index := s.index + 1, complete := true), None);
  }

  // ---------------------------------------------------------------------------
  // The handler, step by step on the manager
  // ---------------------------------------------------------------------------

  /** `session.start` on the manager. */
  method HandleStart(m: FlowManager, key: string, now: int, fetched: Option<FlowRow>)
    returns (frames: seq<Frame>, writes: seq<DbWrite>)
    requires m.Valid()
    modifies m
    ensures Outcome(World(m.states, m.cache), frames, writes) == StartTurn(World(old(m.states), old(m.cache)), key, now, fetched)
    ensures m.Valid()
  {
    var state := m.InitializeConversation(key, now, fetched);
    writes := [EnsureSession(key, Some("widget"))];
    var first := m.GetCurrentQuestion(key);
    assert first == Current(state);
    if first.None? {
      frames := [Tts(StartError), End];
      return;
    }
    frames := [Tts(state.flow.welcomeMessage + " " + first.value.text)];
    writes := writes + [ConversationMessage(key, first.value.text, first.value.qtype)];
    var progress := m.GetProgress(key);
    frames := frames + [ProgressData(progress.value.0, progress.value.1), End];
  }

  /** A skip on the manager, for a session it holds. */
  method HandleSkip(m: FlowManager, key: string, before: seq<DbWrite>)
    returns (frames: seq<Frame>, writes: seq<DbWrite>)
    requires m.Valid() && key in m.states
    modifies m
    ensures Outcome(World(m.states, m.cache), frames, writes) == SkipTurn(World(old(m.states), old(m.cache)), key, before)
    ensures m.Valid()
  {
    var flow := m.states[key].flow;
    var next := m.GetNextQuestion(key, None, None);
    if next.Some? {
      frames := [Tts(SkipPrefix + next.value.text)];
      writes := before + [ConversationMessage(key, next.value.text, next.value.qtype)];
      var progress := m.GetProgress(key);
      frames := frames + [ProgressData(progress.value.0, progress.value.1), End];
    } else {
      m.CompleteConversation(key);
      frames := [Tts(flow.thankYouMessage), End];
      var responses := m.states[key].responses;
      writes := before + [SessionMetrics(key, |responses|), AggregateMetrics(key, responses)];
    }
  }

  /** An answer to `cur` on the manager, for a session it holds. */
  method HandleAnswer(m: FlowManager, key: string, text: string, cur: Question, parsed: FeedbackAnalyzerStreaming.Parsed, before: seq<DbWrite>)
    returns (frames: seq<Frame>, writes: seq<DbWrite>)
    requires m.Valid() && key in m.states
    modifies m
    ensures Outcome(World(m.states, m.cache), frames, writes) == AnswerTurn(World(old(m.states), old(m.cache)), key, text, cur, parsed, before)
    ensures m.Valid()
  {
    var flow := m.states[key].flow;
    ghost var stored := WithResponse(m.states[key], Response(cur.id, cur.text, text, Some(parsed.sentiment)));
    m.StoreResponse(key, cur.id, cur.text, text, Some(parsed.sentiment));
    assert m.states == old(m.states)[key := stored];
    ghost var step := Next(stored, Some(text), Some(parsed.sentiment));
    var next := m.GetNextQuestion(key, Some(text), Some(parsed.sentiment));
    assert next == step.1 && m.states == old(m.states)[key := step.0];
    var feedback := FeedbackResponse(key, cur.id, cur.text, text, parsed.sentiment);
    if next.Some? {
      frames := [Tts(parsed.transition + " " + next.value.text)];
      writes := before + [feedback, ConversationMessage(key, next.value.text, next.value.qtype)];
      var progress := m.GetProgress(key);
      frames := frames + [ProgressData(progress.value.0, progress.value.1), End];
    } else {
      m.CompleteConversation(key);
      var responses := m.states[key].responses;
      frames := [Tts(flow.thankYouMessage), CompleteData(|responses|, parsed.sentiment), End];
      writes := before + [feedback, SessionMetrics(key, |responses|), AggregateMetrics(key, responses)];
    }
  }

  /** A `message` with text on the manager. */
  method HandleMessage(m: FlowManager, key: string, text: string, now: int, fetched: Option<FlowRow>, llmReply: Option<string>)
    returns (frames: seq<Frame>, writes: seq<DbWrite>)
    requires m.Valid()
    modifies m
    ensures Outcome(World(m.states, m.cache), frames, writes) ==
            MessageTurn(World(old(m.states), old(m.cache)), key, text, now, fetched, llmReply)
    ensures m.Valid()
  {
    writes := [];
    var found := m.GetConversationState(key);
    if found.None? {
      var _ := m.InitializeConversation(key, now, fetched);
      writes := [EnsureSession(key, None)];
    }
    assert (World(m.states, m.cache), writes) == MessageWorld(World(old(m.states), old(m.cache)), key, now, fetched);
    if FeedbackAnalyzer.DetectSkipIntent(text) {
      frames, writes := HandleSkip(m, key, writes);
      return;
    }
    var current := m.GetCurrentQuestion(key);
    assert current == Current(m.states[key]);
    if current.None? {
      frames := [Tts(NoCurrentQuestion), End];
      return;
    }
    if llmReply.None? {
      frames := [Tts(ProcessingError), End];
      return;
    }
    var parsed := FeedbackAnalyzerStreaming.ParseReply(llmReply.value);
    frames, writes := HandleAnswer(m, key, text, current.value, parsed, writes);
  }

  /** `POST`: dispatches one request against the manager and returns what was streamed and written. */
  method Handle(m: FlowManager, req: Request, now: int, fetched: Option<FlowRow>, llmReply: Option<string>)
    returns (frames: seq<Frame>, writes: seq<DbWrite>)
    requires m.Valid()
    modifies m
    ensures Outcome(World(m.states, m.cache), frames, writes) == Turn(World(old(m.states), old(m.cache)), req, now, fetched, llmReply)
    ensures m.Valid()
  {
    var key := ConversationKey(req.conversationId, req.sessionId);
    match req.event
    case SessionStart =>
      frames, writes := HandleStart(m, key, now, fetched);
    case SessionEnd =>
      m.CleanupConversation(key);
      frames, writes := [End], [];
    case Message =>
      if req.text.Some? && req.text.value != "" {
        frames, writes := HandleMessage(m, key, req.text.value, now, fetched, llmReply);
      } else {
        frames, writes := [End], [];
      }
    case _ =>
      frames, writes := [End], [];
  }
}

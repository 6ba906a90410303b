# surveybuster core, in Dafny

surveybuster is a voice feedback widget. A visitor talks to an agent. The agent
walks them through a survey (a question flow with optional follow-up questions)
and answers questions about the Huberman Lab podcast from an FAQ corpus. This
project models the deterministic server-side core and proves properties of it.

- **Question flow manager** (`question_flow_manager.dfy`). This is the survey
  state machine. A `FlowManager` class holds the map from session id to
  `ConversationState` and the five-minute cache of the active question flow. Its
  methods are proved against pure functions on the state (`Fresh`, `Next`,
  `Current`, `Progress`, `ActiveFlow`). They keep a class invariant: every stored
  state is consistent and filed under its own id.
- **Voice webhook** (`webhook.dfy`). For each event it drives the flow manager.
  It produces the spoken text and data frames sent down the stream, and the
  database writes it starts. `Webhook.Handle` runs on the manager. Its contract
  ties it to the pure turn function `Webhook.Turn`, and the lemmas about the
  sequencing of a turn are proved on that function.
- **Text classifiers around the language model**:
  - the rating extractor, the skip detector and the post-processing of model
    replies (`feedback_analyzer.dfy`);
  - the `SENTIMENT:`/`TRANSITION:` reply parser (`feedback_analyzer_streaming.dfy`);
  - the `none`/`CONTEXT`/`MATCH:n`/`PARTIAL:n`/`NATURAL:` reply parser
    (`faq_ai_matcher.dfy`);
  - the `[NO_MATCH]`/`[FAQ:n]` marker parser with its heuristics
    (`faq_ai_matcher_streaming.dfy`);
  - the FAQ numbering and the history trimming that both matchers share
    (`faq_data.dfy`).
- **Lexical FAQ matcher** (`faq_matcher.dfy`). This is Jaccard similarity of word
  sets plus a containment bonus, with a 0.6 threshold and a keyword-to-category
  fallback.
- **URL extractor** (`url_extractor.dfy`). It builds links for an FAQ answer.
- **Smaller pieces**:
  - the Gemini message conversion and provider selection (`ai_provider.dfy`);
  - the completion metrics and the insert-if-absent session row
    (`feedback_storage.dfy`);
  - the tracking counters (`track.dfy`);
  - the keyword resource list of the single-call OpenAI helper (`openai.dfy`).

Shared helpers live in three modules:
- `wrappers.dfy`: `Option`.
- `text.dfy`: the JavaScript string operations used, with ASCII case mapping and
  JavaScript's whitespace set for `trim`.
- `numbers.dfy`: `parseInt` and `parseFloat` as decimal-prefix parsers, and the
  clamp to [-1, 1].

Language-model replies, database rows, the clock and the environment setting are
all parameters. A language-model reply is an `Option` whose `None` stands for a
failed call. The exceptions are `OpenAiHelper` and `AiProvider.OpenAiText`, where
`None` is completion content that came back missing (null); a failed call there
is not modelled. A database row that is `None` is absent or could not be read.
Sentiments and similarity scores are `real`.

### Behaviour of the code worth noting

- `extractRating` (src/lib/feedback-analyzer.ts:87-106) checks the first number
  against the range and, when it is above 10, goes on to the number-word search.
  So "15 out of ten" rates 10 (`RatingFallsThrough`, `RatingFifteenOutOfTen`).
- `extractURLsFromAnswer` (src/lib/url-extractor.ts:24-71) pushes one link per
  pattern match without checking for duplicates. Only the vague-phrase stage
  (lines 92-106) checks for an existing address (`ExplicitLinksInOrder`,
  `VagueOnlyAppendsNew`).
- `ensureSession` (src/lib/feedback-storage.ts:165) takes a session id and a page
  address. The webhook calls it with the question count as a third argument,
  which JavaScript drops. On session start the page address is `'widget'`; when
  a message restores a missing session, no address is passed
  (`Webhook.StartGreets`, `Webhook.MessageRestoresMissingState`).
- Three decline patterns of the streaming matcher contain a capital `I`
  (src/lib/faq-ai-matcher-streaming.ts:198, 210, 211). They are compared with the
  lower-cased reply, so they never match (`CapitalPatternsNeverMatch`).
- The empty-union guard of `calculateSimilarity` (src/lib/faq-matcher.ts:54)
  cannot fire, because splitting on whitespace always yields at least one word
  (`UnionNeverEmpty`).
- `getNextQuestion` hands out a pending follow-up before anything else. A skip
  while a follow-up is pending is therefore answered with that follow-up
  (`NextReturnsPending`).
- The in-memory session map has no size cap. A session leaves it only through
  `cleanupConversation`.
- The webhook files an answer to a follow-up under the main question's id
  (`FollowUpAnswerFiledUnderMainQuestion`).

## Model

| member | source | states |
|---|---|---|
| QuestionFlowManager.FallbackQuestionFlow | src/lib/question-flow-manager.ts:95-124 | the built-in flow has four questions; the second is a rating and the other three are open, and none has a follow-up |
| QuestionFlowManager.FlowFromRow | src/lib/question-flow-manager.ts:78-84 | a database flow keeps the row's id, name and questions, with the fixed welcome and thank-you messages |
| QuestionFlowManager.CachedFlowServedWithinWindow | src/lib/question-flow-manager.ts:55-57 | once a flow is read, every request in the next five minutes gets that flow, whatever the database would return |
| QuestionFlowManager.FailedReadNotCached | src/lib/question-flow-manager.ts:71-75 | a failed read gives the fallback flow and leaves the cache untouched, so the next request reads again |
| QuestionFlowManager.CacheExpires | src/lib/question-flow-manager.ts:55-87 | after five minutes a new read replaces the cached flow and restamps the cache |
| QuestionFlowManager.NegativeTriggerIff | src/lib/question-flow-manager.ts:236-243 | `negative` fires iff the sentiment is below -0.2 or a negative keyword occurs in the lower-cased answer |
| QuestionFlowManager.PositiveTriggerIff | src/lib/question-flow-manager.ts:245-252 | `positive` fires iff the sentiment is above 0.3 or a positive keyword occurs |
| QuestionFlowManager.SpecificAnswerIsContainsNo | src/lib/question-flow-manager.ts:254-257 | `specific_answer` fires iff the answer contains "no" (which "not" contains), sentiment ignored |
| QuestionFlowManager.SpecificAnswerImpliesNegative | src/lib/question-flow-manager.ts:236-257 | every answer that fires `specific_answer` also fires `negative`, for any sentiment |
| QuestionFlowManager.KnowTriggersSpecificAnswer | src/lib/question-flow-manager.ts:254-257 | "I know" fires `specific_answer`, because substring matching finds "no" in "know" |
| QuestionFlowManager.FreshConsistent | src/lib/question-flow-manager.ts:129-142 | a new state is consistent, its current question is the flow's first, and progress reads (1, number of questions) |
| QuestionFlowManager.NextPreservesConsistent | src/lib/question-flow-manager.ts:179-223 | getting the next question keeps the invariant, raises the index by at most one, never lowers it, never un-completes, and keeps responses, flow and id |
| QuestionFlowManager.NextReturnsPending | src/lib/question-flow-manager.ts:190-195 | a pending follow-up is returned and cleared, and the index stays put |
| QuestionFlowManager.FollowUpReturnedTwice | src/lib/question-flow-manager.ts:190-211 | a follow-up that fires is returned without advancing and left pending, so the next call returns the same question again, and only then is the slot empty |
| QuestionFlowManager.NextAdvances | src/lib/question-flow-manager.ts:213-222 | with no follow-up the index rises by exactly one; running past the last question completes the conversation and returns nothing, and otherwise the next question is returned |
| QuestionFlowManager.NoAnswerNoFollowUp | src/lib/question-flow-manager.ts:197-199 | with no answer, or an empty one, no follow-up can fire |
| QuestionFlowManager.ProgressInRange | src/lib/question-flow-manager.ts:284-292 | while a conversation is unfinished, progress lies between 1 and the number of questions |
| QuestionFlowManager.CurrentIgnoresPending | src/lib/question-flow-manager.ts:297-302 | the current question does not depend on the pending follow-up |
| QuestionFlowManager.StoreKeepsConsistent | src/lib/question-flow-manager.ts:154-173 | storing a response adds exactly one, keeps the invariant and leaves the current question unchanged |
| QuestionFlowManager.CompletedConsistent | src/lib/question-flow-manager.ts:267-272 | completing keeps the invariant, and afterwards there is no current question |
| QuestionFlowManager.SkippingWalksTheFlow | src/lib/question-flow-manager.ts:179-223 | n answerless calls from a fresh state reach index n, complete exactly when n > 0 and n covers every question, and leave nothing pending |
| QuestionFlowManager.FlowManager.GetActiveQuestionFlow | src/lib/question-flow-manager.ts:51-90 | returns the flow and updates the cache as the cache rule says; sessions untouched |
| QuestionFlowManager.FlowManager.InitializeConversation | src/lib/question-flow-manager.ts:129-142 | registers a fresh state (index 0, no responses, not complete, nothing pending) under the id, replacing any earlier one; other ids untouched |
| QuestionFlowManager.FlowManager.GetConversationState | src/lib/question-flow-manager.ts:147-149 | the stored state, or none exactly when the id is unknown |
| QuestionFlowManager.FlowManager.StoreResponse | src/lib/question-flow-manager.ts:154-173 | appends exactly one response to a known session; an unknown session is a no-op |
| QuestionFlowManager.FlowManager.GetNextQuestion | src/lib/question-flow-manager.ts:179-223 | none and no change for an unknown session; otherwise the session's state and the result are those of `Next` |
| QuestionFlowManager.FlowManager.CompleteConversation | src/lib/question-flow-manager.ts:267-272 | sets only the completion flag of a known session |
| QuestionFlowManager.FlowManager.CleanupConversation | src/lib/question-flow-manager.ts:277-279 | removes that session and only it |
| QuestionFlowManager.FlowManager.GetProgress | src/lib/question-flow-manager.ts:284-292 | (index + 1, number of questions), or none exactly for an unknown session |
| QuestionFlowManager.FlowManager.GetCurrentQuestion | src/lib/question-flow-manager.ts:297-302 | none for an unknown or complete session; for a known, unfinished session with the index inside the flow, exactly the main question at the index |
| Webhook.ConversationKey | src/app/api/layercode/webhook/route.ts:63 | the conversation id, else the session id, else "unknown", an empty id counting as missing |
| Webhook.TurnPreservesValid | src/app/api/layercode/webhook/route.ts:65-276 | every event keeps the manager's invariant |
| Webhook.StartKeepsValid | src/app/api/layercode/webhook/route.ts:67-110 | session start keeps the invariant |
| Webhook.MessageKeepsValid | src/app/api/layercode/webhook/route.ts:132-274 | a message keeps the invariant on every path |
| Webhook.MessageWorldKeepsValid | src/app/api/layercode/webhook/route.ts:135-142 | restoring a missing state keeps the invariant |
| Webhook.SkipKeepsValid | src/app/api/layercode/webhook/route.ts:145-171 | a skip keeps the invariant |
| Webhook.AnswerKeepsValid | src/app/api/layercode/webhook/route.ts:198-269 | an answer keeps the invariant |
| Webhook.StartGreets | src/app/api/layercode/webhook/route.ts:71-100 | session start creates a fresh state, speaks the welcome message, a space and the first question, sends progress (1, N), and writes the session (page 'widget') and the first question |
| Webhook.StartWithEmptyFlowApologizes | src/app/api/layercode/webhook/route.ts:71-106 | an empty flow gets the start apology, although the state was already registered |
| Webhook.EndForgetsSession | src/app/api/layercode/webhook/route.ts:112-118 | session end removes that session's state and no other, and writes nothing |
| Webhook.QuietEventsChangeNothing | src/app/api/layercode/webhook/route.ts:120-130 | update, interim, unknown events and messages without text change nothing and only end the stream |
| Webhook.MessageRestoresMissingState | src/app/api/layercode/webhook/route.ts:135-142 | a message for an unknown session registers a fresh state, and its first write is the session row with no page address |
| Webhook.MessageWritesFollowRestore | src/app/api/layercode/webhook/route.ts:132-274 | whatever a message does, its writes come after the restore write and the session stays registered |
| Webhook.SkipRecordsNothing | src/app/api/layercode/webhook/route.ts:145-171 | a skip records no response, leaves no follow-up pending and advances by at most one question |
| Webhook.AnswerRecordsOneResponse | src/app/api/layercode/webhook/route.ts:174-201 | an answer appends exactly one response: the current question's id and text, the answer, and the sentiment parsed from the model's reply |
| Webhook.FollowUpAnswerFiledUnderMainQuestion | src/app/api/layercode/webhook/route.ts:174-208 | while a follow-up is pending, the answer is filed under the main question's id, and the same follow-up is asked again after the transition |
| Webhook.CompletedSessionThanks | src/app/api/layercode/webhook/route.ts:174-181 | in a completed session a non-skip message only gets "Thank you for your feedback!" and changes nothing |
| Webhook.LastAnswerCompletes | src/app/api/layercode/webhook/route.ts:240-266 | answering the last question with no follow-up completes the session, thanks the user, and reports the response count with the last sentiment as the average |
| Webhook.HandleStart | src/app/api/layercode/webhook/route.ts:67-110 | the start branch on the manager produces exactly the start turn's frames, writes and state |
| Webhook.HandleSkip | src/app/api/layercode/webhook/route.ts:145-171 | the skip branch on the manager agrees with the skip turn |
| Webhook.HandleAnswer | src/app/api/layercode/webhook/route.ts:186-269 | the answer branch on the manager agrees with the answer turn |
| Webhook.HandleMessage | src/app/api/layercode/webhook/route.ts:132-274 | the message branch on the manager agrees with the message turn |
| Webhook.Handle | src/app/api/layercode/webhook/route.ts:60-130 | the whole dispatch on the manager agrees with `Turn` and keeps the manager valid |
| FeedbackAnalyzer.ExtractRating | src/lib/feedback-analyzer.ts:83-109 | a rating lies in [0, 10]; no rating means that no number word occurs in the lower-cased text |
| FeedbackAnalyzer.TokenEnd | src/lib/feedback-analyzer.ts:87 | a number token `\d+(\.\d+)?` bounded by non-word characters on both sides; the fraction is taken whenever a dot, a digit and a closing boundary follow, otherwise the match ends after the whole digits ("7.5" is one token) |
| FeedbackAnalyzer.TokenValue | src/lib/feedback-analyzer.ts:89 | `parseFloat` of a token: plain digits give their decimal value, `digits.digits` its whole part plus its fraction |
| FeedbackAnalyzer.FirstToken | src/lib/feedback-analyzer.ts:87 | the leftmost such token; none exactly when no position starts one |
| FeedbackAnalyzer.WordRating | src/lib/feedback-analyzer.ts:97-108 | the first number word, in the order zero to ten, that occurs; none exactly when none occurs |
| FeedbackAnalyzer.RatingFromFirstToken | src/lib/feedback-analyzer.ts:87-94 | a first number in range is the rating, including decimals, whatever follows |
| FeedbackAnalyzer.RatingFallsThrough | src/lib/feedback-analyzer.ts:91-106 | a first number above 10 falls through to the number-word search |
| FeedbackAnalyzer.RatingOfWordsOnly | src/lib/feedback-analyzer.ts:97-106 | with no digit, the rating is the first number word present |
| FeedbackAnalyzer.RatingWithoutToken | src/lib/feedback-analyzer.ts:87-106 | with no bounded number token (digits inside a word, as in "8th"), the rating exists iff a number word occurs, and is the first one |
| FeedbackAnalyzer.RatingOfDigitsToken | src/lib/feedback-analyzer.ts:87-93 | a first token of plain digits worth at most 10 is the rating, read as a decimal |
| FeedbackAnalyzer.RatingOfDecimalToken | src/lib/feedback-analyzer.ts:87-93 | a first token `digits.digits` worth at most 10 is the rating, whole part plus fraction |
| FeedbackAnalyzer.DecimalTokenValue | src/lib/feedback-analyzer.ts:89 | the token `digits.digits` is worth its whole part plus its fraction |
| FeedbackAnalyzer.RatingSevenPointFive | src/lib/feedback-analyzer.ts:83-93 | "7.5" rates 7.5 |
| FeedbackAnalyzer.RatingTrailingDigit | src/lib/feedback-analyzer.ts:83-94 | "I would rate it an 8" rates 8 |
| FeedbackAnalyzer.RatingEightOutOfTen | src/lib/feedback-analyzer.ts:97-106 | "eight out of ten" rates 8 |
| FeedbackAnalyzer.RatingSeven | src/lib/feedback-analyzer.ts:97-106 | "seven" rates 7 |
| FeedbackAnalyzer.RatingTen | src/lib/feedback-analyzer.ts:87-93 | "10" rates 10; the upper bound is included |
| FeedbackAnalyzer.RatingFifteenOutOfTen | src/lib/feedback-analyzer.ts:87-106 | "15 out of ten" rates 10 through the word search |
| FeedbackAnalyzer.RatingNotSure | src/lib/feedback-analyzer.ts:83-108 | "not sure" has no rating |
| FeedbackAnalyzer.DetectSkipIntent | src/lib/feedback-analyzer.ts:158-177 | true iff one of the thirteen phrases occurs in the lower-cased text |
| FeedbackAnalyzer.SkipIgnoresCase | src/lib/feedback-analyzer.ts:159 | detection does not depend on the case of the text |
| FeedbackAnalyzer.SkipSurvivesContext | src/lib/feedback-analyzer.ts:176 | surrounding a skip request with more text keeps it a skip request |
| FeedbackAnalyzer.SkipOnRecommend | src/lib/feedback-analyzer.ts:169-176 | "I would recommend it" counts as a skip, because "recommend" contains "end" |
| FeedbackAnalyzer.SkipOnSkipWord | src/lib/feedback-analyzer.ts:161-176 | "I want to skip this" is a skip request |
| FeedbackAnalyzer.SkipOnNextQuestion | src/lib/feedback-analyzer.ts:163-176 | "next question please" is a skip request |
| FeedbackAnalyzer.SkipOnDontKnow | src/lib/feedback-analyzer.ts:165-176 | "I don't know" is a skip request |
| FeedbackAnalyzer.SkipOnPass | src/lib/feedback-analyzer.ts:162-176 | "pass" is a skip request |
| FeedbackAnalyzer.NoSkipInPlainAnswer | src/lib/feedback-analyzer.ts:158-177 | "This is my answer" is not a skip request |
| FeedbackAnalyzer.CategoryFallback | src/lib/feedback-analyzer.ts:148 | the first category when there is one and it is non-empty, otherwise "Uncategorized" |
| FeedbackAnalyzer.PickCategory | src/lib/feedback-analyzer.ts:140-151 | a trimmed reply that is one of the categories is returned; any other reply, and a failed call, gives `CategoryFallback` |
| FeedbackAnalyzer.PickCategoryRejectsUnknown | src/lib/feedback-analyzer.ts:143-148 | a reply that is not a category gives the same result as a failed call |
| FeedbackAnalyzer.AnalyzeSentiment | src/lib/feedback-analyzer.ts:27-38 | the sentiment lies in [-1, 1], and is 0 on an unreadable reply or a failed call |
| FeedbackAnalyzer.SentimentWithinRange | src/lib/feedback-analyzer.ts:27-35 | a reading already in range is returned as is |
| FeedbackAnalyzer.GenerateTransition | src/lib/feedback-analyzer.ts:72-75 | "Thanks for sharing." on a failed call; otherwise no quote mark, no longer than the reply, and every other character occurs exactly as often as in the trimmed reply |
| FeedbackAnalyzer.TransitionKeepsCleanReply | src/lib/feedback-analyzer.ts:72 | a reply without quote marks that neither starts nor ends with whitespace, multi-word ones included, comes through unchanged |
| FeedbackAnalyzer.TransitionStripsPaddingAndQuotes | src/lib/feedback-analyzer.ts:72 | whitespace around the reply is dropped and the quote marks inside it are removed, the other characters kept in order |
| FeedbackAnalyzerStreaming.SignedNumberEnd | src/lib/feedback-analyzer-streaming.ts:123 | `-?\d+\.?\d*` matches exactly where a digit, or a minus sign and a digit, starts |
| FeedbackAnalyzerStreaming.FirstSentimentAt | src/lib/feedback-analyzer-streaming.ts:123 | the leftmost position where the sentiment pattern matches |
| FeedbackAnalyzerStreaming.FirstTransitionAt | src/lib/feedback-analyzer-streaming.ts:124 | the leftmost position where the transition pattern matches |
| FeedbackAnalyzerStreaming.FallbackTransition | src/lib/feedback-analyzer-streaming.ts:135-139 | "That's great!" above 0.3, "I understand." below -0.3, else "Thanks for sharing." |
| FeedbackAnalyzerStreaming.CleanTransition | src/lib/feedback-analyzer-streaming.ts:130-132 | the captured phrase, trimmed, with no quote mark left |
| FeedbackAnalyzerStreaming.ParsedSentiment | src/lib/feedback-analyzer-streaming.ts:123-128 | the sentiment lies in [-1, 1], and is 0 when the pattern does not match |
| FeedbackAnalyzerStreaming.ParseReply | src/lib/feedback-analyzer-streaming.ts:122-141 | one parse of the same text gives both results; the transition is never empty, and the fallback depends on the parsed sentiment |
| FeedbackAnalyzerStreaming.RequestedFormatParses | src/lib/feedback-analyzer-streaming.ts:102-141 | a reply in exactly the requested two-line format parses back to its number, clamped, and its phrase |
| FeedbackAnalyzerStreaming.BareFractionReadsZero | src/lib/feedback-analyzer-streaming.ts:123-139 | "SENTIMENT: .5" has no match, so the sentiment is 0 and the phrase is the neutral fallback |
| FeedbackAnalyzerStreaming.BlankTransitionFallsBack | src/lib/feedback-analyzer-streaming.ts:124-135 | a transition field of spaces only trims to nothing, so the fallback is used |
| FeedbackAnalyzerStreaming.AnalyzeSentimentFast | src/lib/feedback-analyzer-streaming.ts:173-181 | the value lies in [-1, 1], and is 0 when the trimmed text does not parse |
| Numbers.ReadSentiment | src/lib/feedback-analyzer.ts:27-35 | `parseFloat` clamped to [-1, 1], with 0 for NaN |
| Numbers.Clamp | src/lib/feedback-analyzer.ts:35 | `Math.max(-1, Math.min(1, x))`: within range x is kept, and beyond it the nearer bound is used |
| Numbers.ParseIntOfDigits | src/lib/faq-ai-matcher.ts:147 | `parseInt` of decimal digits is their decimal value |
| Numbers.ParseFloatOfDigits | src/lib/feedback-analyzer.ts:89 | `parseFloat` of decimal digits is their decimal value |
| Numbers.ParseFloatOfDecimal | src/lib/feedback-analyzer.ts:89 | `parseFloat` of `digits.digits` is the whole part plus the fraction |
| FaqData.NumberFaqs | src/lib/faq-ai-matcher.ts:28-41 | the nested numbering loop yields the numbered list: contiguous numbers 1..N in category-then-question order, one entry per question |
| FaqData.FaqNumbered | src/lib/faq-ai-matcher.ts:164-170 | FAQ n exists exactly for 1 <= n <= N, and it is entry n - 1 |
| FaqData.FindFaq | src/lib/faq-ai-matcher-streaming.ts:164-180 | the counting lookup with breaks finds exactly the FAQ with that number |
| FaqData.LookupAgreesWithNumbering | src/lib/faq-ai-matcher-streaming.ts:45-58 | the number shown in the prompt is resolved by the lookup to the same FAQ |
| FaqData.ValidateFaqData | src/lib/faq-ai-matcher.ts:257-271 | counts the categories and questions; valid iff there is at least one question |
| FaqData.RecentHistory | src/lib/faq-ai-matcher.ts:61-71 | at most four messages: the last ones of the non-system history, in order |
| FaqData.NonSystem | src/lib/faq-ai-matcher.ts:64 | keeps exactly the non-system messages |
| FaqData.NonSystemAppend | src/lib/faq-ai-matcher.ts:64 | filtering keeps order: the non-system messages of a joined history are those of each part, joined |
| FaqData.RecentHistoryKeepsLatest | src/lib/faq-ai-matcher.ts:63-65 | no system message reaches the prompt, and a non-system latest message always does |
| FaqData.ShortHistoryShownWhole | src/lib/faq-ai-matcher.ts:63-65 | a history of at most four non-system messages is shown whole |
| FaqAiMatcher.DeclineText | src/lib/faq-ai-matcher.ts:238-250 | the model's decline when non-empty, else "I don't have information about that." |
| FaqAiMatcher.NaturalFrom | src/lib/faq-ai-matcher.ts:159-161 | the trimmed text after a leading `NATURAL:` in any case, else empty |
| FaqAiMatcher.NumberedMatch | src/lib/faq-ai-matcher.ts:164-177 | a match exactly for a number in 1..N, otherwise no result |
| FaqAiMatcher.MatchFaq | src/lib/faq-ai-matcher.ts:106-182 | a decline iff the reply is "none" in any case, with the decline text; a failed call gives no result |
| FaqAiMatcher.ContextAnswersFromBackground | src/lib/faq-ai-matcher.ts:129-143 | a `CONTEXT` first line answers the user's own question: category "About Dr. Huberman", high confidence, answer equal to the natural answer, no number check |
| FaqAiMatcher.MatchIsNumberedFaq | src/lib/faq-ai-matcher.ts:146-176 | any other match is the FAQ whose number the reply names, in 1..N, with medium confidence exactly for `PARTIAL:` |
| FaqAiMatcher.BadNumberFails | src/lib/faq-ai-matcher.ts:164-167 | an unparsable or out-of-range number gives no result rather than a decline |
| FaqAiMatcher.NaturalFallsBackToAnswer | src/lib/faq-ai-matcher.ts:174 | without a natural line the FAQ's own answer is spoken |
| FaqAiMatcher.MatchLineChoosesFaq | src/lib/faq-ai-matcher.ts:146-176 | `MATCH:n` with a natural line picks FAQ n with high confidence and that natural answer |
| FaqAiMatcher.MatchTwoExample | src/lib/faq-ai-matcher.ts:120-176 | "MATCH:2" then "NATURAL: Sure." picks FAQ 2 with the answer "Sure." |
| FaqAiMatcher.NoneInAnyCaseDeclines | src/lib/faq-ai-matcher.ts:114-117 | "NoNe" declines, with the stock sentence when the decline call fails or returns nothing |
| FaqAiMatcher.JoinUnique | src/lib/faq-ai-matcher.ts:120 | splitting on line breaks is unambiguous: two lists of lines without breaks that join to the same text are equal |
| FaqAiMatcherStreaming.FaqMarker | src/lib/faq-ai-matcher-streaming.ts:159-161 | a leading `[FAQ:digits]`, with the decimal value of the digits and the marker's length |
| FaqAiMatcherStreaming.Heuristic | src/lib/faq-ai-matcher-streaming.ts:193-242 | unmatched iff a decline pattern occurs; otherwise matched with the guessed category, and the reply unchanged |
| FaqAiMatcherStreaming.StreamMetadata | src/lib/faq-ai-matcher-streaming.ts:140-243 | `[NO_MATCH]` gives unmatched with the rest trimmed; a reported FAQ number comes from a marker naming an existing FAQ, with its category, answer and the marker-stripped trimmed text |
| FaqAiMatcherStreaming.ExtractStreamMetadata | src/lib/faq-ai-matcher-streaming.ts:140-243 | the branches with the counting lookup compute exactly `StreamMetadata` |
| FaqAiMatcherStreaming.MarkerNamesPromptedFaq | src/lib/faq-ai-matcher-streaming.ts:159-190 | the FAQ numbered n in the prompt is the one whose category and answer come back for `[FAQ:n]` |
| FaqAiMatcherStreaming.UnknownNumberFallsThrough | src/lib/faq-ai-matcher-streaming.ts:182-193 | a marker naming no FAQ is left to the heuristics and stays in the text |
| FaqAiMatcherStreaming.DeclineLeavesReplyUnmatched | src/lib/faq-ai-matcher-streaming.ts:214-220 | without a marker, the reply is unmatched iff it reads as a decline, and is unchanged |
| FaqAiMatcherStreaming.CapitalPatternsNeverMatch | src/lib/faq-ai-matcher-streaming.ts:198-216 | "outside what I can", "I focus on" and "I'm here to help with" never occur in a lower-cased reply |
| FaqAiMatcherStreaming.CategoryIsFirstHit | src/lib/faq-ai-matcher-streaming.ts:226-240 | the category is that of the first keyword pair, in priority order, that occurs |
| FaqAiMatcherStreaming.NoKeywordGeneral | src/lib/faq-ai-matcher-streaming.ts:223-242 | with no keyword the category is "General" |
| FaqAiMatcherStreaming.GeneralOnlyWithoutKeyword | src/lib/faq-ai-matcher-streaming.ts:223-242 | "General" comes only when no keyword occurs |
| FaqMatcher.Similarity | src/lib/faq-matcher.ts:44-65 | the similarity lies in [0, 1] |
| FaqMatcher.SimilaritySymmetric | src/lib/faq-matcher.ts:44-65 | the similarity does not depend on the order of its arguments |
| FaqMatcher.SameTextScoresOne | src/lib/faq-matcher.ts:57-64 | a text scores exactly 1 against itself |
| FaqMatcher.UnionNeverEmpty | src/lib/faq-matcher.ts:45-54 | the union of the two word sets is never empty, so the zero guard cannot fire |
| FaqMatcher.DisjointScoresZero | src/lib/faq-matcher.ts:50-62 | disjoint word sets without containment score 0 |
| FaqMatcher.ContainmentScoresBonus | src/lib/faq-matcher.ts:60-64 | when either text contains the other, the score is at least 0.3 |
| FaqMatcher.WordSet | src/lib/faq-matcher.ts:45-46 | the word set of any text is non-empty |
| FaqMatcher.Scores | src/lib/faq-matcher.ts:18-21 | one score per FAQ, in corpus order, against its lower-cased question |
| FaqMatcher.BestIsEarliestMaximum | src/lib/faq-matcher.ts:22-31 | the best is the earliest FAQ with the highest score above 0.6; there is none iff no score exceeds 0.6 |
| FaqMatcher.MatchFaq | src/lib/faq-matcher.ts:11-42 | the scanning loop over categories and questions returns exactly `Match`: the lexical best, otherwise the keyword fallback |
| FaqMatcher.ScanCategory | src/lib/faq-matcher.ts:19-32 | scanning one category keeps the best, its score and its match in step with the entries read |
| FaqMatcher.KeywordMatch | src/lib/faq-matcher.ts:67-101 | the nested keyword loop with early return computes `KeywordFrom` |
| FaqMatcher.FindCategory | src/lib/faq-matcher.ts:82-84 | the first category whose lower-cased name contains the key, or none when no name does |
| FaqMatcher.KeywordAnswer | src/lib/faq-matcher.ts:86-93 | a keyword match has confidence 0.5 |
| FaqMatcher.KeywordConfidenceBelowThreshold | src/lib/faq-matcher.ts:91 | every keyword match has confidence 0.5, below the lexical threshold |
| FaqMatcher.KeywordIsFirstFiringRow | src/lib/faq-matcher.ts:78-100 | a keyword match exists iff some row fires, and it is the first usable category of the first row that fires |
| FaqMatcher.LexicalBeforeKeywords | src/lib/faq-matcher.ts:36-41 | if any FAQ scores above 0.6, the result is lexical, with at least that score |
| FaqMatcher.ExactQuestionMatches | src/lib/faq-matcher.ts:12-31 | a question equal, after normalising, to an FAQ's lower-cased question matches with confidence 1 |
| FaqMatcher.ResourcesDistinctAndComplete | src/lib/faq-matcher.ts:103-120 | the resources are distinct, and are exactly the answer's links plus the homepage when "hubermanlab.com" occurs |
| FaqMatcher.ResourcesAreLinks | src/lib/faq-matcher.ts:107-117 | every resource is the homepage or an http(s) link without spaces that occurs in the answer |
| UrlExtractor.Clean | src/lib/url-extractor.ts:32 | at most one trailing `. , ; ! ?` is removed |
| UrlExtractor.Href | src/lib/url-extractor.ts:42-44 | the address starts with "http": the cleaned match itself, or "https://" plus it |
| UrlExtractor.WithoutSchemeAndWww | src/lib/url-extractor.ts:61-63 | an "https://" or "http://" prefix is removed, and then a "www." right after it; text without a scheme is unchanged |
| UrlExtractor.Candidate | src/lib/url-extractor.ts:24-71 | a candidate yields a link iff it is no abbreviation and the cleaned text looks like a domain |
| UrlExtractor.CandidateLink | src/lib/url-extractor.ts:27-70 | a link's address starts with "http" and ends with the cleaned match, whose part after its last dot has at least two characters |
| UrlExtractor.AbbreviationsSkipped | src/lib/url-extractor.ts:27-29 | candidates starting, in any case, with one of the ten abbreviations yield no link |
| UrlExtractor.ExtractUrlsFromAnswer | src/lib/url-extractor.ts:16-112 | the two loops compute `Extract`, and `hasLinks` holds iff there are links |
| UrlExtractor.AddVagueLinks | src/lib/url-extractor.ts:92-106 | the vague-phrase loop with its address scan computes `AddVague` |
| UrlExtractor.ExplicitLinksInOrder | src/lib/url-extractor.ts:24-71 | each candidate adds at most one link, in the order of the matches |
| UrlExtractor.VagueOnlyAppendsNew | src/lib/url-extractor.ts:92-106 | the vague stage keeps the explicit links in front, and each link it adds has an address no earlier link has |
| UrlExtractor.FiredAddressPresent | src/lib/url-extractor.ts:92-106 | a vague phrase that occurs leaves its address in the list |
| UrlExtractor.NewsletterAddedOnce | src/lib/url-extractor.ts:75-106 | either newsletter phrase yields the newsletter address, and the vague stage never adds an address twice |
| UrlExtractor.PublicationsImplyLabSite | src/lib/url-extractor.ts:84-88 | a mention of the lab site's publications also fires the general lab-site phrase |
| UrlExtractor.BareDomainLink | src/lib/url-extractor.ts:32-63 | "shop.hubermanlab.com." loses its full stop, is shown as written, and links to "https://" plus it |
| UrlExtractor.DoctorateIsNotALink | src/lib/url-extractor.ts:27-29 | "Ph.D", "Ph.D." and "ph.d" yield no link |
| AiProvider.ConvertMessages | src/lib/ai-provider.ts:71-98 | the conversion loop and the system-only case compute `GeminiMessages` |
| AiProvider.TurnPerSpokenMessage | src/lib/ai-provider.ts:74-90 | one turn per user or assistant message, in order, each ending with that message's text; assistant text unchanged, as role `model` |
| AiProvider.NoSystemJustRenames | src/lib/ai-provider.ts:74-90 | without system messages the conversion only renames the roles |
| AiProvider.ConversionExtends | src/lib/ai-provider.ts:74-90 | converting more messages only appends turns |
| AiProvider.SystemPromptJoinsFirstQuestion | src/lib/ai-provider.ts:75-83 | a system prompt followed by a question becomes one user turn: the prompt, a blank line, then the question |
| AiProvider.TurnsIffMessages | src/lib/ai-provider.ts:74-98 | the conversion is empty exactly for an empty message list |
| AiProvider.TrailingSystemTextDropped | src/lib/ai-provider.ts:92-98 | system text after the last spoken message is dropped |
| AiProvider.OnlySystemIsOneTurn | src/lib/ai-provider.ts:92-98 | system messages alone become a single user turn ending with the last one and a blank line |
| AiProvider.SettingsOf | src/lib/ai-provider.ts:39-40 | a missing temperature defaults to 0.3 and missing max tokens to 200 |
| AiProvider.GeminiRequestFor | src/lib/ai-provider.ts:100-110 | a request exists iff there are messages; the history followed by the sent text is the converted list |
| AiProvider.OpenAiText | src/lib/ai-provider.ts:43 | the trimmed content, or empty when there is none |
| AiProvider.Selected | src/lib/ai-provider.ts:126-143 | Gemini iff the setting, lower-cased, is "gemini"; otherwise OpenAI |
| AiProvider.ProviderRegistry.GetAiProvider | src/lib/ai-provider.ts:125-144 | returns the selected provider, built at most once and then reused, and at most two are ever built |
| FeedbackStorage.MeanWithinBounds | src/lib/feedback-storage.ts:96-100 | the mean of the present scores lies within their bounds, and is 0 when there are none |
| FeedbackStorage.MeanIgnoresMissing | src/lib/feedback-storage.ts:97 | a response without a score leaves the mean unchanged |
| FeedbackStorage.NoScoresIffNoneCollected | src/lib/feedback-storage.ts:97-100 | the mean is over nothing iff no response has a score |
| FeedbackStorage.Verdict | src/lib/feedback-storage.ts:123-131 | only a question mentioning "recommend" counts: "yes" scores 10, otherwise "no" scores 0, otherwise nothing |
| FeedbackStorage.NoScoreIffNoVerdict | src/lib/feedback-storage.ts:121-132 | the score stays null iff no response has a verdict |
| FeedbackStorage.NpsIsLastVerdict | src/lib/feedback-storage.ts:122-132 | a score is the verdict of the last response that has one |
| FeedbackStorage.NoRecommendNoScore | src/lib/feedback-storage.ts:120-132 | without a question mentioning "recommend" the score is null |
| FeedbackStorage.NpsValues | src/lib/feedback-storage.ts:121-130 | the score is null, 0 or 10 |
| FeedbackStorage.LastDecisiveAnswerWins | src/lib/feedback-storage.ts:122-132 | a later decisive answer overrides earlier ones |
| FeedbackStorage.Duration | src/lib/feedback-storage.ts:109-114 | whole seconds since the start, rounded down, and 0 when the start is unknown |
| FeedbackStorage.CalculateMetrics | src/lib/feedback-storage.ts:95-132 | the metrics of the responses, with a completion rate of 1 |
| FeedbackStorage.Ensured | src/lib/feedback-storage.ts:173-190 | adds a row with zero counts and the current time only for a missing id; existing rows are unchanged |
| FeedbackStorage.EnsureIdempotent | src/lib/feedback-storage.ts:179 | ensuring a session twice is the same as ensuring it once |
| FeedbackStorage.FeedbackDatabase.EnsureSession | src/lib/feedback-storage.ts:165-201 | the sessions table becomes `Ensured`, and the metrics are unchanged |
| FeedbackStorage.FeedbackDatabase.StoreMetrics | src/lib/feedback-storage.ts:83-159 | appends one metrics row, computed with the session's start time; sessions unchanged |
| FeedbackStorage.StartOf | src/lib/feedback-storage.ts:103-110 | the session's start time, present exactly when the row exists |
| Track.Given | src/app/api/track/route.ts:30 | a string field counts only when present and non-empty |
| Track.SessionKey | src/app/api/track/route.ts:13 | the body's session id, or "unknown" when it is missing or empty |
| Track.Bit | src/app/api/track/route.ts:29 | 1 for a matched question, else 0 |
| Track.TrackDatabase.Post | src/app/api/track/route.ts:10-83 | the tables and the answer after one request are those of `Posted` |
| Track.TrackKeepsConsistent | src/app/api/track/route.ts:22-58 | every session keeps 0 <= matched <= total, whatever fails |
| Track.NewSessionRow | src/app/api/track/route.ts:22-31 | a new session counts one question, matched when the body says so, with the body's page address or null |
| Track.KnownSessionIncrements | src/app/api/track/route.ts:39-43 | a known session gains one question, and one match when matched, a null count reading as 0, and gets an end time |
| Track.PageUrlSetOnce | src/app/api/track/route.ts:45-48 | a known session's page address is written only when it has none and the body brings one |
| Track.OnlyOwnSessionChanges | src/app/api/track/route.ts:16-70 | only the request's own session row changes, and the messages only grow |
| Track.MessageOnlyAfterSessionWrite | src/app/api/track/route.ts:33-78 | a message row is added iff the request succeeds, after the session write; a failed session write changes nothing |
| Track.UnreadableBodyIsSuccess | src/app/api/track/route.ts:79-82 | a body that cannot be read answers success and writes nothing |
| Track.MissingIdIsUnknown | src/app/api/track/route.ts:13 | a body without a session id is counted under "unknown" |
| OpenAiHelper.ExtractResources | src/lib/openai.ts:43-58 | each link is present iff its keyword occurs; at most three, distinct, in the order newsletter, premium, episodes |
| OpenAiHelper.ResponseText | src/lib/openai.ts:28 | the completion's content, or "I couldn't generate a response." when it is missing or empty |
| OpenAiHelper.GenerateResponse | src/lib/openai.ts:7-36 | the reply text, and the resources its words call for |

## Left out

- Network, SDK and database calls are not modelled. The language-model replies,
  the active flow row, the existing database rows and the clock are parameters.
  The database writes the webhook starts are returned as records.
- The database writes are not modelled as operations of their own.
  `storeFeedbackResponse`, `updateSessionMetrics` and `storeConversationMessage`
  are single inserts or updates whose failures are logged and swallowed. The
  webhook records them as `DbWrite` values.
- Concurrency is not modelled. The webhook starts some writes without awaiting
  them, so the model only fixes which writes a turn starts and their order,
  not when they complete.
- Floating point is not modelled. Sentiments and similarities are `real`, and
  NaN is `None`. `toFixed` only formats log lines.
- The JavaScript regular-expression engine is not modelled. Each pattern used
  is a small scanner. The URL extractor's domain pattern is not modelled: its
  matches are a parameter.
- Case mapping is ASCII only, since `toLowerCase` and `toUpperCase` on other
  letters are not modelled.
- The prompt texts and the knowledge-base context appended to them are left
  out, except the FAQ numbering and the history trimming.
- `getKnownURLMappings` in the URL extractor is not modelled. It returns a
  fixed table that no modelled function reads.
- `getCurrentProviderName` and `getName` are not modelled. They only name the
  provider for log lines.
- A missing API key when a provider is built is modelled only as the set `keys`
  of providers that can be built.
- `getAIModel` in the two streaming modules is not modelled. It builds an SDK
  model handle, and a failure there is the `None` reply.
- The Gemini reply's trim is not modelled separately. It is `Text.Trim`, as for
  OpenAI.
- The webhook's OPTIONS handling, header checks and outer error responses are
  not modelled, nor are the `stream` calls beyond the frames listed.
- The track endpoint's session lookup error is read as a missing row.
  `body.matched` is read as a boolean (its truthiness).
- OpenAiHelper.GenerateResponse: a failed completion call is caught, logged and
  rethrown as "Failed to generate response", so no reply and no resources come
  back. That path is not modelled; `content` is what a successful call returned.
- FaqMatcher.FaqMatch: resources are derived from the answer by `Resources()`
  rather than stored, which matches how the source builds them.
- FaqMatcher.ResourcesAreLinks: does not state that the homepage is itself a
  link; the homepage constant is.
- FeedbackStorage.FeedbackDatabase.EnsureSession: insert failures are swallowed
  in the source, so the model always inserts the missing row.

/**
 * The provider layer in front of the language models: the conversion of a chat
 * (system, user and assistant messages) into Gemini's two-role history, the
 * generation defaults, the clean-up of the returned text, and the choice of
 * provider from the environment, each provider built at most once.
 */
module AiProvider {
  import opened Wrappers
  import opened Text

  datatype Role = System | User | Assistant

  datatype AiMessage = AiMessage(role: Role, content: string)

  /** Gemini has no system role: its turns are the user's and the model's. */
  datatype GeminiRole = UserTurn | ModelTurn

  datatype GeminiMessage = GeminiMessage(role: GeminiRole, text: string)

  /** What the conversion loop holds: the turns so far and the system text not yet attached to a user turn. */
  datatype Conversion = Conversion(turns: seq<GeminiMessage>, context: string)

  const ContextSeparator: string := "\n\n"

  // ---------------------------------------------------------------------------
  // Message conversion
  // ---------------------------------------------------------------------------

  /**
   * One message read: system text is collected, a user message takes the
   * collected text in front of its own and clears it, an assistant message
   * becomes a model turn.
   */
  function Step(c: Conversion, m: AiMessage): Conversion {
    match m.role
    case System => Conversion(c.turns, c.context + m.content + ContextSeparator)
    case User =>
      var text := if c.context != "" then c.context + m.content else m.content;
      Conversion(c.turns + [GeminiMessage(UserTurn, text)], "")
    case Assistant => Conversion(c.turns + [GeminiMessage(ModelTurn, m.content)], c.context)
  }

  function ConvertAll(msgs: seq<AiMessage>): Conversion {
    if msgs == [] then Conversion([], "") else Step(ConvertAll(msgs[..|msgs| - 1]), msgs[|msgs| - 1])
  }

  /** The Gemini turns for a chat; system text with no turn at all becomes a user turn of its own. */
  function GeminiMessages(msgs: seq<AiMessage>): seq<GeminiMessage> {
    var c := ConvertAll(msgs);
    if c.context != "" && c.turns == [] then [GeminiMessage(UserTurn, c.context)] else c.turns
  }

  /** The non-system messages, in order. */
  function Spoken(msgs: seq<AiMessage>): seq<AiMessage> {
    if msgs == [] then []
    else
      var last := msgs[|msgs| - 1];
      Spoken(msgs[..|msgs| - 1]) + (if last.role == System then [] else [last])
  }

  function TurnRole(r: Role): GeminiRole {
    if r == User then UserTurn else ModelTurn
  }

  predicate EndsWith(s: string, t: string) {
    |t| <= |s| && s[|s| - |t|..] == t
  }

  /** The conversion loop of `GeminiProvider.generateCompletion`. */
  method ConvertMessages(msgs: seq<AiMessage>) returns (gemini: seq<GeminiMessage>)
    ensures gemini == GeminiMessages(msgs)
  {
    gemini := [];
    var systemContext := "";
    var i := 0;
    while i < |msgs|
      invariant 0 <= i <= |msgs|
      invariant Conversion(gemini, systemContext) == ConvertAll(msgs[..i])
    {
      assert msgs[..i + 1][..i] == msgs[..i];
      var msg := msgs[i];
      if msg.role == System {
        systemContext := systemContext + msg.content + ContextSeparator;
      } else if msg.role == User {
        var content := if systemContext != "" then systemContext + msg.content else msg.content;
        gemini := gemini + [GeminiMessage(UserTurn, content)];
        systemContext := "";
      } else {
        gemini := gemini + [GeminiMessage(ModelTurn, msg.content)];
      }
      i := i + 1;
    }
    assert msgs[..i] == msgs;
    if systemContext != "" && |gemini| == 0 {
      gemini := gemini + [GeminiMessage(UserTurn, systemContext)];
    }
  }

  /**
   * Each non-system message becomes exactly one turn, in order, with the role
   * renamed; an assistant's text is kept as is, and a user's text ends with the
   * user's words, whatever system text went in front of them.
   */
  lemma {:induction false} TurnPerSpokenMessage(msgs: seq<AiMessage>)
    ensures var turns := ConvertAll(msgs).turns;
      var spoken := Spoken(msgs);
      |turns| == |spoken| &&
      forall k :: 0 <= k < |turns| ==>
        turns[k].role == TurnRole(spoken[k].role) && EndsWith(turns[k].text, spoken[k].content) &&
        (spoken[k].role == Assistant ==> turns[k].text == spoken[k].content)
  {
    if msgs != [] {
      var init := msgs[..|msgs| - 1];
      TurnPerSpokenMessage(init);
      var m := msgs[|msgs| - 1];
      var c := ConvertAll(init);
      if m.role == User {
        var text := if c.context != "" then c.context + m.content else m.content;
        assert EndsWith(text, m.content) by {
          assert text[|text| - |m.content|..] == m.content;
        }
      }
    }
  }

  /** Without system messages the conversion only renames roles. */
  lemma {:induction false} NoSystemJustRenames(msgs: seq<AiMessage>)
    requires forall k :: 0 <= k < |msgs| ==> msgs[k].role != System
    ensures GeminiMessages(msgs) == seq(|msgs|, k requires 0 <= k < |msgs| => GeminiMessage(TurnRole(msgs[k].role), msgs[k].content))
    ensures ConvertAll(msgs).context == ""
  {
    if msgs != [] {
      NoSystemJustRenames(msgs[..|msgs| - 1]);
    }
  }

  /** The conversion of a longer chat extends that of any prefix: later messages never rewrite earlier turns. */
  lemma {:induction false} ConversionExtends(msgs: seq<AiMessage>, n: nat)
    requires n <= |msgs|
    ensures var before := ConvertAll(msgs[..n]).turns;
      var after := ConvertAll(msgs).turns;
      |before| <= |after| && after[..|before|] == before
    decreases |msgs|
  {
    if n < |msgs| {
      var init := msgs[..|msgs| - 1];
      assert msgs[..n] == init[..n];
      ConversionExtends(init, n);
    } else {
      assert msgs[..n] == msgs;
    }
  }

  /** A chat opening with a system prompt and a user message sends them as one first user turn, prompt first. */
  lemma SystemPromptJoinsFirstQuestion(msgs: seq<AiMessage>, prompt: string, question: string)
    requires |msgs| >= 2
    requires msgs[0] == AiMessage(System, prompt) && msgs[1] == AiMessage(User, question)
    ensures var gemini := GeminiMessages(msgs);
      gemini != [] && gemini[0] == GeminiMessage(UserTurn, prompt + ContextSeparator + question)
  {
    ConversionExtends(msgs, 2);
    var two := msgs[..2];
    assert two[..1] == [msgs[0]] && two[..1][..0] == [];
    assert ConvertAll(two[..1]) == Conversion([], prompt + ContextSeparator);
    assert ConvertAll(two).turns == [GeminiMessage(UserTurn, prompt + ContextSeparator + question)];
  }

  /** There is a turn to send exactly when the chat has a message. */
  lemma {:induction false} TurnsIffMessages(msgs: seq<AiMessage>)
    ensures GeminiMessages(msgs) == [] <==> msgs == []
  {
    if msgs != [] {
      var c := ConvertAll(msgs);
      var m := msgs[|msgs| - 1];
      if m.role == System {
        assert |c.context| >= |ContextSeparator|;
      } else {
        assert |c.turns| > 0;
      }
    }
  }

  /**
   * System text that arrives after the last user message is dropped once the
   * chat has a turn: it changes nothing that is sent.
   */
  lemma TrailingSystemTextDropped(msgs: seq<AiMessage>, m: AiMessage)
    requires m.role == System && Spoken(msgs) != []
    ensures GeminiMessages(msgs + [m]) == GeminiMessages(msgs)
  {
    TurnPerSpokenMessage(msgs);
    assert (msgs + [m])[..|msgs|] == msgs;
  }

  /** A chat of system messages only is sent as one user turn holding all of their text. */
  lemma OnlySystemIsOneTurn(msgs: seq<AiMessage>)
    requires msgs != [] && forall k :: 0 <= k < |msgs| ==> msgs[k].role == System
    ensures |GeminiMessages(msgs)| == 1 && GeminiMessages(msgs)[0].role == UserTurn
    ensures EndsWith(GeminiMessages(msgs)[0].text, msgs[|msgs| - 1].content + ContextSeparator)
  {
    var init := msgs[..|msgs| - 1];
    var m := msgs[|msgs| - 1];
    assert ConvertAll(init).turns == [] by {
      TurnPerSpokenMessage(init);
      NoSpokenInSystemOnly(init);
    }
    var t := ConvertAll(init).context + m.content + ContextSeparator;
    assert t[|t| - |m.content + ContextSeparator|..] == m.content + ContextSeparator;
  }

  lemma {:induction false} NoSpokenInSystemOnly(msgs: seq<AiMessage>)
    requires forall k :: 0 <= k < |msgs| ==> msgs[k].role == System
    ensures Spoken(msgs) == []
  {
    if msgs != [] {
      NoSpokenInSystemOnly(msgs[..|msgs| - 1]);
    }
  }

  // ---------------------------------------------------------------------------
  // The request
  // ---------------------------------------------------------------------------

  const DefaultTemperature: real := 0.3
  const DefaultMaxTokens: int := 200

  /** Generation settings; `??` keeps an explicit value, even zero, and fills in only a missing one. */
  datatype Settings = Settings(temperature: real, maxTokens: int)

  function SettingsOf(temperature: Option<real>, maxTokens: Option<int>): (s: Settings)
    ensures s.temperature == (if temperature.Some? then temperature.value else DefaultTemperature)
    ensures s.maxTokens == (if maxTokens.Some? then maxTokens.value else DefaultMaxTokens)
  {
    Settings(temperature.GetOr(DefaultTemperature), maxTokens.GetOr(DefaultMaxTokens))
  }

  /** A chat session opened with every turn but the last as history, and the last turn's text to send. */
  datatype GeminiRequest = GeminiRequest(history: seq<GeminiMessage>, send: string, settings: Settings)

  /**
   * The Gemini call: none when there is no turn to send (the source then reads
   * a property of `undefined` and throws).
   */
  function GeminiRequestFor(msgs: seq<AiMessage>, temperature: Option<real>, maxTokens: Option<int>): (r: Option<GeminiRequest>)
    ensures r.Some? <==> msgs != []
    ensures r.Some? ==> var g := GeminiMessages(msgs);
      r.value.history + [GeminiMessage(g[|g| - 1].role, r.value.send)] == g
  {
    TurnsIffMessages(msgs);
    var g := GeminiMessages(msgs);
    if g == [] then None
    else
      assert g[..|g| - 1] + [g[|g| - 1]] == g;
      Some(GeminiRequest(g[..|g| - 1], g[|g| - 1].text, SettingsOf(temperature, maxTokens)))
  }

  /** The OpenAI answer: the message content trimmed, and the empty string when there is none. */
  function OpenAiText(content: Option<string>): (r: string)
    ensures content.None? ==> r == ""
    ensures content.Some? ==> r == Trim(content.value)
    ensures r == [] || (!IsSpace(r[0]) && !IsSpace(r[|r| - 1]))
  {
    var trimmed := if content.Some? then Trim(content.value) else "";
    if trimmed != "" then trimmed else ""
  }

  // ---------------------------------------------------------------------------
  // Provider selection
  // ---------------------------------------------------------------------------

  datatype Provider = OpenAi | Gemini

  /** `AI_PROVIDER` lower-cased, "gemini" choosing Gemini and anything else, or nothing, OpenAI. */
  function Selected(setting: Option<string>): (p: Provider)
    ensures p == Gemini <==> setting.Some? && LowerStr(setting.value) == "gemini"
  {
    var name := if setting.Some? && LowerStr(setting.value) != "" then LowerStr(setting.value) else "openai";
    if name == "gemini" then Gemini else OpenAi
  }

  /**
   * The two module-level singletons. A provider is built on first use; building
   * fails, and leaves nothing behind, when its API key is not set.
   */
  class ProviderRegistry {
    var built: set<Provider>
    ghost var constructions: nat

    /** Each provider built at most once: the constructor has run once per provider held. */
    ghost predicate Valid()
      reads this
    {
      constructions == |built|
    }

    constructor()
      ensures built == {} && Valid()
    {
      built := {};
      constructions := 0;
    }

    /** `getAIProvider`, with the environment's provider setting and the set of providers whose key is set. */
    method GetAiProvider(setting: Option<string>, keys: set<Provider>) returns (p: Option<Provider>)
      requires Valid()
      modifies this
      ensures Valid() && constructions <= 2
      ensures p.Some? ==> p.value == Selected(setting)
      ensures p.Some? <==> Selected(setting) in old(built) || Selected(setting) in keys
      ensures built == old(built) + (if p.Some? then {p.value} else {})
      ensures Selected(setting) in old(built) ==> constructions == old(constructions)
    {
      var wanted := Selected(setting);
      AtMostTwoProviders(built);
      if wanted !in built {
        if wanted !in keys {
          return None;
        }
        built := built + {wanted};
        constructions := constructions + 1;
      }
      AtMostTwoProviders(built);
      p := Some(wanted);
    }
  }

  /** There are two providers, so at most two can be held. */
  lemma AtMostTwoProviders(s: set<Provider>)
    ensures |s| <= 2
  {
    assert forall x | x in s :: x == OpenAi || x == Gemini by {
      forall x | x in s
        ensures x == OpenAi || x == Gemini
      {
        match x
        case OpenAi =>
        case Gemini =>
      }
    }
    if OpenAi in s && Gemini in s {
      assert s == {OpenAi, Gemini};
    } else if OpenAi in s {
      assert s == {OpenAi};
    } else if Gemini in s {
      assert s == {Gemini};
    } else {
      assert s == {};
    }
  }
}

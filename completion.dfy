/**
 * How `callAI` (src/App.jsx) turns a conversation into a chat-completion
 * request and the provider's answer into reply text. The provider itself is
 * not modelled: what it answered is an input.
 */
module Completion {
  import opened Wrappers
  import opened Records

  datatype Role = System | User | Assistant

  /** One entry of the request's `messages` array. */
  datatype ApiMessage = ApiMessage(role: Role, content: string)

  /** At most this many exchanges of history go into a request... */
  const MaxRounds := 100
  /** ...that is, this many messages. */
  const WindowSize := MaxRounds * 2

  function Min(a: int, b: int): int {
    if a <= b then a else b
  }

  /** `history.slice(-200)`. */
  function Window(history: seq<Message>): seq<Message> {
    if |history| <= WindowSize then history else history[|history| - WindowSize..]
  }

  /** A stored message's role: "sent" is the user's, every other type the assistant's. */
  function RoleOf(kind: string): Role {
    if kind == Sent then User else Assistant
  }

  function ToApi(m: Message): ApiMessage {
    ApiMessage(RoleOf(m.kind), m.content)
  }

  /** `.map(msg => ({ role, content }))`. */
  function ToApiAll(ms: seq<Message>): (r: seq<ApiMessage>)
    ensures |r| == |ms|
  {
    if ms == [] then [] else [ToApi(ms[0])] + ToApiAll(ms[1..])
  }

  /** Each stored message becomes the entry at the same position: one entry per message, order kept. */
  lemma {:induction false} ToApiAllPointwise(ms: seq<Message>)
    ensures forall i :: 0 <= i < |ms| ==> ToApiAll(ms)[i] == ToApi(ms[i])
  {
    if ms != [] {
      ToApiAllPointwise(ms[1..]);
      forall i | 1 <= i < |ms|
        ensures ToApiAll(ms)[i] == ToApiAll(ms[1..])[i - 1] && ms[i] == ms[1..][i - 1]
      {
      }
    }
  }

  /** `if (persona)`: a persona is used when it is present and not empty. */
  predicate HasPersona(persona: Option<string>) {
    persona.Some? && persona.value != ""
  }

  /** The request's messages: persona, windowed history, then the new utterance. */
  function Prompt(history: seq<Message>, persona: Option<string>, utterance: string): seq<ApiMessage> {
    (if HasPersona(persona) then [ApiMessage(System, persona.value)] else [])
    + ToApiAll(Window(history))
    + [ApiMessage(User, utterance)]
  }

  /** Where the request goes for each provider; no address for any other provider. */
  function Endpoint(provider: string): Option<string> {
    if provider == "zhipu" then Some("https://open.bigmodel.cn/api/paas/v4/chat/completions")
    else if provider == "siliconflow" then Some("https://api.siliconflow.cn/v1/chat/completions")
    else None
  }

  /** The chat-completion request callAI sends. */
  datatype Request = Request(endpoint: Option<string>, apiKey: Option<string>, model: Option<string>, messages: seq<ApiMessage>)

  // ---------------------------------------------------------------------------
  // Properties of the prompt

  /** The window is the last min(|history|, 200) messages, in their original order. */
  lemma WindowIsRecentSuffix(history: seq<Message>)
    ensures |Window(history)| == Min(|history|, WindowSize)
    ensures Window(history) == history[|history| - |Window(history)|..]
  {
  }

  /** A prompt holds the persona entry if any, the window, and the utterance: nothing else. */
  lemma PromptLength(history: seq<Message>, persona: Option<string>, utterance: string)
    ensures |Prompt(history, persona, utterance)|
         == Min(|history|, WindowSize) + (if HasPersona(persona) then 1 else 0) + 1
  {
  }

  /**
   * The persona opens the prompt when there is one; the new utterance always
   * closes it; no other entry has the system role.
   */
  lemma PromptEnds(history: seq<Message>, persona: Option<string>, utterance: string)
    ensures var p := Prompt(history, persona, utterance);
      && p[|p| - 1] == ApiMessage(User, utterance)
      && (HasPersona(persona) ==> p[0] == ApiMessage(System, persona.value))
      && (forall i :: 0 <= i < |p| && p[i].role == System ==> i == 0 && HasPersona(persona))
  {
    var p := Prompt(history, persona, utterance);
    var head := if HasPersona(persona) then [ApiMessage(System, persona.value)] else [];
    var body := ToApiAll(Window(history));
    ToApiAllPointwise(Window(history));
    assert p == head + body + [ApiMessage(User, utterance)];
  }

  /**
   * Between persona and utterance come the windowed messages in stored order,
   * each with its content unchanged and role user exactly when its type is "sent".
   */
  lemma PromptHistory(history: seq<Message>, persona: Option<string>, utterance: string, i: nat)
    requires i < Min(|history|, WindowSize)
    ensures var p := Prompt(history, persona, utterance);
      var off := if HasPersona(persona) then 1 else 0;
      var m := history[|history| - Min(|history|, WindowSize) + i];
      && off + i < |p|
      && p[off + i].content == m.content
      && (p[off + i].role == User <==> m.kind == Sent)
      && (p[off + i].role == Assistant <==> m.kind != Sent)
  {
    var head := if HasPersona(persona) then [ApiMessage(System, persona.value)] else [];
    var w := Window(history);
    var body := ToApiAll(w);
    WindowIsRecentSuffix(history);
    assert w[i] == history[|history| - |w| + i];
    ToApiAllPointwise(w);
    assert body[i] == ToApi(w[i]);
    var p := Prompt(history, persona, utterance);
    assert p == head + body + [ApiMessage(User, utterance)];
    assert p[|head| + i] == body[i];
  }

  /** Builds the request's messages the way callAI does: slice, map, unshift, push. */
  method BuildApiMessages(message: string, history: seq<Message>, persona: Option<string>)
    returns (apiMessages: seq<ApiMessage>)
    ensures apiMessages == Prompt(history, persona, message)
  {
    var recent := Window(history);
    apiMessages := [];
    var i := 0;
    while i < |recent|
      invariant 0 <= i <= |recent|
      invariant |apiMessages| == i
      invariant forall j :: 0 <= j < i ==> apiMessages[j] == ToApi(recent[j])
    {
      apiMessages := apiMessages + [ToApi(recent[i])];
      i := i + 1;
    }
    ToApiAllPointwise(recent);
    assert apiMessages == ToApiAll(recent);
    if HasPersona(persona) {
      apiMessages := [ApiMessage(System, persona.value)] + apiMessages;
    }
    apiMessages := apiMessages + [ApiMessage(User, message)];
  }

  // ---------------------------------------------------------------------------
  // The reply

  /** `choices[i]?.message?.content`: absent when the choice, its message or its content is. */
  datatype Choice = Choice(content: Option<string>)

  /** The parsed response body; `choices` is absent when the body has no such array. */
  datatype Body = Body(choices: Option<seq<Choice>>)

  /** What the provider call came to: a parsed body, or a failure of fetch or of JSON parsing. */
  datatype ProviderOutcome = Answered(body: Body) | Failed

  /** The reply when the answer holds no usable text. */
  const CannotAnswer := "抱歉，我无法回答这个问题。"
  /** The reply when the call fails. */
  const Unavailable := "抱歉，AI服务暂时不可用。"

  /**
   * `data.choices[0]?.message?.content || CannotAnswer`, with every exception
   * of the call caught as `Unavailable`: a provider without an address (the
   * request goes to an undefined URL), a failed call, and reading `[0]` of a
   * missing `choices`.
   */
  function ReplyText(endpoint: Option<string>, outcome: ProviderOutcome): string {
    if endpoint.None? then Unavailable
    else match outcome
      case Failed => Unavailable
      case Answered(body) =>
        match body.choices
        case None => Unavailable
        case Some(cs) =>
          if |cs| > 0 && cs[0].content.Some? && cs[0].content.value != "" then cs[0].content.value
          else CannotAnswer
  }

  /**
   * The reply is never empty: it is the first choice's text when that is
   * present and non-empty, the "cannot answer" text when the body's choices
   * yield none, and the "unavailable" text when there is no address or the
   * call itself failed.
   */
  lemma ReplyFallbacks(endpoint: Option<string>, outcome: ProviderOutcome)
    ensures ReplyText(endpoint, outcome) != ""
    ensures endpoint.None? || outcome.Failed? || (outcome.Answered? && outcome.body.choices.None?)
        ==> ReplyText(endpoint, outcome) == Unavailable
    ensures endpoint.Some? && outcome.Answered? && outcome.body.choices.Some?
        ==> var cs := outcome.body.choices.value;
            if |cs| > 0 && cs[0].content.Some? && cs[0].content.value != ""
            then ReplyText(endpoint, outcome) == cs[0].content.value
            else ReplyText(endpoint, outcome) == CannotAnswer
  {
  }
}

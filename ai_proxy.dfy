/**
 * `callAI` and the `POST /api/ai` handler of server.js: checking the prompt,
 * choosing a provider from the configured API keys, building its
 * chat-completion request, and turning what the provider sends back into the
 * reply and the status the handler answers with.
 *
 * The call to the provider (an HTTP request to OpenAI, or the Groq client
 * library) is not modelled: how it ends is an input, `Outcome`, and the model
 * states only what the handler makes of it.
 */
module AiProxy {

  import opened Wrappers
  import opened JsValues

  /** The API keys read from the environment at start-up; a variable that is not set reads as "". */
  datatype Keys = Keys(openAiKey: string, groqKey: string)

  datatype Provider = OpenAI | Groq

  datatype Message = Message(role: string, content: string)

  /** A chat-completion request: the provider it goes to, the key it is authorised with, and its body. */
  datatype ChatRequest = ChatRequest(provider: Provider, apiKey: string, model: string, messages: seq<Message>, maxTokens: nat)

  /** The part of a chat-completion response that is read: `choices[0].message.content`, where any level may be missing. */
  datatype Completion = Completion(choices: Option<seq<Choice>>)
  datatype Choice = Choice(message: Option<ReplyMessage>)
  datatype ReplyMessage = ReplyMessage(content: Option<string>)

  /**
   * How the provider call ends: it throws (the network fails, the body is not
   * JSON, the client library raises an error), or it resolves with an HTTP
   * status and a parsed body.
   */
  datatype Outcome = Threw(message: string) | Resolved(status: int, body: Completion)

  /** What `callAI` does: return a fixed text at once, or send a request. */
  datatype CallPlan = Placeholder(text: string) | Send(request: ChatRequest)

  /** The answer of the handler: `{reply}` with 200, `{error: "Missing prompt"}` with 400, `{error: "AI Error", detail}` with 500. */
  datatype AiResponse = Reply(reply: string) | MissingPrompt | AiError(detail: string) {
    function Status(): int {
      match this
      case Reply(_) => 200
      case MissingPrompt => 400
      case AiError(_) => 500
    }

    function ErrorText(): string {
      match this
      case Reply(_) => ""
      case MissingPrompt => "Missing prompt"
      case AiError(_) => "AI Error"
    }
  }

  const NOT_CONFIGURED: string := "AI key not configured."
  const NO_REPLY: string := "No reply"
  const MAX_TOKENS: nat := 500

  /** OpenAI when its key is set, whatever the Groq key; otherwise Groq when its key is set; otherwise none. */
  function SelectProvider(keys: Keys): (r: Option<Provider>)
    ensures r == Some(OpenAI) <==> keys.openAiKey != ""
    ensures r == Some(Groq) <==> keys.openAiKey == "" && keys.groqKey != ""
    ensures r == None <==> keys.openAiKey == "" && keys.groqKey == ""
  {
    if keys.openAiKey != "" then Some(OpenAI)
    else if keys.groqKey != "" then Some(Groq)
    else None
  }

  function DefaultModel(p: Provider): (r: string)
    ensures r != ""
  {
    match p
    case OpenAI => "gpt-4o-mini"
    case Groq => "gemma2-9b-it"
  }

  function KeyOf(keys: Keys, p: Provider): string {
    match p
    case OpenAI => keys.openAiKey
    case Groq => keys.groqKey
  }

  /** The request for one prompt: the caller's model or the provider's default, the prompt as the one user message, at most 500 tokens. */
  function BuildRequest(keys: Keys, p: Provider, prompt: string, model: Field): ChatRequest {
    ChatRequest(p, KeyOf(keys, p), Or(model, DefaultModel(p)), [Message("user", prompt)], MAX_TOKENS)
  }

  /** `callAI(prompt, model)` up to the network call. */
  function CallAI(keys: Keys, prompt: string, model: Field): (r: CallPlan)
    ensures r.Placeholder? <==> keys.openAiKey == "" && keys.groqKey == ""
    ensures r.Placeholder? ==> r.text == NOT_CONFIGURED
    ensures r.Send? ==> Some(r.request.provider) == SelectProvider(keys)
  {
    match SelectProvider(keys)
    case None => Placeholder(NOT_CONFIGURED)
    case Some(p) => Send(BuildRequest(keys, p, prompt, model))
  }

  /** The response carries a first choice whose message has content. */
  predicate HasContent(c: Completion) {
    && c.choices.Some?
    && |c.choices.value| > 0
    && c.choices.value[0].message.Some?
    && c.choices.value[0].message.value.content.Some?
  }

  /** `choices?.[0]?.message?.content ?? "No reply"` */
  function ExtractReply(c: Completion): (r: string)
    ensures HasContent(c) ==> r == c.choices.value[0].message.value.content.value
    ensures !HasContent(c) ==> r == NO_REPLY
  {
    match c.choices
    case None => NO_REPLY
    case Some(cs) =>
      if |cs| == 0 then NO_REPLY
      else
        match cs[0].message
        case None => NO_REPLY
        case Some(m) =>
          match m.content
          case None => NO_REPLY
          case Some(text) => text
  }

  /**
   * The handler: a falsy prompt is refused; otherwise `callAI` either answers
   * at once or sends its request, and `outcome` is how that request ended.
   * A thrown error becomes a 500 carrying its message; a resolved call is
   * read whatever its HTTP status.
   */
  function HandleAi(keys: Keys, prompt: Field, model: Field, outcome: Outcome): (r: AiResponse)
    ensures r.MissingPrompt? <==> !Truthy(prompt)
    ensures r.AiError? ==> outcome.Threw? && r.detail == outcome.message
  {
    if !Truthy(prompt) then MissingPrompt
    else
      match CallAI(keys, prompt.s, model)
      case Placeholder(text) => Reply(text)
      case Send(_) =>
        match outcome
        case Threw(message) => AiError(message)
        case Resolved(_, body) => Reply(ExtractReply(body))
  }

  /** The handler makes a network call exactly for a truthy prompt and a set key. */
  predicate Calls(keys: Keys, prompt: Field, model: Field) {
    Truthy(prompt) && CallAI(keys, prompt.s, model).Send?
  }

  // ----- properties -----

  /** Which calls reach the network: a truthy prompt and at least one key. */
  lemma CallsExactly(keys: Keys, prompt: Field, model: Field)
    ensures Calls(keys, prompt, model) <==> Truthy(prompt) && (keys.openAiKey != "" || keys.groqKey != "")
  {
  }

  /** Without a call the answer does not depend on how a call would have ended. */
  lemma NoCallNoOutcome(keys: Keys, prompt: Field, model: Field, o1: Outcome, o2: Outcome)
    requires !Calls(keys, prompt, model)
    ensures HandleAi(keys, prompt, model, o1) == HandleAi(keys, prompt, model, o2)
  {
  }

  /** A falsy prompt gets 400 "Missing prompt", whatever the keys, model and outcome. */
  lemma MissingPromptRefused(keys: Keys, prompt: Field, model: Field, outcome: Outcome)
    requires !Truthy(prompt)
    ensures !Calls(keys, prompt, model)
    ensures var r := HandleAi(keys, prompt, model, outcome);
      r == MissingPrompt && r.Status() == 400 && r.ErrorText() == "Missing prompt"
  {
  }

  /** With no key set a valid prompt gets the placeholder reply with 200, and nothing is sent. */
  lemma NotConfiguredPlaceholder(keys: Keys, prompt: Field, model: Field, outcome: Outcome)
    requires Truthy(prompt) && keys.openAiKey == "" && keys.groqKey == ""
    ensures !Calls(keys, prompt, model)
    ensures var r := HandleAi(keys, prompt, model, outcome);
      r == Reply("AI key not configured.") && r.Status() == 200
  {
  }

  /**
   * Every request sent goes to the provider selection picks, with that
   * provider's key; it names the caller's model or that provider's default
   * (never an empty name), holds exactly one message, from the user, carrying
   * the prompt, and caps the reply at 500 tokens.
   */
  lemma RequestShape(keys: Keys, prompt: Field, model: Field)
    requires Calls(keys, prompt, model)
    ensures var req := CallAI(keys, prompt.s, model).request;
      && (req.provider == OpenAI <==> keys.openAiKey != "")
      && (req.provider == Groq <==> keys.openAiKey == "" && keys.groqKey != "")
      && (req.provider == OpenAI ==> req.apiKey == keys.openAiKey)
      && (req.provider == Groq ==> req.apiKey == keys.groqKey)
      && req.apiKey != ""
      && (Truthy(model) ==> req.model == model.s)
      && (!Truthy(model) && req.provider == OpenAI ==> req.model == "gpt-4o-mini")
      && (!Truthy(model) && req.provider == Groq ==> req.model == "gemma2-9b-it")
      && req.model != ""
      && |req.messages| == 1
      && req.messages[0] == Message("user", prompt.s)
      && req.maxTokens == 500
  {
  }

  /**
   * When the call resolves, the reply is the first choice's content, or
   * "No reply" when there is none, with 200 whatever HTTP status the
   * provider answered with.
   */
  lemma ResolvedCallReplies(keys: Keys, prompt: Field, model: Field, status: int, body: Completion)
    requires Calls(keys, prompt, model)
    ensures var r := HandleAi(keys, prompt, model, Resolved(status, body));
      && r.Status() == 200
      && (HasContent(body) ==> r == Reply(body.choices.value[0].message.value.content.value))
      && (!HasContent(body) ==> r == Reply("No reply"))
  {
  }

  /**
   * A provider answering content `x` gets `{reply: x}`, empty content
   * included (`??` replaces only a missing value); an error body without
   * choices, even with status 401, gets "No reply".
   */
  lemma ReplyExamples(keys: Keys, prompt: Field, model: Field, x: string)
    requires Calls(keys, prompt, model)
    ensures HandleAi(keys, prompt, model, Resolved(200, Completion(Some([Choice(Some(ReplyMessage(Some(x))))])))) == Reply(x)
    ensures HandleAi(keys, prompt, model, Resolved(200, Completion(Some([Choice(Some(ReplyMessage(Some(""))))])))) == Reply("")
    ensures HandleAi(keys, prompt, model, Resolved(401, Completion(None))) == Reply("No reply")
  {
  }

  /** When the call throws, the answer is 500 "AI Error" with the error's message as detail. */
  lemma ThrownCallFails(keys: Keys, prompt: Field, model: Field, message: string)
    requires Calls(keys, prompt, model)
    ensures var r := HandleAi(keys, prompt, model, Threw(message));
      r == AiError(message) && r.Status() == 500 && r.ErrorText() == "AI Error"
  {
  }
}

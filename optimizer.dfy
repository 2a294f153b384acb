/**
 * `optimize_prompt`: one call to the chat-completion service carrying the system
 * instruction and the user message, whose reply is the rewritten prompt.
 * The chat-completion service is outside this model; it is the parameter
 * `complete`, which answers the arguments of a call with the reply's text or a failure.
 */
module Optimizer {
  import opened Outcomes
  import opened Text
  import opened PayloadJson
  import opened LlmPrompts

  /** The chat model every rewriting call names. */
  const Model: string := "gpt-4o-mini"

  datatype ChatMessage = ChatMessage(role: string, content: string)

  datatype ChatRequest = ChatRequest(model: string, messages: seq<ChatMessage>)

  /** Why `optimize_prompt` gives no rewritten prompt. */
  datatype OptimizeError =
    | InvalidModel(cause: ModelError)
    | CompletionFailed(reason: string)

  /** The arguments of the call for a user message: the system instruction, then the user message. */
  function CompletionRequest(userMessage: string): (r: ChatRequest) {
    ChatRequest(Model, [ChatMessage("system", SystemPrompt), ChatMessage("user", userMessage)])
  }

  /**
   * Sending a user message: the one call it makes to the completion service
   * (`client.chat.completions.create`), and the reply's text, or the
   * service's failure.
   */
  function Exchange(complete: ChatRequest -> Result<string, string>, userMessage: string)
    : (r: (seq<ChatRequest>, Result<string, OptimizeError>))
    ensures |r.0| == 1
    ensures r.1.Ok? <==> complete(r.0[0]).Ok?
  {
    var request := CompletionRequest(userMessage);
    match complete(request)
    case Err(reason) => ([request], Err(CompletionFailed(reason)))
    case Ok(reply) => ([request], Ok(reply))
  }

  /**
   * One call is made to the completion service, naming `Model` and holding
   * the system instruction and then the user message; the reply comes back
   * as it came.
   */
  lemma ExchangeSendsOneRequest(complete: ChatRequest -> Result<string, string>, userMessage: string)
    ensures |Exchange(complete, userMessage).0| == 1
    ensures Exchange(complete, userMessage).0[0].model == Model
    ensures Exchange(complete, userMessage).0[0].messages
      == [ChatMessage("system", SystemPrompt), ChatMessage("user", userMessage)]
    ensures Exchange(complete, userMessage).1.Ok? <==> complete(Exchange(complete, userMessage).0[0]).Ok?
    ensures Exchange(complete, userMessage).1.Ok? ==>
      Exchange(complete, userMessage).1.value == complete(Exchange(complete, userMessage).0[0]).value
    ensures Exchange(complete, userMessage).1.Err? ==>
      Exchange(complete, userMessage).1.error == CompletionFailed(complete(Exchange(complete, userMessage).0[0]).error)
  {
  }

  /**
   * `optimize_prompt`: the calls it makes to the completion service, in
   * order, and its outcome.
   * The user message is built first, so an unsupported name fails before
   * anything is sent.
   */
  function OptimizePrompt(
    complete: ChatRequest -> Result<string, string>,
    userPrompt: string, targetLlm: string, userPreferences: Option<Preferences>)
    : (r: (seq<ChatRequest>, Result<string, OptimizeError>))
    ensures Lower(targetLlm) !in SupportedNames ==> r == ([], Err(InvalidModel(UnsupportedModelName(targetLlm))))
    ensures Lower(targetLlm) in SupportedNames ==> |r.0| == 1
  {
    match ConstructUserPrompt(userPrompt, targetLlm, userPreferences)
    case Err(e) => ([], Err(InvalidModel(e)))
    case Ok(userMessage) => Exchange(complete, userMessage)
  }

  /**
   * A supported name sends exactly what `Exchange` sends for the user
   * message, and that message reads back as the payload: the name as
   * passed, its layout, the raw prompt and the preferences.
   */
  lemma SupportedSendsUserMessage(
    complete: ChatRequest -> Result<string, string>,
    userPrompt: string, targetLlm: string, userPreferences: Option<Preferences>)
    requires Lower(targetLlm) in SupportedNames
    ensures ConstructUserPrompt(userPrompt, targetLlm, userPreferences).Ok?
    ensures OptimizePrompt(complete, userPrompt, targetLlm, userPreferences)
      == Exchange(complete, ConstructUserPrompt(userPrompt, targetLlm, userPreferences).value)
    ensures DecodeUserPrompt(ConstructUserPrompt(userPrompt, targetLlm, userPreferences).value)
      == Some(Payload(targetLlm, GetPromptStructureForModel(targetLlm).value, userPrompt,
                      EffectivePreferences(userPreferences)))
  {
        ConstructUserPromptRoundTrip(userPrompt, targetLlm, userPreferences);
  }
}

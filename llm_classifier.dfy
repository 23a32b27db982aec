/** nodes/classify_node.py: the model-based classifier node, with the model and the context loader as oracles. */
module LlmClassifier {
  import opened Wrappers
  import opened PyText
  import opened StateRecord
  import opened Intents
  import opened Collaborators

  /** The model call: a parsed JSON object, or the message of the exception raised while calling or parsing. */
  datatype ModelReply = Parsed(fields: map<string, string>) | CallFailed(message: string)

  /** The state the node returns, with the external calls it made. */
  datatype Trace = Trace(state: State, contextLoads: seq<string>, requests: seq<Prompt>)

  const PromptHead: string :=
    "\n    You are a classifier.\n"
    + "    Your job is to assign exactly one intent from this list:\n\n"
    + "    - create_jira_ticket \U{2192} when user asks to create a Jira ticket\n"
    + "    - update_jira_ticket \U{2192} when user asks to update an existing Jira ticket\n"
    + "    - summarize_thread \U{2192} when user asks for a summary of the messages in a Slack thread\n"
    + "    - file summary \U{2192} when user asks for a summary of a file shared in a Slack thread\n"
    + "    - publish \U{2192} when user asks to publish data\n"
    + "    - lookup \U{2192} when user asks to retrieve a data point\n"
    + "    - unknown \U{2192} if the request does not clearly match any of the above\n\n"
    + "    Channel Context (may affect classification):\n    "
  const PromptTail: string := "\n\n    Always return a JSON: {\"intent\": \"<one_of_the_above>\"}.\n    "

  /** The system prompt with the channel context in its place. */
  function SystemPrompt(context: string): string {
    PromptHead + context + PromptTail
  }

  /** The intent read from the reply: the "intent" value of a parsed object, otherwise "unknown". */
  function ReplyIntent(reply: ModelReply): (intent: string)
    ensures reply.Parsed? && "intent" in reply.fields ==> intent == reply.fields["intent"]
    ensures reply.CallFailed? || "intent" !in reply.fields ==> intent == Unknown
  {
    match reply
    case Parsed(fields) => if "intent" in fields then fields["intent"] else Unknown
    case CallFailed(_) => Unknown
  }

  /**
   * `classify_node(state)`. `loadContext` answers `load_channel_context` (an
   * exception there is outside the try and propagates); `model` answers the
   * chat-completion request.
   */
  function ClassifyNode(s: State, loadContext: string -> Result<string, string>, model: Prompt -> ModelReply)
    : (r: Result<Trace, Failure>)
    // blank text: "unknown", no context load and no model request
    ensures AllSpace(s.text.GetOr("")) ==>
      r == Ok(Trace(s.(intent := Some(Unknown)), [], []))
    // the context is loaded only for a truthy channel id
    ensures r.Ok? && r.value.contextLoads != [] ==> Truthy(s.channelId) && r.value.contextLoads == [s.channelId.value]
    ensures !AllSpace(s.text.GetOr("")) && Truthy(s.channelId) && r.Ok? ==> r.value.contextLoads == [s.channelId.value]
    // only a failing context load escapes, and it always does; a failing model call does not
    ensures r.Err? ==> Truthy(s.channelId) && loadContext(s.channelId.value).Err?
    ensures !AllSpace(s.text.GetOr("")) && Truthy(s.channelId) && loadContext(s.channelId.value).Err? ==> r.Err?
    // exactly one request for non-blank text, and the intent is what the reply says
    ensures r.Ok? && !AllSpace(s.text.GetOr("")) ==>
      && |r.value.requests| == 1
      && r.value.requests[0].user == "Text: " + Strip(s.text.value)
      && r.value.state.intent == Some(ReplyIntent(model(r.value.requests[0])))
    // the system prompt carries the loaded context, or "" without a truthy channel id
    ensures r.Ok? && !AllSpace(s.text.GetOr("")) ==>
      r.value.requests[0].system == SystemPrompt(if Truthy(s.channelId) then loadContext(s.channelId.value).value else "")
    // only `intent` is written, and it is always written
    ensures r.Ok? ==> r.value.state == s.(intent := r.value.state.intent) && r.value.state.intent.Some?
  {
    StripEmptyIffAllSpace(s.text.GetOr(""));
    var text := Strip(s.text.GetOr(""));
    if text == [] then Ok(Trace(s.(intent := Some(Unknown)), [], []))
    else Consult(s, text, loadContext, model)
  }

  /** The non-blank branch: the context load for a truthy channel id, then the request. */
  function Consult(s: State, text: string, loadContext: string -> Result<string, string>, model: Prompt -> ModelReply)
    : (r: Result<Trace, Failure>)
    ensures r.Err? <==> Truthy(s.channelId) && loadContext(s.channelId.value).Err?
    ensures r.Ok? ==> r.value.contextLoads == (if Truthy(s.channelId) then [s.channelId.value] else [])
    ensures r.Ok? ==>
      && |r.value.requests| == 1
      && r.value.requests[0] ==
         Prompt(SystemPrompt(if Truthy(s.channelId) then loadContext(s.channelId.value).value else ""), "Text: " + text)
    ensures r.Ok? ==> r.value.state == s.(intent := Some(ReplyIntent(model(r.value.requests[0]))))
  {
    if Truthy(s.channelId) then
      match loadContext(s.channelId.value)
      case Err(m) => Err(ServiceError(m))
      case Ok(context) => Ok(Ask(s, text, context, [s.channelId.value], model))
    else Ok(Ask(s, text, "", [], model))
  }

  /** The request and the write of `intent` once the context is known. */
  function Ask(s: State, text: string, context: string, loads: seq<string>, model: Prompt -> ModelReply): (t: Trace)
    ensures |t.requests| == 1 && t.requests[0] == Prompt(SystemPrompt(context), "Text: " + text)
    ensures t.state == s.(intent := Some(ReplyIntent(model(t.requests[0])))) && t.contextLoads == loads
  {
    var prompt := Prompt(SystemPrompt(context), "Text: " + text);
    Trace(s.(intent := Some(ReplyIntent(model(prompt)))), loads, [prompt])
  }

  /** The label is not checked against the list in the prompt: whatever string the model returns becomes the intent. */
  lemma IntentIsNotValidated(s: State, answer: string)
    requires !AllSpace(s.text.GetOr("")) && s.channelId.None?
    ensures var r := ClassifyNode(s, _ => Ok(""), _ => Parsed(map["intent" := answer]));
      r.Ok? && r.value.state.intent == Some(answer)
  {
    var reply := Parsed(map["intent" := answer]);
    assert ReplyIntent(reply) == answer;
    StripEmptyIffAllSpace(s.text.GetOr(""));
  }

  /** Any model failure becomes "unknown". */
  lemma ModelFailureIsUnknown(s: State, message: string)
    requires !AllSpace(s.text.GetOr("")) && !Truthy(s.channelId)
    ensures var r := ClassifyNode(s, _ => Ok(""), _ => CallFailed(message));
      r.Ok? && r.value.state.intent == Some(Unknown)
  {
  }
}

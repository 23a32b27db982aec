/** tools/summarize_thread.py: fetch a thread, summarise it with the chat model, post the summary back. */
module ThreadSummary {
  import opened Wrappers
  import opened PyText
  import opened StateRecord
  import opened Collaborators

  const NoMessages: string := "\U{26A0}\U{FE0F} No messages found in this thread to summarize."
  const SummaryHeader: string := "\U{1F4C4} *Thread Summary:*\n"
  const SystemPrompt: string :=
    "\n    You are a helpful assistant. Summarize the following Slack thread clearly and concisely.\n"
    + "    Highlight main points, decisions, and action items if any.\n    "

  /** `[m.get("text", "") for m in messages if "text" in m]` */
  function ThreadTexts(messages: seq<Message>): (texts: seq<string>)
    ensures |texts| <= |messages|
  {
    if messages == [] then []
    else (if messages[0].text.Some? then [messages[0].text.value] else []) + ThreadTexts(messages[1..])
  }

  /** The texts keep retrieval order: the texts of a concatenation are the concatenated texts. */
  lemma {:induction false} ThreadTextsAppend(a: seq<Message>, b: seq<Message>)
    ensures ThreadTexts(a + b) == ThreadTexts(a) + ThreadTexts(b)
  {
    if a != [] {
      assert (a + b)[0] == a[0];
      assert (a + b)[1..] == a[1..] + b;
      ThreadTextsAppend(a[1..], b);
    } else {
      assert a + b == b;
    }
  }

  /** There are no texts exactly when no message has a "text" key; an empty text still counts. */
  lemma {:induction false} ThreadTextsEmpty(messages: seq<Message>)
    ensures ThreadTexts(messages) == [] <==> forall i :: 0 <= i < |messages| ==> messages[i].text.None?
  {
    if messages != [] {
      ThreadTextsEmpty(messages[1..]);
      assert forall i :: 1 <= i < |messages| ==> messages[i] == messages[1..][i - 1];
    }
  }

  /** `[f"- {m}" for m in texts]` */
  function Bullets(texts: seq<string>): (lines: seq<string>)
    ensures |lines| == |texts|
    ensures forall i :: 0 <= i < |texts| ==> lines[i] == "- " + texts[i]
  {
    seq(|texts|, i requires 0 <= i < |texts| => "- " + texts[i])
  }

  /** The user message: one bullet per text, joined by newlines. */
  function UserContent(texts: seq<string>): string {
    Join(Bullets(texts), '\n')
  }

  /** When no message spans lines, the prompt's lines are exactly the bullets. */
  lemma UserContentLines(texts: seq<string>)
    requires |texts| >= 1
    requires forall i :: 0 <= i < |texts| ==> '\n' !in texts[i]
    ensures Split(UserContent(texts), '\n') == Bullets(texts)
  {
    var lines := Bullets(texts);
    forall i | 0 <= i < |lines| ensures '\n' !in lines[i] {
      assert lines[i] == "- " + texts[i];
    }
    SplitJoin(lines, '\n');
  }

  /** What one call does: the value it returns or raises, the messages it posts and the model requests it makes. */
  datatype Effects = Effects(outcome: Result<State, Failure>, posts: seq<Post>, requests: seq<Prompt>)

  /** `summarize_thread`, given the thread's messages and the model's answers. */
  function Summarize(s: State, messages: seq<Message>, answer: Prompt -> Result<string, string>,
                     channel: string, ts: string): (e: Effects)
    ensures ThreadTexts(messages) == [] ==>
      (e.requests == [] && e.posts == [Post(channel, ts, NoMessages)] && e.outcome == Ok(s.(result := Some(NoMessages))))
    ensures ThreadTexts(messages) != [] ==> e.requests == [Prompt(SystemPrompt, UserContent(ThreadTexts(messages)))]
    // a non-empty thread is summarised exactly when the model answers
    ensures ThreadTexts(messages) != [] ==>
      (e.outcome.Ok? <==> answer(Prompt(SystemPrompt, UserContent(ThreadTexts(messages)))).Ok?)
    ensures e.outcome.Ok? ==> e.outcome.value == s.(result := e.outcome.value.result) && e.outcome.value.result.Some?
    ensures e.outcome.Ok? ==> |e.posts| == 1 && e.posts[0].channel == channel && e.posts[0].threadTs == ts
    ensures e.outcome.Ok? && e.requests != [] ==>
      (e.posts[0].text == SummaryHeader + e.outcome.value.result.value
       && answer(e.requests[0]).Ok?
       && e.outcome.value.result.value == Strip(answer(e.requests[0]).value))
    ensures e.outcome.Err? ==> e.posts == [] && e.outcome.error.ServiceError?
  {
    var texts := ThreadTexts(messages);
    if texts == [] then
      Effects(Ok(s.(result := Some(NoMessages))), [Post(channel, ts, NoMessages)], [])
    else
      var prompt := Prompt(SystemPrompt, UserContent(texts));
      match answer(prompt)
      case Err(m) => Effects(Err(ServiceError(m)), [], [prompt])
      case Ok(content) =>
        var summary := Strip(content);
        Effects(Ok(s.(result := Some(summary))), [Post(channel, ts, SummaryHeader + summary)], [prompt])
  }

  /** The stored summary never starts or ends with white space. */
  lemma SummaryIsStripped(s: State, messages: seq<Message>, answer: Prompt -> Result<string, string>,
                          channel: string, ts: string)
    requires ThreadTexts(messages) != []
    requires Summarize(s, messages, answer, channel, ts).outcome.Ok?
    ensures var r := Summarize(s, messages, answer, channel, ts).outcome.value.result.value;
      r != [] ==> !IsSpace(r[0]) && !IsSpace(r[|r| - 1])
  {
    var e := Summarize(s, messages, answer, channel, ts);
    assert e.requests != [];
    assert e.outcome.value.result.value == Strip(answer(e.requests[0]).value);
  }

  /** The handler: the same effects, carried out on the Slack client and the chat model. */
  method SummarizeThread(s: State, slack: SlackClient, model: ChatModel, channel: string, ts: string)
    returns (r: Result<State, Failure>)
    modifies slack, model
    ensures var e := Summarize(s, old(slack.Replies(channel, ts)), model.answer, channel, ts);
      && r == e.outcome
      && slack.posted == old(slack.posted) + e.posts
      && model.requests == old(model.requests) + e.requests
    ensures slack.threads == old(slack.threads)
  {
    var replies := slack.ConversationsReplies(channel, ts);
    var texts := ThreadTexts(replies);
    if texts == [] {
      slack.ChatPostMessage(channel, ts, NoMessages);
      r := Ok(s.(result := Some(NoMessages)));
      return;
    }
    var reply := model.Complete(Prompt(SystemPrompt, UserContent(texts)));
    if reply.Err? {
      r := Err(ServiceError(reply.error));
      return;
    }
    var summary := Strip(reply.value);
    slack.ChatPostMessage(channel, ts, SummaryHeader + summary);
    r := Ok(s.(result := Some(summary)));
  }
}

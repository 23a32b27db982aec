/**
 * The external services the handlers call, as recorded effects: the Slack web
 * client (thread replies in, posted messages out) and the hosted chat model
 * (prompts in, replies out).
 */
module Collaborators {
  import opened Wrappers

  /** One entry of the `messages` list in a `conversations_replies` response. */
  datatype Message = Message(text: Option<string>)

  /** One `chat_postMessage(channel=..., thread_ts=..., text=...)` call. */
  datatype Post = Post(channel: string, threadTs: string, text: string)

  /** One chat-completion request: the system message and the user message. */
  datatype Prompt = Prompt(system: string, user: string)

  class SlackClient {
    /** What `conversations_replies` answers per (channel, ts); a missing entry is a response without "messages". */
    var threads: map<(string, string), seq<Message>>
    /** Every message posted, oldest first. */
    var posted: seq<Post>

    constructor (threads: map<(string, string), seq<Message>>)
      ensures this.threads == threads && posted == []
    {
      this.threads := threads;
      posted := [];
    }

    /** `replies.get("messages", [])` */
    function Replies(channel: string, ts: string): seq<Message>
      reads this
    {
      if (channel, ts) in threads then threads[(channel, ts)] else []
    }

    method ConversationsReplies(channel: string, ts: string) returns (messages: seq<Message>)
      ensures messages == Replies(channel, ts)
    {
      messages := Replies(channel, ts);
    }

    method ChatPostMessage(channel: string, ts: string, text: string)
      modifies this
      ensures posted == old(posted) + [Post(channel, ts, text)]
      ensures threads == old(threads)
    {
      posted := posted + [Post(channel, ts, text)];
    }
  }

  class ChatModel {
    /** The reply content the hosted model gives a prompt, or the message of the exception the call raises. */
    const answer: Prompt -> Result<string, string>
    /** Every request sent, oldest first. */
    var requests: seq<Prompt>

    constructor (answer: Prompt -> Result<string, string>)
      ensures this.answer == answer && requests == []
    {
      this.answer := answer;
      requests := [];
    }

    method Complete(p: Prompt) returns (reply: Result<string, string>)
      modifies this
      ensures requests == old(requests) + [p]
      ensures reply == answer(p)
    {
      requests := requests + [p];
      reply := answer(p);
    }
  }
}

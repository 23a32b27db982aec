/** tools/routers.py: `handle_intent`, the dispatcher that writes a result. */
module Routers {
  import opened Wrappers
  import opened PyText
  import opened StateRecord
  import opened Intents
  import opened Collaborators
  import JiraTickets
  import ThreadSummary
  import Classify

  /** Which branch of the if/elif chain an intent takes. */
  datatype Branch = ToCreateTicket | ToUpdateTicket | ToSummarize | Reply(message: string)

  const NotImplementedOpen: string := "\U{2139}\U{FE0F} Intent '"
  const NotImplementedClose: string := "' detected but handler not implemented yet."
  const UnknownIntent: string := "\U{26A0}\U{FE0F} Unknown intent."

  function NotImplemented(intent: string): string {
    NotImplementedOpen + intent + NotImplementedClose
  }

  /** The branch chosen by exact string equality; exactly one fires. */
  function Dispatch(intent: string): (b: Branch)
    ensures b.ToCreateTicket? <==> intent == CreateJiraTicket
    ensures b.ToUpdateTicket? <==> intent == UpdateJiraTicket
    ensures b.ToSummarize? <==> intent == SummarizeThread
    ensures intent in {Lookup, FileSummary, Publish} <==> b == Reply(NotImplemented(intent))
    ensures intent !in KeywordLabels <==> b == Reply(UnknownIntent)
  {
    NotImplementedIsNotUnknown(intent);
    if intent == CreateJiraTicket then ToCreateTicket
    else if intent == UpdateJiraTicket then ToUpdateTicket
    else if intent == SummarizeThread then ToSummarize
    else if intent in [Lookup, FileSummary, Publish] then Reply(NotImplemented(intent))
    else Reply(UnknownIntent)
  }

  /** The two fixed replies cannot be confused: the not-implemented one is longer. */
  lemma NotImplementedIsNotUnknown(intent: string)
    ensures NotImplemented(intent) != UnknownIntent
  {
    assert |NotImplemented(intent)| >= |NotImplementedOpen| + |NotImplementedClose|;
  }

  /** The not-implemented reply quotes the intent verbatim, between the fixed opening and closing. */
  lemma NotImplementedQuotesIntent(intent: string)
    ensures Contains(NotImplemented(intent), intent)
    ensures StartsWith(NotImplemented(intent), NotImplementedOpen)
    ensures NotImplemented(intent)[|NotImplementedOpen|..|NotImplementedOpen| + |intent|] == intent
  {
    var m := NotImplemented(intent);
    var k := |NotImplementedOpen|;
    assert m[k..k + |intent|] == intent;
    ContainsAt(m, intent, k);
  }

  /** No label the keyword classifier emits meets the "Unknown intent" branch. */
  lemma KeywordLabelsNeverUnknown(s: State)
    requires s.text.Some?
    ensures Dispatch(Classify.Classify(s).value.intent.value) != Reply(UnknownIntent)
  {
  }

  /** The model-based classifier's fallback label meets the "Unknown intent" branch. */
  lemma UnknownLabelIsUnknownIntent()
    ensures Dispatch(Unknown) == Reply(UnknownIntent)
  {
  }

  /**
   * `handle_intent(state, client, channel_id, thread_ts)`: reads `state["intent"]`
   * (KeyError when absent) and delegates or writes one fixed result.
   */
  method HandleIntent(s: State, slack: SlackClient, model: ChatModel, channel: string, ts: string)
    returns (r: Result<State, Failure>)
    modifies slack, model
    ensures s.intent.None? ==> r == Err(KeyError("intent"))
    ensures s.intent.None? || !Dispatch(s.intent.value).ToSummarize? ==>
      slack.posted == old(slack.posted) && model.requests == old(model.requests)
    ensures s.intent.Some? ==>
      match Dispatch(s.intent.value)
      case ToCreateTicket => r == JiraTickets.CreateJiraTicket(s)
      case ToUpdateTicket => r == JiraTickets.UpdateJiraTicket(s)
      case Reply(m) => r == Ok(s.(result := Some(m)))
      case ToSummarize =>
        var e := ThreadSummary.Summarize(s, old(slack.Replies(channel, ts)), model.answer, channel, ts);
        && r == e.outcome
        && slack.posted == old(slack.posted) + e.posts
        && model.requests == old(model.requests) + e.requests
  {
    if s.intent.None? {
      return Err(KeyError("intent"));
    }
    match Dispatch(s.intent.value)
    case ToCreateTicket => r := JiraTickets.CreateJiraTicket(s);
    case ToUpdateTicket => r := JiraTickets.UpdateJiraTicket(s);
    case ToSummarize => r := ThreadSummary.SummarizeThread(s, slack, model, channel, ts);
    case Reply(m) => r := Ok(s.(result := Some(m)));
  }
}

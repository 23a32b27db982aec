/**
 * nodes/slack_listener.py (byte-for-byte the same as slack_listener/listener.py):
 * deduplication, mention stripping and the guard chain in front of the workflow.
 */
module SlackListener {
  import opened Wrappers
  import opened PyText
  import opened StateRecord

  /** The keys of a Slack event the listener reads; `None` means the key is absent. */
  datatype Event = Event(
    subtype: Option<string>,
    channel: Option<string>,
    ts: Option<string>,
    text: Option<string>,
    eventTs: Option<string>)

  /** `(event.get("channel"), event.get("ts"), event.get("text"))` */
  datatype EventKey = EventKey(channel: Option<string>, ts: Option<string>, text: Option<string>)

  function KeyOf(e: Event): EventKey {
    EventKey(e.channel, e.ts, e.text)
  }

  /**
   * The set bound once as the default value of `_is_duplicate`'s `seen`
   * parameter: one object, shared by every listener and every call, that only grows.
   */
  class SeenKeys {
    var keys: set<EventKey>

    constructor ()
      ensures keys == {}
    {
      keys := {};
    }

    /** `_is_duplicate(event)`: true for a key met before; a new key is recorded. */
    method IsDuplicate(e: Event) returns (duplicate: bool)
      modifies this
      ensures duplicate <==> KeyOf(e) in old(keys)
      ensures keys == old(keys) + {KeyOf(e)}
    {
      var key := KeyOf(e);
      if key in keys {
        return true;
      }
      keys := keys + {key};
      return false;
    }
  }

  /** The three values the constructor reads from the secrets store. */
  datatype Credentials = Credentials(botToken: string, appToken: string, botUserId: string)

  const MissingCredentials: string := "Missing Slack credentials from AWS Secrets Manager"
  const SecretsLoadPrefix: string := "Failed to load secrets from AWS: "

  predicate HasSecret(secrets: map<string, string>, name: string) {
    name in secrets && secrets[name] != ""
  }

  /** The checks in `__init__`: the store must load and yield all three values, each non-empty. */
  function LoadCredentials(secrets: Result<map<string, string>, string>): (r: Result<Credentials, Failure>)
    ensures secrets.Err? ==> r == Err(ServiceError(SecretsLoadPrefix + secrets.error))
    ensures secrets.Ok? ==>
      (r.Ok? <==> HasSecret(secrets.value, "SLACK_BOT_TOKEN") && HasSecret(secrets.value, "SLACK_APP_TOKEN")
                  && HasSecret(secrets.value, "BOT_USER_ID"))
    ensures secrets.Ok? && r.Err? ==> r.error == ValueError(MissingCredentials)
    ensures r.Ok? ==> r.value == Credentials(secrets.value["SLACK_BOT_TOKEN"], secrets.value["SLACK_APP_TOKEN"],
                                             secrets.value["BOT_USER_ID"])
  {
    match secrets
    case Err(m) => Err(ServiceError(SecretsLoadPrefix + m))
    case Ok(store) =>
      if HasSecret(store, "SLACK_BOT_TOKEN") && HasSecret(store, "SLACK_APP_TOKEN") && HasSecret(store, "BOT_USER_ID")
      then Ok(Credentials(store["SLACK_BOT_TOKEN"], store["SLACK_APP_TOKEN"], store["BOT_USER_ID"]))
      else Err(ValueError(MissingCredentials))
  }

  /** The mention markup for the bot. */
  function Mention(botUserId: string): (m: string)
    ensures |m| >= 3
  {
    "<@" + botUserId + ">"
  }

  /** `_extract_user_query`: the text with the mention removed (one pass of `replace`), then stripped. */
  function ExtractUserQuery(botUserId: string, e: Event): (q: string)
    ensures e.text.None? ==> q == ""
    ensures e.text.Some? && !Contains(e.text.value, Mention(botUserId)) ==> q == Strip(e.text.value)
  {
    var text := e.text.GetOr("");
    var removed := RemoveAll(text, Mention(botUserId));
    assert !Contains(text, Mention(botUserId)) ==> removed == text by {
      if !Contains(text, Mention(botUserId)) {
        RemoveAllAbsent(text, Mention(botUserId));
      }
    }
    Strip(removed)
  }

  /** A leading mention disappears from the query. */
  lemma LeadingMentionRemoved(botUserId: string, rest: string)
    requires !Contains(rest, Mention(botUserId))
    ensures ExtractUserQuery(botUserId, Event(None, None, None, Some(Mention(botUserId) + rest), None)) == Strip(rest)
  {
    RemoveAllLeading(Mention(botUserId), rest);
    RemoveAllAbsent(rest, Mention(botUserId));
  }

  /** `replace` makes one pass, so a mention spliced around another survives it. */
  lemma NestedMentionSurvives(botUserId: string)
    requires '<' !in botUserId
    ensures var m := Mention(botUserId);
      ExtractUserQuery(botUserId, Event(None, None, None, Some("<@" + m + botUserId + ">"), None)) == m
  {
    var m := Mention(botUserId);
    var rest := botUserId + ">";
    var text := "<@" + m + botUserId + ">";
    assert text == "<@" + m + rest;
    NestedRemoval(m, rest);
    assert "<@" + rest == m;
    StripOfUnpadded(m);
    assert ExtractUserQuery(botUserId, Event(None, None, None, Some(text), None)) == Strip(RemoveAll(text, m));
  }

  /**
   * A mention anywhere in the text is removed: the text before it (which holds
   * no "<") is kept, and the rest is cleaned in the same way.
   */
  lemma MentionRemoved(botUserId: string, e: Event, before: string, after: string)
    requires '<' !in before && e.text == Some(before + Mention(botUserId) + after)
    ensures ExtractUserQuery(botUserId, e) == Strip(before + RemoveAll(after, Mention(botUserId)))
    ensures !Contains(after, Mention(botUserId)) ==> ExtractUserQuery(botUserId, e) == Strip(before + after)
  {
    var m := Mention(botUserId);
    assert m[0] == '<';
    RemoveAllAfterPrefix(before, m, after);
    if !Contains(after, m) {
      RemoveAllAbsent(after, m);
    }
  }

  /** One pass over "<@" + m + rest, when `m` starts with "<@" but not "<@<" and `rest` holds no "<", leaves "<@" + rest. */
  lemma NestedRemoval(m: string, rest: string)
    requires |m| >= 3 && m[..2] == "<@" && m[2] != '<' && '<' !in rest
    ensures RemoveAll("<@" + m + rest, m) == "<@" + rest
  {
    var s := "<@" + m + rest;
    assert s[..|m|][2] == '<';
    RemoveAllSkip(s, m);
    assert s[1..] == "@" + m + rest;
    assert s[1..][..|m|][0] == '@';
    RemoveAllSkip(s[1..], m);
    assert s[1..][1..] == m + rest;
    RemoveAllLeading(m, rest);
    FirstCharAbsent(rest, m);
    RemoveAllAbsent(rest, m);
  }

  /** `event.get("ts") or event.get("event_ts")` */
  function ThreadTs(e: Event): (ts: Option<string>)
    ensures Truthy(e.ts) ==> ts == e.ts
    ensures !Truthy(e.ts) ==> ts == e.eventTs
  {
    if Truthy(e.ts) then e.ts else e.eventTs
  }

  /** One `say(text=..., thread_ts=...)` call. */
  datatype Say = Say(text: string, threadTs: Option<string>)

  /** How `_handle_message_event` ends. */
  datatype Outcome =
    | IgnoredBotMessage
    | IgnoredChannel
    | IgnoredDuplicate
    | Raised(error: Failure)                    // `event["channel"]` on an event without one
    | Invoked(state: State, reply: Option<Say>) // the workflow ran; `reply` is what was said, if anything

  /** The outcome of one event and the seen keys afterwards. */
  datatype Step = Step(outcome: Outcome, seen: set<EventKey>)

  predicate IsBotMessage(e: Event) {
    e.subtype == Some("bot_message")
  }

  /** The allow-list check: applied only when the list is non-empty; an absent channel is not on it. */
  predicate ChannelRefused(allowed: seq<string>, e: Event) {
    allowed != [] && (e.channel.None? || e.channel.value !in allowed)
  }

  /** The dict handed to the workflow: the query, the channel and the thread, and no other key. */
  function InitialState(botUserId: string, e: Event): State
    requires e.channel.Some?
  {
    EmptyState.(text := Some(ExtractUserQuery(botUserId, e)), channelId := e.channel, threadTs := ThreadTs(e))
  }

  /** `_handle_message_event` with the workflow as a function of the state. */
  function HandleEvent(allowed: seq<string>, botUserId: string, seen: set<EventKey>,
                       workflow: State -> State, e: Event): (step: Step)
    // the first two guards return before the key is recorded
    ensures IsBotMessage(e) ==> step == Step(IgnoredBotMessage, seen)
    ensures !IsBotMessage(e) && ChannelRefused(allowed, e) ==> step == Step(IgnoredChannel, seen)
    // every other event has its key recorded, and is dropped exactly when the key was there
    ensures !IsBotMessage(e) && !ChannelRefused(allowed, e) ==>
      step.seen == seen + {KeyOf(e)} && (step.outcome == IgnoredDuplicate <==> KeyOf(e) in seen)
    // a new event that passes the guards reaches the workflow with exactly the three keys, or raises without a channel
    ensures !IsBotMessage(e) && !ChannelRefused(allowed, e) && KeyOf(e) !in seen ==>
      if e.channel.Some? then step.outcome.Invoked? && step.outcome.state == InitialState(botUserId, e)
      else step.outcome == Raised(KeyError("channel"))
    ensures step.outcome.Invoked? ==>
      && KeyOf(e) !in seen
      && e.channel.Some?
      && step.outcome.state.text == Some(ExtractUserQuery(botUserId, e))
      && step.outcome.state.channelId == e.channel
      && step.outcome.state.threadTs == ThreadTs(e)
    // a reply is sent only for a truthy "response", in the event's thread
    ensures step.outcome.Invoked? ==>
      var response := workflow(step.outcome.state).response;
      step.outcome.reply == (if Truthy(response) then Some(Say(response.value, ThreadTs(e))) else None)
    ensures step.outcome.Raised? ==> e.channel.None? && step.outcome.error == KeyError("channel")
  {
    if IsBotMessage(e) then Step(IgnoredBotMessage, seen)
    else if ChannelRefused(allowed, e) then Step(IgnoredChannel, seen)
    else if KeyOf(e) in seen then Step(IgnoredDuplicate, seen)
    else
      var seen' := seen + {KeyOf(e)};
      if e.channel.None? then Step(Raised(KeyError("channel")), seen')
      else
        var state := InitialState(botUserId, e);
        var response := workflow(state).response;
        Step(Invoked(state, if Truthy(response) then Some(Say(response.value, ThreadTs(e))) else None), seen')
  }

  /** The outcomes of a series of events, each handled with the keys the earlier ones left. */
  datatype Run = Run(outcomes: seq<Outcome>, seen: set<EventKey>)

  function HandleAll(allowed: seq<string>, botUserId: string, seen: set<EventKey>,
                     workflow: State -> State, events: seq<Event>): (r: Run)
    ensures |r.outcomes| == |events|
    ensures seen <= r.seen
    decreases |events|
  {
    if events == [] then Run([], seen)
    else
      var step := HandleEvent(allowed, botUserId, seen, workflow, events[0]);
      var rest := HandleAll(allowed, botUserId, step.seen, workflow, events[1..]);
      Run([step.outcome] + rest.outcomes, rest.seen)
  }

  /** An event that reaches the workflow carries a key that no earlier event of the run recorded. */
  lemma {:induction false} InvokedKeyIsNew(allowed: seq<string>, botUserId: string, seen: set<EventKey>,
                                           workflow: State -> State, events: seq<Event>, j: nat)
    requires j < |events|
    requires HandleAll(allowed, botUserId, seen, workflow, events).outcomes[j].Invoked?
    ensures KeyOf(events[j]) !in seen
    decreases j
  {
    var step := HandleEvent(allowed, botUserId, seen, workflow, events[0]);
    var rest := HandleAll(allowed, botUserId, step.seen, workflow, events[1..]);
    HandleAllCons(allowed, botUserId, seen, workflow, events);
    if j > 0 {
      assert rest.outcomes[j - 1].Invoked?;
      InvokedKeyIsNew(allowed, botUserId, step.seen, workflow, events[1..], j - 1);
      assert events[j] == events[1..][j - 1];
    }
  }

  /** The run over a nonempty batch: the first event's step, then the run over the rest. */
  lemma HandleAllCons(allowed: seq<string>, botUserId: string, seen: set<EventKey>,
                      workflow: State -> State, events: seq<Event>)
    requires events != []
    ensures var step := HandleEvent(allowed, botUserId, seen, workflow, events[0]);
      HandleAll(allowed, botUserId, seen, workflow, events).outcomes
        == [step.outcome] + HandleAll(allowed, botUserId, step.seen, workflow, events[1..]).outcomes
  {
  }

  /** An event that reaches the workflow was not seen before and is seen after. */
  lemma InvokedRecordsKey(allowed: seq<string>, botUserId: string, seen: set<EventKey>,
                          workflow: State -> State, e: Event)
    requires HandleEvent(allowed, botUserId, seen, workflow, e).outcome.Invoked?
    ensures KeyOf(e) !in seen && KeyOf(e) in HandleEvent(allowed, botUserId, seen, workflow, e).seen
  {
  }

  /** Within one run no two events with the same (channel, ts, text) both reach the workflow. */
  lemma {:induction false} NoKeyInvokedTwice(allowed: seq<string>, botUserId: string, seen: set<EventKey>,
                                             workflow: State -> State, events: seq<Event>, i: nat, j: nat)
    requires i < j < |events|
    requires HandleAll(allowed, botUserId, seen, workflow, events).outcomes[i].Invoked?
    requires HandleAll(allowed, botUserId, seen, workflow, events).outcomes[j].Invoked?
    ensures KeyOf(events[i]) != KeyOf(events[j])
    decreases i
  {
    var step := HandleEvent(allowed, botUserId, seen, workflow, events[0]);
    var tail := events[1..];
    OutcomeAfterFirst(allowed, botUserId, seen, workflow, events, j);
    assert events[j] == tail[j - 1];
    if i == 0 {
      OutcomeOfFirst(allowed, botUserId, seen, workflow, events);
      InvokedRecordsKey(allowed, botUserId, seen, workflow, events[0]);
      InvokedKeyIsNew(allowed, botUserId, step.seen, workflow, tail, j - 1);
    } else {
      OutcomeAfterFirst(allowed, botUserId, seen, workflow, events, i);
      assert events[i] == tail[i - 1];
      NoKeyInvokedTwice(allowed, botUserId, step.seen, workflow, tail, i - 1, j - 1);
    }
  }

  /** The first outcome of a run is the first event's own step. */
  lemma OutcomeOfFirst(allowed: seq<string>, botUserId: string, seen: set<EventKey>,
                       workflow: State -> State, events: seq<Event>)
    requires events != []
    ensures HandleAll(allowed, botUserId, seen, workflow, events).outcomes[0]
      == HandleEvent(allowed, botUserId, seen, workflow, events[0]).outcome
  {
    HandleAllCons(allowed, botUserId, seen, workflow, events);
  }

  /** A later outcome of a run is that of the run over the rest, from the keys the first event left. */
  lemma OutcomeAfterFirst(allowed: seq<string>, botUserId: string, seen: set<EventKey>,
                          workflow: State -> State, events: seq<Event>, k: nat)
    requires 0 < k < |events|
    ensures var step := HandleEvent(allowed, botUserId, seen, workflow, events[0]);
      HandleAll(allowed, botUserId, seen, workflow, events).outcomes[k]
        == HandleAll(allowed, botUserId, step.seen, workflow, events[1..]).outcomes[k - 1]
  {
    HandleAllCons(allowed, botUserId, seen, workflow, events);
  }

  /** The listener: its configuration, the shared seen keys, and the replies it has said. */
  class Listener {
    const botUserId: string
    const allowedChannels: seq<string>
    const workflow: State -> State
    const seen: SeenKeys
    var said: seq<Say>

    /** `__init__` after the credentials check; `allowed_channels or []`. */
    constructor (creds: Credentials, allowedChannels: Option<seq<string>>, workflow: State -> State, seen: SeenKeys)
      ensures botUserId == creds.botUserId && this.allowedChannels == allowedChannels.GetOr([])
      ensures this.workflow == workflow && this.seen == seen && said == []
    {
      botUserId := creds.botUserId;
      this.allowedChannels := allowedChannels.GetOr([]);
      this.workflow := workflow;
      this.seen := seen;
      said := [];
    }

    /** `_handle_message_event(event, say)` */
    method HandleMessageEvent(e: Event) returns (outcome: Outcome)
      modifies this`said, seen
      ensures var step := HandleEvent(allowedChannels, botUserId, old(seen.keys), workflow, e);
        outcome == step.outcome && seen.keys == step.seen
      ensures said == old(said) + (if outcome.Invoked? && outcome.reply.Some? then [outcome.reply.value] else [])
    {
      if IsBotMessage(e) {
        return IgnoredBotMessage;
      }
      if ChannelRefused(allowedChannels, e) {
        return IgnoredChannel;
      }
      var duplicate := seen.IsDuplicate(e);
      if duplicate {
        return IgnoredDuplicate;
      }
      if e.channel.None? {
        return Raised(KeyError("channel"));
      }
      var state := InitialState(botUserId, e);
      var result := workflow(state);
      var reply: Option<Say> := None;
      if Truthy(result.response) {
        reply := Some(Say(result.response.value, ThreadTs(e)));
        said := said + [reply.value];
      }
      outcome := Invoked(state, reply);
    }
  }

  /** Two listeners built over the one default set: an event the first handled is a duplicate for the second. */
  method SharedSeenAcrossListeners(creds: Credentials, workflow: State -> State, e: Event)
    returns (first: Outcome, second: Outcome)
    requires !IsBotMessage(e) && e.channel.Some?
    ensures first.Invoked? && second == IgnoredDuplicate
  {
    var seen := new SeenKeys();
    var a := new Listener(creds, None, workflow, seen);
    var b := new Listener(creds, None, workflow, seen);
    first := a.HandleMessageEvent(e);
    second := b.HandleMessageEvent(e);
  }
}

/** nodes/classify.py: the keyword classifier with a fixed priority order. */
module Classify {
  import opened Wrappers
  import opened PyText
  import opened StateRecord
  import opened Intents

  predicate AsksCreate(t: string) { Contains(t, "create a jira") || Contains(t, "create a ticket") }
  predicate AsksUpdate(t: string) { Contains(t, "update an-") || Contains(t, "update ") }
  predicate AsksSummary(t: string) { Contains(t, "summarize this thread") || Contains(t, "summarize") }
  predicate AsksFileSummary(t: string) { Contains(t, "file summary") }
  predicate AsksPublish(t: string) { Contains(t, "publish") }

  /** The if/elif chain, applied to the already lower-cased text. */
  function KeywordIntent(lowered: string): (intent: string)
    ensures intent in KeywordLabels
  {
    if AsksCreate(lowered) then CreateJiraTicket
    else if AsksUpdate(lowered) then UpdateJiraTicket
    else if AsksSummary(lowered) then SummarizeThread
    else if AsksFileSummary(lowered) then FileSummary
    else if AsksPublish(lowered) then Publish
    else Lookup
  }

  /**
   * `classify(state)`: reads `state["text"]` (KeyError when absent), lowers it
   * and writes `intent`; nothing else changes.
   */
  function Classify(s: State): (r: Result<State, Failure>)
    ensures r.Err? <==> s.text.None?
    ensures r.Err? ==> r.error == KeyError("text")
    ensures r.Ok? ==> r.value.intent.Some? && r.value.intent.value in KeywordLabels
    ensures r.Ok? ==> r.value == s.(intent := r.value.intent)
  {
    if s.text.None? then Err(KeyError("text"))
    else Ok(s.(intent := Some(KeywordIntent(Lower(s.text.value)))))
  }

  /** The label chosen for a text, as each branch of the chain decides it. */
  lemma KeywordPriority(t: string)
    ensures KeywordIntent(t) == CreateJiraTicket <==> AsksCreate(t)
    ensures KeywordIntent(t) == UpdateJiraTicket <==> !AsksCreate(t) && Contains(t, "update ")
    ensures KeywordIntent(t) == SummarizeThread <==>
      !AsksCreate(t) && !Contains(t, "update ") && Contains(t, "summarize")
    ensures KeywordIntent(t) == FileSummary <==>
      !AsksCreate(t) && !Contains(t, "update ") && !Contains(t, "summarize") && Contains(t, "file summary")
    ensures KeywordIntent(t) == Publish <==>
      !AsksCreate(t) && !Contains(t, "update ") && !Contains(t, "summarize")
      && !Contains(t, "file summary") && Contains(t, "publish")
    ensures KeywordIntent(t) == Lookup <==>
      !AsksCreate(t) && !Contains(t, "update ") && !Contains(t, "summarize")
      && !Contains(t, "file summary") && !Contains(t, "publish")
  {
    UpdateTestSubsumed(t);
    if Contains(t, "summarize this thread") {
      assert "summarize" + " this thread" == "summarize this thread";
      ContainsPrefixOfPattern(t, "summarize", " this thread");
    }
  }

  /** The "update an-" test adds nothing: every text it accepts contains "update ". */
  lemma UpdateTestSubsumed(t: string)
    ensures AsksUpdate(t) <==> Contains(t, "update ")
  {
    if Contains(t, "update an-") {
      assert "update " + "an-" == "update an-";
      ContainsPrefixOfPattern(t, "update ", "an-");
    }
  }

  /** Classification looks only at the lower-cased text, so case does not matter. */
  lemma ClassifyIgnoresCase(s: State, t: string)
    requires s.text == Some(t)
    ensures Classify(s.(text := Some(Lower(t)))).value.intent == Classify(s).value.intent
  {
    LowerIdempotent(t);
  }

  /** Running the node twice leaves the state as one run does. */
  lemma ClassifyIdempotent(s: State)
    requires s.text.Some?
    ensures Classify(Classify(s).value) == Classify(s)
  {
  }

  /** The label is never "unknown": the chain falls back to "lookup". */
  lemma ClassifyNeverUnknown(s: State)
    requires s.text.Some?
    ensures Classify(s).value.intent != Some(Unknown)
  {
  }

  /** A request to create a ticket wins even when it also asks to publish. */
  lemma CreateBeatsPublish(u: string, v: string)
    ensures KeywordIntent(u + "create a ticket" + v + "publish") == CreateJiraTicket
  {
    ContainsAt("create a ticket", "create a ticket", 0);
    ContainsInContext(u, "create a ticket", v + "publish", "create a ticket");
    assert u + "create a ticket" + v + "publish" == u + "create a ticket" + (v + "publish");
  }
}

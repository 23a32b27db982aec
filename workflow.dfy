/** graph/workflow.py: the string-returning router and the graph that `build_graph` declares. */
module Workflow {
  import opened Wrappers
  import opened StateRecord
  import opened Intents
  import Classify

  const ClassifyNode: string := "classify"
  /** The router's fallback. It is the plain string "end", not a node of the graph. */
  const End: string := "end"

  /** What `build_graph` declares: registered nodes, entry point, the one conditional source, finish points. */
  datatype GraphSpec = GraphSpec(nodes: set<string>, entry: string, routedFrom: string, finishPoints: set<string>)

  const BuiltGraph: GraphSpec := GraphSpec(
    {ClassifyNode, SummarizeThread, Lookup, Publish},
    ClassifyNode,
    ClassifyNode,
    {SummarizeThread, Lookup, Publish})

  /** `route_based_on_intent`: exact matches on three labels; everything else, a missing intent included, goes to "end". */
  function RouteBasedOnIntent(s: State): (next: string)
    ensures next in {SummarizeThread, Lookup, Publish, End}
    ensures next != End <==> s.intent.Some? && s.intent.value in {SummarizeThread, Lookup, Publish}
    ensures next != End ==> next == s.intent.value
  {
    var intent := s.intent;
    if intent == Some(SummarizeThread) then SummarizeThread
    else if intent == Some(Lookup) then Lookup
    else if intent == Some(Publish) then Publish
    else End
  }

  /** Every target other than "end" is a registered node, a finish point, and not the entry. */
  lemma RouteTargetsAreFinishPoints(s: State)
    ensures var next := RouteBasedOnIntent(s);
      next != End ==> next in BuiltGraph.nodes && next in BuiltGraph.finishPoints && next != BuiltGraph.entry
  {
  }

  /** "end" itself is not among the registered nodes. */
  lemma EndIsNotRegistered()
    ensures End !in BuiltGraph.nodes
  {
  }

  /** The node names one invocation visits: the entry node, then the router's choice for the classified state. */
  function Visit(s: State): (path: Result<seq<string>, Failure>)
    ensures path.Ok? ==> |path.value| == 2 && path.value[0] == BuiltGraph.entry
    ensures path.Ok? ==> path.value[0] == BuiltGraph.routedFrom
    ensures path.Err? <==> s.text.None?
    ensures path.Ok? ==> Classify.Classify(s).Ok? && path.value[1] == RouteBasedOnIntent(Classify.Classify(s).value)
  {
    match Classify.Classify(s)
    case Err(e) => Err(e)
    case Ok(c) => Ok([BuiltGraph.entry, RouteBasedOnIntent(c)])
  }

  /** Of the keyword labels, ticket creation, ticket update and "file summary" fall through to "end". */
  lemma KeywordLabelsRouting(s: State)
    requires s.text.Some?
    ensures var c := Classify.Classify(s).value;
      RouteBasedOnIntent(c) == End <==> c.intent.value in {CreateJiraTicket, UpdateJiraTicket, FileSummary}
  {
  }

  /** A missing intent and "unknown" both fall through to "end". */
  lemma FallbackRoutes(s: State)
    requires s.intent.None? || s.intent == Some(Unknown)
    ensures RouteBasedOnIntent(s) == End
  {
  }
}

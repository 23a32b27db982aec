/** graph/classifier_graph.py: the edge list of the second graph, as a constant transition relation. */
module ClassifierGraph {
  import opened Wrappers
  import opened StateRecord
  import opened Intents
  import Classify

  const ClassifyNode: string := "classify"
  /** The library's END sentinel. */
  const End: string := "__end__"

  datatype Condition = Always | IntentIs(expected: string) | IntentIn(choices: seq<string>)
  datatype Edge = Edge(source: string, target: string, condition: Condition)

  const Nodes: set<string> := {ClassifyNode, CreateJiraTicket, UpdateJiraTicket, SummarizeThread}
  const Handlers: set<string> := {CreateJiraTicket, UpdateJiraTicket, SummarizeThread}

  /** The edges in the order the file adds them. */
  const Edges: seq<Edge> := [
    Edge(ClassifyNode, CreateJiraTicket, IntentIs(CreateJiraTicket)),
    Edge(ClassifyNode, UpdateJiraTicket, IntentIs(UpdateJiraTicket)),
    Edge(ClassifyNode, SummarizeThread, IntentIs(SummarizeThread)),
    Edge(ClassifyNode, End, IntentIn([Lookup, FileSummary, Publish])),
    Edge(CreateJiraTicket, End, Always),
    Edge(UpdateJiraTicket, End, Always),
    Edge(SummarizeThread, End, Always)
  ]

  /** A condition's lambda applied to `s`; the label tests read `s["intent"]`, a KeyError when absent. */
  function Holds(c: Condition, s: State): (r: Result<bool, Failure>)
    ensures c.Always? ==> r == Ok(true)
    ensures !c.Always? && s.intent.None? ==> r == Err(KeyError("intent"))
  {
    match c
    case Always => Ok(true)
    case IntentIs(l) => if s.intent.None? then Err(KeyError("intent")) else Ok(s.intent.value == l)
    case IntentIn(ls) => if s.intent.None? then Err(KeyError("intent")) else Ok(s.intent.value in ls)
  }

  predicate Fires(e: Edge, s: State) {
    Holds(e.condition, s) == Ok(true)
  }

  /** The targets of those edges of `es` that leave `node` and whose condition holds, in edge order. */
  function TargetsFrom(es: seq<Edge>, node: string, s: State): seq<string> {
    if es == [] then []
    else StepAlong(es[0], node, s) + TargetsFrom(es[1..], node, s)
  }

  /** The target of one edge, when it leaves `node` and its condition holds. */
  function StepAlong(e: Edge, node: string, s: State): seq<string> {
    if e.source == node && Fires(e, s) then [e.target] else []
  }

  /** The nodes the graph may step to from `node`, in the order their edges were added. */
  function Successors(node: string, s: State): seq<string> {
    TargetsFrom(Edges, node, s)
  }

  /** The successor list, edge by edge. */
  lemma SuccessorsByEdge(node: string, s: State)
    ensures Successors(node, s) ==
      StepAlong(Edges[0], node, s) + StepAlong(Edges[1], node, s) + StepAlong(Edges[2], node, s)
      + StepAlong(Edges[3], node, s) + StepAlong(Edges[4], node, s) + StepAlong(Edges[5], node, s)
      + StepAlong(Edges[6], node, s)
  {
    var es := Edges;
    assert TargetsFrom(es[7..], node, s) == [];
    assert TargetsFrom(es[6..], node, s) == StepAlong(es[6], node, s) + TargetsFrom(es[7..], node, s);
    assert TargetsFrom(es[5..], node, s) == StepAlong(es[5], node, s) + TargetsFrom(es[6..], node, s);
    assert TargetsFrom(es[4..], node, s) == StepAlong(es[4], node, s) + TargetsFrom(es[5..], node, s);
    assert TargetsFrom(es[3..], node, s) == StepAlong(es[3], node, s) + TargetsFrom(es[4..], node, s);
    assert TargetsFrom(es[2..], node, s) == StepAlong(es[2], node, s) + TargetsFrom(es[3..], node, s);
    assert TargetsFrom(es[1..], node, s) == StepAlong(es[1], node, s) + TargetsFrom(es[2..], node, s);
    assert TargetsFrom(es, node, s) == StepAlong(es[0], node, s) + TargetsFrom(es[1..], node, s);
  }

  /** The four conditions out of "classify" exclude each other. */
  lemma ClassifyConditionsExclusive(s: State, i: nat, j: nat)
    requires i < |Edges| && j < |Edges| && i != j
    requires Edges[i].source == ClassifyNode && Edges[j].source == ClassifyNode
    ensures !(Fires(Edges[i], s) && Fires(Edges[j], s))
  {
  }

  /** Where each intent leads from "classify": its own node for the three handled labels, END for the other three, nowhere otherwise. */
  lemma ClassifySuccessors(s: State)
    requires s.intent.Some?
    ensures s.intent.value in Handlers ==> Successors(ClassifyNode, s) == [s.intent.value]
    ensures s.intent.value in {Lookup, FileSummary, Publish} ==> Successors(ClassifyNode, s) == [End]
    ensures s.intent.value !in KeywordLabels ==> Successors(ClassifyNode, s) == []
  {
    SuccessorsByEdge(ClassifyNode, s);
  }

  /** "unknown" satisfies no condition out of "classify": the graph has no step to take. */
  lemma UnknownIsStuck(s: State)
    requires s.intent == Some(Unknown)
    ensures Successors(ClassifyNode, s) == []
  {
    ClassifySuccessors(s);
  }

  /** Each handler goes to END whatever the state, and END has no way out, so a run is at most classify plus one handler. */
  lemma RunsAreShort(s: State, n: string)
    requires n in Successors(ClassifyNode, s)
    ensures n == End || (n in Handlers && Successors(n, s) == [End])
    ensures Successors(End, s) == []
  {
    SuccessorsByEdge(ClassifyNode, s);
    SuccessorsByEdge(n, s);
    SuccessorsByEdge(End, s);
  }

  /** Every label `classify` emits satisfies exactly one condition out of "classify". */
  lemma ClassifiedStateHasOneStep(s: State)
    requires s.text.Some?
    ensures |Successors(ClassifyNode, Classify.Classify(s).value)| == 1
  {
    ClassifySuccessors(Classify.Classify(s).value);
  }
}

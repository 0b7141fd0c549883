/** The backend workflow (graph/main_graph.py): the intent node runs first;
    a conditional edge sends "document" intents to the document node and
    everything else to the end; the document node always ends the run. */
module MainGraph {
  import opened Base
  import opened Json
  import opened AgentState
  import IntentAgent
  import DocumentAgent

  datatype Node = IntentNode | DocumentNode | End

  const Entry: Node := IntentNode

  /** `route`: `state.get("intent") == "document"`. */
  function Route(state: State): (n: Node)
    ensures n == DocumentNode <==> "intent" in state && state["intent"] == JStr("document")
    ensures n != DocumentNode ==> n == End
  {
    if "intent" in state && state["intent"] == JStr("document") then DocumentNode else End
  }

  /** The edges: conditional after the intent node, fixed after the
      document node. */
  function Next(n: Node, state: State): (m: Node)
    requires n != End
    ensures Rank(m) < Rank(n)
  {
    match n
    case IntentNode => Route(state)
    case DocumentNode => End
  }

  /** Distance to the end along the edges. */
  function Rank(n: Node): nat
  {
    match n
    case IntentNode => 2
    case DocumentNode => 1
    case End => 0
  }

  /** The services both nodes call: the intent reply as a function of the
      user input, and the document node's own services. */
  datatype Services = Services(intentReply: Json -> string, document: DocumentAgent.Services)

  /** One node's contribution, to be written over the state. */
  function RunNode(n: Node, state: State, sv: Services): Result<State, PyError>
    requires n != End
  {
    match n
    case IntentNode => Success(IntentAgent.Run(state, sv.intentReply))
    case DocumentNode => DocumentAgent.Run(state, sv.document)
  }

  /** Runs from `n` to the end, returning the final state and the nodes
      visited; an exception in a node ends the run with that exception. */
  function Execute(n: Node, state: State, sv: Services): (r: Result<(State, seq<Node>), PyError>)
    ensures r.Success? ==> |r.value.1| == Rank(n) || (n == IntentNode && |r.value.1| == 1)
    ensures r.Success? ==> End !in r.value.1
    decreases Rank(n)
  {
    if n == End then Success((state, []))
    else
      match RunNode(n, state, sv)
      case Failure(e) => Failure(e)
      case Success(update) =>
        var s' := Apply(state, update);
        match Execute(Next(n, s'), s', sv)
        case Failure(e) => Failure(e)
        case Success((final, trace)) => Success((final, [n] + trace))
  }

  /** `main_graph.invoke(state)`. */
  function Invoke(state: State, sv: Services): Result<(State, seq<Node>), PyError>
  {
    Execute(Entry, state, sv)
  }

  /** The intent the first node writes. */
  function IntentOf(state: State, sv: Services): string
  {
    IntentAgent.Classify(sv.intentReply(Get(state, "user_input", JStr(""))))
  }

  /** The state after the intent node, and where its edge leads. */
  lemma IntentState(state: State, sv: Services)
    ensures var s1 := Apply(state, IntentAgent.Run(state, sv.intentReply));
      && "intent" in s1 && s1["intent"] == JStr(IntentOf(state, sv))
      && Next(IntentNode, s1) == (if IntentOf(state, sv) == "document" then DocumentNode else End)
  {
  }

  /** The intent node never fails and hands its state to the next node. */
  lemma IntentStep(state: State, sv: Services)
    ensures var s1 := Apply(state, IntentAgent.Run(state, sv.intentReply));
      Execute(IntentNode, state, sv)
        == match Execute(Next(IntentNode, s1), s1, sv)
           case Failure(e) => Failure(e)
           case Success((final, trace)) => Success((final, [IntentNode] + trace))
  {
  }

  /** The document node ends the run with its own result, and it keeps the
      intent. */
  lemma DocumentStep(s: State, sv: Services)
    ensures DocumentAgent.Run(s, sv.document).Failure? ==> Execute(DocumentNode, s, sv).Failure?
    ensures DocumentAgent.Run(s, sv.document).Success? ==>
      Execute(DocumentNode, s, sv) == Success((DocumentAgent.Run(s, sv.document).value, [DocumentNode]))
    ensures DocumentAgent.Run(s, sv.document).Success? && "intent" in s ==>
      var u := DocumentAgent.Run(s, sv.document).value;
      "intent" in u && u["intent"] == s["intent"]
  {
    match DocumentAgent.Run(s, sv.document)
    case Failure(_) =>
    case Success(u) =>
      DocumentAgent.RunThenApply(s, sv.document);
      assert RunNode(DocumentNode, s, sv) == Success(u);
      assert Apply(s, u) == u;
      assert Next(DocumentNode, u) == End;
      assert Execute(End, u, sv) == Success((u, []));
      assert [DocumentNode] + [] == [DocumentNode];
  }

  /** Every run starts at the intent node and visits the document node
      exactly when the intent is "document"; a run that finishes carries one
      of the three intents. */
  lemma {:induction false} InvokeVisits(state: State, sv: Services)
    ensures Invoke(state, sv).Success? ==>
      Invoke(state, sv).value.1 == (if IntentOf(state, sv) == "document" then [IntentNode, DocumentNode] else [IntentNode])
    ensures Invoke(state, sv).Success? ==>
      "intent" in Invoke(state, sv).value.0 && Invoke(state, sv).value.0["intent"] == JStr(IntentOf(state, sv))
    ensures IntentOf(state, sv) != "document" ==> Invoke(state, sv).Success?
  {
    IntentState(state, sv);
    IntentStep(state, sv);
    var s1 := Apply(state, IntentAgent.Run(state, sv.intentReply));
    if IntentOf(state, sv) == "document" {
      DocumentStep(s1, sv);
    } else {
      assert Execute(End, s1, sv) == Success((s1, []));
    }
  }

  /** Only the document node can fail, and then only on a `files` value it
      cannot subscript. */
  lemma {:induction false} FailureNeedsDocumentNode(state: State, sv: Services)
    requires Invoke(state, sv).Failure?
    ensures IntentOf(state, sv) == "document"
  {
  }
}

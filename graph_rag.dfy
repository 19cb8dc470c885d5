/** The LangGraph answering workflow: a state record threaded through five
    nodes (retrieve, grade_documents, generate, rewrite, fallback), a pure
    router after grading, and a driver that merges each node's partial
    update into the state and follows the wiring until a terminal node.

    Every language-model, embedding and vector-store call is an oracle: a
    function-valued field of `Oracles`. The wiring has no retry bound, so
    the driver takes a step budget; `RewriteLoopUnbounded` shows that no
    budget suffices when sources are selected and grading keeps saying no,
    and `EmptySelectionRun` shows that three steps always suffice when no
    source is selected. */
module GraphRag {
  import opened Text
  import opened Documents

  /** Number of chunks the retrieve node asks for. */
  const RetrieveK: nat := 10

  const Yes: string := "yes"
  const No: string := "no"

  /** A JSON value as far as grading looks at it: a string, or anything else. */
  datatype Json = JString(s: string) | JOther

  /** What the grading chain yields: a parsed JSON object, or a failure
      (the model call or the JSON parse raised, or the output is not an
      object, so that `.get` raises). */
  datatype GradeReply = JsonObject(fields: map<string, Json>) | GradeFailure

  /** The outside world the nodes call. Each field receives the model name
      first; `grade` and `answer` also receive the joined document context,
      all of them the current question. */
  datatype Oracles = Oracles(
    search: SearchRequest -> seq<Document>,
    grade: (string, string, string) -> GradeReply,
    answer: (string, string, string) -> string,
    rewrite: (string, string) -> string,
    general: (string, string) -> string)

  /** The graph state. `generation`, `documents` and `runRag` are absent
      from the input record and appear once a node returns them. */
  datatype GraphState = GraphState(
    question: string,
    generation: Option<string>,
    documents: Option<seq<Document>>,
    modelName: string,
    selectedSources: seq<string>,
    runRag: Option<string>)

  /** The record the graph is invoked with. */
  function Initial(question: string, selected: seq<string>, model: string): GraphState {
    GraphState(question, None, None, model, selected, None)
  }

  /** The partial record a node returns: only the keys it sets. */
  datatype Update = Update(
    question: Option<string>,
    generation: Option<string>,
    documents: Option<seq<Document>>,
    runRag: Option<string>)

  /** The executor's merge: keys in the update replace those in the state,
      every other key keeps its value. */
  function Merge(s: GraphState, u: Update): (r: GraphState)
    ensures r.modelName == s.modelName && r.selectedSources == s.selectedSources
    ensures u == Update(None, None, None, None) ==> r == s
    ensures u.question.Some? ==> r.question == u.question.value
    ensures u.generation.Some? ==> r.generation == u.generation
    ensures u.documents.Some? ==> r.documents == u.documents
    ensures u.runRag.Some? ==> r.runRag == u.runRag
    ensures u.question.None? ==> r.question == s.question
    ensures u.generation.None? ==> r.generation == s.generation
    ensures u.documents.None? ==> r.documents == s.documents
    ensures u.runRag.None? ==> r.runRag == s.runRag
  {
    s.(question := if u.question.Some? then u.question.value else s.question,
       generation := if u.generation.Some? then u.generation else s.generation,
       documents := if u.documents.Some? then u.documents else s.documents,
       runRag := if u.runRag.Some? then u.runRag else s.runRag)
  }

  function Contents(docs: seq<Document>): seq<string> {
    seq(|docs|, i requires 0 <= i < |docs| => docs[i].pageContent)
  }

  // ---------------------------------------------------------------------
  // Nodes
  // ---------------------------------------------------------------------

  /** The search the retrieve node makes for a state. */
  function RetrieveRequest(s: GraphState): SearchRequest {
    SearchRequest(s.question, SourceFilter(s.selectedSources), RetrieveK)
  }

  /** retrieve: replaces the documents wholesale with the search result for
      the current question, filtered to the selected sources if any. */
  function Retrieve(s: GraphState, o: Oracles): (u: Update)
    ensures Merge(s, u) == s.(documents := Some(o.search(RetrieveRequest(s))))
  {
    Update(Some(s.question), None, Some(o.search(RetrieveRequest(s))), None)
  }

  /** The grading model's verdict is affirmative only for `{"score": "yes"}`;
      a missing key counts as "no". */
  predicate IsYes(reply: GradeReply) {
    reply.JsonObject? && "score" in reply.fields && reply.fields["score"] == JString(Yes)
  }

  /** grade_documents: "no" without consulting the grading model when there are no
      documents; otherwise "yes" exactly when the grading model answers "yes". */
  function GradeDocuments(s: GraphState, o: Oracles): (u: Update)
    requires s.documents.Some?
    ensures Merge(s, u) == s.(runRag := Merge(s, u).runRag)
  {
    var docs := s.documents.value;
    if docs == [] then
      Update(Some(s.question), None, Some(docs), Some(No))
    else
      var reply := o.grade(s.modelName, Join(Contents(docs), "\n\n---\n\n"), s.question);
      Update(None, None, None, Some(if IsYes(reply) then Yes else No))
  }

  /** generate: sets the generation from the documents' text and the
      question, passing the documents through unchanged. */
  function Generate(s: GraphState, o: Oracles): (u: Update)
    requires s.documents.Some?
    ensures Merge(s, u) == s.(generation := Some(o.answer(s.modelName, Join(Contents(s.documents.value), "\n\n"), s.question)))
  {
    var docs := s.documents.value;
    Update(None, Some(o.answer(s.modelName, Join(Contents(docs), "\n\n"), s.question)), Some(docs), None)
  }

  /** rewrite_query: replaces the question and nothing else. */
  function RewriteQuery(s: GraphState, o: Oracles): (u: Update)
    ensures Merge(s, u) == s.(question := o.rewrite(s.modelName, s.question))
  {
    Update(Some(o.rewrite(s.modelName, s.question)), None, None, None)
  }

  /** fallback: answers from the model alone and clears the documents. */
  function Fallback(s: GraphState, o: Oracles): (u: Update)
    ensures Merge(s, u) == s.(generation := Some(o.general(s.modelName, s.question)), documents := Some([]))
  {
    Update(None, Some(o.general(s.modelName, s.question)), Some([]), None)
  }

  /** Grading never touches anything but `runRag`; it sets it to "yes" only
      on a non-empty document list the grading model affirmed, and to "no" in every
      other case: no documents, a "no", a missing score, a failure. */
  lemma GradeFailsClosed(s: GraphState, o: Oracles)
    requires s.documents.Some?
    ensures var t := Merge(s, GradeDocuments(s, o));
      t.question == s.question && t.documents == s.documents && t.generation == s.generation &&
      (t.runRag == Some(Yes) || t.runRag == Some(No)) &&
      (t.runRag == Some(Yes) <==>
         s.documents.value != [] &&
         IsYes(o.grade(s.modelName, Join(Contents(s.documents.value), "\n\n---\n\n"), s.question)))
  {
  }

  /** On an empty document list the grading model is never consulted: the
      outcome is the same whatever it would have said. */
  lemma GradeSkipsModelWhenEmpty(s: GraphState, o1: Oracles, o2: Oracles)
    requires s.documents == Some([])
    ensures GradeDocuments(s, o1) == GradeDocuments(s, o2)
    ensures Merge(s, GradeDocuments(s, o1)).runRag == Some(No)
  {
  }

  // ---------------------------------------------------------------------
  // Router and wiring
  // ---------------------------------------------------------------------

  datatype Route = ToGenerate | ToRewrite | ToFallback

  /** decide_to_generate: generate after a "yes"; otherwise fall back when
      no source is selected and rewrite the question when some are. */
  function DecideToGenerate(s: GraphState): (r: Route)
    ensures r == ToGenerate <==> s.runRag == Some(Yes)
    ensures r == ToFallback <==> s.runRag != Some(Yes) && s.selectedSources == []
    ensures r == ToRewrite <==> s.runRag != Some(Yes) && s.selectedSources != []
  {
    if s.runRag == Some(Yes) then ToGenerate
    else if s.selectedSources == [] then ToFallback
    else ToRewrite
  }

  datatype Node = RetrieveNode | GradeNode | GenerateNode | RewriteNode | FallbackNode

  /** The edges declared in build_and_run_graph. */
  predicate Edge(a: Node, b: Node) {
    (a == RetrieveNode && b == GradeNode) ||
    (a == GradeNode && (b == GenerateNode || b == RewriteNode || b == FallbackNode)) ||
    (a == RewriteNode && b == RetrieveNode)
  }

  /** Nodes wired to END. */
  predicate Terminal(n: Node) {
    n == GenerateNode || n == FallbackNode
  }

  /** Where the graph goes after `n` has run and produced state `t`;
      `None` is END. */
  function Successor(n: Node, t: GraphState): (r: Option<Node>)
    ensures r.None? <==> Terminal(n)
    ensures r.Some? ==> Edge(n, r.value)
  {
    match n
    case RetrieveNode => Some(GradeNode)
    case GradeNode =>
      (match DecideToGenerate(t)
       case ToGenerate => Some(GenerateNode)
       case ToRewrite => Some(RewriteNode)
       case ToFallback => Some(FallbackNode))
    case RewriteNode => Some(RetrieveNode)
    case GenerateNode => None
    case FallbackNode => None
  }

  /** The nodes that read `state["documents"]` find it set. */
  predicate Ready(n: Node, s: GraphState) {
    (n == GradeNode || n == GenerateNode) ==> s.documents.Some?
  }

  /** The partial update node `n` returns. */
  function Apply(n: Node, s: GraphState, o: Oracles): Update
    requires Ready(n, s)
  {
    match n
    case RetrieveNode => Retrieve(s, o)
    case GradeNode => GradeDocuments(s, o)
    case GenerateNode => Generate(s, o)
    case RewriteNode => RewriteQuery(s, o)
    case FallbackNode => Fallback(s, o)
  }

  /** One step of the executor: run `n`, merge, and pick the next node. */
  function Step(n: Node, s: GraphState, o: Oracles): (r: (GraphState, Option<Node>))
    requires Ready(n, s)
    ensures r.1.Some? ==> Ready(r.1.value, r.0)
    ensures r.0.modelName == s.modelName && r.0.selectedSources == s.selectedSources
  {
    var t := Merge(s, Apply(n, s, o));
    (t, Successor(n, t))
  }

  // ---------------------------------------------------------------------
  // The executor
  // ---------------------------------------------------------------------

  /** Where a run stands: the state, the nodes executed in order, and
      whether END was reached. */
  datatype Outcome = Outcome(state: GraphState, trace: seq<Node>, finished: bool)

  /** `out` preceded by the nodes of `trace`. */
  function Prefixed(trace: seq<Node>, out: Outcome): Outcome {
    out.(trace := trace + out.trace)
  }

  /** Running the graph from node `n` for at most `fuel` node executions. */
  function Run(n: Node, s: GraphState, o: Oracles, fuel: nat): Outcome
    requires Ready(n, s)
    decreases fuel
  {
    if fuel == 0 then Outcome(s, [], false)
    else
      var (t, next) := Step(n, s, o);
      match next
      case None => Outcome(t, [n], true)
      case Some(m) => Prefixed([n], Run(m, t, o, fuel - 1))
  }

  /** A run follows the wiring: it starts at `n`, each node is followed by a
      node it has an edge to, it uses all its fuel unless it reaches END,
      it reaches END exactly when its last node is terminal, and no
      terminal node occurs before the end, so at most one of generate and
      fallback ever runs. */
  lemma {:induction false} RunFollowsWiring(n: Node, s: GraphState, o: Oracles, fuel: nat)
    requires Ready(n, s)
    ensures var r := Run(n, s, o, fuel);
      |r.trace| <= fuel && (!r.finished ==> |r.trace| == fuel) &&
      (fuel > 0 ==> r.trace != [] && r.trace[0] == n) &&
      (forall i :: 0 <= i < |r.trace| - 1 ==> Edge(r.trace[i], r.trace[i + 1]) && !Terminal(r.trace[i])) &&
      (r.finished <==> r.trace != [] && Terminal(r.trace[|r.trace| - 1]))
    decreases fuel
  {
    if fuel > 0 {
      var (t, next) := Step(n, s, o);
      if next.Some? {
        var m := next.value;
        RunFollowsWiring(m, t, o, fuel - 1);
        var rest := Run(m, t, o, fuel - 1);
        var r := Run(n, s, o, fuel);
        assert r.trace == [n] + rest.trace;
        forall i | 0 <= i < |r.trace| - 1
          ensures Edge(r.trace[i], r.trace[i + 1]) && !Terminal(r.trace[i])
        {
          if i > 0 { assert r.trace[i] == rest.trace[i - 1]; }
        }
      }
    }
  }

  /** The model name and the selected sources never change during a run, and
      the question changes only when a rewrite runs. A rewrite needs a
      non-empty selection. */
  lemma {:induction false} RunKeepsInputs(n: Node, s: GraphState, o: Oracles, fuel: nat)
    requires Ready(n, s)
    requires n == RewriteNode ==> s.selectedSources != []
    ensures var r := Run(n, s, o, fuel);
      r.state.modelName == s.modelName && r.state.selectedSources == s.selectedSources &&
      (RewriteNode !in r.trace ==> r.state.question == s.question) &&
      (RewriteNode in r.trace ==> s.selectedSources != [])
    decreases fuel
  {
    if fuel > 0 {
      var (t, next) := Step(n, s, o);
      if next.Some? {
        var m := next.value;
        RunKeepsInputs(m, t, o, fuel - 1);
        var rest := Run(m, t, o, fuel - 1);
        assert Run(n, s, o, fuel).trace == [n] + rest.trace;
        assert n != RewriteNode ==> t.question == s.question;
      }
    }
  }

  /** What holds on entry to grade and generate: the documents are those
      the most recent retrieval returned for the current question, and
      generate is entered only after a "yes". */
  predicate Grounded(n: Node, s: GraphState, o: Oracles) {
    ((n == GradeNode || n == GenerateNode) ==> s.documents == Some(o.search(RetrieveRequest(s)))) &&
    (n == GenerateNode ==> s.runRag == Some(Yes))
  }

  /** A run that ends at END has a generation. If it ended in fallback it
      holds no documents; if it ended in generate, the grading model affirmed the
      documents and they are exactly what the last retrieval returned for
      the final question. */
  lemma {:induction false} FinishedRunGrounding(n: Node, s: GraphState, o: Oracles, fuel: nat)
    requires Ready(n, s) && Grounded(n, s, o)
    ensures var r := Run(n, s, o, fuel);
      r.finished ==>
        r.trace != [] && r.state.generation.Some? &&
        (r.trace[|r.trace| - 1] == FallbackNode ==> r.state.documents == Some([])) &&
        (r.trace[|r.trace| - 1] == GenerateNode ==>
           r.state.runRag == Some(Yes) && r.state.documents == Some(o.search(RetrieveRequest(r.state))))
    decreases fuel
  {
    if fuel > 0 {
      var (t, next) := Step(n, s, o);
      if next.Some? {
        var m := next.value;
        assert Grounded(m, t, o);
        FinishedRunGrounding(m, t, o, fuel - 1);
        var rest := Run(m, t, o, fuel - 1);
        assert Run(n, s, o, fuel).trace == [n] + rest.trace;
      }
    }
  }

  /** A grading model that never says "yes". */
  ghost predicate NeverRelevant(o: Oracles) {
    forall m, c, q :: !IsYes(o.grade(m, c, q))
  }

  /** With sources selected and a grading model that never says "yes", the
      rewrite/retrieve cycle never reaches END, whatever the step budget:
      the wiring has no retry bound. */
  lemma {:induction false} RewriteLoopUnbounded(n: Node, s: GraphState, o: Oracles, fuel: nat)
    requires Ready(n, s) && s.selectedSources != [] && NeverRelevant(o)
    requires n == RetrieveNode || n == GradeNode || n == RewriteNode
    ensures !Run(n, s, o, fuel).finished
    decreases fuel
  {
    if fuel > 0 {
      var (t, next) := Step(n, s, o);
      if n == GradeNode {
        GradeFailsClosed(s, o);
      }
      RunKeepsInputs(n, s, o, 1);
      RewriteLoopUnbounded(next.value, t, o, fuel - 1);
    }
  }

  /** With no source selected, a run with a budget of three steps retrieves
      once, grades once and ends in generate or fallback: generate when the
      grading model affirmed non-empty documents, fallback otherwise. */
  lemma EmptySelectionRun(question: string, model: string, o: Oracles, fuel: nat)
    requires fuel >= 3
    ensures var s := Initial(question, [], model);
      var r := Run(RetrieveNode, s, o, fuel);
      var docs := o.search(SearchRequest(question, Unfiltered, RetrieveK));
      var affirmed := docs != [] && IsYes(o.grade(model, Join(Contents(docs), "\n\n---\n\n"), question));
      r.finished &&
      r.trace == [RetrieveNode, GradeNode, if affirmed then GenerateNode else FallbackNode] &&
      (!affirmed ==> r.state.documents == Some([]))
  {
    var s := Initial(question, [], model);
    var (t1, n1) := Step(RetrieveNode, s, o);
    var (t2, n2) := Step(GradeNode, t1, o);
    GradeFailsClosed(t1, o);
    var (t3, n3) := Step(n2.value, t2, o);
    assert Run(n2.value, t2, o, fuel - 2) == Outcome(t3, [n2.value], true);
  }

  // ---------------------------------------------------------------------
  // The driver and the result
  // ---------------------------------------------------------------------

  /** The executor as a loop: run the current node, merge its update into
      the state, follow the wiring, until END or until `maxSteps` node
      executions. */
  method RunGraph(question: string, selected: seq<string>, model: string, o: Oracles, maxSteps: nat)
    returns (out: Outcome)
    ensures out == Run(RetrieveNode, Initial(question, selected, model), o, maxSteps)
  {
    ghost var whole := Run(RetrieveNode, Initial(question, selected, model), o, maxSteps);
    var node := RetrieveNode;
    var state := Initial(question, selected, model);
    var trace: seq<Node> := [];
    var steps := 0;
    var finished := false;
    while !finished && steps < maxSteps
      invariant steps <= maxSteps
      invariant !finished ==> Ready(node, state)
      invariant !finished ==> whole == Prefixed(trace, Run(node, state, o, maxSteps - steps))
      invariant finished ==> whole == Outcome(state, trace, true)
      decreases maxSteps - steps, if finished then 0 else 1
    {
      var (next, successor) := Step(node, state, o);
      ghost var rest := Run(node, state, o, maxSteps - steps);
      state := next;
      trace := trace + [node];
      steps := steps + 1;
      match successor {
        case None =>
          finished := true;
        case Some(m) =>
          assert rest == Prefixed([node], Run(m, state, o, maxSteps - steps));
          node := m;
      }
    }
    out := Outcome(state, trace, finished);
  }

  /** The answer and sources returned to the caller: the stripped generation
      (or the default text), and the sorted distinct sources of the final
      documents. */
  function ExtractResult(s: GraphState): (a: Answer)
    ensures Trimmed(a.answer) && Increasing(a.sources)
    ensures s.generation.Some? ==> a.answer == Strip(s.generation.value)
    ensures s.generation.None? ==> a.answer == Strip(NoAnswer)
    ensures s.documents.None? || s.documents == Some([]) ==> a.sources == []
    ensures forall x :: x in a.sources <==>
      s.documents.Some? && exists d :: d in s.documents.value && SourceOf(d) == x
  {
    var generation := if s.generation.Some? then s.generation.value else NoAnswer;
    var docs := if s.documents.Some? then s.documents.value else [];
    Answer(Strip(generation), CitedSources(docs))
  }

  /** build_and_run_graph: wire the graph, invoke it on the question, and
      extract the result. `None` stands for a run that had not reached END
      within `maxSteps` node executions. */
  method BuildAndRunGraph(query: string, selected: seq<string>, model: string, o: Oracles, maxSteps: nat)
    returns (result: Option<Answer>)
    ensures var r := Run(RetrieveNode, Initial(query, selected, model), o, maxSteps);
      (result.Some? <==> r.finished) && (result.Some? ==> result.value == ExtractResult(r.state))
    ensures selected == [] && maxSteps >= 3 ==> result.Some?
    ensures result.Some? ==> Trimmed(result.value.answer) && Increasing(result.value.sources)
  {
    var out := RunGraph(query, selected, model, o, maxSteps);
    if selected == [] && maxSteps >= 3 {
      EmptySelectionRun(query, model, o, maxSteps);
    }
    if out.finished {
      result := Some(ExtractResult(out.state));
    } else {
      result := None;
    }
  }

  /** A fallback answer cites no source, and a generated answer cites only
      sources of documents the last retrieval returned. */
  lemma CitationsFollowTerminal(query: string, selected: seq<string>, model: string, o: Oracles, fuel: nat)
    ensures var r := Run(RetrieveNode, Initial(query, selected, model), o, fuel);
      r.finished ==>
        (r.trace[|r.trace| - 1] == FallbackNode ==> ExtractResult(r.state).sources == []) &&
        (r.trace[|r.trace| - 1] == GenerateNode ==>
           forall x :: x in ExtractResult(r.state).sources ==>
             exists d :: d in o.search(RetrieveRequest(r.state)) && SourceOf(d) == x)
  {
    FinishedRunGrounding(RetrieveNode, Initial(query, selected, model), o, fuel);
    RunFollowsWiring(RetrieveNode, Initial(query, selected, model), o, fuel);
  }

  /** When the search honours the filter and sources are selected, a
      generated answer cites only selected sources. */
  lemma GeneratedCitesSelected(query: string, selected: seq<string>, model: string, o: Oracles, fuel: nat)
    requires HonoursFilters(o.search) && selected != []
    ensures var r := Run(RetrieveNode, Initial(query, selected, model), o, fuel);
      r.finished ==> forall x :: x in ExtractResult(r.state).sources ==> x in selected
  {
    var s := Initial(query, selected, model);
    var r := Run(RetrieveNode, s, o, fuel);
    FinishedRunGrounding(RetrieveNode, s, o, fuel);
    RunKeepsInputs(RetrieveNode, s, o, fuel);
    RunFollowsWiring(RetrieveNode, s, o, fuel);
    if r.finished && r.trace[|r.trace| - 1] == FallbackNode {
      assert ExtractResult(r.state).sources == [];
    } else if r.finished {
      var request := RetrieveRequest(r.state);
      assert request.filter == SourceIn(selected);
      var docs := o.search(request);
      assert forall d :: d in docs ==> Admits(SourceIn(selected), d);
      assert ExtractResult(r.state).sources == CitedSources(docs);
      CitedSourcesWithinFilter(docs, selected);
    }
  }
}

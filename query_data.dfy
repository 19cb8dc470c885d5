/** The RetrievalQA answering path the chat page calls, and the listing of
    the source files stored in the vector index. */
module QueryData {
  import opened Text
  import opened Documents

  /** Number of candidate chunks the maximal-marginal-relevance search
      returns for the question-answering chain. */
  const SearchK: nat := 12

  /** Answer used when the plain chain's result has no "text" field. */
  const ChainError: string := "Error."

  /** The collaborators of query_rag: the vector search; the plain
      language-model chain, giving the "text" field of its result if there
      is one; and the question-answering chain, giving the "result" field of
      its result for the question and the documents it retrieved. Each
      chain receives the model name first. */
  datatype Services = Services(
    search: SearchRequest -> seq<Document>,
    chat: (string, string) -> Option<string>,
    qa: (string, string, seq<Document>) -> Option<string>)

  /** The search the question-answering chain runs: restricted to the
      selected sources, `k` = 12. */
  function QaRequest(query: string, selected: seq<string>): SearchRequest {
    SearchRequest(query, SourceIn(selected), SearchK)
  }

  /** query_rag. With no source selected the question goes to the model
      alone: no search, no citations, the chain's text or "Error.". With
      sources selected, the chain answers from the filtered search: the
      answer is stripped and the citations are the distinct sources of the
      retrieved documents, ascending. */
  function QueryRag(query: string, selected: seq<string>, model: string, sv: Services): (r: Answer)
    ensures Increasing(r.sources)
    ensures selected == [] ==>
      r.sources == [] &&
      r.answer == (if sv.chat(model, query).Some? then sv.chat(model, query).value else ChainError)
    ensures selected != [] ==>
      Trimmed(r.answer) &&
      (sv.qa(model, query, sv.search(QaRequest(query, selected))).Some? ==>
         r.answer == Strip(sv.qa(model, query, sv.search(QaRequest(query, selected))).value)) &&
      (sv.qa(model, query, sv.search(QaRequest(query, selected))).None? ==> r.answer == Strip(NoAnswer))
    ensures selected != [] ==> forall x :: x in r.sources <==>
      exists d :: d in sv.search(QaRequest(query, selected)) && SourceOf(d) == x
  {
    if selected == [] then
      var text := sv.chat(model, query);
      Answer(if text.Some? then text.value else ChainError, [])
    else
      var docs := sv.search(QaRequest(query, selected));
      var result := sv.qa(model, query, docs);
      Answer(Strip(if result.Some? then result.value else NoAnswer), CitedSources(docs))
  }

  /** With no source selected the vector store is not searched: the answer
      is the same whatever the search would return. */
  lemma NoSearchWithoutSelection(query: string, model: string, sv1: Services, sv2: Services)
    requires sv1.chat == sv2.chat
    ensures QueryRag(query, [], model, sv1) == QueryRag(query, [], model, sv2)
  {
  }

  /** When the search honours its filter, every cited source is one of the
      selected sources. */
  lemma QueryRagCitesSelected(query: string, selected: seq<string>, model: string, sv: Services)
    requires HonoursFilters(sv.search)
    ensures forall x :: x in QueryRag(query, selected, model, sv).sources ==> x in selected
  {
    if selected != [] {
      var docs := sv.search(QaRequest(query, selected));
      assert forall d :: d in docs ==> Admits(SourceIn(selected), d);
      CitedSourcesWithinFilter(docs, selected);
    }
  }

  /** Every metadata record carries a "source" key. */
  predicate AllHaveSource(metas: seq<map<string, string>>) {
    forall m :: m in metas ==> "source" in m
  }

  function SourceFields(metas: seq<map<string, string>>): (r: seq<string>)
    requires AllHaveSource(metas)
    ensures forall x :: x in r <==> exists m :: m in metas && m["source"] == x
  {
    if metas == [] then []
    else
      var rest := SourceFields(metas[1..]);
      assert forall m :: m in metas <==> m == metas[0] || m in metas[1..];
      [metas[0]["source"]] + rest
  }

  /** get_source_filenames, on what the store's metadata listing yields:
      `None` when opening or reading the store raises. The result is empty
      on a failure, on an empty listing, and when some record lacks
      "source" (the lookup raises inside the `try`); otherwise it is every
      stored source once, in ascending order. */
  function GetSourceFilenames(store: Option<seq<map<string, string>>>): (r: seq<string>)
    ensures Increasing(r)
    ensures store.None? || store.value == [] || !AllHaveSource(store.value) ==> r == []
    ensures store.Some? && AllHaveSource(store.value) ==>
      forall x :: x in r <==> exists m :: m in store.value && m["source"] == x
  {
    if store.None? then []
    else if store.value == [] then []
    else if !AllHaveSource(store.value) then []
    else SortedDistinct(SourceFields(store.value))
  }

  /** The listing depends only on which metadata records are stored, not
      on their order or repetition. */
  lemma GetSourceFilenamesIgnoresOrder(a: seq<map<string, string>>, b: seq<map<string, string>>)
    requires forall m :: m in a <==> m in b
    ensures GetSourceFilenames(Some(a)) == GetSourceFilenames(Some(b))
  {
    if AllHaveSource(a) && AllHaveSource(b) {
      SortedDistinctOfSameValues(SourceFields(a), SourceFields(b));
    }
  }
}

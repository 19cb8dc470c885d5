/** The entities both answering paths share: retrieved documents with
    their metadata, the source filter handed to the vector store, the
    search request, and the answer with its cited sources. */
module Documents {
  import opened Text

  datatype Option<T> = None | Some(value: T)

  /** A chunk returned by the vector store: its text and its metadata
      (the key "source" holds the path of the originating file). */
  datatype Document = Document(pageContent: string, metadata: map<string, string>)

  /** Placeholder cited for a document whose metadata has no "source". */
  const UnknownSource: string := "Tidak diketahui"

  /** Default answer when the chain returns no answer field. */
  const NoAnswer: string := "Tidak dapat menghasilkan jawaban."

  /** `doc.metadata.get("source", "Tidak diketahui")`. */
  function SourceOf(d: Document): string {
    if "source" in d.metadata then d.metadata["source"] else UnknownSource
  }

  /** The metadata filter of a search: `{}` or `{"source": {"$in": sources}}`. */
  datatype Filter = Unfiltered | SourceIn(sources: seq<string>)

  /** What a filter lets through. */
  predicate Admits(f: Filter, d: Document) {
    match f
    case Unfiltered => true
    case SourceIn(sources) => "source" in d.metadata && d.metadata["source"] in sources
  }

  /** The filter built from the selected sources: restricted to them when
      there are any, unrestricted when the list is empty. */
  function SourceFilter(selected: seq<string>): (f: Filter)
    ensures selected == [] <==> f == Unfiltered
    ensures forall d :: Admits(f, d) <==> selected == [] || ("source" in d.metadata && d.metadata["source"] in selected)
  {
    if selected == [] then Unfiltered else SourceIn(selected)
  }

  /** One maximal-marginal-relevance search: query text, filter, and `k`. */
  datatype SearchRequest = SearchRequest(query: string, filter: Filter, k: nat)

  /** A search backend that honours the filter of every request. */
  ghost predicate HonoursFilters(search: SearchRequest -> seq<Document>) {
    forall r, d :: d in search(r) ==> Admits(r.filter, d)
  }

  /** The result handed back to the chat page. */
  datatype Answer = Answer(answer: string, sources: seq<string>)

  function SourcesOf(docs: seq<Document>): seq<string> {
    seq(|docs|, i requires 0 <= i < |docs| => SourceOf(docs[i]))
  }

  /** `sorted(set(doc.metadata.get("source", "Tidak diketahui") for doc in docs))`:
      each cited source once, in ascending order, and exactly the sources
      of the given documents. */
  function CitedSources(docs: seq<Document>): (r: seq<string>)
    ensures Increasing(r)
    ensures forall x :: x in r <==> exists d :: d in docs && SourceOf(d) == x
  {
    var srcs := SourcesOf(docs);
    assert forall x :: x in srcs <==> exists d :: d in docs && SourceOf(d) == x by {
      forall x ensures x in srcs <==> exists d :: d in docs && SourceOf(d) == x {
        if x in srcs {
          var i :| 0 <= i < |srcs| && srcs[i] == x;
          assert docs[i] in docs;
        }
        if exists d :: d in docs && SourceOf(d) == x {
          var d :| d in docs && SourceOf(d) == x;
          var i :| 0 <= i < |docs| && docs[i] == d;
          assert srcs[i] == x;
        }
      }
    }
    SortedDistinct(srcs)
  }

  /** When the search honoured the source filter, everything cited is one
      of the selected sources. */
  lemma CitedSourcesWithinFilter(docs: seq<Document>, selected: seq<string>)
    requires forall d :: d in docs ==> Admits(SourceIn(selected), d)
    ensures forall x :: x in CitedSources(docs) ==> x in selected
  {
  }
}

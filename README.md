# RAG Assistant answering flow, modelled in Dafny

The RAG Assistant answers a chat question from selected PDF documents. It retrieves chunks from a Chroma vector index, filtered to the chosen source files, and has an Ollama model answer from them. With no document selected, the model answers from general knowledge. This project models the decision logic of that flow. Every model, embedding and vector-store call is an oracle: a function-valued field of a datatype, passed in as a parameter.

- `graph_rag.dfy` (module `GraphRag`): the LangGraph workflow. Its parts are:
  - the state record `GraphState`;
  - the five nodes, as functions returning a partial `Update`;
  - the executor's `Merge` of an update into the state;
  - the router `DecideToGenerate` and the wiring `Successor` / `Edge`;
  - a run as a specification function `Run`;
  - the executor loop `RunGraph`, proved equal to `Run`;
  - `BuildAndRunGraph` with the result extraction.

  The code keeps no attempt counter and sets no retry bound, so the executor takes an explicit step budget. `RewriteLoopUnbounded` proves that no budget is ever enough when sources are selected and the grading model never says "yes". `EmptySelectionRun` proves that three steps always finish when no source is selected. Termination is claimed only for that case. A retry bound with an attempt counter is a natural hardening, but the code does not have one, and the model follows the code.
- `query_data.dfy` (module `QueryData`): the RetrievalQA path the chat page calls, `query_rag`, and the listing of stored source files, `get_source_filenames`.
- `chat.dfy` (module `Chat`): the chat page's pure helpers:
  - the document picker: file names shown for stored paths, and the paths selected by a choice of file names;
  - the citation line appended to an answer.

  It also holds the session, a class whose message list and model choice the page updates in place.
- `documents.dfy` (module `Documents`): the entities both paths share. These are the document, the source filter, the search request, the answer, and the sorted, distinct citation list.
- `text.dfy` (module `Text`): the Python string behaviour the code relies on:
  - `str.strip()`;
  - `str.split('/')` and `", ".join`;
  - Python's ordering of `str`;
  - `sorted(set(xs))`, proved to be the unique ascending, duplicate-free listing of the values of `xs`.

## Model

| member | source | states |
|---|---|---|
| `Text.Strip` | query_data.py:58 | the result starts and ends with non-whitespace; it is a contiguous piece of the input, and everything removed before and after it is whitespace in Python's `isspace` sense |
| `Text.StripPadded` | graph_rag.py:242 | stripping any whitespace padding around a trimmed text gives back exactly that text |
| `Text.StripIdempotent` | query_data.py:58 | stripping twice equals stripping once |
| `Text.Split` | main.py:91 | `split('/')` yields at least one piece, and no piece contains the separator |
| `Text.JoinSplit` | main.py:91 | joining the pieces of a split with the separator gives back the original string |
| `Text.SplitWithoutSeparator` | main.py:91 | a string without the separator splits into the one-element list of itself |
| `Text.LastSegment` | main.py:91 | `name.split('/')[-1]` contains no '/' |
| `Text.LastSegmentIsSuffix` | main.py:91 | the last segment is a suffix of the name, and a '/' precedes it unless it is the whole name |
| `Text.LastSegmentOfPlainName` | main.py:91 | a name without '/' is its own last segment |
| `Text.BelowTotal` | query_data.py:20 | Python's string order is total and asymmetric: two different strings compare one way and only one way |
| `Text.SortedDistinct` | query_data.py:20 | `sorted(set(xs))` is strictly ascending and holds exactly the values occurring in `xs` |
| `Text.IncreasingDistinct` | query_data.py:61 | an ascending list holds no value twice |
| `Text.IncreasingUnique` | query_data.py:61 | two ascending lists with the same values are equal, so the sorted, distinct list is determined by the set of sources |
| `Text.SortedDistinctOfSameValues` | graph_rag.py:244 | `sorted(set(xs))` depends only on which values occur in `xs`, not on their order or repetition |
| `Documents.SourceFilter` | graph_rag.py:40 | the filter is unrestricted exactly when no source is selected; otherwise it admits exactly the documents whose "source" is selected |
| `Documents.CitedSources` | graph_rag.py:243-244 | the cited sources are strictly ascending, with no duplicates, and are exactly the sources of the given documents, a document's source being `SourceOf`: its metadata "source", or "Tidak diketahui" when the key is missing (query_data.py:60) |
| `Documents.CitedSourcesWithinFilter` | query_data.py:41 | documents admitted by the `$in` filter are cited only with selected sources |
| `GraphRag.Merge` | graph_rag.py:13-23 | the executor overwrites, key by key, the keys a node's returned record contains and keeps every other key; the model name and the selection are never changed, and an empty update changes nothing |
| `GraphRag.Retrieve` | graph_rag.py:25-53 | the merged state has its documents replaced by the search result for the current question, the selection filter and k = 10; nothing else changes |
| `GraphRag.GradeDocuments` | graph_rag.py:55-97 | grading changes only `run_rag` |
| `GraphRag.GradeFailsClosed` | graph_rag.py:85-97 | `run_rag` becomes "yes" exactly when the documents are non-empty and the grading model returned `score` "yes"; in every other case (no documents, "no", missing key, failure) it becomes "no"; question, documents and generation are untouched |
| `GraphRag.GradeSkipsModelWhenEmpty` | graph_rag.py:64-66 | with no documents the grade does not depend on the grading model at all and is "no" |
| `GraphRag.Generate` | graph_rag.py:99-130 | the merged state gains the generation for the joined document text and question; the documents pass through unchanged and nothing else changes |
| `GraphRag.RewriteQuery` | graph_rag.py:132-159 | the merged state differs only in its question, which is the rewriter's output |
| `GraphRag.Fallback` | graph_rag.py:161-188 | the merged state gains the model-only generation and has its documents cleared to `[]`; nothing else changes |
| `GraphRag.DecideToGenerate` | graph_rag.py:190-204 | routes to generate exactly when `run_rag` is "yes", whatever the selection; otherwise (including unset) to fallback exactly when the selection is empty and to rewrite exactly when it is not |
| `GraphRag.Successor` | graph_rag.py:218-231 | generate and fallback lead to END and nothing else does; every other step follows a declared edge |
| `GraphRag.Step` | graph_rag.py:240 | one executor step keeps the model name and selection, and the next node finds the documents it reads |
| `GraphRag.RunFollowsWiring` | graph_rag.py:218-231 | a run starts at its entry node and follows declared edges; it ends exactly when its last node is generate or fallback; no terminal node occurs earlier, so generate and fallback never both run; it uses its whole budget unless it ends |
| `GraphRag.RunKeepsInputs` | graph_rag.py:196-204 | model name and selection never change; the question changes only through rewrite; rewrite runs only with a non-empty selection |
| `GraphRag.FinishedRunGrounding` | graph_rag.py:185-188 | a finished run has a generation; after fallback it holds no documents; after generate the grade was "yes" and the documents are exactly the last retrieval's result for the final question |
| `GraphRag.RewriteLoopUnbounded` | graph_rag.py:220-229 | with a non-empty selection and a grading model that never says "yes", no step budget lets a run reach END |
| `GraphRag.EmptySelectionRun` | graph_rag.py:199-201 | with no selection, a run of three or more steps retrieves once, grades once and ends; it ends in generate exactly when the grading model affirmed non-empty documents, and in fallback with cleared documents otherwise |
| `GraphRag.RunGraph` | graph_rag.py:233-240 | the executor loop, which merges each node's update and follows the wiring, produces exactly the run `Run` specifies for the initial record |
| `GraphRag.ExtractResult` | graph_rag.py:242-244 | the answer is the stripped generation when there is one, otherwise the stripped "Tidak dapat menghasilkan jawaban."; the sources are strictly ascending and are exactly the final documents' sources, and empty when there are none |
| `GraphRag.BuildAndRunGraph` | graph_rag.py:206-249 | a result is returned exactly when the run reaches END within the budget, and it is the extraction of the final state; with no selection and at least three steps there is always a result; every result has a trimmed answer and ascending, distinct sources |
| `GraphRag.CitationsFollowTerminal` | graph_rag.py:243-244 | a fallback answer cites no source; a generated answer cites only sources of documents the last retrieval returned |
| `GraphRag.GeneratedCitesSelected` | graph_rag.py:40 | when the search honours its filter, a generated answer cites only selected sources |
| `QueryData.QueryRag` | query_data.py:25-66 | with no selection: no citations, and the answer is the chain's "text" or "Error." (unstripped). With a selection: the answer is the stripped "result" when the chain returns one, otherwise the stripped default, and the citations are ascending, distinct and exactly the sources of the documents returned by the `$in`-filtered, k = 12 search |
| `QueryData.NoSearchWithoutSelection` | query_data.py:31-34 | with no selection the result does not depend on the vector search |
| `QueryData.QueryRagCitesSelected` | query_data.py:41-61 | when the search honours its filter, every cited source is a selected one |
| `QueryData.GetSourceFilenames` | query_data.py:10-23 | the result is `[]` on a store failure, on an empty listing, or when a record lacks "source"; otherwise it is every stored source once, ascending |
| `QueryData.GetSourceFilenamesIgnoresOrder` | query_data.py:20 | the listing depends only on which metadata records are stored |
| `Chat.Options` | main.py:91 | there is one option per stored path |
| `Chat.OptionsAreFileNames` | main.py:91 | each option is its path's part after the last '/': it has no '/', it ends the path, a '/' precedes it unless it is the whole path, and it is the path itself when the path has no '/' |
| `Chat.SelectedFullPaths` | main.py:99-102 | the selection is an order-preserving subsequence of the stored paths, holding exactly the paths whose file name was picked, so paths sharing a picked file name are selected together |
| `Chat.SelectionAsWritten` | main.py:87-102 | the selection name is bound exactly when the index directory exists |
| `Chat.SelectionUnboundWithoutDatabase` | main.py:141 | without the index directory there is no selection to pass to `query_rag` |
| `Chat.ActiveSources` | main.py:104-107 | without the index directory the active selection is empty; otherwise it is the page's selection |
| `Chat.MissingDatabaseAnswersUnsourced` | main.py:107 | without the index directory a question is answered by the model alone, with no citation |
| `Chat.CitedFileNames` | main.py:145 | the cited names are strictly ascending and contain no '/'; they are exactly the file names of the result's sources |
| `Chat.FullResponse` | main.py:142-147 | the response begins with the answer and equals it exactly when there are no sources; otherwise the rest is "\n\n*Sumber: " + the cited names joined by ", " + "*" |
| `Chat.Session.constructor` | main.py:64-67 | a new session has neither a message list nor a selected model |
| `Chat.Session.InitDefaults` | main.py:64-67 | the message list becomes `[]` and the model "gemma:2b", each only when not already set |
| `Chat.Session.SubmitPrompt` | main.py:135-149 | a non-empty prompt appends the user message and then exactly one assistant message: the full response to `query_rag` over the active sources with the session's model; the model choice is unchanged; an empty prompt changes nothing |

## Findings

| source | as written | input that shows it | evidently intended | confidence | as-written member | corrected member |
|---|---|---|---|---|---|---|
| main.py:87-141 | `selected_full_paths` is assigned only inside `if get_database_info():`, but line 141 reads it on every submitted prompt | no `chroma` directory (a fresh install, or right after a failed reset) and any non-empty prompt: line 141 raises `NameError` | answer with no active document; the closest statement of intent is the notice at line 107, which the page shows only when the database exists (without it, line 109 shows "Database belum siap") | high; not executed | `Chat.SelectionAsWritten`, `Chat.SelectionUnboundWithoutDatabase` | `Chat.ActiveSources`, `Chat.MissingDatabaseAnswersUnsourced` |

`Chat.Session.SubmitPrompt` uses the corrected selection.

## Left out

- Ollama completions, prompt templates, output parsers, temperatures and the JSON output format are oracles: `Oracles` in `GraphRag`, `Services` in `QueryData`. The model does not state what an answer says.
- Chroma, the embedding model and maximal-marginal-relevance ranking are one oracle, from a `SearchRequest` (query, filter, k) to a document list. Filter compliance is a stated assumption (`HonoursFilters`), used only by the lemmas that need it.
- Exceptions raised by the search, generation, rewrite and fallback calls, and by both chains in `query_rag`, are not modelled; the oracles are total. The code catches none of them; it catches only the grading model's, which is modelled as `GradeFailure`.
- The LangGraph runtime is not modelled, and neither is its own recursion limit, which would raise an error rather than loop. The graph as wired in graph_rag.py has no stop condition of its own on the rewrite loop. The executor takes a step budget instead, and `GraphRag.BuildAndRunGraph` returns `None` when the budget runs out.
- The graph builder calls (`add_node`, `add_edge`, `compile`) are modelled as the fixed wiring `Successor` / `Edge`, not as a mutable builder object.
- `get_source_filenames` in graph_rag.py:251-264 is the same code as query_data.py:10-23 and is modelled once, as `QueryData.GetSourceFilenames`. Metadata values are taken to be strings.
- `QueryData.QueryRag`: the RetrievalQA chain's `source_documents` is taken to be exactly the list its retriever returned; the chain's internal prompt stuffing is part of the `qa` oracle.
- `print` logging, Streamlit rendering, CSS, `st.cache_data`, the file uploader, writing uploads and resetting the database (main.py:7-51, 114-125, 128-133, 150-159) are not modelled.
- The model select box (main.py:77-82) is not modelled, including the `ValueError` its `index` call would raise for a stored model that is not an option.
- populate_database.py (PDF loading, chunking, embedding, index writes) is not part of this model.

/** The chat page's own logic: the document picker (file names shown for
    stored source paths, and the paths a choice of file names selects), the
    citation line appended to an answer, and the session's message list
    and model choice. Rendering, uploads and resets are not modelled. */
module Chat {
  import opened Text
  import opened Documents
  import opened QueryData

  /** Model selected when the session has none yet. */
  const DefaultModel: string := "gemma:2b"

  // ---------------------------------------------------------------------
  // Document picker
  // ---------------------------------------------------------------------

  /** The picker's options: each stored source path shortened to its file
      name, in the order of the paths. */
  function Options(allSourceNames: seq<string>): (r: seq<string>)
    ensures |r| == |allSourceNames|
  {
    seq(|allSourceNames|, i requires 0 <= i < |allSourceNames| => LastSegment(allSourceNames[i]))
  }

  /** Each option is the part of its path after the last '/': it has no
      '/', it ends the path, a '/' precedes it unless it is the whole path,
      and a path without '/' is offered as it is. */
  lemma OptionsAreFileNames(allSourceNames: seq<string>)
    ensures var opts := Options(allSourceNames);
      forall i :: 0 <= i < |opts| ==>
        var name, opt := allSourceNames[i], opts[i];
        '/' !in opt && |opt| <= |name| && opt == name[|name| - |opt|..] &&
        (|opt| < |name| ==> name[|name| - |opt| - 1] == '/') &&
        ('/' !in name ==> opt == name)
  {
    var opts := Options(allSourceNames);
    forall i | 0 <= i < |opts|
      ensures var name, opt := allSourceNames[i], opts[i];
        '/' !in opt && |opt| <= |name| && opt == name[|name| - |opt|..] &&
        (|opt| < |name| ==> name[|name| - |opt| - 1] == '/') &&
        ('/' !in name ==> opt == name)
    {
      LastSegmentIsSuffix(allSourceNames[i]);
      if '/' !in allSourceNames[i] {
        LastSegmentOfPlainName(allSourceNames[i]);
      }
    }
  }

  /** `a` is `b` with some elements left out, the rest in order. */
  predicate IsSubsequence(a: seq<string>, b: seq<string>) {
    if a == [] then true
    else if b == [] then false
    else if a[0] == b[0] then IsSubsequence(a[1..], b[1..])
    else IsSubsequence(a, b[1..])
  }

  /** The stored paths whose file name was picked: in stored order, and
      every path whose file name was picked, so two paths sharing a file
      name are selected together. */
  function SelectedFullPaths(allSourceNames: seq<string>, selectedFiles: seq<string>): (r: seq<string>)
    ensures IsSubsequence(r, allSourceNames)
    ensures forall x :: x in r <==> x in allSourceNames && LastSegment(x) in selectedFiles
  {
    if allSourceNames == [] then []
    else
      var rest := SelectedFullPaths(allSourceNames[1..], selectedFiles);
      assert forall x :: x in allSourceNames <==> x == allSourceNames[0] || x in allSourceNames[1..];
      if LastSegment(allSourceNames[0]) in selectedFiles then [allSourceNames[0]] + rest else rest
  }

  /** Whether the index directory exists, and if so the stored source paths. */
  datatype Database = Ready(sourceNames: seq<string>) | Missing

  /** The selection as the page computes it: the name is bound only when the
      database exists, so `None` stands for an unbound name. */
  function SelectionAsWritten(db: Database, selectedFiles: seq<string>): (r: Option<seq<string>>)
    ensures r.None? <==> db.Missing?
  {
    if db.Ready? then Some(SelectedFullPaths(db.sourceNames, selectedFiles)) else None
  }

  /** Without a database a submitted question finds no selection to pass to
      query_rag: the page stops on an unbound name instead of answering. */
  lemma SelectionUnboundWithoutDatabase(selectedFiles: seq<string>)
    ensures SelectionAsWritten(Missing, selectedFiles).None?
  {
  }

  /** The selection with the missing-database case closed: no active
      document, as the page's own notice promises. Agrees with the page
      whenever the database exists. */
  function ActiveSources(db: Database, selectedFiles: seq<string>): (r: seq<string>)
    ensures db.Missing? ==> r == []
    ensures db.Ready? ==> Some(r) == SelectionAsWritten(db, selectedFiles)
  {
    if db.Ready? then SelectedFullPaths(db.sourceNames, selectedFiles) else []
  }

  /** Without a database a question is answered by the model alone, with no
      search and no citation. */
  lemma MissingDatabaseAnswersUnsourced(prompt: string, selectedFiles: seq<string>, model: string, sv: Services)
    ensures var a := QueryRag(prompt, ActiveSources(Missing, selectedFiles), model, sv);
      a.sources == [] && a.answer == (if sv.chat(model, prompt).Some? then sv.chat(model, prompt).value else ChainError)
  {
  }

  // ---------------------------------------------------------------------
  // Citations
  // ---------------------------------------------------------------------

  function FileNames(sources: seq<string>): seq<string> {
    seq(|sources|, i requires 0 <= i < |sources| => LastSegment(sources[i]))
  }

  /** The file names cited for a list of source paths: each once, ascending,
      exactly the file names of the paths. */
  function CitedFileNames(sources: seq<string>): (r: seq<string>)
    ensures Increasing(r)
    ensures forall n :: n in r ==> '/' !in n
    ensures forall n :: n in r <==> exists s :: s in sources && LastSegment(s) == n
  {
    var names := FileNames(sources);
    assert forall n :: n in names <==> exists s :: s in sources && LastSegment(s) == n by {
      forall n ensures n in names <==> exists s :: s in sources && LastSegment(s) == n {
        if n in names {
          var i :| 0 <= i < |names| && names[i] == n;
          assert sources[i] in sources;
        }
        if exists s :: s in sources && LastSegment(s) == n {
          var s :| s in sources && LastSegment(s) == n;
          var i :| 0 <= i < |sources| && sources[i] == s;
          assert names[i] == n;
        }
      }
    }
    SortedDistinct(names)
  }

  const CitationOpen: string := "\n\n*Sumber: "
  const CitationClose: string := "*"

  /** The line appended to an answer that has sources. */
  function CitationSuffix(sources: seq<string>): string {
    CitationOpen + Join(CitedFileNames(sources), ", ") + CitationClose
  }

  /** The assistant's message for a result: the answer, followed by the
      citation line exactly when the result has sources. */
  function FullResponse(result: Answer): (r: string)
    ensures |r| >= |result.answer|
    ensures result.sources == [] <==> r == result.answer
    ensures r[..|result.answer|] == result.answer
    ensures result.sources != [] ==> r[|result.answer|..] == CitationSuffix(result.sources)
  {
    var response := result.answer;
    if result.sources != [] then response + CitationSuffix(result.sources) else response
  }

  // ---------------------------------------------------------------------
  // Session
  // ---------------------------------------------------------------------

  datatype Role = User | Assistant

  datatype Message = Message(role: Role, content: string)

  /** The per-browser session: the chat history and the selected model.
      Both keys are absent until the page first initialises them. */
  class Session {
    var messages: Option<seq<Message>>
    var selectedModel: Option<string>

    constructor ()
      ensures messages.None? && selectedModel.None?
    {
      messages := None;
      selectedModel := None;
    }

    /** The page's state initialisation: an empty history and the default
        model, each only when not already set. */
    method InitDefaults()
      modifies this
      ensures messages == if old(messages).None? then Some([]) else old(messages)
      ensures selectedModel == if old(selectedModel).None? then Some(DefaultModel) else old(selectedModel)
    {
      if messages.None? {
        messages := Some([]);
      }
      if selectedModel.None? {
        selectedModel := Some(DefaultModel);
      }
    }

    /** One chat turn. A non-empty prompt is appended as the user's message,
        the question is answered by query_rag over the active sources with
        the session's model, and exactly one assistant message follows: the
        answer, with the citation line when there are sources. An empty
        prompt changes nothing. */
    method SubmitPrompt(prompt: string, db: Database, selectedFiles: seq<string>, sv: Services)
      requires messages.Some? && selectedModel.Some?
      modifies this
      ensures selectedModel == old(selectedModel)
      ensures prompt == "" ==> messages == old(messages)
      ensures prompt != "" ==>
        messages == Some(old(messages.value) + [
          Message(User, prompt),
          Message(Assistant, FullResponse(QueryRag(prompt, ActiveSources(db, selectedFiles), old(selectedModel.value), sv)))])
    {
      if prompt != "" {
        messages := Some(messages.value + [Message(User, prompt)]);
        var result := QueryRag(prompt, ActiveSources(db, selectedFiles), selectedModel.value, sv);
        var fullResponse := result.answer;
        if result.sources != [] {
          fullResponse := fullResponse + CitationSuffix(result.sources);
        }
        assert fullResponse == FullResponse(result);
        messages := Some(messages.value + [Message(Assistant, fullResponse)]);
        assert messages.value == old(messages.value) + [Message(User, prompt), Message(Assistant, fullResponse)];
      }
    }
  }
}

/** The in-process mock backend of src/utils/api.ts: a document registry
    mutated in place, and a deterministic keyword-driven chat responder.

    The module-level `MOCK_DOCUMENTS` array becomes the field `documents` of
    a `MockBackend` object. Latency is not modelled; random ids and clock
    readings are parameters. The source hands the registry array itself to
    callers and the completion timer mutates the very object it returned;
    this model uses values, so a caller's copy never changes afterwards. */
module MockApi {
  import opened Types
  import opened Registry
  import opened Keywords

  /** What the mock reads from a browser `File`. */
  datatype File = File(name: string, mimeType: string, size: nat)

  const FinancialAnswer: string := "Based on the documents, revenue increased by 12% in 2023 compared to the previous year. The company is financially stable and planning expansion into European markets."
  const ProjectAnswer: string := "According to the Project Proposal document, the project timeline estimates completion within 8 months from approval."
  const NoMatchAnswer: string := "I couldn't find specific information about that in the uploaded documents. Could you please rephrase your question or upload more relevant documents?"

  const FinancialExcerpt: string := "According to our financial results, revenue increased by 12% in 2023 compared to the previous year."
  const ExpansionExcerpt: string := "The board approved a plan to expand operations into European markets by Q2 2024."
  const TimelineExcerpt: string := "The project timeline estimates completion within 8 months from approval."

  /** `MOCK_SOURCES['1']`: the annual report, then the project proposal. */
  const MockSources: seq<DocumentSource> := [
    DocumentSource("1", "Annual Report 2023.pdf", [FinancialExcerpt, ExpansionExcerpt], 0.92),
    DocumentSource("2", "Project Proposal.docx", [TimelineExcerpt], 0.75)
  ]

  /** The initial `MOCK_DOCUMENTS`; the three upload times are clock readings
      taken when the module loads. */
  function SeedDocuments(now: string, dayAgo: string, twoDaysAgo: string): (docs: seq<Document>)
    ensures |docs| == 3
    ensures docs[0].id == "1" && docs[1].id == "2" && docs[2].id == "3"
    ensures forall k :: 0 <= k < 3 ==> docs[k].status == Completed
    ensures docs[0].selected && docs[1].selected && !docs[2].selected
    ensures UniqueIds(docs)
  {
    [
      Document("1", "Annual Report 2023.pdf", "application/pdf", 1250000, now, Completed, true),
      Document("2", "Project Proposal.docx",
        "application/vnd.openxmlformats-officedocument.wordprocessingml.document",
        520000, dayAgo, Completed, true),
      Document("3", "Meeting Notes.txt", "text/plain", 15000, twoDaysAgo, Completed, false)
    ]
  }

  /** `sendChatMessage`: the reply depends on the message's topic alone. */
  function SendChatMessage(message: string, id: string, timestamp: int): (r: ApiResponse<ChatMessage>)
    ensures r.Delivered() && r.Conformant()
    ensures r.data.value.role == Assistant && r.data.value.id == id && r.data.value.timestamp == timestamp
  {
    var topic := Classify(message);
    var content := match topic
      case Financial => FinancialAnswer
      case Project => ProjectAnswer
      case General => NoMatchAnswer;
    var sources := match topic
      case Financial => Some(MockSources)
      case Project => Some([MockSources[1]])
      case General => None;
    Ok(ChatMessage(id, Assistant, content, timestamp, sources))
  }

  /** The three branches of the mock chat: the financial text citing both
      mock sources, scored 0.92 then 0.75; the project text citing only the
      second mock source (0.75); or the fallback text with `sources`
      undefined. */
  lemma ChatReplyByTopic(message: string, id: string, timestamp: int)
    ensures var reply := SendChatMessage(message, id, timestamp).data.value;
      match Classify(message)
      case Financial =>
        reply.content == FinancialAnswer && reply.sources == Some(MockSources) && |reply.sources.value| == 2
        && reply.sources.value[0].relevanceScore == 0.92 && reply.sources.value[1].relevanceScore == 0.75
      case Project =>
        reply.content == ProjectAnswer && reply.sources == Some([MockSources[1]]) && |reply.sources.value| == 1
        && reply.sources.value[0].relevanceScore == 0.75
      case General =>
        reply.content == NoMatchAnswer && reply.sources.None?
  {
  }

  /** Every source the mock cites has a score in [0, 1] and at least one excerpt. */
  lemma MockSourcesWellFormed(message: string, id: string, timestamp: int)
    ensures var reply := SendChatMessage(message, id, timestamp).data.value;
      reply.sources.Some? ==>
        forall s :: s in reply.sources.value ==>
          0.0 <= s.relevanceScore <= 1.0 && |s.excerpts| > 0
  {
  }

  /** "What was our revenue?" gets the financial answer and two sources,
      0.92 then 0.75. */
  lemma RevenueQuestionAnswer(id: string, timestamp: int)
    ensures var reply := SendChatMessage("What was our revenue?", id, timestamp).data.value;
      reply.content == FinancialAnswer && reply.sources == Some(MockSources)
      && reply.sources.value[0].relevanceScore == 0.92 && reply.sources.value[1].relevanceScore == 0.75
  {
    RevenueQuestionIsFinancial();
  }

  /** The mock's registry: `MOCK_DOCUMENTS`, mutated in place by each call. */
  class MockBackend {
    var documents: seq<Document>

    /** Module load: the registry holds the three seed documents. */
    constructor (now: string, dayAgo: string, twoDaysAgo: string)
      ensures documents == SeedDocuments(now, dayAgo, twoDaysAgo)
    {
      documents := SeedDocuments(now, dayAgo, twoDaysAgo);
    }

    /** `getDocuments`: always succeeds with the current registry. */
    method GetDocuments() returns (r: ApiResponse<seq<Document>>)
      ensures r.Delivered() && r.Conformant() && r.data.value == documents
    {
      r := Ok(documents);
    }

    /** `uploadDocument` up to its return: a new processing, unselected
        document built from the file is pushed at the end and returned. The
        completion timer it schedules is `CompleteProcessing`. */
    method UploadDocument(file: File, id: string, now: string) returns (r: ApiResponse<Document>)
      modifies this
      ensures r.Delivered() && r.Conformant()
      ensures r.data.value == Document(id, file.name, file.mimeType, file.size, now, Processing, false)
      ensures documents == old(documents) + [r.data.value]
      ensures UniqueIds(old(documents)) && FindIndex(old(documents), id).None? ==>
        UniqueIds(documents) && NoRegression(old(documents), documents)
    {
      var doc := Document(id, file.name, file.mimeType, file.size, now, Processing, false);
      if UniqueIds(documents) && FindIndex(documents, id).None? {
        AppendKeepsInvariants(documents, doc);
      }
      documents := documents + [doc];
      r := Ok(doc);
    }

    /** The timer callback scheduled by an upload of `doc`: the first entry
        with its id becomes completed; if the id is gone (the document was
        deleted meanwhile), the document is pushed again, completed. */
    method CompleteProcessing(doc: Document)
      modifies this
      ensures documents == Complete(old(documents), doc)
      ensures UniqueIds(old(documents)) ==> UniqueIds(documents) && NoRegression(old(documents), documents)
    {
      var index := FindIndex(documents, doc.id);
      if UniqueIds(documents) {
        CompleteKeepsInvariants(documents, doc);
      }
      match index
      case Some(i) =>
        documents := documents[i := documents[i].(status := Completed)];
      case None =>
        documents := documents + [doc.(status := Completed)];
    }

    /** `deleteDocument`: splices out the first entry with `id`, or reports
        "Document not found" and changes nothing. */
    method DeleteDocument(id: string) returns (r: ApiResponse<()>)
      modifies this
      ensures documents == RemoveFirst(old(documents), id)
      ensures r.Conformant()
      ensures r == if FindIndex(old(documents), id).Some? then Done() else Fail(NotFound)
      ensures UniqueIds(old(documents)) ==> UniqueIds(documents) && NoRegression(old(documents), documents)
    {
      if UniqueIds(documents) {
        RemoveFirstKeepsUnique(documents, id);
        RemoveFirstNoRegression(documents, id);
      }
      var index := FindIndex(documents, id);
      match index
      case Some(i) =>
        documents := documents[..i] + documents[i + 1..];
        r := Done();
      case None =>
        r := Fail(NotFound);
    }

    /** `updateDocumentSelection`: sets (does not toggle) the flag of the
        first entry with `id` and returns that entry, or reports
        "Document not found" and changes nothing. */
    method UpdateDocumentSelection(id: string, selected: bool) returns (r: ApiResponse<Document>)
      modifies this
      ensures documents == SelectFirst(old(documents), id, selected)
      ensures r.Conformant()
      ensures FindIndex(old(documents), id).None? ==> r == Fail(NotFound)
      ensures FindIndex(old(documents), id).Some? ==>
        var i := FindIndex(old(documents), id).value;
        r == Ok(documents[i]) && documents[i].selected == selected
      ensures UniqueIds(old(documents)) ==> UniqueIds(documents) && NoRegression(old(documents), documents)
    {
      if UniqueIds(documents) {
        SelectFirstKeepsInvariants(documents, id, selected);
      }
      var index := FindIndex(documents, id);
      match index
      case Some(i) =>
        documents := documents[i := documents[i].(selected := selected)];
        r := Ok(documents[i]);
      case None =>
        r := Fail(NotFound);
    }
  }

  /** A session against the mock: upload a file, delete it before its
      processing finishes, then let the completion timer fire. The deleted
      document comes back, completed, at the end of the registry. */
  method UploadDeleteThenComplete(backend: MockBackend, file: File, id: string, now: string)
    requires FindIndex(backend.documents, id).None?
    modifies backend
    ensures backend.documents ==
      old(backend.documents) + [Document(id, file.name, file.mimeType, file.size, now, Completed, false)]
  {
    var uploaded := backend.UploadDocument(file, id, now);
    var deleted := backend.DeleteDocument(id);
    CompletionResurrectsDeleted(old(backend.documents), uploaded.data.value);
    backend.CompleteProcessing(uploaded.data.value);
  }
}

/** The FastAPI handlers of backend/main.py over the JSON document database.

    Each handler loads the stored list, works on it and saves it; here the
    stored list is a parameter (`db`) and the list left on disk a result
    (`saved`). File contents, the upload directory, uuid generation and the
    clock are left out or become parameters; a failing file or database
    operation is an `UploadFault` parameter. */
module Backend {
  import opened Types
  import opened Strings
  import opened Registry
  import opened Keywords
  import MockApi

  /** What the upload handler reads from FastAPI's `UploadFile`. */
  datatype UploadFile = UploadFile(filename: string, contentType: Option<string>, size: nat)

  /** Where, if anywhere, the upload's `try` block raises: before the record
      is first saved (writing the file, loading or first saving the
      database), or on the second save after the record was completed. */
  datatype UploadFault = NoFault | FailBeforeSave(message: string) | FailOnFinalSave(message: string)

  const DefaultMimeType: string := "application/octet-stream"

  /** `file.content_type or "application/octet-stream"`: a missing or empty
      content type falls back to the default. */
  function MimeTypeOf(file: UploadFile): (mime: string)
    ensures mime != []
    ensures file.contentType.Some? && file.contentType.value != [] ==> mime == file.contentType.value
    ensures file.contentType.None? || file.contentType.value == [] ==> mime == DefaultMimeType
  {
    if file.contentType.Some? && file.contentType.value != [] then file.contentType.value else DefaultMimeType
  }

  /** `GET /documents`: the stored list, always successfully. */
  function GetDocuments(db: seq<Document>): (r: ApiResponse<seq<Document>>)
    ensures r.Delivered() && r.Conformant() && r.data.value == db
  {
    Ok(db)
  }

  /** The first record with `doc.id` replaced by `doc`; unchanged when no
      record has that id. */
  function ReplaceFirst(docs: seq<Document>, doc: Document): seq<Document>
  {
    match FindIndex(docs, doc.id)
    case Some(i) => docs[i := doc]
    case None => docs
  }

  /** `POST /documents`. The new record is appended as processing and saved;
      it is then marked completed (the appended record is that same object)
      and the first record with its id is replaced by it, and the list is
      saved again. A fault before the first save leaves the database as it
      was; a fault on the second save leaves the processing record stored.
      Either fault answers with the error's message. */
  method UploadDocument(db: seq<Document>, file: UploadFile, id: string, now: string, fault: UploadFault)
    returns (saved: seq<Document>, r: ApiResponse<Document>)
    ensures r.Conformant()
    ensures fault.FailBeforeSave? ==> saved == db && r == Fail(fault.message)
    ensures fault.FailOnFinalSave? ==>
      saved == db + [Document(id, file.filename, MimeTypeOf(file), file.size, now, Processing, false)]
      && r == Fail(fault.message)
    ensures fault.NoFault? ==>
      var done := Document(id, file.filename, MimeTypeOf(file), file.size, now, Completed, false);
      r == Ok(done) && saved == ReplaceFirst(db + [done], done)
  {
    if fault.FailBeforeSave? {
      return db, Fail(fault.message);
    }
    var record := Document(id, file.filename, MimeTypeOf(file), file.size, now, Processing, false);
    saved := db + [record];
    var done := record.(status := Completed);
    var docs := db + [done];
    var i := 0;
    while i < |docs|
      invariant 0 <= i <= |docs|
      invariant forall j :: 0 <= j < i ==> docs[j].id != id
      invariant docs == db + [done]
    {
      if docs[i].id == id {
        docs := docs[i := done];
        break;
      }
      i := i + 1;
    }
    if fault.FailOnFinalSave? {
      return saved, Fail(fault.message);
    }
    saved, r := docs, Ok(done);
  }

  /** With a fresh id, a successful upload appends the completed record and
      keeps ids unique, and it is the last record of the list. */
  lemma UploadFreshIdAppends(db: seq<Document>, done: Document)
    requires FindIndex(db, done.id).None?
    ensures ReplaceFirst(db + [done], done) == db + [done]
    ensures UniqueIds(db) ==> UniqueIds(ReplaceFirst(db + [done], done))
  {
    var all := db + [done];
    assert FindIndex(all, done.id) == Some(|db|) by {
      assert all[|db|].id == done.id;
    }
    assert all[|db| := done] == all;
    if UniqueIds(db) {
      AppendKeepsInvariants(db, done);
    }
  }

  /** `DELETE /documents/{id}`: removes the first record with `id` and
      succeeds, or answers "Document not found" and saves nothing. */
  method DeleteDocument(db: seq<Document>, id: string) returns (saved: seq<Document>, r: ApiResponse<()>)
    ensures saved == RemoveFirst(db, id)
    ensures r.Conformant()
    ensures r == if exists j :: 0 <= j < |db| && db[j].id == id then Done() else Fail(NotFound)
  {
    var i := 0;
    while i < |db| && db[i].id != id
      invariant 0 <= i <= |db|
      invariant forall j :: 0 <= j < i ==> db[j].id != id
    {
      i := i + 1;
    }
    if i == |db| {
      return db, Fail(NotFound);
    }
    assert FindIndex(db, id) == Some(i);
    saved := db[..i] + db[i + 1..];
    r := Done();
  }

  /** `PUT /documents/{id}/selection`: sets the flag of the first record
      with `id` and answers with that record, or answers "Document not
      found" and saves nothing. */
  method UpdateDocumentSelection(db: seq<Document>, id: string, selected: bool)
    returns (saved: seq<Document>, r: ApiResponse<Document>)
    ensures saved == SelectFirst(db, id, selected)
    ensures r.Conformant()
    ensures (forall j :: 0 <= j < |db| ==> db[j].id != id) ==> r == Fail(NotFound)
    ensures forall j :: 0 <= j < |db| && db[j].id == id && (forall k :: 0 <= k < j ==> db[k].id != id) ==>
      r == Ok(db[j].(selected := selected)) && saved[j] == db[j].(selected := selected)
  {
    saved := db;
    var i := 0;
    while i < |db|
      invariant 0 <= i <= |db|
      invariant forall j :: 0 <= j < i ==> db[j].id != id
      invariant saved == db
    {
      if db[i].id == id {
        saved := db[i := db[i].(selected := selected)];
        return saved, Ok(saved[i]);
      }
      i := i + 1;
    }
    r := Fail(NotFound);
  }

  /** `[doc for doc in documents if doc["selected"]]`, in stored order. */
  function SelectedDocs(db: seq<Document>): (selected: seq<Document>)
    ensures |selected| <= |db|
    ensures forall d :: d in selected <==> d in db && d.selected
  {
    if db == [] then []
    else (if db[0].selected then [db[0]] else []) + SelectedDocs(db[1..])
  }

  /** The comprehension works record by record: the selected records of a
      concatenation are those of each part, in stored order. */
  lemma {:induction false} SelectedDocsConcat(a: seq<Document>, b: seq<Document>)
    ensures SelectedDocs(a + b) == SelectedDocs(a) + SelectedDocs(b)
  {
    if a == [] {
      assert a + b == b;
    } else {
      assert (a + b)[1..] == a[1..] + b;
      SelectedDocsConcat(a[1..], b);
    }
  }

  /** The sources the chat handler cites: for a financial question the
      first selected document (0.92) and the second (0.75); for a project
      question the first (0.75); none otherwise or when nothing is selected. */
  function CitedSources(topic: Topic, selected: seq<Document>): (sources: seq<DocumentSource>)
    ensures |sources| == match topic
      case Financial => if |selected| < 2 then |selected| else 2
      case Project => if |selected| < 1 then 0 else 1
      case General => 0
    ensures forall k :: 0 <= k < |sources| ==>
      sources[k].documentId == selected[k].id && sources[k].documentName == selected[k].name
      && |sources[k].excerpts| == 1 && 0.0 < sources[k].relevanceScore <= 1.0
    ensures |sources| >= 1 ==>
      sources[0].relevanceScore == (if topic == Financial then 0.92 else 0.75)
      && sources[0].excerpts == [if topic == Financial then MockApi.FinancialExcerpt else MockApi.TimelineExcerpt]
    ensures |sources| == 2 ==>
      sources[1].relevanceScore == 0.75 && sources[1].excerpts == [MockApi.TimelineExcerpt]
  {
    match topic
    case Financial =>
      if |selected| == 0 then []
      else
        var first := DocumentSource(selected[0].id, selected[0].name, [MockApi.FinancialExcerpt], 0.92);
        if |selected| == 1 then [first]
        else [first, DocumentSource(selected[1].id, selected[1].name, [MockApi.TimelineExcerpt], 0.75)]
    case Project =>
      if |selected| == 0 then []
      else [DocumentSource(selected[0].id, selected[0].name, [MockApi.TimelineExcerpt], 0.75)]
    case General => []
  }

  /** `POST /chat`: the answer text for the message's topic, with the
      sources cited from the selected documents (an empty list, never
      missing). */
  function SendChatMessage(db: seq<Document>, message: string, id: string, timestamp: int)
    : (r: ApiResponse<ChatMessage>)
    ensures r.Delivered() && r.Conformant()
    ensures r.data.value.role == Assistant && r.data.value.id == id && r.data.value.timestamp == timestamp
    ensures r.data.value.sources == Some(CitedSources(Classify(message), SelectedDocs(db)))
  {
    var topic := Classify(message);
    var content := match topic
      case Financial => MockApi.FinancialAnswer
      case Project => MockApi.ProjectAnswer
      case General => MockApi.NoMatchAnswer;
    Ok(ChatMessage(id, Assistant, content, timestamp, Some(CitedSources(topic, SelectedDocs(db)))))
  }

  /** Every document the chat handler cites is a selected document of the
      database. */
  lemma CitationsAreSelected(db: seq<Document>, message: string, id: string, timestamp: int)
    ensures var sources := SendChatMessage(db, message, id, timestamp).data.value.sources.value;
      forall s :: s in sources ==> exists d :: d in db && d.selected && d.id == s.documentId
  {
    var selected := SelectedDocs(db);
    var sources := CitedSources(Classify(message), selected);
    forall s | s in sources
      ensures exists d :: d in db && d.selected && d.id == s.documentId
    {
      var k :| 0 <= k < |sources| && sources[k] == s;
      assert selected[k] in selected;
    }
  }

  /** The backend answers with the same text as the mock for every message. */
  lemma SameAnswerTextAsMock(db: seq<Document>, message: string, id: string, timestamp: int)
    ensures SendChatMessage(db, message, id, timestamp).data.value.content
      == MockApi.SendChatMessage(message, id, timestamp).data.value.content
  {
  }

  /** Selecting a stored document makes it one the chat handler may cite;
      with unique ids, deselecting one keeps it out. */
  lemma SelectionFeedsChat(db: seq<Document>, id: string, selected: bool)
    requires exists j :: 0 <= j < |db| && db[j].id == id
    ensures selected ==> exists d :: d in SelectedDocs(SelectFirst(db, id, selected)) && d.id == id
    ensures !selected && UniqueIds(db) ==>
      forall d :: d in SelectedDocs(SelectFirst(db, id, selected)) ==> d.id != id
  {
    var i := FindIndex(db, id).value;
    var after := SelectFirst(db, id, selected);
    assert after[i] in after;
    if !selected && UniqueIds(db) {
      forall d | d in SelectedDocs(after)
        ensures d.id != id
      {
        var j :| 0 <= j < |after| && after[j] == d;
        if j != i {
          assert db[j] == d;
        }
      }
    }
  }

  /** Of the seed documents, the annual report and the proposal are
      selected, in that order. */
  lemma SeedSelection(now: string, dayAgo: string, twoDaysAgo: string)
    ensures var db := MockApi.SeedDocuments(now, dayAgo, twoDaysAgo);
      SelectedDocs(db) == [db[0], db[1]]
  {
    var db := MockApi.SeedDocuments(now, dayAgo, twoDaysAgo);
    assert SelectedDocs(db[2..]) == [];
    assert SelectedDocs(db[1..]) == [db[1]] + SelectedDocs(db[2..]);
  }

  /** On the seed documents the backend and the mock cite the same two
      documents, in the same order and with the same scores, for a financial
      question; the mock adds a second excerpt to the annual report. */
  lemma SeedCitationsAgreeWithMock(now: string, dayAgo: string, twoDaysAgo: string, message: string, id: string, timestamp: int)
    requires Classify(message) == Financial
    ensures var db := MockApi.SeedDocuments(now, dayAgo, twoDaysAgo);
      var backend := SendChatMessage(db, message, id, timestamp).data.value.sources.value;
      var mock := MockApi.SendChatMessage(message, id, timestamp).data.value.sources.value;
      |backend| == |mock| == 2
      && backend[0].documentId == mock[0].documentId && backend[1].documentId == mock[1].documentId
      && backend[0].documentName == mock[0].documentName && backend[1].documentName == mock[1].documentName
      && backend[0].relevanceScore == mock[0].relevanceScore && backend[1].relevanceScore == mock[1].relevanceScore
      && |backend[0].excerpts| == 1 && |mock[0].excerpts| == 2
  {
    SeedSelection(now, dayAgo, twoDaysAgo);
  }
}

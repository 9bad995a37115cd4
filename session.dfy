/** The client's document list against the registry it talks to, when every
    response is a copy of the registry's records (value semantics; the
    in-process mock in fact hands out its own objects, which `MockAliasing`
    models): while ids are unique and nothing interleaves, every hook
    operation leaves the client's list equal to the registry. A client
    holding a copy does not see the mock's delayed completion, since
    nothing refetches; with the mock's shared objects the completion is
    written into the client's record as well. */
module Session {
  import opened Types
  import opened Registry
  import opened MockApi
  import opened UseDocuments

  /** Under value semantics: after an upload completes in the registry, a
      client holding a copy of the uploaded record still shows it as
      processing, so the two lists differ. The mock itself writes the
      completion into the object it handed out (its registry entry is that
      object), so there the client's record changes too; this lemma is
      about copies only. */
  lemma CompletionDivergesFromClient(docs: seq<Document>, doc: Document)
    requires FindIndex(docs, doc.id).None? && doc.status == Processing
    ensures Complete(docs + [doc], doc) != docs + [doc]
    ensures Complete(docs + [doc], doc) == docs + [doc.(status := Completed)]
  {
    var all := docs + [doc];
    assert FindIndex(all, doc.id) == Some(|docs|) by {
      assert all[|docs|].id == doc.id;
    }
    assert Complete(all, doc)[|docs|].status == Completed;
  }

  /** Upload through the hook: the registry and the client's list both gain
      the uploaded document, at the end. */
  method SyncedUpload(backend: MockBackend, store: DocumentStore, file: File, id: string, now: string)
    returns (uploaded: Option<Document>)
    requires backend.documents == store.documents
    modifies backend, store
    ensures store.documents == backend.documents
    ensures uploaded == Some(Document(id, file.name, file.mimeType, file.size, now, Processing, false))
    ensures store.documents == old(store.documents) + [uploaded.value]
    ensures !store.uploading
  {
    store.BeginUpload();
    var response := backend.UploadDocument(file, id, now);
    var notice;
    uploaded, notice := store.EndUpload(Returned(response));
  }

  /** Delete through the hook: the registry splices out the first match and
      the client filters every match, which is the same list when ids are
      unique; a missing id changes neither. */
  method SyncedDelete(backend: MockBackend, store: DocumentStore, id: string)
    returns (notice: Notice)
    requires backend.documents == store.documents && UniqueIds(backend.documents)
    modifies backend, store
    ensures store.documents == backend.documents && UniqueIds(store.documents)
    ensures notice.destructive <==> FindIndex(old(store.documents), id).None?
    ensures notice.destructive ==> notice.description == NotFound
  {
    var before := store.documents;
    var response := backend.DeleteDocument(id);
    if FindIndex(before, id).Some? {
      RemoveAllIsRemoveFirst(before, id);
      assert response == Done();
      notice := store.DeleteDocument(id, Returned(response));
    } else {
      RemoveAllAbsent(before, id);
      assert response == Fail(NotFound);
      assert ErrorDescription(Returned(response), UnknownError) == NotFound;
      notice := store.DeleteDocument(id, Returned(response));
    }
  }

  /** Toggle through the hook: the client asks the registry for the negated
      flag and then flips its own copy, which agrees with the registry when
      ids are unique; a missing id makes no call. */
  method SyncedToggle(backend: MockBackend, store: DocumentStore, id: string)
    returns (requested: Option<bool>)
    requires backend.documents == store.documents && UniqueIds(backend.documents)
    modifies backend, store
    ensures store.documents == backend.documents && UniqueIds(store.documents)
    ensures requested.Some? <==> FindIndex(old(store.documents), id).Some?
    ensures |store.documents| == |old(store.documents)|
    ensures requested.Some? ==>
      store.documents[FindIndex(old(store.documents), id).value].selected == requested.value
  {
    var before := store.documents;
    var ask := RequestedSelection(before, id);
    var response: ApiResponse<Document> := Fail(NotFound);
    if ask.Some? {
      response := backend.UpdateDocumentSelection(id, ask.value);
      FlipAllIsSelectFirst(before, id);
      SelectFirstRoundTrip(before, id, ask.value);
    }
    var notice;
    requested, notice := store.ToggleDocumentSelection(id, Returned(response));
    if ask.Some? {
      SelectFirstKeepsInvariants(before, id, ask.value);
    }
  }
}

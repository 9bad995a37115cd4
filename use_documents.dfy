/** The `useDocuments` hook of src/hooks/useDocuments.tsx: the client-side
    document list with its `loading` and `uploading` flags.

    The hook's state becomes the fields of a `DocumentStore`. Each async
    operation is split at its `await`: what happens before the call is one
    method, what happens when the call comes back is another (or the same
    method, when nothing observable happens before the call), and the
    call's outcome is a `Reply` parameter. The toast each outcome raises is
    the method's `Notice` result. */
module UseDocuments {
  import opened Types
  import opened Registry

  /** The selection flag `toggleDocumentSelection` asks the API for: the
      negation of the flag of the first document with `id` (`Array.find`),
      or nothing when no document has that id. */
  function RequestedSelection(docs: seq<Document>, id: string): (r: Option<bool>)
    ensures r.Some? <==> exists j :: 0 <= j < |docs| && docs[j].id == id
    ensures forall j :: 0 <= j < |docs| && docs[j].id == id && (forall k :: 0 <= k < j ==> docs[k].id != id) ==>
      r == Some(!docs[j].selected)
  {
    match FindIndex(docs, id)
    case Some(i) => Some(!docs[i].selected)
    case None => None
  }

  class DocumentStore {
    var documents: seq<Document>
    var loading: bool
    var uploading: bool

    /** The hook's initial state: no documents, loading, not uploading. */
    constructor ()
      ensures documents == [] && loading && !uploading
    {
      documents := [];
      loading := true;
      uploading := false;
    }

    /** `fetchDocuments` up to its `await`: the list is marked loading. */
    method BeginFetch()
      modifies this
      ensures loading
      ensures documents == old(documents) && uploading == old(uploading)
    {
      loading := true;
    }

    /** `fetchDocuments` after its `await`: a delivered list replaces the
        current one; anything else leaves it and raises an error toast.
        Loading ends either way. */
    method EndFetch(reply: Reply<seq<Document>>) returns (notice: Option<Notice>)
      modifies this
      ensures !loading && uploading == old(uploading)
      ensures documents == if reply.Delivered() then reply.response.data.value else old(documents)
      ensures notice.None? <==> reply.Delivered()
      ensures notice.Some? ==> notice.value == Notice("Error loading documents", ErrorDescription(reply, UnknownError), true)
    {
      if reply.Delivered() {
        documents := reply.response.data.value;
        notice := None;
      } else {
        notice := Some(Notice("Error loading documents", ErrorDescription(reply, UnknownError), true));
      }
      loading := false;
    }

    /** `uploadDocument` up to its `await`: uploading starts. */
    method BeginUpload()
      modifies this
      ensures uploading
      ensures documents == old(documents) && loading == old(loading)
    {
      uploading := true;
    }

    /** `uploadDocument` after its `await`: a delivered document is appended
        and returned; otherwise nothing is returned and an error toast is
        raised. Uploading ends either way. */
    method EndUpload(reply: Reply<Document>) returns (uploaded: Option<Document>, notice: Notice)
      modifies this
      ensures !uploading && loading == old(loading)
      ensures uploaded.Some? <==> reply.Delivered()
      ensures uploaded.Some? ==> uploaded.value == reply.response.data.value
      ensures documents == if reply.Delivered() then old(documents) + [reply.response.data.value] else old(documents)
      ensures notice.destructive <==> uploaded.None?
      ensures notice.destructive ==> notice == Notice("Error uploading document", ErrorDescription(reply, UnknownError), true)
    {
      if reply.Delivered() {
        documents := documents + [reply.response.data.value];
        uploaded := Some(reply.response.data.value);
        notice := Notice("Document uploaded", "Your document is being processed and will be available shortly.", false);
      } else {
        uploaded := None;
        notice := Notice("Error uploading document", ErrorDescription(reply, UnknownError), true);
      }
      uploading := false;
    }

    /** `deleteDocument(id)` once its call is back: a successful envelope
        (data or not) drops every document with `id`; otherwise the list is
        kept and an error toast is raised. */
    method DeleteDocument(id: string, reply: Reply<()>) returns (notice: Notice)
      modifies this`documents
      ensures documents == if reply.Returned? && reply.response.success then RemoveAll(old(documents), id) else old(documents)
      ensures notice.destructive <==> !(reply.Returned? && reply.response.success)
      ensures notice.destructive ==> notice == Notice("Error deleting document", ErrorDescription(reply, UnknownError), true)
    {
      if reply.Returned? && reply.response.success {
        documents := RemoveAll(documents, id);
        notice := Notice("Document deleted", "The document has been removed successfully.", false);
      } else {
        notice := Notice("Error deleting document", ErrorDescription(reply, UnknownError), true);
      }
    }

    /** `toggleDocumentSelection(id)`. With no document `id` it returns at
        once, makes no call and changes nothing. Otherwise it asks for the
        negated flag (`requested`); `reply` is how that call came back. On
        a delivered reply every document with `id` has its flag flipped; on
        anything else an error toast is raised. */
    method ToggleDocumentSelection(id: string, reply: Reply<Document>) returns (requested: Option<bool>, notice: Option<Notice>)
      modifies this`documents
      ensures requested == RequestedSelection(old(documents), id)
      ensures documents == if requested.Some? && reply.Delivered() then FlipAll(old(documents), id) else old(documents)
      ensures notice.Some? <==> requested.Some? && !reply.Delivered()
      ensures notice.Some? ==> notice.value == Notice("Error updating document", ErrorDescription(reply, UnknownError), true)
    {
      requested := RequestedSelection(documents, id);
      notice := None;
      if requested.Some? {
        if reply.Delivered() {
          documents := FlipAll(documents, id);
        } else {
          notice := Some(Notice("Error updating document", ErrorDescription(reply, UnknownError), true));
        }
      }
    }
  }
}

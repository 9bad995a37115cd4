/** The shared entity shapes of src/types/index.ts and the envelope every
    API operation resolves to. */
module Types {

  datatype Option<+T> = None | Some(value: T)

  /** `Document.status`: exactly one of the four lifecycle states. */
  datatype Status = Pending | Processing | Completed | Error

  /** An uploaded document. The source's field `type` (the MIME type) is
      called `mimeType` here, `type` being a Dafny keyword. */
  datatype Document = Document(
    id: string,
    name: string,
    mimeType: string,
    size: nat,
    uploadedAt: string,
    status: Status,
    selected: bool)

  datatype Role = User | System | Assistant

  /** An excerpt set cited by an assistant turn; excerpts keep their order. */
  datatype DocumentSource = DocumentSource(
    documentId: string,
    documentName: string,
    excerpts: seq<string>,
    relevanceScore: real)

  /** A chat turn; `sources` is optional. */
  datatype ChatMessage = ChatMessage(
    id: string,
    role: Role,
    content: string,
    timestamp: int,
    sources: Option<seq<DocumentSource>>)

  /** Retrieval settings; only declared by the core, no operation uses them. */
  datatype RagSettings = RagSettings(
    chunkSize: int,
    chunkOverlap: int,
    retrievalK: int,
    temperature: real,
    model: string)

  /** `ApiResponse<T>`: a success flag with independent optional data and
      error. The type does not tie the three together; `Conformant` states
      the consistency the handlers in fact keep. */
  datatype ApiResponse<T> = ApiResponse(success: bool, data: Option<T>, error: Option<string>)
  {
    /** A success carries no error; a failure carries an error and no data. */
    predicate Conformant()
    {
      (success ==> error.None?) && (!success ==> error.Some? && data.None?)
    }

    /** The test the client applies before using a result: `success && data`. */
    predicate Delivered()
    {
      success && data.Some?
    }
  }

  /** `{ success: true, data: v }` */
  function Ok<T>(v: T): ApiResponse<T>
  {
    ApiResponse(true, Some(v), None)
  }

  /** `{ success: true }`, the answer to a delete. */
  function Done<T>(): ApiResponse<T>
  {
    ApiResponse(true, None, None)
  }

  /** `{ success: false, error: message }` */
  function Fail<T>(message: string): ApiResponse<T>
  {
    ApiResponse(false, None, Some(message))
  }

  /** A toast the components raise: its title, its description, and
      whether it is the destructive (error) variant. */
  datatype Notice = Notice(title: string, description: string, destructive: bool)

  /** The description of an error toast raised for `reply`: for an
      envelope, its `error` unless that is missing or empty (both falsy in
      `response.error || fallback`), else `fallback`; for a thrown error,
      its message. */
  function ErrorDescription<T>(reply: Reply<T>, fallback: string): (description: string)
    ensures reply.Returned? && fallback != [] ==> description != []
    ensures reply.Returned? && reply.response.error.Some? && reply.response.error.value != [] ==>
      description == reply.response.error.value
    ensures reply.Returned? && (reply.response.error.None? || reply.response.error.value == []) ==>
      description == fallback
    ensures reply.Threw? ==> description == reply.message
  {
    match reply
    case Returned(response) =>
      if response.error.Some? && response.error.value != [] then response.error.value else fallback
    case Threw(message) => message
  }

  const NotFound: string := "Document not found"

  /** The fallback toast description of the document hook and the chat. */
  const UnknownError: string := "An unknown error occurred"

  /** How an awaited API call came back to a client: it resolved to an
      envelope, or it threw (the message of the thrown error). */
  datatype Reply<T> = Returned(response: ApiResponse<T>) | Threw(message: string)
  {
    predicate Delivered()
    {
      Returned? && response.Delivered()
    }
  }
}

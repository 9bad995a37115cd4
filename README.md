# memoretrieve: a verified model of the document registry, the client stores and the chat rules

memoretrieve is a small retrieval-augmented chat application. The user
uploads documents and marks some of them "included". They then ask
questions, and the answers cite passages from the included documents.
This project models the parts of it that make decisions, as Dafny:

- **The in-process mock backend** (`src/utils/api.ts`):
  - a module-level registry of documents, seeded with three records;
  - upload appends, delete splices the first match, selection sets a flag in place;
  - a delayed completion step marks an upload completed, and re-inserts it if it was deleted;
  - a keyword-priority chat responder with fixed answer texts and fixed sources.
- **The `useDocuments` hook** (`src/hooks/useDocuments.tsx`): the client's
  `documents`/`loading`/`uploading` state, reconciled with each response
  envelope.
- **The chat log of the `Chat` component** (`src/components/Chat.tsx`): send,
  reply or apology, Enter handling, clear and re-greeting, and the button
  enable rules.
- **The FastAPI handlers** (`backend/main.py`) over the stored record list:
  get, upload, delete, set selection, and a chat reply that cites the
  selected documents.
- **Pure display rules** of `DocumentList` (icon, size label, status badge,
  MIME subtype, include checkbox, skeleton/empty/rows) and of `Header`
  (active navigation item, mobile menu).

Modules, one per file:

- `Types`: the entities of `src/types/index.ts`, plus the `Reply` of an awaited call and the toast `Notice`.
- `Strings`: ASCII lower-casing, `includes`, ECMAScript `trim`, `split`, decimal digits.
- `Registry`: pure list transitions, shared by the mock, the hook and the backend, and their invariants.
- `Keywords`: the chat keyword rule, shared by the mock and the backend.
- `MockApi`: the mock, with its registry as the class `MockBackend`.
- `UseDocuments`: the hook, as the class `DocumentStore`.
- `Session`: the hook driven against the mock.
- `Chat`: the chat log, as the class `ChatLog`.
- `Backend`: the Python handlers, as loop methods over the stored list.
- `DocumentList` and `Header`: the display rules.
- `MockAliasing`: the mock with object identity kept, where the hook holds the very objects the mock hands out.

**Async operations.** An `await` splits each one into the step before the
call and the step after it. The call's outcome is a parameter: the
envelope it resolved to, or the message it threw.

**Nondeterministic inputs.** Random ids, `uuid4` and clock readings are
parameters.

**Which mock.** `MockApi`, `UseDocuments` and `Session` treat every
response as a copy of the registry's records, as the HTTP backend's JSON
is. `MockAliasing` keeps the mock's object sharing and shows what that
changes (see Findings).

**Completion re-inserts a deleted upload.** When the upload is no longer
listed, the completion callback (`src/utils/api.ts:81-89`) pushes it back,
completed: `Registry.CompletionResurrectsDeleted` and
`MockApi.UploadDeleteThenComplete`.

## Model

| member | source | states |
|---|---|---|
| Types.ErrorDescription | src/hooks/useDocuments.tsx:20-31 | an error toast shows the envelope's error unless it is missing or empty, then the fallback; a thrown error shows its message; an envelope's description is never empty when the fallback is not (a thrown error's message may be empty) |
| Strings.ToLower | src/utils/api.ts:123 | `toLowerCase` keeps the length and lower-cases each character on its own; see ToLowerIdempotent and Keywords.ToLowerFixed |
| Strings.ToLowerIdempotent | src/utils/api.ts:123 | lower-casing twice is lower-casing once |
| Strings.Contains | src/utils/api.ts:123 | `includes`; characterised by ContainsIff, ContainsAt and MissingCharNotContained |
| Strings.ContainsIff | src/utils/api.ts:123 | `includes` holds exactly when the word occurs at some position |
| Strings.ContainsAt | src/utils/api.ts:123 | an occurrence at a position makes `includes` true |
| Strings.MissingCharNotContained | src/components/DocumentList.tsx:44-48 | a text lacking one letter of a word does not include the word |
| Strings.Trim | src/components/Chat.tsx:32 | `trim` drops leading and trailing whitespace; characterised by TrimStart and TrimEnd |
| Strings.TrimStart | src/components/Chat.tsx:32 | the result is a suffix; everything dropped is whitespace; it does not start with whitespace |
| Strings.TrimEnd | src/components/Chat.tsx:32 | the result is a prefix; everything dropped is whitespace; it does not end with whitespace |
| Strings.IsBlank | src/components/Chat.tsx:32 | `!input.trim()`; characterised by BlankIffAllWhitespace |
| Strings.BlankIffAllWhitespace | src/components/Chat.tsx:32 | `!input.trim()` holds exactly when every character is whitespace |
| Strings.Split | src/components/DocumentList.tsx:155 | `split` yields at least one piece, and no piece contains the separator |
| Strings.JoinSplit | src/components/DocumentList.tsx:155 | joining the pieces with the separator gives back the text |
| Strings.SplitAfterPiece | src/components/DocumentList.tsx:155 | a separator-free piece, then the separator, splits off as the first piece |
| Strings.SplitWithoutSeparator | src/components/DocumentList.tsx:155 | a text without the separator is its own single piece |
| Strings.NatToString | src/components/Chat.tsx:35 | `toString` of a count is nonempty, all decimal digits, with no leading zero |
| Strings.ParseNatToString | src/components/Chat.tsx:35 | reading the digits back gives the number |
| Registry.FindIndex | src/utils/api.ts:97 | `findIndex` gives the first position with the id, or none exactly when no record has it |
| Registry.FindIndexSameIds | src/utils/api.ts:82 | lists with the same ids in the same order give the same index |
| Registry.FindIndexOfUnique | src/utils/api.ts:97 | with unique ids, looking up a record's id finds that record |
| Registry.RemoveFirst | src/utils/api.ts:97-100 | the mock's `findIndex` then `splice(index, 1)`; characterised by RemoveFirstDropsOne, RemoveFirstKeepsUnique and RemoveFirstNoRegression |
| Registry.RemoveFirstDropsOne | src/utils/api.ts:95-103 | `splice(index, 1)` removes exactly the first match and keeps the rest in order (every later record moves down one place); an absent id changes nothing |
| Registry.SelectFirst | src/utils/api.ts:107-110 | the mock's `find` then the flag assignment; characterised by SelectFirstRoundTrip, SelectFirstIdempotent and SelectFirstKeepsInvariants |
| Registry.SelectFirstRoundTrip | src/utils/api.ts:105-113 | setting the flag keeps the match where it was and gives it the flag asked for |
| Registry.SelectFirstIdempotent | src/utils/api.ts:105-113 | repeating a selection update changes nothing more |
| Registry.Complete | src/utils/api.ts:81-89 | the completion timer's body; characterised by CompleteMarksCompleted, CompletionResurrectsDeleted and CompleteKeepsInvariants |
| Registry.CompleteMarksCompleted | src/utils/api.ts:81-89 | after the completion step the id is present and completed; the list grows only when the id was absent |
| Registry.CompletionResurrectsDeleted | src/utils/api.ts:81-99 | upload, delete, then completion leaves the document back at the end, completed (not a no-op) |
| Registry.RemoveAll | src/hooks/useDocuments.tsx:76 | the hook's `filter(doc => doc.id !== id)`; characterised by RemoveAllFilters, RemoveAllConcat, RemoveAllAbsent and RemoveAllIsRemoveFirst |
| Registry.RemoveAllFilters | src/hooks/useDocuments.tsx:76 | the filter keeps exactly the records with another id |
| Registry.RemoveAllConcat | src/hooks/useDocuments.tsx:76 | the filter distributes over concatenation |
| Registry.RemoveAllAbsent | src/hooks/useDocuments.tsx:76 | filtering an absent id changes nothing |
| Registry.UniqueTailAbsent | src/utils/api.ts:97 | with unique ids, a record's id does not occur after it |
| Registry.RemoveAllIsRemoveFirst | src/hooks/useDocuments.tsx:72-80 | with unique ids, the client's filter equals the mock's splice of the first match |
| Registry.RemoveAllAroundMatch | src/hooks/useDocuments.tsx:76 | filtering the one matching record out of a list gives the rest |
| Registry.FlipAll | src/hooks/useDocuments.tsx:104-106 | the hook's `map` negating the flag of every match; characterised by FlipAllTwice and FlipAllIsSelectFirst |
| Registry.FlipAllTwice | src/hooks/useDocuments.tsx:104-106 | two flips restore the list, and a flip leaves the positions of ids alone |
| Registry.FlipAllIsSelectFirst | src/hooks/useDocuments.tsx:102-106 | with unique ids, flipping the match equals setting its negated flag as the mock does |
| Registry.AppendKeepsInvariants | src/utils/api.ts:91 | pushing a fresh id keeps ids unique and no status goes backwards |
| Registry.CompleteKeepsInvariants | src/utils/api.ts:81-89 | the completion step keeps ids unique and never regresses a status |
| Registry.RemoveFirstKeepsUnique | src/utils/api.ts:97-99 | deleting keeps ids unique |
| Registry.RemoveFirstNoRegression | src/utils/api.ts:97-99 | deleting changes no remaining record's status |
| Registry.SelectFirstKeepsInvariants | src/utils/api.ts:107-109 | a selection update keeps ids unique and statuses as they were |
| Keywords.MentionsFinancial | src/utils/api.ts:123 | the lower-cased message includes "revenue" or "financial"; see KeywordFound and MissingLettersIsGeneral |
| Keywords.MentionsProject | src/utils/api.ts:127 | the lower-cased message includes "project" or "timeline"; see KeywordFound and MissingLettersIsGeneral |
| Keywords.Classify | src/utils/api.ts:123-133 | the topic by the if/else-if order, financial first; characterised by ClassifyIgnoresCase, FinancialWinsOverProject, RevenueQuestionIsFinancial and MissingLettersIsGeneral |
| Keywords.ClassifyIgnoresCase | src/utils/api.ts:123-130 | the topic of a message does not depend on its letter case |
| Keywords.ToLowerFixed | src/utils/api.ts:123 | a text without upper-case letters is its own lower case |
| Keywords.KeywordFound | src/utils/api.ts:123 | a lower-case keyword occurring in the message is found after lower-casing |
| Keywords.RevenueQuestionIsFinancial | src/utils/api.ts:123-125 | "What was our revenue?" is a financial question |
| Keywords.FinancialWinsOverProject | src/utils/api.ts:123-130 | a message naming revenue and the project timeline is financial: the first rule wins |
| Keywords.MissingLettersIsGeneral | src/utils/api.ts:123-133 | a message lacking the letters v, f, p and m falls to the fallback |
| MockApi.SeedDocuments | src/utils/api.ts:5-33 | the registry starts as ids "1", "2", "3", all completed, selected true, true, false, ids unique |
| MockApi.SendChatMessage | src/utils/api.ts:116-144 | every reply succeeds as a conformant assistant turn with the given id and timestamp; its text and its sources by topic are stated by ChatReplyByTopic |
| MockApi.ChatReplyByTopic | src/utils/api.ts:123-133 | the financial text citing both sources of `MOCK_SOURCES['1']`, scored 0.92 then 0.75; the project text citing only the second of them (0.75); the fallback text with no sources |
| MockApi.MockSourcesWellFormed | src/utils/api.ts:35-55 | every cited source has a score in [0, 1] and at least one excerpt |
| MockApi.RevenueQuestionAnswer | src/utils/api.ts:123-125 | the revenue question gets the financial answer and both sources in order |
| MockApi.MockBackend.constructor | src/utils/api.ts:5-33 | the registry holds the seed documents |
| MockApi.MockBackend.GetDocuments | src/utils/api.ts:63-66 | always succeeds with the registry's current contents |
| MockApi.MockBackend.UploadDocument | src/utils/api.ts:68-93 | appends one processing, unselected record built from the file and returns it; with a fresh id, ids stay unique and no status regresses |
| MockApi.MockBackend.CompleteProcessing | src/utils/api.ts:81-89 | the timer callback marks the first match completed or pushes the document back completed; invariants kept |
| MockApi.MockBackend.DeleteDocument | src/utils/api.ts:95-103 | the first match is spliced out with success, or "Document not found" with the registry unchanged |
| MockApi.MockBackend.UpdateDocumentSelection | src/utils/api.ts:105-113 | sets (not toggles) the flag of the first match and returns it, or "Document not found" |
| MockApi.UploadDeleteThenComplete | src/utils/api.ts:81-103 | deleting an upload before its timer fires brings it back, completed, at the end |
| UseDocuments.RequestedSelection | src/hooks/useDocuments.tsx:98-102 | a request is made exactly when the id is listed, asking for the negation of the first match's flag |
| UseDocuments.DocumentStore.constructor | src/hooks/useDocuments.tsx:8-10 | empty list, loading, not uploading |
| UseDocuments.DocumentStore.BeginFetch | src/hooks/useDocuments.tsx:13-14 | loading is set; nothing else changes |
| UseDocuments.DocumentStore.EndFetch | src/hooks/useDocuments.tsx:15-34 | the list is replaced only on `success && data`, otherwise kept with an error toast; loading ends either way |
| UseDocuments.DocumentStore.BeginUpload | src/hooks/useDocuments.tsx:41-42 | uploading is set; nothing else changes |
| UseDocuments.DocumentStore.EndUpload | src/hooks/useDocuments.tsx:43-69 | a delivered upload is appended and returned; otherwise the list is kept, nothing is returned and an error toast is raised; uploading ends |
| UseDocuments.DocumentStore.DeleteDocument | src/hooks/useDocuments.tsx:72-95 | on success every record with the id is filtered out; otherwise the list is kept with an error toast; loading and uploading untouched |
| UseDocuments.DocumentStore.ToggleDocumentSelection | src/hooks/useDocuments.tsx:97-121 | no request for an unlisted id; on delivery the matching flags are flipped; otherwise the list is kept with an error toast |
| Session.CompletionDivergesFromClient | src/utils/api.ts:81-92 | under value semantics, after completion the registry shows the upload completed while a client holding a copy still shows it processing (the mock's shared objects would carry the change to the client) |
| Session.SyncedUpload | src/hooks/useDocuments.tsx:41-51 | an upload through the hook leaves client and registry equal, the new record last |
| Session.SyncedDelete | src/hooks/useDocuments.tsx:72-80 | with unique ids, a delete leaves client and registry equal; the toast is destructive exactly when the id was absent |
| Session.SyncedToggle | src/hooks/useDocuments.tsx:97-106 | with unique ids, a toggle leaves client and registry equal, the match holding the requested flag |
| Chat.Welcome | src/components/Chat.tsx:107-118 | the greeting is a system turn with id "0" and no sources |
| Chat.UserTurn | src/components/Chat.tsx:34-39 | the user turn holds the untrimmed input; its id is the clock's decimal digits, which read back as the clock |
| Chat.ReplyTurn | src/components/Chat.tsx:48-84 | the delivered message itself, or a system apology without sources for a failure envelope or a throw |
| Chat.SendEnabled | src/components/Chat.tsx:169 | the send button is enabled when its `disabled` condition (a blank input or a pending reply) is false; characterised by SendEnabledIff |
| Chat.SendEnabledIff | src/components/Chat.tsx:169 | with no reply awaited, send is enabled exactly when some character is not whitespace |
| Chat.MockReplyShown | src/components/Chat.tsx:46-49 | the mock's reply is always shown as it came, an assistant turn |
| Chat.ChatLog.constructor | src/components/Chat.tsx:18-20 | empty log, empty input, idle |
| Chat.ChatLog.ChangeInput | src/components/Chat.tsx:90-92 | the input takes the typed value; nothing else changes |
| Chat.ChatLog.SendMessage | src/components/Chat.tsx:29-43 | a blank input changes nothing; otherwise the user turn is appended, the input cleared, loading set, and the untrimmed input sent |
| Chat.ChatLog.ReceiveReply | src/components/Chat.tsx:45-87 | exactly one reply turn is appended; an error toast exactly when not delivered; loading ends |
| Chat.ChatLog.KeyDown | src/components/Chat.tsx:94-100 | Enter without Shift sends; any other key changes nothing |
| Chat.ChatLog.ClearChat | src/components/Chat.tsx:102-104 | the log is emptied |
| Chat.ChatLog.SeedIfEmpty | src/components/Chat.tsx:107-118 | an empty log gets exactly the welcome turn; any other log is left alone |
| Chat.ClearEnabled | src/components/Chat.tsx:160 | the clear button is enabled when its `disabled` condition (at most one message or a pending reply) is false; see ClearAndGreet |
| Chat.ClearAndGreet | src/components/Chat.tsx:102-118 | clearing then the effect leaves only the greeting, and the clear button disabled (line 160) |
| Chat.Exchange | src/components/Chat.tsx:29-88 | a non-blank send with a delivered reply appends the user turn then the reply, and ends idle |
| Backend.MimeTypeOf | backend/main.py:91 | a missing or empty content type becomes "application/octet-stream" |
| Backend.GetDocuments | backend/main.py:70-73 | always succeeds with the stored list |
| Backend.UploadDocument | backend/main.py:75-115 | appends the record and stores it completed; a fault before the first save stores nothing, one on the second save leaves it processing; faults answer with the message |
| Backend.ReplaceFirst | backend/main.py:106-109 | the loop that replaces the first record with the new id; characterised by UploadFreshIdAppends and the UploadDocument method |
| Backend.UploadFreshIdAppends | backend/main.py:98-110 | with a fresh id the replacement loop rewrites the appended record itself, and ids stay unique |
| Backend.DeleteDocument | backend/main.py:117-138 | pops only the first match, or answers "Document not found" and saves nothing |
| Backend.UpdateDocumentSelection | backend/main.py:140-158 | sets the first match's flag and returns that record, or "Document not found" |
| Backend.SelectedDocs | backend/main.py:165 | exactly the selected records |
| Backend.SelectedDocsConcat | backend/main.py:165 | the selection keeps stored order: the selected records of a concatenation are those of each part, concatenated |
| Backend.CitedSources | backend/main.py:173-199 | min(2, selected) sources for a financial question, min(1, selected) for a project one, none otherwise, citing the selected documents in order; the first scores 0.92 with the financial excerpt for a financial question and 0.75 with the timeline excerpt for a project one, the second scores 0.75 with the timeline excerpt |
| Backend.SendChatMessage | backend/main.py:160-210 | always succeeds as an assistant turn with a source list, never missing |
| Backend.CitationsAreSelected | backend/main.py:165-199 | every cited document is a selected stored document |
| Backend.SameAnswerTextAsMock | backend/main.py:173-199 | the answer text is the mock's for every message |
| Backend.SelectionFeedsChat | backend/main.py:147-165 | selecting a document makes it citable; with unique ids deselecting keeps it out |
| Backend.SeedSelection | backend/main.py:165 | of the seed documents the first two are selected, in order |
| Backend.SeedCitationsAgreeWithMock | backend/main.py:173-188 | on the seed, a financial question cites the same documents with the same scores as the mock |
| DocumentList.FileIconFor | src/components/DocumentList.tsx:43-53 | `getFileIcon`; characterised by PdfIcon, JsonIcon, ApplicationJsonIcon, UpperCasePdfIsGeneric and GenericIconWithoutKeyLetters |
| DocumentList.PdfIcon | src/components/DocumentList.tsx:43-45 | a PDF gets the text icon |
| DocumentList.JsonIcon | src/components/DocumentList.tsx:43-49 | a type naming json, without the letters of pdf/spreadsheet/excel/code, gets the code icon |
| DocumentList.GenericIconWithoutKeyLetters | src/components/DocumentList.tsx:43-53 | a type lacking the letters d, e and j gets the generic icon |
| DocumentList.ApplicationJsonIcon | src/components/DocumentList.tsx:48-49 | "application/json" gets the code icon |
| DocumentList.UpperCasePdfIsGeneric | src/components/DocumentList.tsx:43-53 | matching is case-sensitive: "application/PDF" gets the generic icon |
| DocumentList.RoundTenths | src/components/DocumentList.tsx:60 | `toFixed(1)` gives the nearest tenth, ties to the larger |
| DocumentList.FormatFileSize | src/components/DocumentList.tsx:56-64 | bytes exactly below 1024, kilobytes exactly below 1048576, else megabytes; bytes printed whole, other units rounded to a tenth |
| DocumentList.KilobyteLabelReaches1024 | src/components/DocumentList.tsx:59-60 | 1048575 bytes shows "1024.0 KB" |
| DocumentList.FormatFileSizeRounded | src/components/DocumentList.tsx:56-64 | with the unit chosen after rounding, kilobyte labels stay in [1.0, 1024.0) and megabyte labels are at least 1.0 |
| DocumentList.UnitMonotone | src/components/DocumentList.tsx:56-64 | a larger size never gets a smaller unit, as written or corrected |
| DocumentList.SizeText | src/components/DocumentList.tsx:56-64 | the label text with its unit suffix; see BytesTextRoundTrip |
| DocumentList.BytesTextRoundTrip | src/components/DocumentList.tsx:57-58 | a byte label is the count's digits then " B", and the digits read back as the count |
| DocumentList.StatusInfo | src/components/DocumentList.tsx:77-88 | the check icon exactly for completed documents and the alert icon exactly for failed ones; see StatusBadgeInjective |
| DocumentList.StatusBadgeInjective | src/components/DocumentList.tsx:77-88 | the status map is total and tells statuses apart; pending and processing share the clock icon |
| DocumentList.IncludeEnabled | src/components/DocumentList.tsx:177 | the checkbox's `disabled={doc.status !== 'completed'}` negated; characterised by IncludeEnabledIffCheck |
| DocumentList.IncludeEnabledIffCheck | src/components/DocumentList.tsx:177 | the include checkbox is enabled exactly for completed documents, the ones with the check badge |
| DocumentList.MimeSubtype | src/components/DocumentList.tsx:155 | `doc.type.split('/')[1]`, absent when there is no '/'; characterised by SubtypeOfTypeSlashSubtype and NoSlashNoSubtype |
| DocumentList.SubtypeOfTypeSlashSubtype | src/components/DocumentList.tsx:155 | the subtitle is the text between the first and second '/' |
| DocumentList.NoSlashNoSubtype | src/components/DocumentList.tsx:155 | a type with no '/' has no subtitle |
| DocumentList.RowFor | src/components/DocumentList.tsx:134-177 | one document's row; its fields are stated by ListViewOf |
| DocumentList.ListViewOf | src/components/DocumentList.tsx:90-177 | the skeleton wins over the empty state; otherwise one row per document in order, with its name, the icon and MIME subtype of its type, the size label `formatFileSize` writes (line 160) and its status badge, checked and highlighted exactly when selected, include enabled exactly when completed |
| Header.IsActive | src/components/Header.tsx:32-36 | `isActive`: "/" only at the root, any other path as a raw prefix; characterised by ActiveItems, HomeActiveOnlyAtRoot, AtMostOneActive and ActiveOnExtensions |
| Header.ActiveItems | src/components/Header.tsx:26-36 | the highlighted items are exactly the navigation items whose path is active |
| Header.HomeActiveOnlyAtRoot | src/components/Header.tsx:33 | Home is active exactly at "/" |
| Header.AtMostOneActive | src/components/Header.tsx:26-36 | no location highlights more than one item |
| Header.ActiveOnExtensions | src/components/Header.tsx:34 | the match is a raw prefix test, kept under any extension: "/chat" is active on "/chatroom" |
| Header.MobileMenu.constructor | src/components/Header.tsx:20 | the menu starts closed |
| Header.MobileMenu.Toggle | src/components/Header.tsx:22-24 | the button flips the menu |
| Header.MobileMenu.FollowLink | src/components/Header.tsx:105 | following a link closes the menu |
| Header.ToggleTwice | src/components/Header.tsx:22-24 | toggling twice restores the menu's open state |
| Header.ToggleTwiceThenFollow | src/components/Header.tsx:22-24 | after two toggles the menu is as it was; following a link from it (line 105) leaves it closed |
| MockAliasing.AliasedMock.constructor | src/utils/api.ts:5-33 | three distinct fresh objects holding the seed documents |
| MockAliasing.AliasedMock.UploadDocument | src/utils/api.ts:68-93 | the object pushed onto the registry is the very object returned |
| MockAliasing.AliasedMock.UpdateDocumentSelection | src/utils/api.ts:105-113 | the registry's object is changed in place, as `SelectFirst` on the values, and that object is returned |
| MockAliasing.AliasedStore.constructor | src/hooks/useDocuments.tsx:8 | the hook starts with an array of its own, empty |
| MockAliasing.AliasedStore.Entries | src/hooks/useDocuments.tsx:18 | after a fetch the hook's entries are the registry's own objects |
| MockAliasing.AliasedStore.EndFetch | src/hooks/useDocuments.tsx:17-18 | the hook now holds the registry's array |
| MockAliasing.AliasedStore.EndUpload | src/hooks/useDocuments.tsx:45-46 | the hook's new array is its old entries plus the returned object |
| MockAliasing.AliasedStore.ApplyToggle | src/hooks/useDocuments.tsx:103-106 | matching entries become copies with the flag negated as read at that moment |
| MockAliasing.UploadListedTwice | src/hooks/useDocuments.tsx:44-46 | as written: an upload after a fetch shows the new document twice |
| MockAliasing.RequestThroughMock | src/hooks/useDocuments.tsx:98-102 | the requested negation is written into the object the hook also holds |
| MockAliasing.ToggleThroughHook | src/hooks/useDocuments.tsx:97-106 | the registry's flag is negated while the hook's new entry keeps the old flag |
| MockAliasing.ToggleShowsNoChange | src/hooks/useDocuments.tsx:102-106 | as written: after a fetch, a toggle leaves the checkbox as it was while the registry's flag changes |

## Left out

- Latency and timers: the simulated delays and `setTimeout`. The mock's completion callback is an operation (`CompleteProcessing`) the caller may invoke at any point.
- Overlapping async calls and React render timing: sends, toggles and fetches that interleave, and stale closures. Each operation is modelled running to completion. So is the chat's `setMessages(prev => ...)`.
- Randomness and clocks: `Math.random` ids, `uuid4`, `Date.now` and `datetime.now` are parameters. The two `Date.now()` readings of one chat turn are taken as one.
- Chat.UserTurn: the id is the clock reading printed in decimal for a non-negative whole number of milliseconds; negative or fractional clocks are not modelled.
- Backend file and database I/O: `load_db`/`save_db`, the upload write, the unlink of deleted files, and the FastAPI wiring. The stored list is passed in and out as a value. A failing write or save is the `UploadFault` parameter.
- Backend.UploadDocument: `file.size` is taken as a known size. Python's `None` size is not modelled.
- Unicode: `toLowerCase`/`lower()` are ASCII lower-casing. There is no case folding or normalisation.
- Thrown values that are not `Error` objects: a thrown call is modelled by its message. The "An unknown error occurred" description for a non-`Error` throw is not modelled.
- Float formatting and dates: `formatDate` (`Intl`) is not modelled. Relevance scores are exact reals.
- Keyword classification on literal texts without the keywords: negative classifications are proved for any message lacking the letters involved (`Keywords.MissingLettersIsGeneral`), not for individual literal greetings.
- DocumentList.FileIconFor: proved by category lemmas, and by a lemma per concrete type and per absent-letter condition. Not every literal MIME type is enumerated.
- Settings: `RagSettings` is a datatype only. The settings endpoints the dialog calls are not defined by the mock, so they are not modelled. `ChatSession` is not modelled.
- Object sharing: `MockAliasing` covers get, upload and selection. Delete and the completion timer are modelled with value semantics only.
- Toasts: only the error toasts' title, description and variant are modelled. Success toasts are the non-destructive `Notice`.
- Presentation: scrolling, animations, feedback buttons, the uploader's progress animation and the source viewer.

## Findings

| source | as written | input that shows it | evidently intended | confidence | as-written member | corrected member |
|---|---|---|---|---|---|---|
| src/utils/api.ts:65 | `getDocuments` resolves to the registry array itself. `uploadDocument` has already pushed the new object onto it when the hook appends the same object (src/hooks/useDocuments.tsx:46). | a fetch, then an upload of any file | the new document is listed once, as the HTTP backend's JSON copy would give | high, not executed | MockAliasing.UploadListedTwice | Session.SyncedUpload |
| src/utils/api.ts:107-110 | `updateDocumentSelection` sets the flag on the object the hook holds. The hook's map (src/hooks/useDocuments.tsx:105) then negates the already-negated flag. | a fetch, then a toggle of document "1" | the checkbox shows the negated flag, agreeing with the registry | high, not executed | MockAliasing.ToggleShowsNoChange | Session.SyncedToggle |
| src/components/DocumentList.tsx:59-60 | the unit is chosen before rounding to one decimal | 1048575 bytes shows "1024.0 KB" | "1.0 MB" | high, not executed | DocumentList.KilobyteLabelReaches1024 | DocumentList.FormatFileSizeRounded |

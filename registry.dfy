/** The list operations the three document holders perform on a sequence of
    documents: the mock's `MOCK_DOCUMENTS` (src/utils/api.ts), the client
    cache of useDocuments (src/hooks/useDocuments.tsx) and the backend's
    `db["documents"]` (backend/main.py). Every holder states its new state
    with these functions, and the lemmas below are about them. */
module Registry {
  import opened Types

  /** `docs.findIndex(d => d.id === id)`: the first position holding `id`. */
  function FindIndex(docs: seq<Document>, id: string): (r: Option<nat>)
    ensures r.Some? ==> r.value < |docs| && docs[r.value].id == id
    ensures r.Some? ==> forall j :: 0 <= j < r.value ==> docs[j].id != id
    ensures r.None? <==> forall j :: 0 <= j < |docs| ==> docs[j].id != id
  {
    if docs == [] then None
    else if docs[0].id == id then Some(0)
    else match FindIndex(docs[1..], id)
      case None => None
      case Some(k) => Some(k + 1)
  }

  /** The lookup depends on the ids alone. */
  lemma {:induction false} FindIndexSameIds(a: seq<Document>, b: seq<Document>, id: string)
    requires |a| == |b| && forall j :: 0 <= j < |a| ==> a[j].id == b[j].id
    ensures FindIndex(a, id) == FindIndex(b, id)
  {
    if a != [] {
      FindIndexSameIds(a[1..], b[1..], id);
    }
  }

  /** No two entries share an id. The source never checks this; random ids
      make it likely, not certain. */
  predicate UniqueIds(docs: seq<Document>)
  {
    forall i, j :: 0 <= i < j < |docs| ==> docs[i].id != docs[j].id
  }

  /** With unique ids, looking an entry's id up finds that very entry. */
  lemma FindIndexOfUnique(docs: seq<Document>, j: nat)
    requires UniqueIds(docs) && j < |docs|
    ensures FindIndex(docs, docs[j].id) == Some(j)
  {
  }

  /** Removes the first entry with `id`; nothing happens when there is none. */
  function RemoveFirst(docs: seq<Document>, id: string): seq<Document>
  {
    match FindIndex(docs, id)
    case None => docs
    case Some(i) => docs[..i] + docs[i + 1..]
  }

  /** Removing the first match takes out exactly that one entry. */
  lemma RemoveFirstDropsOne(docs: seq<Document>, id: string)
    ensures FindIndex(docs, id).None? ==> RemoveFirst(docs, id) == docs
    ensures FindIndex(docs, id).Some? ==>
      var i := FindIndex(docs, id).value;
      |RemoveFirst(docs, id)| == |docs| - 1 &&
      multiset(RemoveFirst(docs, id)) + multiset{docs[i]} == multiset(docs) &&
      forall j :: 0 <= j < |RemoveFirst(docs, id)| ==>
        RemoveFirst(docs, id)[j] == docs[if j < i then j else j + 1]
  {
    if FindIndex(docs, id).Some? {
      SpliceOut(docs, FindIndex(docs, id).value);
    }
  }

  /** Cutting out one position removes exactly that element and keeps the
      others in order. */
  lemma SpliceOut<T>(s: seq<T>, i: nat)
    requires i < |s|
    ensures |s[..i] + s[i + 1..]| == |s| - 1
    ensures multiset(s[..i] + s[i + 1..]) + multiset{s[i]} == multiset(s)
    ensures var t := s[..i] + s[i + 1..]; forall j :: 0 <= j < |t| ==> t[j] == s[if j < i then j else j + 1]
  {
    assert s == s[..i] + ([s[i]] + s[i + 1..]);
  }

  /** Sets `selected` on the first entry with `id`; nothing happens when there is none. */
  function SelectFirst(docs: seq<Document>, id: string, selected: bool): seq<Document>
  {
    match FindIndex(docs, id)
    case None => docs
    case Some(i) => docs[i := docs[i].(selected := selected)]
  }

  /** Selection changes no id, so the same entry is found afterwards, now
      carrying the requested flag: the set-then-list round trip. */
  lemma SelectFirstRoundTrip(docs: seq<Document>, id: string, selected: bool)
    requires FindIndex(docs, id).Some?
    ensures FindIndex(SelectFirst(docs, id, selected), id) == FindIndex(docs, id)
    ensures SelectFirst(docs, id, selected)[FindIndex(docs, id).value].selected == selected
  {
    var i := FindIndex(docs, id).value;
    var r := SelectFirst(docs, id, selected);
    assert r[i].id == id;
    assert forall j :: 0 <= j < i ==> r[j] == docs[j];
  }

  /** Setting the same selection twice is setting it once. */
  lemma SelectFirstIdempotent(docs: seq<Document>, id: string, selected: bool)
    ensures SelectFirst(SelectFirst(docs, id, selected), id, selected) == SelectFirst(docs, id, selected)
  {
    if FindIndex(docs, id).Some? {
      SelectFirstRoundTrip(docs, id, selected);
    }
  }

  /** The completion step of the mock's upload: mark the first entry with the
      document's id completed, or, if there is none, append the document
      again, completed. */
  function Complete(docs: seq<Document>, doc: Document): seq<Document>
  {
    match FindIndex(docs, doc.id)
    case Some(i) => docs[i := docs[i].(status := Completed)]
    case None => docs + [doc.(status := Completed)]
  }

  /** Completion is never a no-op: afterwards the id is present and its first
      entry is completed, and it grows the list exactly when the id was gone. */
  lemma CompleteMarksCompleted(docs: seq<Document>, doc: Document)
    ensures FindIndex(Complete(docs, doc), doc.id).Some?
    ensures Complete(docs, doc)[FindIndex(Complete(docs, doc), doc.id).value].status == Completed
    ensures |Complete(docs, doc)| == if FindIndex(docs, doc.id).Some? then |docs| else |docs| + 1
  {
    var r := Complete(docs, doc);
    match FindIndex(docs, doc.id)
    case Some(i) =>
      assert r[i].id == doc.id;
      assert forall j :: 0 <= j < i ==> r[j] == docs[j];
      assert FindIndex(r, doc.id) == Some(i);
    case None =>
      assert r[|docs|].id == doc.id;
      assert forall j :: 0 <= j < |docs| ==> r[j] == docs[j];
      assert FindIndex(r, doc.id) == Some(|docs|);
  }

  /** Upload, then delete before processing finishes, then the completion
      step: the deleted document is back, at the end, completed. */
  lemma CompletionResurrectsDeleted(docs: seq<Document>, doc: Document)
    requires FindIndex(docs, doc.id).None?
    ensures Complete(RemoveFirst(docs + [doc], doc.id), doc) == docs + [doc.(status := Completed)]
  {
    var uploaded := docs + [doc];
    assert uploaded[|docs|].id == doc.id;
    assert forall j :: 0 <= j < |docs| ==> uploaded[j] == docs[j];
    assert FindIndex(uploaded, doc.id) == Some(|docs|);
    assert uploaded[..|docs|] == docs;
    assert uploaded[|docs| + 1..] == [];
    assert RemoveFirst(uploaded, doc.id) == docs;
  }

  /** `docs.filter(d => d.id !== id)` */
  function RemoveAll(docs: seq<Document>, id: string): seq<Document>
  {
    if docs == [] then []
    else if docs[0].id == id then RemoveAll(docs[1..], id)
    else [docs[0]] + RemoveAll(docs[1..], id)
  }

  /** Nothing with `id` survives the filter, and everything else does. */
  lemma {:induction false} RemoveAllFilters(docs: seq<Document>, id: string)
    ensures forall d :: d in RemoveAll(docs, id) <==> d in docs && d.id != id
  {
    if docs != [] {
      RemoveAllFilters(docs[1..], id);
      assert docs == [docs[0]] + docs[1..];
    }
  }

  /** Filtering distributes over concatenation, so it keeps the survivors in order. */
  lemma {:induction false} RemoveAllConcat(a: seq<Document>, b: seq<Document>, id: string)
    ensures RemoveAll(a + b, id) == RemoveAll(a, id) + RemoveAll(b, id)
  {
    if a == [] {
      assert a + b == b;
    } else {
      var ab := a + b;
      assert ab != [] && ab[0] == a[0];
      assert ab[1..] == a[1..] + b;
      if a[0].id == id {
        calc {
          RemoveAll(ab, id);
          RemoveAll(a[1..] + b, id);
        == { RemoveAllConcat(a[1..], b, id); }
          RemoveAll(a[1..], id) + RemoveAll(b, id);
          RemoveAll(a, id) + RemoveAll(b, id);
        }
      } else {
        calc {
          RemoveAll(ab, id);
          [a[0]] + RemoveAll(a[1..] + b, id);
        == { RemoveAllConcat(a[1..], b, id); }
          [a[0]] + (RemoveAll(a[1..], id) + RemoveAll(b, id));
          ([a[0]] + RemoveAll(a[1..], id)) + RemoveAll(b, id);
          RemoveAll(a, id) + RemoveAll(b, id);
        }
      }
    }
  }

  /** Filtering out an id that is not there changes nothing. */
  lemma {:induction false} RemoveAllAbsent(docs: seq<Document>, id: string)
    requires FindIndex(docs, id).None?
    ensures RemoveAll(docs, id) == docs
  {
    if docs != [] {
      RemoveAllAbsent(docs[1..], id);
      assert [docs[0]] + docs[1..] == docs;
    }
  }

  /** With unique ids, the client's filter and the server's removal of the
      first match agree. */
  lemma UniqueTailAbsent(docs: seq<Document>, i: nat)
    requires UniqueIds(docs) && i < |docs|
    ensures FindIndex(docs[i + 1..], docs[i].id).None?
  {
    var after := docs[i + 1..];
    assert forall j :: 0 <= j < |after| ==> after[j] == docs[i + 1 + j];
  }

  lemma RemoveAllIsRemoveFirst(docs: seq<Document>, id: string)
    requires UniqueIds(docs)
    ensures RemoveAll(docs, id) == RemoveFirst(docs, id)
  {
    if FindIndex(docs, id).None? {
      RemoveAllAbsent(docs, id);
    } else {
      var i := FindIndex(docs, id).value;
      var before, after := docs[..i], docs[i + 1..];
      assert RemoveFirst(docs, id) == before + after;
      assert docs == before + ([docs[i]] + after);
      assert FindIndex(before, id).None? by {
        assert forall j :: 0 <= j < |before| ==> before[j] == docs[j];
      }
      UniqueTailAbsent(docs, i);
      RemoveAllAroundMatch(before, docs[i], after, id);
    }
  }

  /** The filter applied around the one entry carrying `id`. */
  lemma RemoveAllAroundMatch(before: seq<Document>, x: Document, after: seq<Document>, id: string)
    requires FindIndex(before, id).None? && FindIndex(after, id).None? && x.id == id
    ensures RemoveAll(before + ([x] + after), id) == before + after
  {
    calc {
      RemoveAll(before + ([x] + after), id);
    == { RemoveAllConcat(before, [x] + after, id); }
      RemoveAll(before, id) + RemoveAll([x] + after, id);
    == { RemoveAllConcat([x], after, id); }
      RemoveAll(before, id) + (RemoveAll([x], id) + RemoveAll(after, id));
    == { RemoveAllAbsent(before, id); RemoveAllAbsent(after, id); }
      before + (RemoveAll([x], id) + after);
    == { assert RemoveAll([x], id) == []; }
      before + after;
    }
  }

  /** `{ ...d, selected: !d.selected }` when `d.id === id`, else `d`. */
  function FlipIfMatch(d: Document, id: string): Document
  {
    if d.id == id then d.(selected := !d.selected) else d
  }

  /** `docs.map(d => d.id === id ? { ...d, selected: !d.selected } : d)` */
  function FlipAll(docs: seq<Document>, id: string): seq<Document>
  {
    seq(|docs|, j requires 0 <= j < |docs| => FlipIfMatch(docs[j], id))
  }

  /** Flipping twice restores every entry, and the id stays where it was. */
  lemma FlipAllTwice(docs: seq<Document>, id: string)
    ensures FlipAll(FlipAll(docs, id), id) == docs
    ensures FindIndex(FlipAll(docs, id), id) == FindIndex(docs, id)
  {
    var once := FlipAll(docs, id);
    FindIndexSameIds(once, docs, id);
  }

  /** With unique ids, flipping every match is setting the first match to the
      opposite of its current flag: what the client does on success agrees
      with what it asked the server to do. */
  lemma FlipAllIsSelectFirst(docs: seq<Document>, id: string)
    requires UniqueIds(docs) && FindIndex(docs, id).Some?
    ensures FlipAll(docs, id) == SelectFirst(docs, id, !docs[FindIndex(docs, id).value].selected)
  {
    var i := FindIndex(docs, id).value;
    forall j | 0 <= j < |docs| && j != i
      ensures docs[j].id != id
    {
      FindIndexOfUnique(docs, j);
    }
  }

  /** Position of a status on its lifecycle: pending, then processing, then
      completed or error. */
  function StatusRank(s: Status): nat
  {
    match s
    case Pending => 0
    case Processing => 1
    case Completed => 2
    case Error => 2
  }

  /** Every entry of `after` whose id was in `before` has a status no earlier
      than the one it had there: no status regresses. */
  predicate NoRegression(before: seq<Document>, after: seq<Document>)
  {
    forall j :: 0 <= j < |after| ==> NotRegressed(before, after[j])
  }

  /** `doc` has a status no earlier than the first entry of `before` with its id, if any. */
  predicate NotRegressed(before: seq<Document>, doc: Document)
  {
    match FindIndex(before, doc.id)
    case None => true
    case Some(i) => StatusRank(before[i].status) <= StatusRank(doc.status)
  }

  /** Appending a document with a fresh id keeps ids unique and regresses nothing. */
  lemma AppendKeepsInvariants(docs: seq<Document>, doc: Document)
    requires UniqueIds(docs) && FindIndex(docs, doc.id).None?
    ensures UniqueIds(docs + [doc])
    ensures NoRegression(docs, docs + [doc])
  {
    var r := docs + [doc];
    forall j | 0 <= j < |r|
      ensures NotRegressed(docs, r[j])
    {
      if j < |docs| {
        FindIndexOfUnique(docs, j);
      }
    }
  }

  /** The completion step keeps ids unique and only moves a status forward. */
  lemma CompleteKeepsInvariants(docs: seq<Document>, doc: Document)
    requires UniqueIds(docs)
    ensures UniqueIds(Complete(docs, doc))
    ensures NoRegression(docs, Complete(docs, doc))
  {
    var r := Complete(docs, doc);
    assert forall j :: 0 <= j < |docs| ==> r[j].id == docs[j].id;
    forall j | 0 <= j < |r|
      ensures NotRegressed(docs, r[j])
    {
      if j < |docs| {
        FindIndexOfUnique(docs, j);
      }
    }
  }

  /** Removing the first match keeps ids unique. */
  lemma RemoveFirstKeepsUnique(docs: seq<Document>, id: string)
    requires UniqueIds(docs)
    ensures UniqueIds(RemoveFirst(docs, id))
  {
    if FindIndex(docs, id).Some? {
      var i := FindIndex(docs, id).value;
      var r := RemoveFirst(docs, id);
      assert forall j :: 0 <= j < |r| ==> r[j] == docs[if j < i then j else j + 1];
    }
  }

  /** Removing the first match regresses no status. */
  lemma RemoveFirstNoRegression(docs: seq<Document>, id: string)
    requires UniqueIds(docs)
    ensures NoRegression(docs, RemoveFirst(docs, id))
  {
    var r := RemoveFirst(docs, id);
    var i := match FindIndex(docs, id) case Some(k) => k case None => |docs|;
    assert forall j :: 0 <= j < |r| ==> r[j] == docs[if j < i then j else j + 1];
    forall j | 0 <= j < |r|
      ensures FindIndex(docs, r[j].id) == Some(if j < i then j else j + 1)
    {
      FindIndexOfUnique(docs, if j < i then j else j + 1);
    }
  }

  /** Setting a selection keeps ids unique and changes no status. */
  lemma SelectFirstKeepsInvariants(docs: seq<Document>, id: string, selected: bool)
    requires UniqueIds(docs)
    ensures UniqueIds(SelectFirst(docs, id, selected))
    ensures NoRegression(docs, SelectFirst(docs, id, selected))
  {
    var r := SelectFirst(docs, id, selected);
    assert |r| == |docs|;
    assert forall j :: 0 <= j < |r| ==> r[j].id == docs[j].id && r[j].status == docs[j].status;
    forall j | 0 <= j < |r|
      ensures FindIndex(docs, r[j].id) == Some(j)
    {
      FindIndexOfUnique(docs, j);
    }
  }
}

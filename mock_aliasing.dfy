/** The mock of src/utils/api.ts with object identity kept, against the
    `useDocuments` hook that holds what the mock hands out.

    `MOCK_DOCUMENTS` is one array of document objects. `getDocuments`
    resolves to that array itself and `uploadDocument` to the very object it
    pushed, and `updateDocumentSelection` changes the object in place. The
    hook stores what it is given, so its state can be the registry's own
    array and its entries the registry's own objects. Only the copies the
    hook makes itself (`[...prev, x]`, `prev.map`, `{ ...d }`) are private
    to it; those are values here. */
module MockAliasing {
  import opened Types
  import opened Registry
  import MockApi
  import UseDocuments

  /** A document object: a mutable cell holding the document's fields. */
  class DocObject {
    var value: Document

    constructor (d: Document)
      ensures value == d
    {
      value := d;
    }
  }

  /** The documents the objects currently hold, in order. */
  function Values(objs: seq<DocObject>): (docs: seq<Document>)
    reads objs
    ensures |docs| == |objs|
    ensures forall k :: 0 <= k < |objs| ==> docs[k] == objs[k].value
  {
    if objs == [] then [] else [objs[0].value] + Values(objs[1..])
  }

  /** No object occurs twice in the array. */
  predicate Distinct(objs: seq<DocObject>)
  {
    forall j, k :: 0 <= j < k < |objs| ==> objs[j] != objs[k]
  }

  /** The mock's module state: the `MOCK_DOCUMENTS` array. */
  class AliasedMock {
    var items: seq<DocObject>

    /** Module load: three fresh objects holding the seed documents. */
    constructor (now: string, dayAgo: string, twoDaysAgo: string)
      ensures |items| == 3 && forall k :: 0 <= k < 3 ==> items[k].value == MockApi.SeedDocuments(now, dayAgo, twoDaysAgo)[k]
      ensures Distinct(items) && forall o :: o in items ==> fresh(o)
    {
      var seed := MockApi.SeedDocuments(now, dayAgo, twoDaysAgo);
      var report := new DocObject(seed[0]);
      var proposal := new DocObject(seed[1]);
      var notes := new DocObject(seed[2]);
      items := [report, proposal, notes];
    }

    /** `uploadDocument`: a fresh processing object is pushed onto the array
        and that same object is what the caller receives. */
    method UploadDocument(file: MockApi.File, id: string, now: string) returns (doc: DocObject)
      modifies this
      ensures fresh(doc) && doc.value == Document(id, file.name, file.mimeType, file.size, now, Processing, false)
      ensures items == old(items) + [doc]
    {
      doc := new DocObject(Document(id, file.name, file.mimeType, file.size, now, Processing, false));
      items := items + [doc];
    }

    /** `updateDocumentSelection`: the first object with `id` has its flag
        set in place, and that object is what the caller receives. */
    method UpdateDocumentSelection(id: string, selected: bool) returns (r: Option<DocObject>)
      requires Distinct(items)
      modifies items
      ensures Values(items) == SelectFirst(old(Values(items)), id, selected)
      ensures r.Some? <==> FindIndex(old(Values(items)), id).Some?
      ensures r.Some? ==> r.value == items[FindIndex(old(Values(items)), id).value]
    {
      var before := Values(items);
      var index := FindIndex(before, id);
      match index
      case Some(i) =>
        var target := items[i];
        target.value := target.value.(selected := selected);
        forall k | 0 <= k < |items|
          ensures items[k].value == SelectFirst(before, id, selected)[k]
        {
          if k != i {
            assert items[k] != target;
          }
        }
        r := Some(target);
      case None =>
        r := None;
    }
  }

  /** An entry of the hook's list: an object the registry also holds, or a
      copy the hook made itself. */
  datatype Entry = Aliased(obj: DocObject) | Copied(copy: Document)

  /** The hook's `documents`: the registry's own array (what `getDocuments`
      resolved to), or an array the hook built. */
  datatype ListRef = RegistryArray | OwnArray(entries: seq<Entry>)

  function EntryObjects(entries: seq<Entry>): set<DocObject>
  {
    set k | 0 <= k < |entries| && entries[k].Aliased? :: entries[k].obj
  }

  /** What an entry currently reads as. */
  function EntryValue(e: Entry): Document
    reads if e.Aliased? then {e.obj} else {}
  {
    match e
    case Aliased(obj) => obj.value
    case Copied(copy) => copy
  }

  /** What the hook's list currently reads as: the documents it renders. */
  function Shown(entries: seq<Entry>): (docs: seq<Document>)
    reads EntryObjects(entries)
    ensures |docs| == |entries|
    ensures forall k :: 0 <= k < |entries| ==> docs[k] == EntryValue(entries[k])
  {
    if entries == [] then []
    else
      assert forall k :: 0 <= k < |entries| - 1 ==> entries[1..][k] == entries[k + 1];
      [EntryValue(entries[0])] + Shown(entries[1..])
  }

  /** The hook's state, with the mock it talks to. */
  class AliasedStore {
    var documents: ListRef

    constructor ()
      ensures documents == OwnArray([])
    {
      documents := OwnArray([]);
    }

    /** The entries of the hook's list: the registry's objects themselves
        while the hook holds the registry's array. */
    function Entries(mock: AliasedMock): (entries: seq<Entry>)
      reads this, mock
      ensures documents.RegistryArray? ==>
        |entries| == |mock.items| && forall k :: 0 <= k < |entries| ==> entries[k] == Aliased(mock.items[k])
      ensures documents.OwnArray? ==> entries == documents.entries
    {
      match documents
      case RegistryArray =>
        var objs := mock.items;
        seq(|objs|, k requires 0 <= k < |objs| => Aliased(objs[k]))
      case OwnArray(entries) => entries
    }

    /** A delivered fetch from the mock: the hook now holds the registry's array. */
    method EndFetch()
      modifies this
      ensures documents == RegistryArray
    {
      documents := RegistryArray;
    }

    /** A delivered upload: `[...prev, response.data]`, where `prev` may be
        the registry's array (which already holds the new object) and
        `response.data` is the registry's object. */
    method EndUpload(mock: AliasedMock, doc: DocObject)
      modifies this
      ensures documents == OwnArray(old(Entries(mock)) + [Aliased(doc)])
    {
      documents := OwnArray(Entries(mock) + [Aliased(doc)]);
    }

    /** A delivered selection update: `prev.map(d => d.id === id ? { ...d,
        selected: !d.selected } : d)`, reading each flag now, after the
        mock has already set it. */
    method ApplyToggle(mock: AliasedMock, id: string)
      modifies this
      ensures documents.OwnArray? && |documents.entries| == |old(Entries(mock))|
      ensures forall k :: 0 <= k < |documents.entries| ==>
        var before := old(EntryValue(Entries(mock)[k]));
        documents.entries[k] == if before.id == id then Copied(before.(selected := !before.selected))
                                else old(Entries(mock))[k]
    {
      var entries := Entries(mock);
      var flipped := seq(|entries|, k requires 0 <= k < |entries| reads EntryObjects(entries) =>
        var d := EntryValue(entries[k]);
        if d.id == id then Copied(d.(selected := !d.selected)) else entries[k]);
      documents := OwnArray(flipped);
    }
  }

  /** As written: an upload while the hook still holds the registry's
      array (as it does after every fetch) lists the new document twice,
      since the hook appends the object to an array the mock has already
      pushed it onto. */
  method UploadListedTwice(mock: AliasedMock, store: AliasedStore, file: MockApi.File, id: string, at: string)
    returns (shown: seq<Document>)
    requires store.documents == RegistryArray
    modifies mock, store
    ensures |shown| == |old(mock.items)| + 2
    ensures forall k :: 0 <= k < |old(mock.items)| ==> shown[k] == old(mock.items[k].value)
    ensures shown[|shown| - 2] == shown[|shown| - 1]
      == Document(id, file.name, file.mimeType, file.size, at, Processing, false)
  {
    var doc := mock.UploadDocument(file, id, at);
    store.EndUpload(mock, doc);
    shown := Shown(store.Entries(mock));
  }

  /** The first half of the hook's toggle of `id` while it holds the
      registry's objects: it reads the flag and asks the mock for its
      negation, which the mock writes into the shared object. */
  method RequestThroughMock(mock: AliasedMock, store: AliasedStore, id: string) returns (i: nat)
    requires store.documents == RegistryArray && Distinct(mock.items)
    requires FindIndex(Values(mock.items), id).Some?
    modifies mock.items
    ensures i == FindIndex(old(Values(mock.items)), id).value
    ensures i < |mock.items| && mock.items[i].value.id == id
    ensures mock.items[i].value.selected == !old(mock.items[i].value.selected)
  {
    var objs := mock.items;
    var before := Shown(store.Entries(mock));
    assert before == Values(objs);
    i := FindIndex(before, id).value;
    var requested := UseDocuments.RequestedSelection(before, id);
    assert requested == Some(!before[i].selected);
    var updated := mock.UpdateDocumentSelection(id, requested.value);
    assert mock.items[i].value == before[i].(selected := !before[i].selected);
  }

  /** The hook's toggle of `id` against the mock, while the hook holds the
      registry's objects: the registry's flag is negated in place, and the
      hook's new entry for it is a copy with the flag it had before. */
  method ToggleThroughHook(mock: AliasedMock, store: AliasedStore, id: string) returns (i: nat)
    requires store.documents == RegistryArray && Distinct(mock.items)
    requires FindIndex(Values(mock.items), id).Some?
    modifies mock.items, store
    ensures i == FindIndex(old(Values(mock.items)), id).value
    ensures mock.items == old(mock.items) && i < |mock.items|
    ensures mock.items[i].value.selected == !old(mock.items[i].value.selected)
    ensures store.documents.OwnArray? && |store.documents.entries| == |mock.items|
    ensures store.documents.entries[i].Copied?
    ensures store.documents.entries[i].copy.selected == old(mock.items[i].value.selected)
  {
    i := RequestThroughMock(mock, store, id);
    ghost var entries := store.Entries(mock);
    assert entries[i] == Aliased(mock.items[i]);
    store.ApplyToggle(mock, id);
  }

  /** As written: a toggle while the hook still holds the registry's
      objects leaves the checkbox as it was while the registry's flag
      changes, since the hook negates a flag the mock has already set. */
  method ToggleShowsNoChange(mock: AliasedMock, store: AliasedStore, id: string)
    returns (shown: seq<Document>, stored: seq<Document>)
    requires store.documents == RegistryArray && Distinct(mock.items)
    requires FindIndex(Values(mock.items), id).Some?
    modifies mock.items, store
    ensures var i := FindIndex(old(Values(mock.items)), id).value;
      |shown| == |stored| == |old(mock.items)|
      && shown[i].selected == old(mock.items[i].value.selected)
      && stored[i].selected == !old(mock.items[i].value.selected)
  {
    var i := ToggleThroughHook(mock, store, id);
    shown := Shown(store.documents.entries);
    stored := Values(mock.items);
  }
}

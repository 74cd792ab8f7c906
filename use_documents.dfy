/** The in-memory document and folder store: two lists that every mutator replaces
    with a mapped or filtered copy of itself. */
module UseDocuments {
  import opened Types
  import opened Lists

  function IdOf(d: DocumentRecord): string { d.id }

  function FolderIdOf(f: Folder): string { f.id }

  predicate IsActive(d: DocumentRecord) { !IsDeletedFlag(d) }

  ghost predicate UniqueIds(docs: seq<DocumentRecord>) { DistinctBy(docs, IdOf) }

  ghost predicate UniqueFolderIds(folders: seq<Folder>) { DistinctBy(folders, FolderIdOf) }

  predicate IdUnused(docs: seq<DocumentRecord>, id: string)
  {
    forall i :: 0 <= i < |docs| ==> docs[i].id != id
  }

  predicate FolderIdUnused(folders: seq<Folder>, id: string)
  {
    forall i :: 0 <= i < |folders| ==> folders[i].id != id
  }

  // ----- derived views -----

  /** `activeDocuments`: the records not marked deleted (an absent flag counts as not deleted). */
  function Active(docs: seq<DocumentRecord>): (r: seq<DocumentRecord>)
    ensures forall d :: d in r <==> d in docs && !IsDeletedFlag(d)
  {
    Filter(docs, IsActive)
  }

  /** `deletedDocuments`: the records in the trash. */
  function Deleted(docs: seq<DocumentRecord>): (r: seq<DocumentRecord>)
    ensures forall d :: d in r <==> d in docs && IsDeletedFlag(d)
  {
    Filter(docs, IsDeletedFlag)
  }

  /** The two views split the list: each record lands in exactly one of them,
      and each view keeps the list's order. */
  lemma ActiveDeletedPartition(docs: seq<DocumentRecord>)
    ensures Interleaving(docs, Active(docs), Deleted(docs))
    ensures multiset(Active(docs)) + multiset(Deleted(docs)) == multiset(docs)
    ensures |Active(docs)| + |Deleted(docs)| == |docs|
  {
    FilterPartition(docs, IsActive, IsDeletedFlag);
    FilterPartitionCount(docs, IsActive, IsDeletedFlag);
  }

  // ----- the new list each mutator computes -----

  /** `addDocument`'s copy of its input: flagged new and not deleted, whatever the input said. */
  function Admitted(d: DocumentRecord): (r: DocumentRecord)
    ensures r.isNew == Some(true) && r.isDeleted == Some(false)
    ensures r.(isNew := d.isNew, isDeleted := d.isDeleted) == d
  {
    d.(isNew := Some(true), isDeleted := Some(false))
  }

  function Replaced(docs: seq<DocumentRecord>, updated: DocumentRecord): seq<DocumentRecord>
  {
    Map(docs, (d: DocumentRecord) => if d.id == updated.id then updated else d)
  }

  function WithDeleted(docs: seq<DocumentRecord>, id: string, deleted: bool): seq<DocumentRecord>
  {
    Map(docs, (d: DocumentRecord) => if d.id == id then d.(isDeleted := Some(deleted)) else d)
  }

  function WithoutId(docs: seq<DocumentRecord>, id: string): seq<DocumentRecord>
  {
    Filter(docs, (d: DocumentRecord) => d.id != id)
  }

  function Seen(docs: seq<DocumentRecord>, id: string): seq<DocumentRecord>
  {
    Map(docs, (d: DocumentRecord) => if d.id == id then d.(isNew := Some(false)) else d)
  }

  function Unfiled(docs: seq<DocumentRecord>, folderId: string): seq<DocumentRecord>
  {
    Map(docs, (d: DocumentRecord) => if d.folderId == Some(folderId) then d.(folderId := None) else d)
  }

  function WithoutFolder(folders: seq<Folder>, folderId: string): seq<Folder>
  {
    Filter(folders, (f: Folder) => f.id != folderId)
  }

  function Moved(docs: seq<DocumentRecord>, ids: seq<string>, target: Option<string>): seq<DocumentRecord>
  {
    Map(docs, (d: DocumentRecord) => if d.id in ids then d.(folderId := target) else d)
  }

  // ----- properties of the mutators -----

  /** A full-record replace: matching records become the new record, the rest and the
      length stay, and an id that is not stored leaves the list as it was. */
  lemma ReplacedSpec(docs: seq<DocumentRecord>, updated: DocumentRecord)
    ensures |Replaced(docs, updated)| == |docs|
    ensures forall i :: 0 <= i < |docs| && docs[i].id == updated.id ==> Replaced(docs, updated)[i] == updated
    ensures forall i :: 0 <= i < |docs| && docs[i].id != updated.id ==> Replaced(docs, updated)[i] == docs[i]
    ensures IdUnused(docs, updated.id) ==> Replaced(docs, updated) == docs
  {
  }

  /** Soft delete then restore of one id gives back every field except that the
      matching records now say `isDeleted = false`; the length never changes. */
  lemma SoftDeleteThenRestore(docs: seq<DocumentRecord>, id: string)
    ensures WithDeleted(WithDeleted(docs, id, true), id, false) == WithDeleted(docs, id, false)
    ensures var r := WithDeleted(WithDeleted(docs, id, true), id, false);
      |r| == |docs| &&
      forall i :: 0 <= i < |docs| ==> r[i].(isDeleted := docs[i].isDeleted) == docs[i] && (docs[i].id == id ==> !IsDeletedFlag(r[i]))
  {
  }

  lemma WithDeletedAt(docs: seq<DocumentRecord>, id: string, deleted: bool, i: nat)
    requires i < |docs|
    ensures WithDeleted(docs, id, deleted)[i].id == docs[i].id
    ensures docs[i].id == id ==> WithDeleted(docs, id, deleted)[i].isDeleted == Some(deleted)
  {
  }

  /** Soft delete moves exactly the matching records from the active view to the trash. */
  lemma SoftDeleteEmptiesActive(docs: seq<DocumentRecord>, id: string)
    ensures forall d :: d in Active(WithDeleted(docs, id, true)) ==> d.id != id
    ensures forall d :: d in Deleted(WithDeleted(docs, id, false)) ==> d.id != id
  {
    var del, res := WithDeleted(docs, id, true), WithDeleted(docs, id, false);
    forall d | d in Active(del) ensures d.id != id {
      assert d in del && !IsDeletedFlag(d);
      var i :| 0 <= i < |del| && del[i] == d;
      WithDeletedAt(docs, id, true, i);
    }
    forall d | d in Deleted(res) ensures d.id != id {
      assert d in res && IsDeletedFlag(d);
      var i :| 0 <= i < |res| && res[i] == d;
      WithDeletedAt(docs, id, false, i);
    }
  }

  /** Soft delete, restore and mark-as-seen leave an unknown id's list identical. */
  lemma UnknownIdNoOp(docs: seq<DocumentRecord>, id: string, deleted: bool)
    requires IdUnused(docs, id)
    ensures WithDeleted(docs, id, deleted) == docs
    ensures Seen(docs, id) == docs
    ensures WithoutId(docs, id) == docs
  {
    FilterKeepsAll(docs, (d: DocumentRecord) => d.id != id);
  }

  /** Mark-as-seen clears `isNew` on the matching records only, and doing it twice
      is the same as doing it once. */
  lemma SeenSpec(docs: seq<DocumentRecord>, id: string)
    ensures |Seen(docs, id)| == |docs|
    ensures forall i :: 0 <= i < |docs| ==>
      Seen(docs, id)[i] == (if docs[i].id == id then docs[i].(isNew := Some(false)) else docs[i])
    ensures Seen(Seen(docs, id), id) == Seen(docs, id)
  {
  }

  /** Permanent delete removes every record with the id, keeps the others in order,
      and a second call changes nothing. */
  lemma WithoutIdSpec(docs: seq<DocumentRecord>, id: string)
    ensures forall d :: d in WithoutId(docs, id) <==> d in docs && d.id != id
    ensures |WithoutId(docs, id)| <= |docs|
    ensures WithoutId(WithoutId(docs, id), id) == WithoutId(docs, id)
  {
    var r := WithoutId(docs, id);
    FilterKeepsAll(r, (d: DocumentRecord) => d.id != id);
  }

  /** Emptying the trash keeps exactly the former active list, in order: afterwards the
      trash is empty and the active view is what it was. */
  lemma EmptyTrashSpec(docs: seq<DocumentRecord>)
    ensures Deleted(Active(docs)) == []
    ensures Active(Active(docs)) == Active(docs)
  {
    var a := Active(docs);
    FilterDropsAll(a, IsDeletedFlag);
    FilterKeepsAll(a, IsActive);
  }

  /** Deleting a folder leaves no record pointing at it, clears `folderId` on exactly the
      records that referenced it, and changes no other field. */
  lemma UnfiledSpec(docs: seq<DocumentRecord>, folderId: string)
    ensures |Unfiled(docs, folderId)| == |docs|
    ensures forall d :: d in Unfiled(docs, folderId) ==> d.folderId != Some(folderId)
    ensures forall i :: 0 <= i < |docs| ==>
      var r := Unfiled(docs, folderId)[i];
      r.(folderId := docs[i].folderId) == docs[i] &&
      r.folderId == (if docs[i].folderId == Some(folderId) then None else docs[i].folderId)
  {
    var r := Unfiled(docs, folderId);
    forall d | d in r ensures d.folderId != Some(folderId) {
      var i :| 0 <= i < |r| && r[i] == d;
    }
  }

  lemma WithoutFolderSpec(folders: seq<Folder>, folderId: string)
    ensures forall f :: f in WithoutFolder(folders, folderId) <==> f in folders && f.id != folderId
    ensures FolderIdUnused(WithoutFolder(folders, folderId), folderId)
  {
    var r := WithoutFolder(folders, folderId);
    assert forall i :: 0 <= i < |r| ==> r[i] in r;
  }

  /** A bulk move sets `folderId` on exactly the records whose id is listed and changes
      nothing else; the single move is the bulk move of a one-element list. */
  lemma MovedSpec(docs: seq<DocumentRecord>, ids: seq<string>, target: Option<string>)
    ensures |Moved(docs, ids, target)| == |docs|
    ensures forall i :: 0 <= i < |docs| ==>
      var r := Moved(docs, ids, target)[i];
      r.(folderId := docs[i].folderId) == docs[i] &&
      r.folderId == (if docs[i].id in ids then target else docs[i].folderId)
  {
  }

  // ----- the `isNew` flag -----

  /** The ids of the records currently flagged new. */
  function NewIds(docs: seq<DocumentRecord>): set<string>
  {
    set d | d in docs && IsNewFlag(d) :: d.id
  }

  /** A per-record rewrite that never turns the flag on and keeps the id cannot add new ids. */
  lemma MapNeverRaisesNew(docs: seq<DocumentRecord>, f: DocumentRecord -> DocumentRecord)
    requires forall d :: f(d).id == d.id && (IsNewFlag(f(d)) ==> IsNewFlag(d))
    ensures NewIds(Map(docs, f)) <= NewIds(docs)
  {
    var r := Map(docs, f);
    forall x | x in NewIds(r) ensures x in NewIds(docs) {
      var d :| d in r && IsNewFlag(d) && d.id == x;
      var i :| 0 <= i < |r| && r[i] == d;
      assert docs[i] in docs && IsNewFlag(docs[i]);
    }
  }

  /** Adding a record makes its id new. */
  lemma AddRaisesNew(docs: seq<DocumentRecord>, d: DocumentRecord)
    ensures NewIds([Admitted(d)] + docs) == {d.id} + NewIds(docs)
  {
    var a := Admitted(d);
    assert forall e :: e in [a] + docs <==> e == a || e in docs;
  }

  /** `updateDocument` adds at most the given record's id to the new ids, and none when
      that record says `isNew = false`, as the detail dialog always passes. */
  lemma UpdateRaisesAtMostOne(docs: seq<DocumentRecord>, d: DocumentRecord)
    ensures NewIds(Replaced(docs, d)) <= NewIds(docs) + (if IsNewFlag(d) then {d.id} else {})
  {
    var u := Replaced(docs, d);
    forall x | x in NewIds(u) ensures x in NewIds(docs) + (if IsNewFlag(d) then {d.id} else {}) {
      var e :| e in u && IsNewFlag(e) && e.id == x;
      var i :| 0 <= i < |u| && u[i] == e;
      assert docs[i] in docs;
    }
  }

  lemma SeenAt(docs: seq<DocumentRecord>, id: string, i: nat)
    requires i < |docs|
    ensures Seen(docs, id)[i] == (if docs[i].id == id then docs[i].(isNew := Some(false)) else docs[i])
    ensures docs[i] in docs
  {
  }

  /** Mark-as-seen takes the id out of the new ids and adds none. */
  lemma SeenLowersNew(docs: seq<DocumentRecord>, id: string)
    ensures NewIds(Seen(docs, id)) <= NewIds(docs) - {id}
  {
    var s := Seen(docs, id);
    forall x | x in NewIds(s) ensures x in NewIds(docs) - {id} {
      var e :| e in s && IsNewFlag(e) && e.id == x;
      var i :| 0 <= i < |s| && s[i] == e;
      SeenAt(docs, id, i);
    }
  }

  /** The remaining mutators (delete, restore, purge, empty trash, unfile, move) never
      add a new id: only `addDocument` and a flagged update can. */
  lemma OtherMutatorsKeepNew(docs: seq<DocumentRecord>, id: string, ids: seq<string>,
                             target: Option<string>, deleted: bool, folderId: string)
    ensures NewIds(WithDeleted(docs, id, deleted)) <= NewIds(docs)
    ensures NewIds(WithoutId(docs, id)) <= NewIds(docs)
    ensures NewIds(Active(docs)) <= NewIds(docs)
    ensures NewIds(Unfiled(docs, folderId)) <= NewIds(docs)
    ensures NewIds(Moved(docs, ids, target)) <= NewIds(docs)
  {
    MapNeverRaisesNew(docs, (e: DocumentRecord) => if e.id == id then e.(isDeleted := Some(deleted)) else e);
    MapNeverRaisesNew(docs, (e: DocumentRecord) => if e.folderId == Some(folderId) then e.(folderId := None) else e);
    MapNeverRaisesNew(docs, (e: DocumentRecord) => if e.id in ids then e.(folderId := target) else e);
  }

  // ----- invariants: ids stay unique -----

  lemma {:induction false} MapKeepsIdsUnique(docs: seq<DocumentRecord>, f: DocumentRecord -> DocumentRecord)
    requires UniqueIds(docs)
    requires forall d :: f(d).id == d.id
    ensures UniqueIds(Map(docs, f))
  {
    var r := Map(docs, f);
    forall i, j | 0 <= i < j < |r| ensures IdOf(r[i]) != IdOf(r[j]) {
      assert IdOf(docs[i]) != IdOf(docs[j]);
    }
  }

  // ----- the store -----

  const MockFolders: seq<Folder> := [
    Folder("f1", "Work Projects", None),
    Folder("f2", "Personal Expenses", None),
    Folder("f3", "Tax 2023", None)
  ]

  const MockDocuments: seq<DocumentRecord> := [
    DocumentRecord("1", Invoice, "AWS Web Services", "2023-10-15", "145.5", "USD", "0", None,
                   "Services", "Monthly cloud hosting bill", "mockdata", "application/pdf",
                   "2023-10-15T10:00:00Z", Completed, Some(false), Some(false), Some("f1")),
    DocumentRecord("2", Receipt, "Shell Station", "2023-10-18", "65.2", "USD", "5.2", None,
                   "Fuel", "Gas for company car", "mockdata", "image/jpeg",
                   "2023-10-18T14:30:00Z", Completed, Some(false), Some(false), Some("f2")),
    DocumentRecord("3", Invoice, "Apple Store", "2023-10-20", "2499", "USD", "180", None,
                   "Equipment", "MacBook Pro M2 purchase", "mockdata", "application/pdf",
                   "2023-10-20T09:15:00Z", Completed, Some(true), Some(false), Some("f1"))
  ]

  /** The `useDocuments` hook's state: the document list and the folder list. Document ids
      and folder ids are unique; fresh ids (`crypto.randomUUID()` in the source) are passed in. */
  class DocumentStore {
    var documents: seq<DocumentRecord>
    var folders: seq<Folder>

    ghost predicate Valid()
      reads this
    {
      UniqueIds(documents) && UniqueFolderIds(folders)
    }

    /** Seeded with the three sample documents and three sample folders. */
    constructor ()
      ensures Valid()
      ensures documents == MockDocuments && folders == MockFolders
    {
      documents := MockDocuments;
      folders := MockFolders;
    }

    method AddDocument(doc: DocumentRecord)
      requires Valid() && IdUnused(documents, doc.id)
      modifies this
      ensures Valid()
      ensures documents == [Admitted(doc)] + old(documents) && folders == old(folders)
    {
      var a := Admitted(doc);
      documents := [a] + documents;
      forall i, j | 0 <= i < j < |documents| ensures IdOf(documents[i]) != IdOf(documents[j]) {
        if i > 0 { assert IdOf(old(documents)[i - 1]) != IdOf(old(documents)[j - 1]); }
        else { assert documents[j] == old(documents)[j - 1]; }
      }
    }

    method UpdateDocument(updated: DocumentRecord)
      requires Valid()
      modifies this
      ensures Valid()
      ensures documents == Replaced(old(documents), updated) && folders == old(folders)
    {
      MapKeepsIdsUnique(documents, (d: DocumentRecord) => if d.id == updated.id then updated else d);
      documents := Replaced(documents, updated);
    }

    method SoftDeleteDocument(id: string)
      requires Valid()
      modifies this
      ensures Valid()
      ensures documents == WithDeleted(old(documents), id, true) && folders == old(folders)
    {
      MapKeepsIdsUnique(documents, (d: DocumentRecord) => if d.id == id then d.(isDeleted := Some(true)) else d);
      documents := WithDeleted(documents, id, true);
    }

    method RestoreDocument(id: string)
      requires Valid()
      modifies this
      ensures Valid()
      ensures documents == WithDeleted(old(documents), id, false) && folders == old(folders)
    {
      MapKeepsIdsUnique(documents, (d: DocumentRecord) => if d.id == id then d.(isDeleted := Some(false)) else d);
      documents := WithDeleted(documents, id, false);
    }

    method PermanentDeleteDocument(id: string)
      requires Valid()
      modifies this
      ensures Valid()
      ensures documents == WithoutId(old(documents), id) && folders == old(folders)
    {
      FilterDistinct(documents, (d: DocumentRecord) => d.id != id, IdOf);
      documents := WithoutId(documents, id);
    }

    method EmptyTrash()
      requires Valid()
      modifies this
      ensures Valid()
      ensures documents == Active(old(documents)) && folders == old(folders)
    {
      FilterDistinct(documents, IsActive, IdOf);
      documents := Active(documents);
    }

    method MarkAsSeen(id: string)
      requires Valid()
      modifies this
      ensures Valid()
      ensures documents == Seen(old(documents), id) && folders == old(folders)
    {
      MapKeepsIdsUnique(documents, (d: DocumentRecord) => if d.id == id then d.(isNew := Some(false)) else d);
      documents := Seen(documents, id);
    }

    method CreateFolder(name: string, freshId: string)
      requires Valid() && FolderIdUnused(folders, freshId)
      modifies this
      ensures Valid()
      ensures folders == old(folders) + [Folder(freshId, name, None)] && documents == old(documents)
    {
      folders := folders + [Folder(freshId, name, None)];
      forall i, j | 0 <= i < j < |folders| ensures FolderIdOf(folders[i]) != FolderIdOf(folders[j]) {
        if j < |folders| - 1 { assert FolderIdOf(old(folders)[i]) != FolderIdOf(old(folders)[j]); }
      }
    }

    method DeleteFolder(folderId: string)
      requires Valid()
      modifies this
      ensures Valid()
      ensures documents == Unfiled(old(documents), folderId)
      ensures folders == WithoutFolder(old(folders), folderId)
    {
      MapKeepsIdsUnique(documents, (d: DocumentRecord) => if d.folderId == Some(folderId) then d.(folderId := None) else d);
      FilterDistinct(folders, (f: Folder) => f.id != folderId, FolderIdOf);
      documents := Unfiled(documents, folderId);
      folders := WithoutFolder(folders, folderId);
    }

    method MoveDocumentToFolder(docId: string, target: Option<string>)
      requires Valid()
      modifies this
      ensures Valid()
      ensures documents == Moved(old(documents), [docId], target) && folders == old(folders)
    {
      MoveDocumentsToFolder([docId], target);
    }

    method MoveDocumentsToFolder(docIds: seq<string>, target: Option<string>)
      requires Valid()
      modifies this
      ensures Valid()
      ensures documents == Moved(old(documents), docIds, target) && folders == old(folders)
    {
      MapKeepsIdsUnique(documents, (d: DocumentRecord) => if d.id in docIds then d.(folderId := target) else d);
      documents := Moved(documents, docIds, target);
    }
  }
}

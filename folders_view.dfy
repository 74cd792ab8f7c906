/** The folders page: the folder filter, the per-folder counts and its create and delete
    dialogs. */
module FoldersView {
  import opened Types
  import opened Text
  import opened Lists
  import opened UseDocuments

  /** The selector value that stands for every document. */
  const AllDocuments: string := "all"

  predicate InFolder(d: DocumentRecord, folderId: string)
  {
    d.folderId == Some(folderId)
  }

  /** The listed documents: all of them for `'all'`, else those filed in the selected folder. */
  function FilteredDocuments(docs: seq<DocumentRecord>, selected: string): (r: seq<DocumentRecord>)
    ensures selected == AllDocuments ==> r == docs
    ensures selected != AllDocuments ==> forall d :: d in r <==> d in docs && InFolder(d, selected)
    ensures |r| <= |docs|
  {
    if selected == AllDocuments then docs
    else Filter(docs, (d: DocumentRecord) => InFolder(d, selected))
  }

  /** Unfiled documents are listed only under `'all'`. */
  lemma UnfiledOnlyUnderAll(docs: seq<DocumentRecord>, selected: string, d: DocumentRecord)
    requires d in FilteredDocuments(docs, selected) && d.folderId.None?
    ensures selected == AllDocuments
  {
  }

  /** A folder's badge. */
  function FolderCount(docs: seq<DocumentRecord>, folderId: string): (r: nat)
    ensures r <= |docs|
  {
    |Filter(docs, (d: DocumentRecord) => InFolder(d, folderId))|
  }

  /** The badge counts what selecting the folder lists (for any id other than `'all'`). */
  lemma FolderCountIsListed(docs: seq<DocumentRecord>, folderId: string)
    requires folderId != AllDocuments
    ensures FolderCount(docs, folderId) == |FilteredDocuments(docs, folderId)|
  {
  }

  /** The badges of two different folders count disjoint sets of documents: together they
      never exceed the "All" badge. */
  lemma {:induction false} TwoFolderCounts(docs: seq<DocumentRecord>, f: string, g: string)
    requires f != g
    ensures FolderCount(docs, f) + FolderCount(docs, g) <= |docs|
  {
    if docs != [] {
      TwoFolderCounts(docs[1..], f, g);
      assert docs == [docs[0]] + docs[1..];
    }
  }

  /** The page's own state. */
  class FoldersViewState {
    var selectedFolderId: string
    var isCreateModalOpen: bool
    var newFolderName: string

    constructor ()
      ensures selectedFolderId == AllDocuments && !isCreateModalOpen && newFolderName == ""
    {
      selectedFolderId := AllDocuments;
      isCreateModalOpen := false;
      newFolderName := "";
    }

    method Select(folderId: string)
      modifies this
      ensures selectedFolderId == folderId
      ensures isCreateModalOpen == old(isCreateModalOpen) && newFolderName == old(newFolderName)
    {
      selectedFolderId := folderId;
    }

    /** Returns the trimmed name to create; a blank name does nothing. */
    method HandleCreate() returns (name: Option<string>)
      modifies this
      ensures Trim(old(newFolderName)) != [] ==>
        name == Some(Trim(old(newFolderName))) && newFolderName == "" && !isCreateModalOpen
      ensures Trim(old(newFolderName)) == [] ==>
        name == None && newFolderName == old(newFolderName) && isCreateModalOpen == old(isCreateModalOpen)
      ensures selectedFolderId == old(selectedFolderId)
    {
      name := None;
      var trimmed := Trim(newFolderName);
      if trimmed != [] {
        name := Some(trimmed);
        newFolderName := "";
        isCreateModalOpen := false;
      }
    }

    /** Returns the folder to delete once the user confirms; deleting the selected folder
        goes back to `'all'`. */
    method HandleDeleteFolder(folderId: string, confirmed: bool) returns (deleted: Option<string>)
      modifies this
      ensures confirmed ==> deleted == Some(folderId)
      ensures !confirmed ==> deleted == None
      ensures selectedFolderId ==
        (if confirmed && old(selectedFolderId) == folderId then AllDocuments else old(selectedFolderId))
      ensures isCreateModalOpen == old(isCreateModalOpen) && newFolderName == old(newFolderName)
    {
      deleted := None;
      if confirmed {
        if selectedFolderId == folderId {
          selectedFolderId := AllDocuments;
        }
        deleted := Some(folderId);
      }
    }
  }

  /** After a folder is deleted, whichever folder the page then shows lists no document of
      the deleted one. */
  lemma NothingListedFromDeletedFolder(docs: seq<DocumentRecord>, selected: string, folderId: string)
    ensures var shown := if selected == folderId then AllDocuments else selected;
      forall d :: d in FilteredDocuments(Unfiled(docs, folderId), shown) ==> !InFolder(d, folderId)
  {
    UnfiledSpec(docs, folderId);
  }
}

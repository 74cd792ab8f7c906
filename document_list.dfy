/** The documents table: its search, category and date filters, the newest-first order,
    row selection with bulk move, and its category dialog. */
module DocumentList {
  import opened Types
  import opened Text
  import opened Lists
  import opened Sorting
  import opened JsSet
  import opened UseDocuments
  import opened Settings
  import opened DocumentDetailModal

  datatype ListFilter = ListFilter(searchTerm: string, category: string, dateFrom: string, dateTo: string)

  /** The filters the table opens with: no search, every category, no dates. */
  const NoFilter: ListFilter := ListFilter("", "All", "", "")

  /** Vendor or summary contains the term ignoring case, or the amount's text contains it as typed. */
  predicate MatchesSearch(d: DocumentRecord, term: string)
  {
    Includes(Lower(d.vendor), Lower(term)) || Includes(Lower(d.summary), Lower(term)) || Includes(d.amount, term)
  }

  predicate MatchesCategory(d: DocumentRecord, category: string)
  {
    category == "All" || d.category == category
  }

  /** An empty bound is no bound; dates compare as text. */
  predicate MatchesDates(d: DocumentRecord, dateFrom: string, dateTo: string)
  {
    (dateFrom == "" || AtMost(dateFrom, d.date)) && (dateTo == "" || AtMost(d.date, dateTo))
  }

  predicate Matches(d: DocumentRecord, f: ListFilter)
  {
    MatchesSearch(d, f.searchTerm) && MatchesCategory(d, f.category) && MatchesDates(d, f.dateFrom, f.dateTo)
  }

  /** `filteredDocs`: the matching documents, newest date first, ties newest `createdAt` first. */
  function FilteredDocs(docs: seq<DocumentRecord>, f: ListFilter): (r: seq<DocumentRecord>)
    ensures forall d :: d in r <==> d in docs && Matches(d, f)
    ensures multiset(r) == multiset(Filter(docs, (d: DocumentRecord) => Matches(d, f)))
    ensures multiset(r) <= multiset(docs)
    ensures SortedBy(r, NewerDateFirst)
  {
    NewerDateFirstPreorder();
    var kept := Filter(docs, (d: DocumentRecord) => Matches(d, f));
    var r := Sort(kept, NewerDateFirst);
    assert forall d :: d in r <==> d in kept by {
      forall d ensures d in r <==> d in kept {
        assert d in r <==> d in multiset(r);
        assert d in kept <==> d in multiset(kept);
      }
    }
    r
  }

  /** With the opening filters every document is listed, each as often as it is stored. */
  lemma NoFilterKeepsAll(docs: seq<DocumentRecord>)
    ensures multiset(FilteredDocs(docs, NoFilter)) == multiset(docs)
  {
    assert Lower("") == "";
    forall i | 0 <= i < |docs| ensures Matches(docs[i], NoFilter) {
      IncludesEmpty(Lower(docs[i].vendor));
    }
    FilterKeepsAll(docs, (d: DocumentRecord) => Matches(d, NoFilter));
  }

  function IdsOf(docs: seq<DocumentRecord>): seq<string>
  {
    Map(docs, IdOf)
  }

  /** The ids the header checkbox selects: those of the listed rows. */
  lemma SelectAllIds(docs: seq<DocumentRecord>)
    ensures forall id :: id in FromArray(IdsOf(docs)) <==> exists d :: d in docs && d.id == id
  {
    var ids := IdsOf(docs);
    forall id ensures id in ids <==> exists d :: d in docs && d.id == id {
      if id in ids {
        var i :| 0 <= i < |ids| && ids[i] == id;
        assert docs[i] in docs;
      }
      if exists d :: d in docs && d.id == id {
        var d :| d in docs && d.id == id;
        var i :| 0 <= i < |docs| && docs[i] == d;
        assert ids[i] == id;
      }
    }
  }

  /** What the bulk move hands to the store. */
  datatype MoveRequest = MoveRequest(docIds: seq<string>, target: Option<string>)

  // ----- the header checkbox -----

  /** As written: checked when rows are listed and the selection has as many entries as rows. */
  predicate HeaderChecked(filtered: seq<DocumentRecord>, selected: seq<string>)
  {
    |filtered| > 0 && |selected| == |filtered|
  }

  /** As intended: checked when rows are listed and every one of them is selected. */
  predicate AllRowsSelected(filtered: seq<DocumentRecord>, selected: seq<string>)
  {
    |filtered| > 0 && forall d :: d in filtered ==> d.id in selected
  }

  /** A selection left over from another search can have the right size and none of the
      listed rows: the header box then shows checked over unchecked rows. */
  lemma HeaderCheckedStaleSelection()
    ensures HeaderChecked([MockDocuments[0]], ["2"])
    ensures !AllRowsSelected([MockDocuments[0]], ["2"])
  {
    assert MockDocuments[0] in [MockDocuments[0]];
  }

  /** After select-all the intended test holds exactly when rows are listed, and after
      clearing it never holds. */
  lemma SelectAllChecksHeader(filtered: seq<DocumentRecord>)
    ensures AllRowsSelected(filtered, FromArray(IdsOf(filtered))) <==> |filtered| > 0
    ensures !AllRowsSelected(filtered, [])
  {
    SelectAllIds(filtered);
  }

  /** While the selection holds only listed rows, the size test agrees with the intended one. */
  lemma HeaderCheckedAgrees(filtered: seq<DocumentRecord>, selected: seq<string>)
    requires DistinctBy(filtered, IdOf) && NoDup(selected)
    requires forall id :: id in selected ==> exists d :: d in filtered && d.id == id
    ensures HeaderChecked(filtered, selected) <==> AllRowsSelected(filtered, selected)
  {
    var ids := IdsOf(filtered);
    assert NoDup(ids) by {
      forall i, j | 0 <= i < j < |ids| ensures ids[i] != ids[j] {
        assert IdOf(filtered[i]) != IdOf(filtered[j]);
      }
    }
    NoDupSize(ids);
    NoDupSize(selected);
    SelectAllIds(filtered);
    var visible, chosen := Elems(ids), Elems(selected);
    assert chosen <= visible;
    if HeaderChecked(filtered, selected) {
      SubsetSameSize(chosen, visible);
      forall d | d in filtered ensures d.id in selected {
        assert d.id in visible;
      }
    }
    if AllRowsSelected(filtered, selected) {
      forall id | id in visible ensures id in chosen {
        var d :| d in filtered && d.id == id;
      }
      SubsetSize(visible, chosen);
      SubsetSize(chosen, visible);
      assert |selected| == |chosen| == |visible| == |ids| == |filtered|;
    }
  }

  /** The table's own state: filter inputs, the selection, the bulk-move dialog, the
      new-category input and the document open in the detail view. The selection never holds
      an id twice. */
  class DocumentListState {
    var searchTerm: string
    var filterCategory: string
    var dateFrom: string
    var dateTo: string
    var newCategoryName: string
    var selectedIds: seq<string>
    var isBulkMoveOpen: bool
    var targetFolderId: string
    var selectedDoc: Option<DocumentRecord>

    ghost predicate Valid()
      reads this
    {
      NoDup(selectedIds)
    }

    function CurrentFilter(): ListFilter
      reads this
    {
      ListFilter(searchTerm, filterCategory, dateFrom, dateTo)
    }

    constructor ()
      ensures Valid() && CurrentFilter() == NoFilter
      ensures selectedIds == [] && !isBulkMoveOpen && targetFolderId == "" && newCategoryName == ""
      ensures selectedDoc == None
    {
      searchTerm, filterCategory, dateFrom, dateTo := "", "All", "", "";
      newCategoryName := "";
      selectedIds := [];
      isBulkMoveOpen := false;
      targetFolderId := "";
      selectedDoc := None;
    }

    /** The header checkbox: checking selects exactly the listed rows, unchecking clears. */
    method ToggleSelectAll(checked: bool, docs: seq<DocumentRecord>)
      requires Valid()
      modifies this
      ensures Valid()
      ensures selectedIds == (if checked then FromArray(IdsOf(FilteredDocs(docs, CurrentFilter()))) else [])
      ensures CurrentFilter() == old(CurrentFilter()) && targetFolderId == old(targetFolderId)
      ensures isBulkMoveOpen == old(isBulkMoveOpen) && newCategoryName == old(newCategoryName)
      ensures selectedDoc == old(selectedDoc)
    {
      if checked {
        selectedIds := FromArray(IdsOf(FilteredDocs(docs, CurrentFilter())));
      } else {
        selectedIds := [];
      }
    }

    /** A row checkbox. */
    method ToggleSelectOne(id: string)
      requires Valid()
      modifies this
      ensures Valid()
      ensures selectedIds == Toggle(old(selectedIds), id)
      ensures CurrentFilter() == old(CurrentFilter()) && targetFolderId == old(targetFolderId)
      ensures isBulkMoveOpen == old(isBulkMoveOpen) && newCategoryName == old(newCategoryName)
      ensures selectedDoc == old(selectedDoc)
    {
      selectedIds := Toggle(selectedIds, id);
    }

    /** The selection bar's cancel button. */
    method ClearSelection()
      requires Valid()
      modifies this
      ensures Valid() && selectedIds == []
      ensures CurrentFilter() == old(CurrentFilter()) && targetFolderId == old(targetFolderId)
      ensures isBulkMoveOpen == old(isBulkMoveOpen) && newCategoryName == old(newCategoryName)
      ensures selectedDoc == old(selectedDoc)
    {
      selectedIds := [];
    }

    /** The dialog's confirm button. `canMove` says whether the table was given a move
        handler. With a handler and a non-empty selection, the request carries the selection
        and the chosen folder (`''` meaning none), and the selection, dialog and choice reset. */
    method BulkMoveConfirm(canMove: bool) returns (request: Option<MoveRequest>)
      requires Valid()
      modifies this
      ensures Valid()
      ensures canMove && old(selectedIds) != [] ==>
        request == Some(MoveRequest(old(selectedIds), FolderFromField(old(targetFolderId))))
        && selectedIds == [] && !isBulkMoveOpen && targetFolderId == ""
      ensures !(canMove && old(selectedIds) != []) ==>
        request == None && selectedIds == old(selectedIds)
        && isBulkMoveOpen == old(isBulkMoveOpen) && targetFolderId == old(targetFolderId)
      ensures CurrentFilter() == old(CurrentFilter()) && newCategoryName == old(newCategoryName)
      ensures selectedDoc == old(selectedDoc)
    {
      request := None;
      if canMove && |selectedIds| > 0 {
        var target := if targetFolderId == "" then None else Some(targetFolderId);
        request := Some(MoveRequest(selectedIds, target));
        selectedIds := [];
        isBulkMoveOpen := false;
        targetFolderId := "";
      }
    }

    /** A row's trash button. Once the user confirms, the returned id goes to the store's soft
        delete, and the detail view closes if it showed that document. */
    method HandleDeleteRequest(doc: DocumentRecord, confirmed: bool) returns (request: Option<string>)
      requires Valid()
      modifies this
      ensures Valid()
      ensures request == (if confirmed then Some(doc.id) else None)
      ensures selectedDoc == (if confirmed && old(selectedDoc).Some? && old(selectedDoc).value.id == doc.id
                              then None else old(selectedDoc))
      ensures selectedIds == old(selectedIds) && CurrentFilter() == old(CurrentFilter())
      ensures isBulkMoveOpen == old(isBulkMoveOpen) && targetFolderId == old(targetFolderId)
      ensures newCategoryName == old(newCategoryName)
    {
      request := None;
      if confirmed {
        request := Some(doc.id);
        if selectedDoc.Some? && selectedDoc.value.id == doc.id {
          selectedDoc := None;
        }
      }
    }

    /** Returns the category list to store; an accepted name also clears the input. */
    method HandleAddCategory(categories: seq<string>) returns (updated: seq<string>)
      requires Valid()
      modifies this
      ensures Valid()
      ensures updated == AddedCategories(categories, old(newCategoryName))
      ensures newCategoryName == (if AcceptsCategory(categories, old(newCategoryName)) then "" else old(newCategoryName))
      ensures selectedIds == old(selectedIds) && CurrentFilter() == old(CurrentFilter())
      ensures isBulkMoveOpen == old(isBulkMoveOpen) && targetFolderId == old(targetFolderId)
      ensures selectedDoc == old(selectedDoc)
    {
      updated := categories;
      var name := Trim(newCategoryName);
      if name != [] && name !in categories {
        updated := categories + [name];
        newCategoryName := "";
      }
    }
  }

  /** The category dialog's delete button: the list to store once the user confirms. */
  function DeleteCategoryConfirmed(categories: seq<string>, name: string, confirmed: bool): (r: seq<string>)
    ensures confirmed ==> r == DeletedCategories(categories, name) && name !in r
    ensures !confirmed ==> r == categories
    ensures forall c :: c in r ==> c in categories
  {
    if confirmed then DeletedCategories(categories, name) else categories
  }

  /** Moving the selected documents and then reading the store: each selected id now sits
      in the chosen folder, and no other document moved. */
  lemma BulkMoveEffect(docs: seq<DocumentRecord>, selected: seq<string>, field: string)
    ensures forall i :: 0 <= i < |docs| ==>
      Moved(docs, selected, FolderFromField(field))[i].folderId ==
        (if docs[i].id in selected then FolderFromField(field) else docs[i].folderId)
  {
    MovedSpec(docs, selected, FolderFromField(field));
  }
}

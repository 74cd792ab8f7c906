/** The trash page: its search, newest-first order and the Empty Trash button. */
module TrashList {
  import opened Types
  import opened Text
  import opened Lists
  import opened Sorting
  import opened UseDocuments

  /** Vendor or summary contains the term, ignoring case. */
  predicate MatchesTrashSearch(d: DocumentRecord, term: string)
  {
    Includes(Lower(d.vendor), Lower(term)) || Includes(Lower(d.summary), Lower(term))
  }

  /** The listed trash: matching records, newest `createdAt` first. */
  function FilteredTrash(docs: seq<DocumentRecord>, term: string): (r: seq<DocumentRecord>)
    ensures forall d :: d in r <==> d in docs && MatchesTrashSearch(d, term)
    ensures multiset(r) == multiset(Filter(docs, (d: DocumentRecord) => MatchesTrashSearch(d, term)))
    ensures multiset(r) <= multiset(docs)
    ensures SortedBy(r, NewerCreatedFirst)
  {
    NewerCreatedFirstPreorder();
    var kept := Filter(docs, (d: DocumentRecord) => MatchesTrashSearch(d, term));
    var r := Sort(kept, NewerCreatedFirst);
    assert forall d :: d in r <==> d in kept by {
      forall d ensures d in r <==> d in kept {
        assert d in r <==> d in multiset(r);
        assert d in kept <==> d in multiset(kept);
      }
    }
    r
  }

  /** An empty search lists the whole trash. */
  lemma EmptySearchKeepsAll(docs: seq<DocumentRecord>)
    ensures multiset(FilteredTrash(docs, "")) == multiset(docs)
  {
    assert Lower("") == "";
    forall i | 0 <= i < |docs| ensures MatchesTrashSearch(docs[i], "") {
      IncludesEmpty(Lower(docs[i].vendor));
    }
    FilterKeepsAll(docs, (d: DocumentRecord) => MatchesTrashSearch(d, ""));
  }

  /** The button is shown for a non-empty trash, whatever the search shows. */
  predicate EmptyTrashOffered(trash: seq<DocumentRecord>)
  {
    |trash| > 0
  }

  /** Whether a click on the button empties the trash: only once the user confirms. */
  function EmptyTrashRequested(trash: seq<DocumentRecord>, confirmed: bool): (r: bool)
    ensures r ==> EmptyTrashOffered(trash)
  {
    EmptyTrashOffered(trash) && confirmed
  }

  /** The button is hidden only when emptying the trash would change nothing. */
  lemma HiddenButtonIsNoOp(docs: seq<DocumentRecord>)
    requires !EmptyTrashOffered(Deleted(docs))
    ensures Active(docs) == docs
  {
    forall i | 0 <= i < |docs| ensures IsActive(docs[i]) {
      assert docs[i] in docs;
    }
    FilterKeepsAll(docs, IsActive);
  }
}

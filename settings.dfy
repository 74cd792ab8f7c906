/** The category editor shared by the settings page and the document list's
    "manage categories" dialog, and the settings page's own input state. */
module Settings {
  import opened Text
  import opened Lists
  import opened JsSet

  /** The add button takes a name that is non-empty once trimmed and not yet listed. */
  predicate AcceptsCategory(categories: seq<string>, input: string)
  {
    Trim(input) != [] && Trim(input) !in categories
  }

  /** The list after the add button: the trimmed name appended, or the list unchanged. */
  function AddedCategories(categories: seq<string>, input: string): (r: seq<string>)
    ensures AllSpace(input) ==> r == categories
    ensures Trim(input) in categories ==> r == categories
    ensures AcceptsCategory(categories, input) ==> r == categories + [Trim(input)]
    ensures Trim(input) != [] ==> Trim(input) in r
    ensures |categories| <= |r| <= |categories| + 1 && r[..|categories|] == categories
    ensures NoDup(categories) ==> NoDup(r)
  {
    TrimEmptyIff(input);
    if AcceptsCategory(categories, input) then categories + [Trim(input)] else categories
  }

  /** The list after deleting `name`: every equal entry gone, the rest in order. */
  function DeletedCategories(categories: seq<string>, name: string): (r: seq<string>)
    ensures name !in r
    ensures forall c :: c in r <==> c in categories && c != name
    ensures name !in categories ==> r == categories
  {
    assert name !in categories ==> Filter(categories, (c: string) => c != name) == categories by {
      if name !in categories {
        assert forall i :: 0 <= i < |categories| ==> categories[i] in categories;
        FilterKeepsAll(categories, (c: string) => c != name);
      }
    }
    Filter(categories, (c: string) => c != name)
  }

  /** Deletion keeps the other names in their order: the kept list and the removed copies of
      `name` interleave to the original, so every other name keeps its count. */
  lemma DeleteKeepsOthersInOrder(categories: seq<string>, name: string)
    ensures Interleaving(categories, DeletedCategories(categories, name), Filter(categories, (c: string) => c == name))
    ensures forall c :: c != name ==> multiset(DeletedCategories(categories, name))[c] == multiset(categories)[c]
  {
    var keep, drop := (c: string) => c != name, (c: string) => c == name;
    FilterPartition(categories, keep, drop);
    FilterPartitionCount(categories, keep, drop);
    forall c | c != name
      ensures multiset(DeletedCategories(categories, name))[c] == multiset(categories)[c]
    {
      assert c !in Filter(categories, drop);
    }
  }

  /** Adding a name that is not listed and then deleting it gives back the original list. */
  lemma AddThenDelete(categories: seq<string>, input: string)
    requires Trim(input) !in categories
    ensures DeletedCategories(AddedCategories(categories, input), Trim(input)) == categories
  {
    var name := Trim(input);
    var keep := (c: string) => c != name;
    if AcceptsCategory(categories, input) {
      FilterAppend(categories, [name], keep);
      FilterKeepsAll(categories, keep);
      FilterDropsAll([name], keep);
    }
  }

  /** The settings page's category input and its "saved" badge. */
  class SettingsPanel {
    var newCategory: string
    var isSaved: bool

    constructor ()
      ensures newCategory == "" && !isSaved
    {
      newCategory := "";
      isSaved := false;
    }

    /** Returns the list to store; an accepted name also clears the input and shows the badge. */
    method HandleAddCategory(categories: seq<string>) returns (updated: seq<string>)
      modifies this
      ensures updated == AddedCategories(categories, old(newCategory))
      ensures AcceptsCategory(categories, old(newCategory)) ==> newCategory == "" && isSaved
      ensures !AcceptsCategory(categories, old(newCategory)) ==> newCategory == old(newCategory) && isSaved == old(isSaved)
    {
      updated := categories;
      var name := Trim(newCategory);
      if name != [] && name !in categories {
        updated := categories + [name];
        newCategory := "";
        isSaved := true;
      }
    }

    /** The deletion goes ahead only when the user confirms it. */
    method HandleDeleteCategory(categories: seq<string>, name: string, confirmed: bool) returns (updated: seq<string>)
      modifies this
      ensures updated == (if confirmed then DeletedCategories(categories, name) else categories)
      ensures isSaved == (confirmed || old(isSaved)) && newCategory == old(newCategory)
    {
      updated := categories;
      if confirmed {
        updated := DeletedCategories(categories, name);
        isSaved := true;
      }
    }

    /** The timer that hides the badge again. */
    method SaveFeedbackElapsed()
      modifies this
      ensures !isSaved && newCategory == old(newCategory)
    {
      isSaved := false;
    }
  }
}

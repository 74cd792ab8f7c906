/** The application shell: which screen the main area shows and which documents it gets,
    the header title, the new-document dot, and the upload hand-off to the store. */
module App {
  import opened Types
  import opened UseDocuments

  /** The component the main area renders. */
  datatype Screen = DashboardScreen | DocumentListScreen | FoldersScreen | UploaderScreen
                  | ChatScreen | TrashScreen | SettingsScreen

  /** The view switch; any view without a case of its own (pricing) shows the dashboard. */
  function ScreenFor(view: ViewState): (r: Screen)
    ensures r == DashboardScreen <==> view == DashboardView || view == PricingView
    ensures r == TrashScreen <==> view == TrashView
    ensures r == UploaderScreen <==> view == UploadView
  {
    match view
    case DocumentsView => DocumentListScreen
    case FoldersView => FoldersScreen
    case UploadView => UploaderScreen
    case ChatView => ChatScreen
    case TrashView => TrashScreen
    case SettingsView => SettingsScreen
    case _ => DashboardScreen
  }

  /** The documents handed to the screen, `None` for the screens that take none. */
  function ScreenDocuments(view: ViewState, docs: seq<DocumentRecord>): (r: Option<seq<DocumentRecord>>)
    ensures r.None? <==> ScreenFor(view) == UploaderScreen || ScreenFor(view) == SettingsScreen
    ensures r.Some? && view == TrashView ==> r.value == Deleted(docs)
    ensures r.Some? && view != TrashView ==> r.value == Active(docs)
  {
    match ScreenFor(view)
    case UploaderScreen => None
    case SettingsScreen => None
    case TrashScreen => Some(Deleted(docs))
    case _ => Some(Active(docs))
  }

  /** Only the trash sees deleted documents, and it sees nothing else; every screen sees
      only stored documents. */
  lemma ScreensSeeOneSide(view: ViewState, docs: seq<DocumentRecord>)
    ensures var shown := ScreenDocuments(view, docs);
      shown.Some? ==> forall d :: d in shown.value ==> d in docs && (IsDeletedFlag(d) <==> view == TrashView)
  {
  }

  /** The screens whose component declares a `documents` property and reads it on its first
      render: every screen except the uploader. */
  predicate ReadsDocuments(s: Screen)
  {
    s != UploaderScreen
  }

  /** The routing as written hands no documents to the settings page, which reads them for its
      storage figure: it is the one screen that reads documents and is given none. */
  lemma SettingsGetsNoDocuments(docs: seq<DocumentRecord>)
    ensures forall view :: ReadsDocuments(ScreenFor(view)) && ScreenDocuments(view, docs).None? <==> view == SettingsView
  {
  }

  /** The routing with the settings page given the active view, like the other screens; every
      screen that reads documents then gets them, and still only its own side. */
  function RoutedDocuments(view: ViewState, docs: seq<DocumentRecord>): (r: Option<seq<DocumentRecord>>)
    ensures r.Some? <==> ReadsDocuments(ScreenFor(view))
    ensures view == SettingsView ==> r == Some(Active(docs))
    ensures view != SettingsView ==> r == ScreenDocuments(view, docs)
    ensures r.Some? ==> forall d :: d in r.value ==> d in docs && (IsDeletedFlag(d) <==> view == TrashView)
  {
    if ScreenFor(view) == SettingsScreen then Some(Active(docs)) else ScreenDocuments(view, docs)
  }

  /** The header's title; the pricing view has none. */
  function HeaderTitle(view: ViewState): (r: string)
    ensures r == "" <==> view == PricingView
  {
    match view
    case DashboardView => "Dashboard"
    case DocumentsView => "My Documents"
    case FoldersView => "Folders"
    case TrashView => "Trash Bin"
    case ChatView => "AI Assistant"
    case SettingsView => "Settings"
    case UploadView => "Upload"
    case PricingView => ""
  }

  /** No two views share a title. */
  lemma HeaderTitlesDistinct(v: ViewState, w: ViewState)
    requires v != w
    ensures HeaderTitle(v) != HeaderTitle(w)
  {
  }

  /** The red dot on the bell: some listed (not deleted) document is flagged new. */
  predicate ShowsNewIndicator(docs: seq<DocumentRecord>)
  {
    var active := Active(docs);
    exists i :: 0 <= i < |active| && IsNewFlag(active[i])
  }

  /** The dot shows exactly when a stored document is new and not in the trash. */
  lemma NewIndicatorMeaning(docs: seq<DocumentRecord>)
    ensures ShowsNewIndicator(docs) <==> exists d :: d in docs && IsNewFlag(d) && !IsDeletedFlag(d)
    ensures ShowsNewIndicator(docs) <==> NewIds(Active(docs)) != {}
  {
    var active := Active(docs);
    if exists d :: d in docs && IsNewFlag(d) && !IsDeletedFlag(d) {
      var d :| d in docs && IsNewFlag(d) && !IsDeletedFlag(d);
      var i :| 0 <= i < |active| && active[i] == d;
      assert d.id in NewIds(active);
    }
    if NewIds(active) != {} {
      var x :| x in NewIds(active);
      var d :| d in active && IsNewFlag(d) && d.id == x;
      var i :| 0 <= i < |active| && active[i] == d;
    }
  }

  /** A new document in the trash does not light the dot. */
  lemma TrashedNewDocumentHidden(docs: seq<DocumentRecord>, d: DocumentRecord)
    requires IsNewFlag(d) && IsDeletedFlag(d)
    ensures ShowsNewIndicator([d] + docs) == ShowsNewIndicator(docs)
  {
    NewIndicatorMeaning([d] + docs);
    NewIndicatorMeaning(docs);
    assert forall e :: e in [d] + docs <==> e == d || e in docs;
  }

  /** An uploaded document always lights the dot. */
  lemma UploadLightsIndicator(docs: seq<DocumentRecord>, d: DocumentRecord)
    ensures ShowsNewIndicator([Admitted(d)] + docs)
  {
    NewIndicatorMeaning([Admitted(d)] + docs);
    assert Admitted(d) in [Admitted(d)] + docs;
  }

  /** Opening the only new document turns the dot off. */
  lemma SeeingLastNewClearsIndicator(docs: seq<DocumentRecord>, id: string)
    requires NewIds(docs) <= {id}
    ensures !ShowsNewIndicator(Seen(docs, id))
  {
    var seen := Seen(docs, id);
    SeenLowersNew(docs, id);
    OtherMutatorsKeepNew(seen, id, [], None, true, id);
    NewIndicatorMeaning(seen);
  }

  /** The sample data opens with the dot lit: the third sample document is new. */
  lemma SampleDataShowsIndicator()
    ensures ShowsNewIndicator(MockDocuments)
  {
    NewIndicatorMeaning(MockDocuments);
    assert MockDocuments[2] in MockDocuments;
  }

  /** The shell's state: the current view, the mobile menu, the settings values and the
      document store. */
  class AppState {
    var currentView: ViewState
    var isMobileMenuOpen: bool
    var categories: seq<string>
    var defaultCurrency: string
    var defaultTaxRate: NumberText
    var ocrLanguage: string
    var enablePreprocessing: bool
    const store: DocumentStore

    ghost predicate Valid()
      reads this, store
    {
      store.Valid()
    }

    constructor ()
      ensures Valid() && fresh(store)
      ensures currentView == DashboardView && !isMobileMenuOpen
      ensures categories == DefaultCategories && defaultCurrency == "USD" && defaultTaxRate == "0"
      ensures ocrLanguage == "auto" && enablePreprocessing
      ensures store.documents == MockDocuments && store.folders == MockFolders
    {
      currentView := DashboardView;
      isMobileMenuOpen := false;
      categories := DefaultCategories;
      defaultCurrency := "USD";
      defaultTaxRate := "0";
      ocrLanguage := "auto";
      enablePreprocessing := true;
      store := new DocumentStore();
    }

    /** The sidebar, the dashboard's scan button and the uploader's cancel all just switch
        the view. */
    method SetView(view: ViewState)
      requires Valid()
      modifies this
      ensures Valid() && currentView == view
      ensures categories == old(categories) && isMobileMenuOpen == old(isMobileMenuOpen)
      ensures defaultCurrency == old(defaultCurrency) && defaultTaxRate == old(defaultTaxRate)
      ensures ocrLanguage == old(ocrLanguage) && enablePreprocessing == old(enablePreprocessing)
    {
      currentView := view;
    }

    /** The category editors store their result here. */
    method SetCategories(updated: seq<string>)
      requires Valid()
      modifies this
      ensures Valid() && categories == updated && currentView == old(currentView)
      ensures isMobileMenuOpen == old(isMobileMenuOpen)
      ensures defaultCurrency == old(defaultCurrency) && defaultTaxRate == old(defaultTaxRate)
      ensures ocrLanguage == old(ocrLanguage) && enablePreprocessing == old(enablePreprocessing)
    {
      categories := updated;
    }

    /** A finished upload: the store admits the record (new, not deleted, first in the list)
        and the document list opens, with the dot lit. */
    method HandleUploadComplete(doc: DocumentRecord)
      requires Valid() && IdUnused(store.documents, doc.id)
      modifies this, store
      ensures Valid()
      ensures store.documents == [Admitted(doc)] + old(store.documents) && store.folders == old(store.folders)
      ensures currentView == DocumentsView && categories == old(categories)
      ensures isMobileMenuOpen == old(isMobileMenuOpen)
      ensures defaultCurrency == old(defaultCurrency) && defaultTaxRate == old(defaultTaxRate)
      ensures ocrLanguage == old(ocrLanguage) && enablePreprocessing == old(enablePreprocessing)
      ensures ShowsNewIndicator(store.documents)
      ensures ScreenDocuments(currentView, store.documents) == Some(Active(store.documents))
      ensures Admitted(doc) in Active(store.documents)
    {
      store.AddDocument(doc);
      currentView := DocumentsView;
      UploadLightsIndicator(old(store.documents), doc);
    }
  }
}

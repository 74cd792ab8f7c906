/** The flashcards page: a list of sets, a creation wizard (pick documents, name the set,
    generate, save) and a study session that steps through one set's cards. */
module FlashcardsView {
  import opened Types
  import opened Text
  import opened Lists
  import opened JsSet
  import opened UseDocuments

  datatype Mode = ListMode | CreateMode | StudyMode

  /** One document's part of the text sent to the card generator. */
  function Block(d: DocumentRecord): string
  {
    "--- Document: " + d.vendor + " ---\n" + d.summary
  }

  /** The selected documents, in the order of the document list. */
  function SelectedDocs(docs: seq<DocumentRecord>, selected: seq<string>): (r: seq<DocumentRecord>)
    ensures forall d :: d in r <==> d in docs && d.id in selected
  {
    Filter(docs, (d: DocumentRecord) => d.id in selected)
  }

  /** The blocks of the selected documents, separated by blank lines. */
  function CombinedText(docs: seq<DocumentRecord>, selected: seq<string>): string
  {
    Join(Map(SelectedDocs(docs, selected), Block), "\n\n")
  }

  /** Every selected document's block is in the generator's input. */
  lemma CombinedTextHasEachSelected(docs: seq<DocumentRecord>, selected: seq<string>, d: DocumentRecord)
    requires d in docs && d.id in selected
    ensures Includes(CombinedText(docs, selected), Block(d))
  {
    var chosen := SelectedDocs(docs, selected);
    var k :| 0 <= k < |chosen| && chosen[k] == d;
    JoinIncludesPart(Map(chosen, Block), "\n\n", k);
  }

  /** When no listed document is selected the generator gets empty text. */
  lemma CombinedTextNoneSelected(docs: seq<DocumentRecord>, selected: seq<string>)
    requires forall d :: d in docs ==> d.id !in selected
    ensures CombinedText(docs, selected) == ""
  {
    assert forall d :: d !in SelectedDocs(docs, selected);
  }

  /** The wizard offers a checkbox for each document not in the trash. */
  predicate Offered(docs: seq<DocumentRecord>, id: string)
  {
    exists d :: d in Active(docs) && d.id == id
  }

  /** Ticking and unticking the offered checkboxes never selects a document the wizard does
      not show: a selection of offered ids stays one. */
  lemma ToggleOfferedStaysOffered(docs: seq<DocumentRecord>, selected: seq<string>, id: string)
    requires forall x :: x in selected ==> Offered(docs, x)
    requires Offered(docs, id)
    ensures forall x :: x in Toggle(selected, id) ==> Offered(docs, x)
  {
  }

  /** Generation needs at least one selected document and a title that is not blank. */
  predicate CanGenerate(selected: seq<string>, title: string)
  {
    |selected| > 0 && Trim(title) != []
  }

  /** `cards[i]` in JavaScript: `undefined` (here `None`) past the end. */
  function CardAt(cards: seq<Flashcard>, i: nat): (r: Option<Flashcard>)
    ensures r.Some? <==> i < |cards|
    ensures r.Some? ==> r.value in cards
  {
    if i < |cards| then Some(cards[i]) else None
  }

  /** The generator answers failures with no cards, and a set without cards can still be saved
      and studied: the study screen then reads card 0 and finds nothing to show. */
  lemma EmptySetHasNoCard(s: FlashcardSet)
    requires s.cards == []
    ensures CardAt(s.cards, 0) == None
  {
  }

  // ----- quick clicks during the 150 ms step delay -----

  /** The index after `clicks` next clicks inside one delay, as the page is written: each click
      tests the index from before the delay, and each that passes adds one when its timer fires. */
  function StaleNextClicks(index: nat, count: nat, clicks: nat): (r: nat)
    ensures index + 1 < count ==> r == index + clicks
    ensures index + 1 >= count ==> r == index
  {
    if index + 1 < count then index + clicks else index
  }

  /** The same for back clicks: each tests the old index against 0 and later subtracts one. */
  function StalePrevClicks(index: nat, clicks: nat): (r: int)
    ensures index > 0 ==> r == index - clicks
    ensures index == 0 ==> r == 0
  {
    if index > 0 then index - clicks else index
  }

  /** Two quick next clicks on the last-but-one card land one past the last card, where the
      study screen finds no card; two quick back clicks on the second card land on -1. */
  lemma QuickClicksLeaveTheSet(s: FlashcardSet)
    requires |s.cards| >= 2
    ensures StaleNextClicks(|s.cards| - 2, |s.cards|, 2) == |s.cards|
    ensures CardAt(s.cards, StaleNextClicks(|s.cards| - 2, |s.cards|, 2)) == None
    ensures StalePrevClicks(1, 2) == -1
  {
  }

  /** One step with the guard tested on the index the step applies to. */
  function NextStep(index: nat, count: nat): (r: nat)
    ensures index < count ==> r < count
    ensures r == index || r == index + 1
  {
    if index + 1 < count then index + 1 else index
  }

  /** One back step with the guard tested on the index it moves. */
  function PrevStep(index: nat): (r: nat)
    ensures r <= index && (index > 0 ==> r == index - 1)
  {
    if index > 0 then index - 1 else index
  }

  /** `clicks` next clicks, each step testing the index it moves. */
  function GuardedNextClicks(index: nat, count: nat, clicks: nat): nat
    decreases clicks
  {
    if clicks == 0 then index else GuardedNextClicks(NextStep(index, count), count, clicks - 1)
  }

  function GuardedPrevClicks(index: nat, clicks: nat): nat
  {
    if clicks == 0 then index else GuardedPrevClicks(PrevStep(index), clicks - 1)
  }

  /** With the guard tested on the index each step moves, any burst of next clicks stays on a
      card: it ends on the last card at the latest. */
  lemma {:induction false} GuardedClicksStayOnCard(index: nat, count: nat, clicks: nat)
    requires index < count
    ensures GuardedNextClicks(index, count, clicks) < count
    ensures GuardedNextClicks(index, count, clicks) == if index + clicks < count then index + clicks else count - 1
    decreases clicks
  {
    if clicks > 0 {
      GuardedClicksStayOnCard(NextStep(index, count), count, clicks - 1);
    }
  }

  /** Back clicks with the guard on the index each step moves stop at card 0. */
  lemma {:induction false} GuardedBackClicks(index: nat, clicks: nat)
    ensures GuardedPrevClicks(index, clicks) == if clicks <= index then index - clicks else 0
    decreases clicks
  {
    if clicks > 0 {
      GuardedBackClicks(PrevStep(index), clicks - 1);
    }
  }

  /** The page's own state. Study mode always has a set, and the card index stays on a card
      of the active set (or at 0 when it has none). */
  class FlashcardsState {
    var viewMode: Mode
    var selectedDocIds: seq<string>
    var generatedSet: Option<FlashcardSet>
    var setTitle: string
    var activeSet: Option<FlashcardSet>
    var currentCardIndex: nat
    var isFlipped: bool

    ghost predicate Valid()
      reads this
    {
      && NoDup(selectedDocIds)
      && (viewMode == StudyMode ==> activeSet.Some?)
      && (activeSet.Some? ==> currentCardIndex == 0 || currentCardIndex < |activeSet.value.cards|)
    }

    /** The study screen has a card to show. */
    predicate CardReadable()
      reads this
    {
      activeSet.Some? && currentCardIndex < |activeSet.value.cards|
    }

    constructor ()
      ensures Valid()
      ensures viewMode == ListMode && selectedDocIds == [] && generatedSet == None && setTitle == ""
      ensures activeSet == None && currentCardIndex == 0 && !isFlipped
    {
      viewMode := ListMode;
      selectedDocIds := [];
      generatedSet := None;
      setTitle := "";
      activeSet := None;
      currentCardIndex := 0;
      isFlipped := false;
    }

    /** The "create" buttons of the list screen. */
    method OpenCreate()
      requires Valid()
      modifies this
      ensures Valid() && viewMode == CreateMode
      ensures selectedDocIds == old(selectedDocIds) && setTitle == old(setTitle) && generatedSet == old(generatedSet)
      ensures activeSet == old(activeSet) && currentCardIndex == old(currentCardIndex) && isFlipped == old(isFlipped)
    {
      viewMode := CreateMode;
    }

    method EditTitle(title: string)
      requires Valid()
      modifies this
      ensures Valid() && setTitle == title
      ensures viewMode == old(viewMode) && selectedDocIds == old(selectedDocIds) && generatedSet == old(generatedSet)
      ensures activeSet == old(activeSet) && currentCardIndex == old(currentCardIndex) && isFlipped == old(isFlipped)
    {
      setTitle := title;
    }

    /** A checkbox of the wizard's document list (which offers `Active(docs)` only). */
    method ToggleDoc(id: string)
      requires Valid()
      modifies this
      ensures Valid() && selectedDocIds == Toggle(old(selectedDocIds), id)
      ensures viewMode == old(viewMode) && setTitle == old(setTitle) && generatedSet == old(generatedSet)
      ensures activeSet == old(activeSet) && currentCardIndex == old(currentCardIndex) && isFlipped == old(isFlipped)
    {
      selectedDocIds := Toggle(selectedDocIds, id);
    }

    /** Returns the text sent to the generator, or `None` when the guard stops the click.
        `cards` is the generator's answer, `freshId` and `today` the new set's id and date. */
    method HandleGenerate(docs: seq<DocumentRecord>, cards: seq<Flashcard>, freshId: string, today: string)
      returns (request: Option<string>)
      requires Valid()
      modifies this
      ensures Valid()
      ensures !CanGenerate(old(selectedDocIds), old(setTitle)) ==> request == None && generatedSet == old(generatedSet)
      ensures CanGenerate(old(selectedDocIds), old(setTitle)) ==>
        request == Some(CombinedText(docs, old(selectedDocIds))) &&
        generatedSet == Some(FlashcardSet(freshId, old(setTitle), today, cards, old(selectedDocIds)))
      ensures viewMode == old(viewMode) && selectedDocIds == old(selectedDocIds) && setTitle == old(setTitle)
      ensures activeSet == old(activeSet) && currentCardIndex == old(currentCardIndex) && isFlipped == old(isFlipped)
    {
      request := None;
      if |selectedDocIds| > 0 && Trim(setTitle) != [] {
        var chosen := selectedDocIds;
        var combined := Join(Map(Filter(docs, (d: DocumentRecord) => d.id in chosen), Block), "\n\n");
        request := Some(combined);
        generatedSet := Some(FlashcardSet(freshId, setTitle, today, cards, selectedDocIds));
      }
    }

    /** The preview's discard button: drops the generated set and keeps the picks and title. */
    method DiscardGenerated()
      requires Valid()
      modifies this
      ensures Valid() && generatedSet == None
      ensures viewMode == old(viewMode) && selectedDocIds == old(selectedDocIds) && setTitle == old(setTitle)
      ensures activeSet == old(activeSet) && currentCardIndex == old(currentCardIndex) && isFlipped == old(isFlipped)
    {
      generatedSet := None;
    }

    /** Clears the wizard. */
    method ResetCreation()
      requires Valid()
      modifies this
      ensures Valid() && selectedDocIds == [] && generatedSet == None && setTitle == ""
      ensures viewMode == old(viewMode) && activeSet == old(activeSet) && currentCardIndex == old(currentCardIndex)
      ensures isFlipped == old(isFlipped)
    {
      selectedDocIds := [];
      generatedSet := None;
      setTitle := "";
    }

    /** Returns the set to store, if one was generated; then the wizard is cleared and the
        list shown. */
    method HandleSaveSet() returns (saved: Option<FlashcardSet>)
      requires Valid()
      modifies this
      ensures Valid() && saved == old(generatedSet)
      ensures saved.Some? ==> selectedDocIds == [] && generatedSet == None && setTitle == "" && viewMode == ListMode
      ensures saved.None? ==> selectedDocIds == old(selectedDocIds) && setTitle == old(setTitle) &&
                              viewMode == old(viewMode) && generatedSet == old(generatedSet)
      ensures activeSet == old(activeSet) && currentCardIndex == old(currentCardIndex) && isFlipped == old(isFlipped)
    {
      saved := generatedSet;
      if generatedSet.Some? {
        ResetCreation();
        viewMode := ListMode;
      }
    }

    /** The wizard's back button. */
    method BackToList()
      requires Valid()
      modifies this
      ensures Valid() && viewMode == ListMode
      ensures selectedDocIds == [] && generatedSet == None && setTitle == ""
      ensures activeSet == old(activeSet) && currentCardIndex == old(currentCardIndex) && isFlipped == old(isFlipped)
    {
      ResetCreation();
      viewMode := ListMode;
    }

    method StartStudy(s: FlashcardSet)
      requires Valid()
      modifies this
      ensures Valid()
      ensures activeSet == Some(s) && currentCardIndex == 0 && !isFlipped && viewMode == StudyMode
      ensures selectedDocIds == old(selectedDocIds) && generatedSet == old(generatedSet) && setTitle == old(setTitle)
    {
      activeSet := Some(s);
      currentCardIndex := 0;
      isFlipped := false;
      viewMode := StudyMode;
    }

    /** Study only a set that has cards: then the screen always has a card to show. */
    method StartStudyChecked(s: FlashcardSet) returns (started: bool)
      requires Valid()
      modifies this
      ensures Valid() && started == (|s.cards| > 0)
      ensures started ==> CardReadable() && activeSet == Some(s) && currentCardIndex == 0 &&
                          !isFlipped && viewMode == StudyMode
      ensures !started ==> viewMode == old(viewMode) && activeSet == old(activeSet) &&
                           currentCardIndex == old(currentCardIndex) && isFlipped == old(isFlipped)
      ensures selectedDocIds == old(selectedDocIds) && generatedSet == old(generatedSet) && setTitle == old(setTitle)
    {
      started := |s.cards| > 0;
      if started {
        StartStudy(s);
      }
    }

    /** Advances, except on the last card (the page delays the step by 150 ms). */
    method NextCard()
      requires Valid()
      modifies this
      ensures Valid()
      ensures var moves := old(activeSet).Some? && old(currentCardIndex) + 1 < |old(activeSet).value.cards|;
        currentCardIndex == (if moves then old(currentCardIndex) + 1 else old(currentCardIndex)) &&
        isFlipped == (if moves then false else old(isFlipped))
      ensures old(activeSet).Some? ==> currentCardIndex == NextStep(old(currentCardIndex), |old(activeSet).value.cards|)
      ensures old(CardReadable()) ==> CardReadable()
      ensures activeSet == old(activeSet) && viewMode == old(viewMode)
      ensures selectedDocIds == old(selectedDocIds) && generatedSet == old(generatedSet) && setTitle == old(setTitle)
    {
      if activeSet.Some? && currentCardIndex + 1 < |activeSet.value.cards| {
        isFlipped := false;
        currentCardIndex := currentCardIndex + 1;
      }
    }

    /** Steps back, except on the first card. */
    method PrevCard()
      requires Valid()
      modifies this
      ensures Valid()
      ensures currentCardIndex == (if old(currentCardIndex) > 0 then old(currentCardIndex) - 1 else 0)
      ensures isFlipped == (if old(currentCardIndex) > 0 then false else old(isFlipped))
      ensures currentCardIndex == PrevStep(old(currentCardIndex))
      ensures old(CardReadable()) ==> CardReadable()
      ensures activeSet == old(activeSet) && viewMode == old(viewMode)
      ensures selectedDocIds == old(selectedDocIds) && generatedSet == old(generatedSet) && setTitle == old(setTitle)
    {
      if currentCardIndex > 0 {
        isFlipped := false;
        currentCardIndex := currentCardIndex - 1;
      }
    }

    method Flip()
      requires Valid()
      modifies this
      ensures Valid() && isFlipped == !old(isFlipped)
      ensures currentCardIndex == old(currentCardIndex) && activeSet == old(activeSet) && viewMode == old(viewMode)
      ensures selectedDocIds == old(selectedDocIds) && generatedSet == old(generatedSet) && setTitle == old(setTitle)
    {
      isFlipped := !isFlipped;
    }

    method CloseStudy()
      requires Valid()
      modifies this
      ensures Valid() && activeSet == None && viewMode == ListMode
      ensures selectedDocIds == old(selectedDocIds) && generatedSet == old(generatedSet) && setTitle == old(setTitle)
      ensures currentCardIndex == old(currentCardIndex) && isFlipped == old(isFlipped)
    {
      activeSet := None;
      viewMode := ListMode;
    }

    /** The card on screen. */
    function CurrentCard(): (c: Flashcard)
      reads this
      requires CardReadable()
      ensures c in activeSet.value.cards
      ensures CardAt(activeSet.value.cards, currentCardIndex) == Some(c)
    {
      activeSet.value.cards[currentCardIndex]
    }
  }
}

# PaperSnap document store and views, in Dafny

PaperSnap is a browser app that scans receipts, invoices and other papers. It keeps the extracted
records in an in-memory store and shows them through a dashboard, a filterable document table,
folders, a trash bin, a flashcard study page and a settings page.

This project models the following parts of PaperSnap and proves properties about them:

- **The document store** (`useDocuments`): two lists, documents and folders, with eleven mutators.
  It is modelled as the class `UseDocuments.DocumentStore`. Each method states its new
  `documents`/`folders` as a pure function of the old lists. Lemmas about those functions carry the
  properties: the active/trash partition, soft delete then restore, idempotent deletion and
  mark-as-seen, folder deletion unfiling, and bulk moves.
- **The record types** of `types.ts`: the five document kinds, the three statuses, optional flags
  read as false when absent, `folderId` as `Option<string>`, and the seven default categories.
- **The components' logic**:
  - the document table: filter, sort, selection, bulk move, delete request, category dialog
  - the trash list
  - the folder view
  - the dashboard statistics
  - the detail modal: save, mark-as-seen on open, download name, preview kind
  - the flashcard wizard and study machine
  - the uploader step machine with its 5 MB gate
  - the settings category editor
  - the application shell: routing, header title, new-item dot, upload hand-off
- **The CSV serialiser**. It is modelled as written, and checked against an RFC 4180 reader (a
  parser for the grammar of section 2 of RFC 4180). The model proves:
  - the header line and each row read back as their 8 values whenever the row is well formed;
  - a vendor containing `"`, or a category containing `,`, breaks its row;
  - a corrected serialiser, which escapes every text field, round-trips every document.

Modules follow the source files: `Types`, `UseDocuments`, `DocumentList`, `TrashList`,
`FoldersView`, `Dashboard`, `DocumentDetailModal`, `FlashcardsView`, `Uploader`, `Settings`, `App`
and `ExportUtils`. Four shared modules hold JavaScript built-ins:

- `Text`: `trim`, `toLowerCase`, `includes`, `startsWith`, string `<`, `split`, `join`
- `Lists`: `map` and `filter`
- `Sorting`: `sort` with a comparator
- `JsSet`: a JavaScript `Set<string>` as an insertion-ordered sequence without duplicates

Modelling choices:

- Amounts and tax are kept as the text the number prints as (`NumberText`). The code only prints
  and searches them.
- Dates and timestamps are ISO strings compared as text. For ISO values written to the same
  precision this gives the order that `new Date(..).getTime()` gives.
- Fresh ids (`crypto.randomUUID()`), today's date, `window.confirm` answers and the answers of the
  Gemini extraction and flashcard services are parameters of the operations that use them.
- The export text follows the code (`utils/exportUtils.ts:5-20`, `components/DocumentList.tsx:125-141`),
  including the rows that code gets wrong; those are listed under Findings.
- `FlashcardSet` is imported from `types.ts` but not declared there. The model declares it with the
  fields that `components/FlashcardsView.tsx:52-58` builds. `Flashcard` is the one of
  `services/geminiService.ts:68-71`.

## Model

| member | source | states |
|---|---|---|
| Types.ParseDocType | types.ts:3-9 | reading a kind's text gives back a kind that prints as that text; the enum has exactly the five values |
| Types.DocTypeNameRoundTrip | types.ts:3-9 | each of the five kinds is read back from its own text |
| Types.DefaultCategoriesDistinct | types.ts:12-20 | the default category list has seven distinct names and includes `Uncategorized` |
| UseDocuments.Active | hooks/useDocuments.ts:73 | the active view holds exactly the stored records whose deleted flag is absent or false |
| UseDocuments.Deleted | hooks/useDocuments.ts:74 | the trash view holds exactly the stored records flagged deleted |
| UseDocuments.ActiveDeletedPartition | hooks/useDocuments.ts:73-74 | the two views interleave to the full list, each in stored order: every record is in exactly one, and the lengths add up |
| UseDocuments.Admitted | hooks/useDocuments.ts:78 | an added record is flagged new and not deleted, and otherwise equals the input |
| UseDocuments.DocumentStore.constructor | hooks/useDocuments.ts:70-71 | the store starts with the three sample folders and the sample documents |
| UseDocuments.DocumentStore.AddDocument | hooks/useDocuments.ts:77-80 | the admitted record is prepended and the old list follows unchanged; folders are untouched; ids stay unique |
| UseDocuments.ReplacedSpec | hooks/useDocuments.ts:82-84 | update replaces exactly the records with the same id, keeps the length, and leaves the list identical for an unknown id |
| UseDocuments.DocumentStore.UpdateDocument | hooks/useDocuments.ts:82-84 | the new list is the replaced list; folders are untouched |
| UseDocuments.SoftDeleteThenRestore | hooks/useDocuments.ts:86-92 | soft delete then restore equals restore alone: same length, every field kept except the deleted flag, which is false for the id |
| UseDocuments.SoftDeleteEmptiesActive | hooks/useDocuments.ts:86-92 | after a soft delete no record with that id is active; after a restore none is in the trash |
| UseDocuments.UnknownIdNoOp | hooks/useDocuments.ts:86-104 | soft delete, restore, permanent delete and mark-as-seen leave the list identical for an id no record has |
| UseDocuments.DocumentStore.SoftDeleteDocument | hooks/useDocuments.ts:86-88 | the matching records are flagged deleted; nothing else changes |
| UseDocuments.DocumentStore.RestoreDocument | hooks/useDocuments.ts:90-92 | the matching records are flagged not deleted; nothing else changes |
| UseDocuments.WithoutIdSpec | hooks/useDocuments.ts:94-96 | permanent delete keeps exactly the records with another id, never grows the list and is idempotent |
| UseDocuments.DocumentStore.PermanentDeleteDocument | hooks/useDocuments.ts:94-96 | the records with that id are removed; folders are untouched |
| UseDocuments.EmptyTrashSpec | hooks/useDocuments.ts:98-100 | after emptying the trash the trash view is empty, and the list is exactly the former active list |
| UseDocuments.DocumentStore.EmptyTrash | hooks/useDocuments.ts:98-100 | the new list is the old active view, in order |
| UseDocuments.SeenSpec | hooks/useDocuments.ts:102-104 | mark-as-seen sets `isNew` false on exactly the matching records, keeps the length and is idempotent |
| UseDocuments.DocumentStore.MarkAsSeen | hooks/useDocuments.ts:102-104 | the new list is the seen list; folders are untouched |
| UseDocuments.SeenAt | hooks/useDocuments.ts:103 | at each position mark-as-seen yields the record with `isNew` false if its id matches, else the record |
| UseDocuments.SeenLowersNew | hooks/useDocuments.ts:102-104 | after mark-as-seen the id is no longer among the new ids and no other id became new |
| UseDocuments.AddRaisesNew | hooks/useDocuments.ts:77-80 | adding makes exactly the added id new on top of the old new ids |
| UseDocuments.UpdateRaisesAtMostOne | hooks/useDocuments.ts:82-84 | an update raises the new flag of at most the updated id, and only when the given record is itself new |
| UseDocuments.OtherMutatorsKeepNew | hooks/useDocuments.ts:86-124 | soft delete, restore, permanent delete, empty trash, folder deletion and moves never add a new id |
| UseDocuments.MapNeverRaisesNew | hooks/useDocuments.ts:83-123 | a per-record map that keeps ids and never sets `isNew` cannot add a new id |
| UseDocuments.MapKeepsIdsUnique | hooks/useDocuments.ts:83-123 | a per-record map that keeps ids keeps them unique |
| UseDocuments.DocumentStore.CreateFolder | hooks/useDocuments.ts:107-110 | one folder with the fresh id and the name is appended; documents are untouched |
| UseDocuments.UnfiledSpec | hooks/useDocuments.ts:112-116 | folder deletion clears `folderId` on exactly the records that referenced the folder and changes no other field or record |
| UseDocuments.WithoutFolderSpec | hooks/useDocuments.ts:115 | the folder list keeps exactly the other folders, and none has the deleted id |
| UseDocuments.DocumentStore.DeleteFolder | hooks/useDocuments.ts:112-116 | documents are unfiled and the folder is removed |
| UseDocuments.MovedSpec | hooks/useDocuments.ts:118-124 | a move sets `folderId` to the target on exactly the records whose id is listed and changes nothing else |
| UseDocuments.DocumentStore.MoveDocumentToFolder | hooks/useDocuments.ts:118-120 | the single move is the bulk move of a one-id list |
| UseDocuments.DocumentStore.MoveDocumentsToFolder | hooks/useDocuments.ts:122-124 | the new list is the moved list; folders are untouched |
| JsSet.Toggle | components/DocumentList.tsx:83-91 | toggling adds the id iff it was absent and removes it iff present; no other id changes and none is held twice |
| JsSet.ToggleTwice | components/FlashcardsView.tsx:34-39 | toggling the same id twice gives back the same selected ids, and the identical order when the id was absent |
| JsSet.FromArray | components/DocumentList.tsx:76 | `new Set(array)` holds exactly the array's values, once each |
| DocumentList.FilteredDocs | components/DocumentList.tsx:44-70 | the listed rows are exactly the stored documents that match search, category and both date bounds, each exactly as often as stored, sorted by date then `createdAt`, newest first |
| DocumentList.NoFilterKeepsAll | components/DocumentList.tsx:29-32 | with the opening filters every document is listed, as often as it is stored |
| DocumentList.SelectAllIds | components/DocumentList.tsx:74-77 | select-all selects exactly the ids of the listed rows |
| DocumentList.HeaderCheckedStaleSelection | components/DocumentList.tsx:271 | a hidden selected id makes the header box checked although the one listed row is not selected |
| DocumentList.SelectAllChecksHeader | components/DocumentList.tsx:74-81 | after select-all every listed row is selected iff the list is non-empty; after clearing none is |
| DocumentList.HeaderCheckedAgrees | components/DocumentList.tsx:271 | when every selected id is a listed row, the size test agrees with "every listed row is selected" |
| DocumentList.DocumentListState.constructor | components/DocumentList.tsx:29-42 | no search, category `All`, no dates, empty selection, closed dialog, no target |
| DocumentList.DocumentListState.ToggleSelectAll | components/DocumentList.tsx:74-81 | checked makes the selection the set of listed ids, unchecked empties it; every other field is kept |
| DocumentList.DocumentListState.ToggleSelectOne | components/DocumentList.tsx:83-91 | the selection is toggled for that id and stays duplicate-free; every other field is kept |
| DocumentList.DocumentListState.ClearSelection | components/DocumentList.tsx:187-192 | the selection bar's cancel button empties the selection; every other field is kept |
| DocumentList.DocumentListState.BulkMoveConfirm | components/DocumentList.tsx:93-101 | without a handler or with an empty selection nothing happens; otherwise the request carries the selection and the target (`''` as none), and selection, dialog and target reset; filters, category input and open document are kept |
| DocumentList.BulkMoveEffect | components/DocumentList.tsx:93-101 | the store's move then puts exactly the selected records in the chosen folder |
| DocumentList.DocumentListState.HandleDeleteRequest | components/DocumentList.tsx:103-110 | a confirmed request sends the id to soft delete and closes the detail view if it showed that document; an unconfirmed one does nothing; every other field is kept |
| DocumentList.DocumentListState.HandleAddCategory | components/DocumentList.tsx:112-117 | the stored list is the accepted-name list, and an accepted name clears the input; every other field is kept |
| DocumentList.DeleteCategoryConfirmed | components/DocumentList.tsx:119-123 | once confirmed the list is the deletion list: the name is gone and the other names stay, in order; unconfirmed the list is unchanged |
| Settings.AddedCategories | components/Settings.tsx:45-48 | a blank or already listed name leaves the list unchanged; an accepted name is appended trimmed; the old list is a prefix and at most one name is added; no duplicates arise |
| Settings.DeletedCategories | components/Settings.tsx:53-55 | deletion keeps exactly the other names and removes every occurrence; an absent name leaves the list identical |
| Settings.DeleteKeepsOthersInOrder | components/Settings.tsx:53-55 | the kept names and the removed occurrences interleave to the original list, so the other names keep their order and each keeps its count |
| Settings.AddThenDelete | components/Settings.tsx:45-55 | for a name not yet listed, add then delete gives back the original list |
| Settings.SettingsPanel.constructor | components/Settings.tsx:32-33 | empty input, no save feedback |
| Settings.SettingsPanel.HandleAddCategory | components/Settings.tsx:45-51 | the stored list is the accepted-name list; an accepted name clears the input and shows the saved feedback, a refused one changes nothing |
| Settings.SettingsPanel.HandleDeleteCategory | components/Settings.tsx:53-58 | once confirmed every occurrence is removed and the feedback shows; unconfirmed the list is unchanged |
| Settings.SettingsPanel.SaveFeedbackElapsed | components/Settings.tsx:60-63 | the feedback timer ends the saved feedback |
| TrashList.FilteredTrash | components/TrashList.tsx:20-25 | the listed trash is exactly the records whose vendor or summary contains the term ignoring case, each as often as stored, sorted by `createdAt`, newest first |
| TrashList.EmptySearchKeepsAll | components/TrashList.tsx:21-23 | an empty search lists the whole trash |
| TrashList.EmptyTrashRequested | components/TrashList.tsx:35-41 | emptying is requested only when the button is offered, that is when the trash is non-empty |
| TrashList.HiddenButtonIsNoOp | components/TrashList.tsx:35 | when the button is hidden the trash is empty and emptying it would not change the store |
| FoldersView.FilteredDocuments | components/FoldersView.tsx:38-45 | `'all'` passes the list through; any other id keeps exactly the documents filed under it |
| FoldersView.UnfiledOnlyUnderAll | components/FoldersView.tsx:38-45 | an unfiled document is listed only under `'all'` |
| FoldersView.FolderCount | components/FoldersView.tsx:107 | a folder's badge never exceeds the "All" badge |
| FoldersView.FolderCountIsListed | components/FoldersView.tsx:107 | a folder's badge equals the number of rows shown when it is selected |
| FoldersView.TwoFolderCounts | components/FoldersView.tsx:90-107 | two different folders' badges together never exceed the "All" badge |
| FoldersView.FoldersViewState.constructor | components/FoldersView.tsx:34-36 | selection `'all'`, dialog closed, empty name |
| FoldersView.FoldersViewState.Select | components/FoldersView.tsx:34 | selecting a folder records it and changes nothing else |
| FoldersView.FoldersViewState.HandleCreate | components/FoldersView.tsx:47-53 | a name that is not blank after trimming is sent trimmed, and the input clears and the dialog closes; a blank name does nothing |
| FoldersView.FoldersViewState.HandleDeleteFolder | components/FoldersView.tsx:55-61 | a confirmed delete sends the id and resets the selection to `'all'` only if that folder was selected |
| FoldersView.NothingListedFromDeletedFolder | components/FoldersView.tsx:55-61 | after a folder's deletion no listed document is filed under it |
| Dashboard.ReadyToExport | components/Dashboard.tsx:15 | the completed count never exceeds the document count |
| Dashboard.TotalBytesInterleaving | components/Dashboard.tsx:18 | the byte total of a list is the sum of the totals of any two lists it interleaves |
| Dashboard.TypeTallySpec | components/Dashboard.tsx:22-30 | each slice's value is the number of documents of that kind; slice names are distinct and are exactly the kinds present; every value is at least 1; values sum to the document count |
| Dashboard.TypeTallyCounts | components/Dashboard.tsx:22-25 | the tally's count for each name is the number of documents of that kind |
| Dashboard.TypeTallyNames | components/Dashboard.tsx:22-30 | the slice names are distinct and are exactly the kinds present |
| Dashboard.TypeTallySum | components/Dashboard.tsx:22-30 | every slice is at least 1 and the slices sum to the document count |
| Dashboard.BumpLookup | components/Dashboard.tsx:23 | one increment raises that kind's count by one and no other |
| Dashboard.LookupDistinct | components/Dashboard.tsx:27-30 | each pie slice reports its own kind's count |
| Dashboard.RecentDocs | components/Dashboard.tsx:33-35 | at most five entries (exactly `min(5, n)`), all from the input, sorted by `createdAt`, newest first |
| Dashboard.RecentAreNewest | components/Dashboard.tsx:33-35 | every document left out of the recent list is no newer than each listed one |
| Dashboard.ComputeStats | components/Dashboard.tsx:12-38 | the total is the document count, the completed count is at most it, the pie slices sum to it, and there are at most five recent documents |
| Sorting.Sort | components/Dashboard.tsx:33-34 | sorting a copy yields a permutation of the input, ordered by the comparator; the input itself is a value and stays as it was |
| Sorting.NewerDateFirstPreorder | components/DocumentList.tsx:65-70 | date-then-`createdAt`, newest first, is a total preorder |
| Sorting.NewerCreatedFirstPreorder | components/TrashList.tsx:24 | `createdAt`, newest first, is a total preorder |
| DocumentDetailModal.FolderFromField | components/DocumentDetailModal.tsx:42 | the empty field means no folder; any other text is that folder id |
| DocumentDetailModal.FolderFieldRoundTrip | components/DocumentDetailModal.tsx:27-42 | an absent folder is edited as `''` and saved back as absent, and every other folder round-trips |
| DocumentDetailModal.SavedRecord | components/DocumentDetailModal.tsx:37-44 | the saved record takes the edited vendor, category and folder, is not new, and is otherwise the original record |
| DocumentDetailModal.UneditedSave | components/DocumentDetailModal.tsx:25-44 | saving without edits changes only the new flag |
| DocumentDetailModal.SaveNeverRaisesNew | components/DocumentDetailModal.tsx:37-45 | storing the saved record adds no new id |
| DocumentDetailModal.DetailEditor.constructor | components/DocumentDetailModal.tsx:25-28 | the edit fields start from the record, with an absent folder as `''`; not dirty |
| DocumentDetailModal.DetailEditor.EditVendor | components/DocumentDetailModal.tsx:25-28 | sets the vendor field and marks the form dirty |
| DocumentDetailModal.DetailEditor.EditCategory | components/DocumentDetailModal.tsx:26-28 | sets the category field and marks the form dirty |
| DocumentDetailModal.DetailEditor.EditFolder | components/DocumentDetailModal.tsx:27-28 | sets the folder field and marks the form dirty |
| DocumentDetailModal.DetailEditor.SaveChanges | components/DocumentDetailModal.tsx:37-47 | returns the saved record built from the edit fields and clears the dirty mark |
| DocumentDetailModal.MarkSeenOnOpen | components/DocumentDetailModal.tsx:31-35 | opening asks to mark exactly the record's id as seen iff it is new |
| DocumentDetailModal.OpenClearsNew | components/DocumentDetailModal.tsx:31-35 | after opening a new record its id is no longer new |
| DocumentDetailModal.Extension | components/DocumentDetailModal.tsx:62-65 | the extension is pdf, jpg or png for the three known MIME types and bin for every other |
| DocumentDetailModal.ExtensionInverse | components/DocumentDetailModal.tsx:62-65 | a known extension leads back to the MIME type it came from |
| DocumentDetailModal.DownloadName | components/DocumentDetailModal.tsx:55-66 | a download is offered iff the file data starts with `data:`, and its name is exactly the vendor, `_`, the date, `.` and the extension |
| DocumentDetailModal.PreviewOf | components/DocumentDetailModal.tsx:135-144 | the preview is an image iff the data starts with `data:image`, a PDF iff it starts with `data:application/pdf`, and none otherwise |
| DocumentDetailModal.PreviewedIsDownloadable | components/DocumentDetailModal.tsx:55-59 | any document with a preview can be downloaded |
| DocumentDetailModal.FinancialCard | components/DocumentDetailModal.tsx:190-199 | the amount card is shown iff the kind is not TEXT, with the record's currency, amount and tax |
| DocumentDetailModal.SaveKeepsFinancialCard | components/DocumentDetailModal.tsx:37-44 | saving the dialog's edits never changes the amount card |
| FlashcardsView.SelectedDocs | components/FlashcardsView.tsx:47 | the chosen documents are exactly the listed ones whose id is selected |
| FlashcardsView.CombinedTextHasEachSelected | components/FlashcardsView.tsx:47-48 | each selected document's `--- Document: vendor ---` block is in the generator's input |
| FlashcardsView.CombinedTextNoneSelected | components/FlashcardsView.tsx:47-48 | with no listed document selected the generator input is empty |
| FlashcardsView.ToggleOfferedStaysOffered | components/FlashcardsView.tsx:211-224 | the wizard offers only documents not in the trash, and toggling an offered id keeps every selected id an offered one |
| FlashcardsView.StaleNextClicks | components/FlashcardsView.tsx:92-97 | as written, every next click within the delay tests the index from before it, so each passing click adds one |
| FlashcardsView.StalePrevClicks | components/FlashcardsView.tsx:99-104 | as written, every back click within the delay tests the old index against 0 and later subtracts one |
| FlashcardsView.QuickClicksLeaveTheSet | components/FlashcardsView.tsx:92-104 | two quick next clicks on the last-but-one card reach an index with no card; two quick back clicks on card 1 reach -1 |
| FlashcardsView.NextStep | components/FlashcardsView.tsx:92-97 | a guarded step moves by at most one and never leaves the cards |
| FlashcardsView.PrevStep | components/FlashcardsView.tsx:99-104 | a guarded back step moves down by one above 0 and stays at 0 otherwise |
| FlashcardsView.GuardedClicksStayOnCard | components/FlashcardsView.tsx:92-97 | any number of guarded next clicks ends on the last card at the latest |
| FlashcardsView.GuardedBackClicks | components/FlashcardsView.tsx:99-104 | any number of guarded back clicks ends at card 0 at the earliest |
| FlashcardsView.CardAt | components/FlashcardsView.tsx:295 | reading a card gives one of the set's cards iff the index is in range |
| FlashcardsView.EmptySetHasNoCard | components/FlashcardsView.tsx:295 | a set with no cards has no card 0 to show |
| FlashcardsView.FlashcardsState.constructor | components/FlashcardsView.tsx:19-30 | list mode, empty selection and title, no generated or active set, card 0 unflipped |
| FlashcardsView.FlashcardsState.OpenCreate | components/FlashcardsView.tsx:19 | switches to the wizard and keeps its inputs and the study state |
| FlashcardsView.FlashcardsState.EditTitle | components/FlashcardsView.tsx:25 | sets the title and nothing else |
| FlashcardsView.FlashcardsState.ToggleDoc | components/FlashcardsView.tsx:34-39 | the selection is toggled for that id and stays duplicate-free; nothing else changes |
| FlashcardsView.FlashcardsState.HandleGenerate | components/FlashcardsView.tsx:41-67 | nothing happens without a selection or with a blank title; otherwise the generator gets the combined text, and the new set has the entered title and exactly the selected ids; the inputs and the study state are kept |
| FlashcardsView.FlashcardsState.DiscardGenerated | components/FlashcardsView.tsx:275-280 | the preview's discard button drops the generated set and keeps the picks, the title and the study state |
| FlashcardsView.FlashcardsState.ResetCreation | components/FlashcardsView.tsx:77-81 | empties the selection, the title and the generated set; mode and study state are kept |
| FlashcardsView.FlashcardsState.HandleSaveSet | components/FlashcardsView.tsx:69-75 | only a generated set is saved; then the wizard is cleared and the list shows; without one nothing changes; the study state is kept |
| FlashcardsView.FlashcardsState.BackToList | components/FlashcardsView.tsx:77-81 | clears the wizard and shows the list; the study state is kept |
| FlashcardsView.FlashcardsState.StartStudy | components/FlashcardsView.tsx:85-90 | the set becomes active at card 0, unflipped, in study mode; the wizard's inputs are kept |
| FlashcardsView.FlashcardsState.StartStudyChecked | components/FlashcardsView.tsx:85-90 | study starts iff the set has cards, and then a card is always readable; a refused set changes nothing |
| FlashcardsView.FlashcardsState.NextCard | components/FlashcardsView.tsx:92-97 | advances and unflips only while a next card exists, so the index never passes the last card; the index moves by the guarded step; set, mode and wizard are kept |
| FlashcardsView.FlashcardsState.PrevCard | components/FlashcardsView.tsx:99-104 | steps back and unflips only above 0, so the index never goes below 0; the index moves by the guarded back step; set, mode and wizard are kept |
| FlashcardsView.FlashcardsState.Flip | components/FlashcardsView.tsx:30 | turns the card over; nothing else changes |
| FlashcardsView.FlashcardsState.CloseStudy | components/FlashcardsView.tsx:106-109 | clears the active set and returns to the list; the card index, the flip and the wizard are kept |
| FlashcardsView.FlashcardsState.CurrentCard | components/FlashcardsView.tsx:295 | the card shown is the active set's card at the current index |
| Uploader.Payload | components/Uploader.tsx:112 | the text after the first comma exists iff the data URL contains a comma |
| Uploader.PayloadOfDataUrl | components/Uploader.tsx:112 | for `header,data` with no other comma, the payload is exactly `data` |
| Uploader.BuildRecord | components/Uploader.tsx:117-124 | the record keeps every extracted field and has the fresh id, the full data URL, the file's MIME type, the upload time and status completed |
| Uploader.UploadKeepsExtraction | components/Uploader.tsx:112-124 | the stored record keeps the extraction, and the payload sent can be read back from its data URL |
| Uploader.UploaderState.constructor | components/Uploader.tsx:39-45 | mode selection, finance mode, no file, preview or error |
| Uploader.UploaderState.ModeSelect | components/Uploader.tsx:50-53 | records the mode and moves to the upload step |
| Uploader.UploaderState.Back | components/Uploader.tsx:55-64 | from the upload step clears file, preview and error and returns to mode selection; from mode selection it cancels |
| Uploader.UploaderState.ProcessFile | components/Uploader.tsx:88-103 | no file does nothing; above 5·1024·1024 bytes only the error is set and the file is kept; any other size (5 MiB included) becomes the file and clears the error |
| Uploader.UploaderState.PreviewLoaded | components/Uploader.tsx:97-101 | the file reader's data URL becomes the preview; nothing else changes |
| Uploader.UploaderState.RemoveFile | components/Uploader.tsx:245-246 | the preview's remove button drops the file and the preview and keeps step, mode and error |
| Uploader.UploaderState.HandleProcess | components/Uploader.tsx:105-133 | without a file or a non-empty preview nothing happens; otherwise the extractor gets the payload, the MIME type and the mode, and its answer becomes the record, or its failure the error message |
| App.ScreenFor | App.tsx:52-134 | dashboard and pricing (no case of its own) show the dashboard; trash and upload have their own screens |
| App.ScreenDocuments | App.tsx:52-134 | the trash gets the trash view, every other document screen the active view; upload and settings get none |
| App.ScreensSeeOneSide | App.tsx:52-111 | every screen's documents are stored ones, and they are deleted iff the screen is the trash |
| App.SettingsGetsNoDocuments | App.tsx:114-125 | as written, the settings page is the one screen that reads documents and is given none |
| App.RoutedDocuments | App.tsx:52-134 | with the settings page given the active view, every screen that reads documents gets them, each only its own side of the partition, and the other screens get what they get now |
| App.HeaderTitle | App.tsx:159-165 | the title is empty iff the view is pricing |
| App.HeaderTitlesDistinct | App.tsx:159-165 | no two views share a title |
| App.NewIndicatorMeaning | App.tsx:172 | the dot shows iff some stored document is new and not deleted, that is iff the active view has a new id |
| App.TrashedNewDocumentHidden | App.tsx:172 | a new document in the trash does not change the dot |
| App.UploadLightsIndicator | App.tsx:47-50 | an upload always lights the dot |
| App.SeeingLastNewClearsIndicator | App.tsx:172 | opening the only new document turns the dot off |
| App.SampleDataShowsIndicator | App.tsx:172 | the app opens with the dot lit, since one sample document is new |
| App.AppState.constructor | App.tsx:16-42 | dashboard view, closed menu, default categories, USD, tax 0, automatic OCR language, preprocessing on, sample store |
| App.AppState.SetView | App.tsx:16 | switches the view and keeps the rest |
| App.AppState.SetCategories | App.tsx:38 | stores the edited category list and keeps the rest |
| App.AppState.HandleUploadComplete | App.tsx:47-50 | the store admits the record first in the list, the document list opens, and the new record is shown with the dot lit; categories, settings and menu are kept |
| ExportUtils.CsvContent | utils/exportUtils.ts:18-20 | the content starts with the `data:text/csv;charset=utf-8,` prefix |
| ExportUtils.Values | utils/exportUtils.ts:6-16 | each document yields one value per header column |
| ExportUtils.Doubled | utils/exportUtils.ts:15 | quote doubling leaves text without quotes unchanged and never shortens it |
| ExportUtils.ReadQuotedDoubled | utils/exportUtils.ts:15 | a quoted field with its quotes doubled reads back as the original text |
| ExportUtils.HeaderLineOf | utils/exportUtils.ts:6-19 | the first line reads back as exactly the eight headers |
| ExportUtils.RowLineOf | utils/exportUtils.ts:7-16 | a row whose vendor has no quote and whose plain fields have no comma, quote or line break reads back as its eight values |
| ExportUtils.CsvBodyLines | components/DocumentList.tsx:125-141 | the content is the header line and one row per document in order, joined by line feeds with no trailing one |
| ExportUtils.CsvBodyEmpty | utils/exportUtils.ts:18-20 | with no documents the content is the header followed by one line feed |
| ExportUtils.CsvRoundTrip | utils/exportUtils.ts:5-20 | when every row is well formed, an RFC 4180 reader gets back the header and each document's values, in order |
| ExportUtils.VendorQuoteBreaksRow | utils/exportUtils.ts:9 | a vendor with a `"` followed by an ordinary character makes its row unreadable |
| ExportUtils.CategoryCommaBreaksRow | utils/exportUtils.ts:14 | a category with a comma splits into two cells, so the row reads as nine values |
| ExportUtils.EscapedRowLineOf | utils/exportUtils.ts:7-16 | the corrected row, with every text field quoted and doubled, reads back as its eight values |
| ExportUtils.EscapedCsvRoundTrip | utils/exportUtils.ts:5-20 | the corrected content reads back as the header and every document's values, whatever the text fields hold |
| ExportUtils.ParseCsvLines | utils/exportUtils.ts:20 | joining well-formed lines with line feeds reads back as the records in order |
| ExportUtils.DocTypeNamePlain | utils/exportUtils.ts:8 | a kind's text needs no quoting |

## Left out

- I/O and foreign code are parameters or absent:
  - the Gemini calls (`analyzeDocument`, `generateFlashcards`, the chat session), their prompts,
    their 10,000-character truncation and the extraction fallback record
    (services/geminiService.ts:132-142)
  - `FileReader`, `window.confirm`/`alert`, the clipboard
  - `crypto.randomUUID()`: a fresh id is a parameter
  - `new Date()`: today's date is a parameter
- The download step (link element, `encodeURI`) and the PDF exports (jsPDF) are left out. Only the
  CSV text is modelled, as an RFC 4180 reader reads it before URI encoding.
- `encodeURI` does not escape `#` (utils/exportUtils.ts:22, components/DocumentList.tsx:145). A `#`
  in any exported field therefore starts the URL's fragment, and the download stops there. The
  model does not capture this cut.
- The sample records' `createdAt` values have no milliseconds (hooks/useDocuments.ts:25, 43, 61),
  while uploads store `toISOString()`, which has them (components/Uploader.tsx:121). Within one
  second the text order then differs from the time order: `…00.500Z` sorts before `…00Z` as text
  but is 500 ms later, and `…00Z` and `…00.000Z` are the same instant but differ as text. The
  model orders such pairs by their text. This affects the sorts of the document table, the trash
  and the dashboard's recent list.
- The trash page promises that items are deleted after 30 days (components/TrashList.tsx:32). No
  code does this: records carry no deletion time, and the store never purges by age
  (hooks/useDocuments.ts:86-100). The model has no purge either.
- Floating point is left out: storage megabytes and percentages (the settings page's figure never
  renders as written; see Findings), `toFixed(2)`, and
  `Number#toString`. Amounts are kept as their printed text.
- `new Date(..).getTime()` is modelled as the order of ISO text. Malformed dates, which JavaScript
  turns into `NaN` and an unspecified sort order, are not modelled.
- Presentation-only parts are left out: ChatAssistant, Sidebar, Pricing, `useTheme`, JSX and
  styling, drag highlighting, the copy feedback, and `localStorage.clear()` in Settings.
- Transient busy flags are left out: `isGenerating` in the flashcards page and the processing
  spinner between the uploader's two awaits. The uploader's flag is reset before each method ends.
- Simple setters are left out where nothing is computed: the search, category and date inputs, the
  bulk-move dialog toggle, the folder dialog's input, and the Settings currency, tax, OCR-language
  and preprocessing handlers. Each of those only stores its input and shows the save feedback.
- The flashcard list's delete button is left out. It only forwards an id to the page's
  `onDeleteSet` property. No store in the repository keeps flashcard sets, and App does not render
  the flashcards page.
- The folder id `'all'` is a magic value. A folder whose id were `'all'` would be unreachable; ids
  come from `randomUUID` and the sample ids are `f1`-`f3`, so this is not modelled.
- UseDocuments.DocumentStore.AddDocument: requires the new id to be unused. This stands for the
  freshness of `crypto.randomUUID()`, which the store itself does not check.
- UseDocuments.DocumentStore.CreateFolder: requires the new folder id to be unused, for the same
  reason.
- DocumentList.FilteredDocs: states the order and the members, but not the stability of
  JavaScript's sort among records with equal keys.
- TrashList.FilteredTrash: states the order and the members, but not stability among equal
  timestamps.
- Dashboard.RecentDocs: states the bound, the order and that every entry comes from the input,
  but not which of several records with equal timestamps is kept at the cut.
- Dashboard.ComputeStats: does not model `storageUsedMb`, the floating-point megabyte figure.
  `TotalBytes` carries the byte sum instead.
- Text.Lower: folds ASCII letters only, where `toLowerCase` folds all of Unicode.
- FlashcardsView.FlashcardsState.NextCard: the 150 ms delay before the index moves is treated as
  immediate. Each click is one guarded step (`NextStep`), which is the corrected behaviour. The
  page as written lets two clicks within the delay both pass the guard; that is logged under
  Findings and modelled by `StaleNextClicks`.
- FlashcardsView.FlashcardsState.PrevCard: the same delay is treated as immediate. Each click is
  one guarded step (`PrevStep`); the page as written is modelled by `StalePrevClicks`.
- FlashcardsView.FlashcardsState.HandleGenerate: a generator that throws is not modelled; the
  source's generator returns an empty list instead of throwing.
- Uploader.UploaderState.HandleProcess: `None` as the extractor's answer stands for any exception.
  The source's extractor returns a fallback record instead of throwing, which the caller then
  receives as an ordinary answer.
- Uploader.UploaderState.ProcessFile: a newly accepted file keeps the old preview until the file
  reader finishes. The asynchronous gap, in which processing would pair the old preview with the
  new MIME type, is not modelled.

## Findings

| source | as written | input that shows it | evidently intended | confidence | as-written member | corrected member |
|---|---|---|---|---|---|---|
| utils/exportUtils.ts:9 | the vendor is wrapped in quotes but its own quotes are not doubled (also components/DocumentList.tsx:129) | vendor `Joe"s Diner`: the quote ends the field early and the row no longer parses under RFC 4180 | double the vendor's quotes as the summary's are (line 15) | not executed | ExportUtils.VendorQuoteBreaksRow | ExportUtils.EscapedCsvRoundTrip |
| utils/exportUtils.ts:14 | the category is written unquoted (also components/DocumentList.tsx:134) | category `Travel,Meals` (categories are free text): the row reads as nine values under an eight-column header | quote user text fields | not executed | ExportUtils.CategoryCommaBreaksRow | ExportUtils.EscapedCsvRoundTrip |
| components/DocumentList.tsx:271 | the header box is checked when the selection's size equals the number of listed rows | select row `2`, then filter so only row `1` is listed: one selected id, one row, box checked though row `1` is not selected | checked iff every listed row is selected | not executed | DocumentList.HeaderCheckedStaleSelection | DocumentList.SelectAllChecksHeader |
| App.tsx:114-125 | the settings page is rendered without its `documents` property, which it declares as required (components/Settings.tsx:7) and reads with `documents.reduce` on its first render (components/Settings.tsx:36-37) | open the settings view: `documents` is `undefined` and the storage figure throws a TypeError, so the settings page, with its category editor, fails to render | hand the settings page the active documents, as every other document screen gets them | not executed | App.SettingsGetsNoDocuments | App.RoutedDocuments |
| components/FlashcardsView.tsx:92-104 | next and back test `currentCardIndex` at the click and apply `prev => prev + 1` / `prev - 1` 150 ms later | a set of 2 cards on card 1 of 2 (index 0): two next clicks within 150 ms both pass the test, and the index becomes 2; `currentCard.front` (line 323) then throws. Two back clicks on index 1 give -1 | test the index each step moves, inside the updater | not executed | FlashcardsView.QuickClicksLeaveTheSet | FlashcardsView.GuardedClicksStayOnCard |
| components/FlashcardsView.tsx:295 | the study screen reads `cards[currentCardIndex]` and then its `front` | a set generated when the generator answered `[]` (services/geminiService.ts:167, 171), saved, then studied: card 0 is `undefined` | refuse to study a set without cards | not executed | FlashcardsView.EmptySetHasNoCard | FlashcardsView.FlashcardsState.StartStudyChecked |

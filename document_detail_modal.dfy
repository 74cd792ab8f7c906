/** The document detail dialog: its edit fields and save, mark-as-seen on open, the
    download file name and the preview choice. */
module DocumentDetailModal {
  import opened Types
  import opened Text
  import opened UseDocuments

  /** `folderId || ''`: the folder selector's value, `''` meaning no folder. */
  function FolderField(folderId: Option<string>): string
  {
    if folderId.Some? then folderId.value else ""
  }

  /** `field || undefined`: the selector's value back as a folder reference. */
  function FolderFromField(field: string): (r: Option<string>)
    ensures r.None? <==> field == ""
    ensures r.Some? ==> r.value == field
  {
    if field == "" then None else Some(field)
  }

  /** An unedited selector saves the folder it showed; only a stored empty folder id
      comes back as no folder. Every selector value survives the trip the other way. */
  lemma FolderFieldRoundTrip(folderId: Option<string>, field: string)
    ensures FolderFromField(FolderField(folderId)) == (if folderId == Some("") then None else folderId)
    ensures FolderField(FolderFromField(field)) == field
  {
  }

  /** The record the save button hands to the store. */
  function SavedRecord(d: DocumentRecord, vendor: string, category: string, folderField: string): (r: DocumentRecord)
    ensures r.vendor == vendor && r.category == category
    ensures r.folderId == FolderFromField(folderField) && !IsNewFlag(r)
    ensures r.(vendor := d.vendor, category := d.category, folderId := d.folderId, isNew := d.isNew) == d
  {
    d.(vendor := vendor, category := category, folderId := FolderFromField(folderField), isNew := Some(false))
  }

  /** Saving without editing only clears the new flag. */
  lemma UneditedSave(d: DocumentRecord)
    requires d.folderId != Some("")
    ensures SavedRecord(d, d.vendor, d.category, FolderField(d.folderId)) == d.(isNew := Some(false))
  {
  }

  /** Storing a saved record never makes a document new. */
  lemma SaveNeverRaisesNew(docs: seq<DocumentRecord>, d: DocumentRecord, vendor: string, category: string, folderField: string)
    ensures NewIds(Replaced(docs, SavedRecord(d, vendor, category, folderField))) <= NewIds(docs)
  {
    UpdateRaisesAtMostOne(docs, SavedRecord(d, vendor, category, folderField));
  }

  /** The id the dialog marks as seen when it opens, if any. */
  function MarkSeenOnOpen(d: DocumentRecord): (r: Option<string>)
    ensures r.Some? <==> IsNewFlag(d)
    ensures r.Some? ==> r.value == d.id
  {
    if IsNewFlag(d) then Some(d.id) else None
  }

  /** Once the store has handled the mark-as-seen of opening a new record, no stored copy
      of that record is new any more. */
  lemma OpenClearsNew(docs: seq<DocumentRecord>, d: DocumentRecord)
    requires IsNewFlag(d)
    ensures d.id !in NewIds(Seen(docs, MarkSeenOnOpen(d).value))
  {
    SeenLowersNew(docs, d.id);
  }

  /** The download's extension, by MIME type. */
  function Extension(mimeType: string): (r: string)
    ensures r in {"pdf", "jpg", "png", "bin"}
    ensures r == "bin" <==> mimeType !in {"application/pdf", "image/jpeg", "image/png"}
  {
    if mimeType == "application/pdf" then "pdf"
    else if mimeType == "image/jpeg" then "jpg"
    else if mimeType == "image/png" then "png"
    else "bin"
  }

  /** The MIME type each known extension stands for. */
  function MimeTypeOf(ext: string): Option<string>
  {
    if ext == "pdf" then Some("application/pdf")
    else if ext == "jpg" then Some("image/jpeg")
    else if ext == "png" then Some("image/png")
    else None
  }

  /** The three known MIME types keep their extension, and so are told apart. */
  lemma ExtensionInverse(mimeType: string)
    ensures MimeTypeOf(Extension(mimeType)) == (if Extension(mimeType) == "bin" then None else Some(mimeType))
  {
  }

  /** The download's file name, or `None` when the stored data is not a data URL (the mock
      records) and the download is refused. */
  function DownloadName(d: DocumentRecord): (r: Option<string>)
    ensures r.Some? <==> StartsWith(d.fileData, "data:")
    ensures r.Some? ==> StartsWith(r.value, d.vendor + "_" + d.date + ".")
    ensures r.Some? ==> r.value == d.vendor + "_" + d.date + "." + Extension(d.mimeType)
  {
    if StartsWith(d.fileData, "data:") then
      var name := d.vendor + "_" + d.date + "." + Extension(d.mimeType);
      assert name[..|d.vendor + "_" + d.date + "."|] == d.vendor + "_" + d.date + ".";
      Some(name)
    else None
  }

  datatype Preview = ImagePreview | PdfPreview | NoPreview

  /** What the left pane shows for the stored data. */
  function PreviewOf(fileData: string): (r: Preview)
    ensures r == ImagePreview <==> StartsWith(fileData, "data:image")
    ensures r == PdfPreview <==> StartsWith(fileData, "data:application/pdf")
  {
    if StartsWith(fileData, "data:image") then
      assert fileData[5] == "data:image"[5] != "data:application/pdf"[5];
      ImagePreview
    else if StartsWith(fileData, "data:application/pdf") then PdfPreview
    else NoPreview
  }

  lemma StartsWithPrefix(s: string, long: string, short: string)
    requires StartsWith(s, long) && StartsWith(long, short)
    ensures StartsWith(s, short)
  {
    assert s[..|short|] == long[..|short|];
  }

  /** Anything the dialog can preview it also lets the user download. */
  lemma PreviewedIsDownloadable(d: DocumentRecord)
    requires PreviewOf(d.fileData) != NoPreview
    ensures DownloadName(d).Some?
  {
    if StartsWith(d.fileData, "data:image") {
      StartsWithPrefix(d.fileData, "data:image", "data:");
    } else {
      StartsWithPrefix(d.fileData, "data:application/pdf", "data:");
    }
  }

  /** The two figures of the amount card, each shown after the currency. */
  datatype AmountCard = AmountCard(currency: string, amount: NumberText, tax: NumberText)

  /** The amount card: total and tax, shown for every type except plain text. */
  function FinancialCard(d: DocumentRecord): (r: Option<AmountCard>)
    ensures r.None? <==> d.docType == Text
    ensures r.Some? ==> r.value == AmountCard(d.currency, d.amount, d.tax)
  {
    if d.docType != Text then Some(AmountCard(d.currency, d.amount, d.tax)) else None
  }

  /** Saving the dialog's edits never changes the amount card: vendor, category and folder
      are the only fields the dialog edits. */
  lemma SaveKeepsFinancialCard(d: DocumentRecord, vendor: string, category: string, folderField: string)
    ensures FinancialCard(SavedRecord(d, vendor, category, folderField)) == FinancialCard(d)
  {
  }

  /** The dialog's edit fields, seeded from the record it was opened on. */
  class DetailEditor {
    const record: DocumentRecord
    var editVendor: string
    var editCategory: string
    var editFolderId: string
    var isDirty: bool

    constructor (d: DocumentRecord)
      ensures record == d && !isDirty
      ensures editVendor == d.vendor && editCategory == d.category && editFolderId == FolderField(d.folderId)
    {
      record := d;
      editVendor := d.vendor;
      editCategory := d.category;
      editFolderId := FolderField(d.folderId);
      isDirty := false;
    }

    method EditVendor(v: string)
      modifies this
      ensures editVendor == v && isDirty
      ensures editCategory == old(editCategory) && editFolderId == old(editFolderId)
    {
      editVendor := v;
      isDirty := true;
    }

    method EditCategory(c: string)
      modifies this
      ensures editCategory == c && isDirty
      ensures editVendor == old(editVendor) && editFolderId == old(editFolderId)
    {
      editCategory := c;
      isDirty := true;
    }

    method EditFolder(field: string)
      modifies this
      ensures editFolderId == field && isDirty
      ensures editVendor == old(editVendor) && editCategory == old(editCategory)
    {
      editFolderId := field;
      isDirty := true;
    }

    /** Returns the record to store and marks the fields clean. */
    method SaveChanges() returns (updated: DocumentRecord)
      modifies this
      ensures updated == SavedRecord(record, editVendor, editCategory, editFolderId)
      ensures !isDirty && editVendor == old(editVendor) && editCategory == old(editCategory)
      ensures editFolderId == old(editFolderId)
    {
      updated := record.(vendor := editVendor, category := editCategory,
                         folderId := FolderFromField(editFolderId), isNew := Some(false));
      isDirty := false;
    }
  }
}

/** The record types of PaperSnap: documents, folders, flashcard sets and views. */
module Types {

  datatype Option<T> = None | Some(value: T)

  /** The five document kinds the extractor can report. */
  datatype DocType = Receipt | Invoice | Contract | Text | Other

  /** The enum's string value, as it appears in exports and JSON. */
  function DocTypeName(t: DocType): string
  {
    match t
    case Receipt => "RECEIPT"
    case Invoice => "INVOICE"
    case Contract => "CONTRACT"
    case Text => "TEXT"
    case Other => "OTHER"
  }

  /** Reading an enum value back from its string; any other string is not a DocType. */
  function ParseDocType(s: string): (r: Option<DocType>)
    ensures r.Some? ==> DocTypeName(r.value) == s
  {
    if s == "RECEIPT" then Some(Receipt)
    else if s == "INVOICE" then Some(Invoice)
    else if s == "CONTRACT" then Some(Contract)
    else if s == "TEXT" then Some(Text)
    else if s == "OTHER" then Some(Other)
    else None
  }

  lemma DocTypeNameRoundTrip(t: DocType)
    ensures ParseDocType(DocTypeName(t)) == Some(t)
  {
  }

  /** Extraction lifecycle of a record. */
  datatype Status = Processing | Completed | Error

  /** A JavaScript number held as the decimal text `Number#toString` prints for it;
      the core never computes with amounts, it only shows and exports them. */
  type NumberText = string

  /** A user folder; `isSystem` is optional and never set by the core. */
  datatype Folder = Folder(id: string, name: string, isSystem: Option<bool>)

  /** What the extraction service returns for one upload. */
  datatype ExtractedData = ExtractedData(
    docType: DocType,
    vendor: string,
    date: string,
    amount: NumberText,
    currency: string,
    tax: NumberText,
    invoiceNumber: Option<string>,
    category: string,
    summary: string)

  /** One stored document: the extracted fields plus identity, payload and UI flags.
      `isNew`, `isDeleted` and `folderId` are the only optional fields. */
  datatype DocumentRecord = DocumentRecord(
    id: string,
    docType: DocType,
    vendor: string,
    date: string,
    amount: NumberText,
    currency: string,
    tax: NumberText,
    invoiceNumber: Option<string>,
    category: string,
    summary: string,
    fileData: string,
    mimeType: string,
    createdAt: string,
    status: Status,
    isNew: Option<bool>,
    isDeleted: Option<bool>,
    folderId: Option<string>)

  /** An optional boolean read the way JavaScript's truthiness reads it: absent is false. */
  predicate Flag(b: Option<bool>)
  {
    b == Some(true)
  }

  predicate IsNewFlag(d: DocumentRecord)
  {
    Flag(d.isNew)
  }

  predicate IsDeletedFlag(d: DocumentRecord)
  {
    Flag(d.isDeleted)
  }

  /** The extracted part of a record: what the extractor produced for it. */
  function Extracted(d: DocumentRecord): ExtractedData
  {
    ExtractedData(d.docType, d.vendor, d.date, d.amount, d.currency, d.tax,
                  d.invoiceNumber, d.category, d.summary)
  }

  datatype Flashcard = Flashcard(front: string, back: string)

  /** A generated study set; `sourceDocIds` lists the selected documents in selection order. */
  datatype FlashcardSet = FlashcardSet(
    id: string,
    title: string,
    createdAt: string,
    cards: seq<Flashcard>,
    sourceDocIds: seq<string>)

  /** The top-level screens of the application. */
  datatype ViewState = DashboardView | DocumentsView | FoldersView | UploadView
                     | TrashView | ChatView | SettingsView | PricingView

  /** The categories a fresh session starts with; users may add and remove more. */
  const DefaultCategories: seq<string> :=
    ["Fuel", "Equipment", "Services", "Marketing", "Travel", "Office", "Uncategorized"]

  lemma DefaultCategoriesDistinct()
    ensures |DefaultCategories| == 7 && "Uncategorized" in DefaultCategories
    ensures forall i, j :: 0 <= i < j < |DefaultCategories| ==> DefaultCategories[i] != DefaultCategories[j]
  {
  }
}

/** The upload page: choose a scan mode, pick a file of at most 5 MB, send its data URL's
    payload to the extractor and build the new document record from the answer. */
module Uploader {
  import opened Types
  import opened Text

  datatype Step = ModeSelection | Upload

  /** The extractor's three prompts: finance fields, general documents, plain text. */
  datatype ScanMode = Finance | DocumentMode | TextMode

  /** What the page uses of a browser file: its size in bytes and its MIME type. */
  datatype FileInfo = FileInfo(size: nat, mimeType: string)

  /** The largest accepted file, in bytes. */
  const MaxFileSize: nat := 5 * 1024 * 1024

  const TooLargeMessage: string := "File is too large. Max 5MB."
  const ProcessFailedMessage: string := "Failed to process document. Please try again."

  /** `preview.split(',')[1]`: the second comma-separated part, `None` for `undefined`. */
  function Payload(preview: string): (r: Option<string>)
    ensures r.Some? <==> ',' in preview
  {
    var parts := Split(preview, ',');
    assert ',' !in preview ==> parts == [preview] by {
      if ',' !in preview {
        SplitNoSeparator(preview, ',');
      }
    }
    assert ',' in preview ==> |parts| >= 2 by {
      if ',' in preview {
        var k :| 0 <= k < |preview| && preview[k] == ',';
        PayloadSplitsAt(preview, k);
      }
    }
    if |parts| >= 2 then Some(parts[1]) else None
  }

  /** The first comma splits the text into at least two parts. */
  lemma {:induction false} PayloadSplitsAt(s: string, k: nat)
    requires k < |s| && s[k] == ','
    ensures |Split(s, ',')| >= 2
    decreases k
  {
    if ',' in s[..k] {
      var j :| 0 <= j < k && s[..k][j] == ',';
      PayloadSplitsAt(s, j);
    } else {
      assert s == s[..k] + [','] + s[k + 1..];
      SplitFirst(s[..k], ',', s[k + 1..]);
    }
  }

  /** A data URL `header,data` whose base64 data has no comma yields exactly that data. */
  lemma PayloadOfDataUrl(header: string, data: string)
    requires ',' !in header && ',' !in data
    ensures Payload(header + "," + data) == Some(data)
  {
    SplitFirst(header, ',', data);
    SplitNoSeparator(data, ',');
  }

  /** The record handed to the application: the extractor's fields, a fresh id, the data URL,
      the file's MIME type and the upload time; no flags and no folder yet. */
  function BuildRecord(id: string, dataUrl: string, mimeType: string, createdAt: string, ex: ExtractedData): (r: DocumentRecord)
    ensures Extracted(r) == ex
    ensures r.id == id && r.fileData == dataUrl && r.mimeType == mimeType && r.createdAt == createdAt
    ensures r.status == Completed
    ensures r.isNew == None && r.isDeleted == None && r.folderId == None
  {
    DocumentRecord(id, ex.docType, ex.vendor, ex.date, ex.amount, ex.currency, ex.tax,
                   ex.invoiceNumber, ex.category, ex.summary, dataUrl, mimeType, createdAt,
                   Completed, None, None, None)
  }

  /** What the extractor is asked: the payload (`None` for `undefined`), the MIME type and the mode. */
  datatype AnalysisRequest = AnalysisRequest(payload: Option<string>, mimeType: string, mode: ScanMode)

  /** The page's state. An accepted file is never above the size limit, and the only error
      shown is one of the page's two messages. */
  class UploaderState {
    var step: Step
    var scanMode: ScanMode
    var file: Option<FileInfo>
    var preview: Option<string>
    var isProcessing: bool
    var error: Option<string>

    ghost predicate Valid()
      reads this
    {
      && (file.Some? ==> file.value.size <= MaxFileSize)
      && (error.Some? ==> error.value == TooLargeMessage || error.value == ProcessFailedMessage)
      && !isProcessing
    }

    constructor ()
      ensures Valid()
      ensures step == ModeSelection && scanMode == Finance && file == None && preview == None && error == None
    {
      step := ModeSelection;
      scanMode := Finance;
      file := None;
      preview := None;
      isProcessing := false;
      error := None;
    }

    method ModeSelect(mode: ScanMode)
      requires Valid()
      modifies this
      ensures Valid() && scanMode == mode && step == Upload
      ensures file == old(file) && preview == old(preview) && error == old(error)
    {
      scanMode := mode;
      step := Upload;
    }

    /** On the upload step, back clears the file and returns to mode selection; on mode
        selection it asks the application to leave the page (`cancel`). */
    method Back() returns (cancel: bool)
      requires Valid()
      modifies this
      ensures Valid() && cancel == (old(step) == ModeSelection)
      ensures !cancel ==> step == ModeSelection && file == None && preview == None && error == None
      ensures cancel ==> step == old(step) && file == old(file) && preview == old(preview) && error == old(error)
      ensures scanMode == old(scanMode)
    {
      if step == Upload {
        file := None;
        preview := None;
        error := None;
        step := ModeSelection;
        cancel := false;
      } else {
        cancel := true;
      }
    }

    /** A picked or dropped file: nothing happens without one, a file above the limit only
        sets the error, any other file replaces the current one and clears the error. The
        preview arrives later, through `PreviewLoaded`. */
    method ProcessFile(selected: Option<FileInfo>)
      requires Valid()
      modifies this
      ensures Valid()
      ensures selected.None? ==> file == old(file) && error == old(error)
      ensures selected.Some? && selected.value.size > MaxFileSize ==>
        file == old(file) && error == Some(TooLargeMessage)
      ensures selected.Some? && selected.value.size <= MaxFileSize ==>
        file == selected && error == None
      ensures preview == old(preview) && step == old(step) && scanMode == old(scanMode)
    {
      if selected.Some? {
        if selected.value.size > MaxFileSize {
          error := Some(TooLargeMessage);
          return;
        }
        file := selected;
        error := None;
      }
    }

    /** The file reader's result: the file as a data URL. */
    method PreviewLoaded(dataUrl: string)
      requires Valid()
      modifies this
      ensures Valid() && preview == Some(dataUrl)
      ensures file == old(file) && error == old(error) && step == old(step)
      ensures scanMode == old(scanMode)
    {
      preview := Some(dataUrl);
    }

    /** The preview's remove button: drops the file and its preview; step, mode and any error
        message stay. */
    method RemoveFile()
      requires Valid()
      modifies this
      ensures Valid() && file == None && preview == None
      ensures step == old(step) && scanMode == old(scanMode) && error == old(error)
    {
      file := None;
      preview := None;
    }

    /** The process button. Without a file or a preview nothing happens. Otherwise `request`
        is what the extractor is asked and `analysis` its answer (`None` when the call fails):
        an answer yields the new record with id `freshId` and time `now`, a failure the error
        message. */
    method HandleProcess(freshId: string, now: string, analysis: Option<ExtractedData>)
      returns (request: Option<AnalysisRequest>, created: Option<DocumentRecord>)
      requires Valid()
      modifies this
      ensures Valid()
      ensures old(file).None? || old(preview).None? || old(preview) == Some("") ==>
        request == None && created == None && error == old(error)
      ensures old(file).Some? && old(preview).Some? && old(preview) != Some("") ==>
        && request == Some(AnalysisRequest(Payload(old(preview).value), old(file).value.mimeType, old(scanMode)))
        && (analysis.Some? ==>
              created == Some(BuildRecord(freshId, old(preview).value, old(file).value.mimeType, now, analysis.value))
              && error == None)
        && (analysis.None? ==> created == None && error == Some(ProcessFailedMessage))
      ensures file == old(file) && preview == old(preview) && step == old(step) && scanMode == old(scanMode)
    {
      request, created := None, None;
      if file.None? || preview.None? || preview.value == "" {
        return;
      }
      isProcessing := true;
      error := None;
      var mimeType := file.value.mimeType;
      request := Some(AnalysisRequest(Payload(preview.value), mimeType, scanMode));
      if analysis.Some? {
        created := Some(BuildRecord(freshId, preview.value, mimeType, now, analysis.value));
      } else {
        error := Some(ProcessFailedMessage);
      }
      isProcessing := false;
    }
  }

  /** A processed upload keeps everything the extractor found, and the payload sent to the
      extractor can be read back from the stored data URL. */
  lemma UploadKeepsExtraction(id: string, header: string, data: string, mimeType: string, now: string, ex: ExtractedData)
    requires ',' !in header && ',' !in data
    ensures var r := BuildRecord(id, header + "," + data, mimeType, now, ex);
      Extracted(r) == ex && Payload(r.fileData) == Some(data)
  {
    PayloadOfDataUrl(header, data);
  }
}

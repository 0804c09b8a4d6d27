/**
 * The upload controller: file selection with its client-side extension
 * test, the upload with its progress and response handling, the trigger
 * of server-side processing, and the condition under which the folder
 * checker is shown.
 */
module Uploader {
  import opened Wrappers
  import opened Text
  import opened Dataset
  import opened Responses
  import App

  /** A selected file; only its name matters to the controller. */
  datatype FileRef = FileRef(name: string)

  datatype Severity = SeveritySuccess | SeverityError

  datatype ProcessStatus = ProcessSuccess | ProcessError

  const ValidExtensions := [".csv", "xlsx", ".xls"]
  const InvalidFileMessage := "Please upload a valid CSV or Excel file."
  const NoFileMessage := "Please select a file to upload."
  const UploadErrorMessage := "Error uploading file. Please try again."
  const UploadFailedNotice := "Error processing file. Please try again."
  const TriggeredPrefix := "File processing triggered: "
  const ProcessFailedNotice := "Error processing file. Please try again."

  /** The client-side extension test: the last four characters, compared exactly. */
  predicate ClientAccepts(name: string)
    ensures ClientAccepts(name) ==> |name| >= 4
  {
    SliceFromEnd(name, 4) in ValidExtensions
  }

  /**
   * A name is accepted exactly when it ends with ".csv", "xlsx" or ".xls",
   * letter case included; a name shorter than four characters never is.
   */
  lemma ClientAcceptsSuffixes(name: string)
    ensures ClientAccepts(name) <==>
      EndsWith(name, ".csv") || EndsWith(name, "xlsx") || EndsWith(name, ".xls")
    ensures |name| < 4 ==> !ClientAccepts(name)
  {
    var last := SliceFromEnd(name, 4);
    if |name| >= 4 {
      assert last == name[|name| - 4..];
    } else {
      assert |last| < 4;
    }
  }

  /** The test is case-sensitive and does not need a dot before "xlsx". */
  lemma ClientAcceptsExamples()
    ensures ClientAccepts("report.xlsx") && ClientAccepts("data.csv") && ClientAccepts("old.xls")
    ensures !ClientAccepts("report.CSV") && !ClientAccepts("notes.txt") && !ClientAccepts("csv")
    ensures ClientAccepts("dataxlsx")
  {
    ClientAcceptsSuffixes("report.CSV");
    ClientAcceptsSuffixes("notes.txt");
    ClientAcceptsSuffixes("csv");
  }

  lemma FolderNameExample()
    ensures BeforeFirstDot("report.xlsx") == "report"
  {
    SplitAround("report", ".", "xlsx");
    assert "report" + "." + "xlsx" == "report.xlsx";
  }

  /**
   * `Math.round(loaded * 100 / total)` when the total is known and
   * non-zero, computed as round-half-up in integers; unknown otherwise.
   */
  function ProgressPercent(loaded: nat, total: Option<nat>): (r: Option<int>)
    ensures r.Some? <==> total.Some? && total.value > 0
    ensures r.Some? ==> r.value >= 0
  {
    if total.Some? && total.value > 0 then Some((200 * loaded + total.value) / (2 * total.value))
    else None
  }

  lemma DivBracket(n: nat, d: nat)
    requires d > 0
    ensures (n / d) * d <= n < (n / d + 1) * d
  {
    assert n == d * (n / d) + n % d;
  }

  lemma MulMonotone(a: int, b: int, d: nat)
    requires a <= b
    ensures a * d <= b * d
  {
  }

  /**
   * The percentage is the integer nearest to `loaded * 100 / total`
   * (halves rounded up), so it lies in 0..100 while `loaded <= total`.
   */
  lemma ProgressPercentNearest(loaded: nat, total: nat)
    requires total > 0
    ensures var p := ProgressPercent(loaded, Some(total)).value;
      && 2 * p * total <= 200 * loaded + total < 2 * (p + 1) * total
      && (loaded <= total ==> 0 <= p <= 100)
  {
    var n, d := 200 * loaded + total, 2 * total;
    var p := n / d;
    DivBracket(n, d);
    assert 2 * p * total == p * d;
    assert 2 * (p + 1) * total == (p + 1) * d;
    if loaded <= total && p > 100 {
      MulMonotone(101, p, d);
      assert false;
    }
  }

  class FileUploader {
    const app: App.AppState
    var file: Option<FileRef>
    var error: string
    var fileData: Sheets
    var folderName: string
    var uploadProgress: Option<int>
    var uploadSuccess: bool
    var processStatus: Option<ProcessStatus>
    var snackbarOpen: bool
    var snackbarMessage: string
    var snackbarSeverity: Severity

    constructor (app: App.AppState)
      ensures this.app == app
      ensures file == None && error == "" && fileData == [] && folderName == ""
      ensures uploadProgress == None && !uploadSuccess && processStatus == None
      ensures !snackbarOpen && snackbarMessage == "" && snackbarSeverity == SeveritySuccess
    {
      this.app := app;
      file, error, fileData, folderName := None, "", [], "";
      uploadProgress, uploadSuccess, processStatus := None, false, None;
      snackbarOpen, snackbarMessage, snackbarSeverity := false, "", SeveritySuccess;
    }

    /**
     * A rejected file clears the selection and shows the extension error; an
     * accepted one becomes the selection and clears the error; an event
     * without a file changes nothing.
     */
    method HandleFileChange(selected: Option<FileRef>)
      modifies this`file, this`error
      ensures selected.None? ==> file == old(file) && error == old(error)
      ensures selected.Some? && !ClientAccepts(selected.value.name) ==>
        file == None && error == InvalidFileMessage
      ensures selected.Some? && ClientAccepts(selected.value.name) ==>
        file == selected && error == ""
    {
      if selected.Some? {
        if SliceFromEnd(selected.value.name, 4) !in ValidExtensions {
          error := InvalidFileMessage;
          file := None;
          return;
        }
        file := selected;
        error := "";
      }
    }

    /** A progress event of the running upload. */
    method OnUploadProgress(loaded: nat, total: Option<nat>)
      modifies this`uploadProgress
      ensures uploadProgress == ProgressPercent(loaded, total)
    {
      if total.Some? && total.value > 0 {
        uploadProgress := Some((200 * loaded + total.value) / (2 * total.value));
      } else {
        uploadProgress := None;
      }
    }

    /**
     * The upload. Without a selection it only sets an error and sends
     * nothing. An answered upload publishes the answer's sheets to the shared
     * dataset whatever it says, derives the folder name, classifies the
     * answer by its message or error text and opens the notice. A failed one
     * clears the progress, reports an error and leaves the dataset alone.
     */
    method HandleUpload(post: FileRef -> Fetched<UploadBody>, errorText: string)
      modifies this`error, this`fileData, this`folderName, this`uploadProgress, this`uploadSuccess
      modifies this`snackbarOpen, this`snackbarMessage, this`snackbarSeverity, app`fileData
      ensures file == old(file) && processStatus == old(processStatus)
      ensures old(file).None? ==>
        && error == NoFileMessage && fileData == old(fileData) && folderName == old(folderName)
        && uploadProgress == old(uploadProgress) && uploadSuccess == old(uploadSuccess)
        && snackbarOpen == old(snackbarOpen) && snackbarMessage == old(snackbarMessage)
        && snackbarSeverity == old(snackbarSeverity) && app.fileData == old(app.fileData)
      ensures old(file).Some? && post(old(file).value).Resolved? ==>
        var body := post(old(file).value).body;
        && error == old(error) && uploadProgress == old(uploadProgress)
        && fileData == body.data.GetOr([]) && app.fileData == fileData
        && folderName == BeforeFirstDot(old(file).value.name)
        && snackbarOpen
        && (Truthy(body.message) ==>
              uploadSuccess && snackbarMessage == body.message.value
              && snackbarSeverity == SeveritySuccess)
        && (!Truthy(body.message) && Truthy(body.error) ==>
              !uploadSuccess && snackbarMessage == body.error.value
              && snackbarSeverity == SeverityError)
        && (!Truthy(body.message) && !Truthy(body.error) ==>
              uploadSuccess == old(uploadSuccess) && snackbarMessage == old(snackbarMessage)
              && snackbarSeverity == old(snackbarSeverity))
      ensures old(file).Some? && post(old(file).value).Rejected? ==>
        && error == UploadErrorMessage && uploadProgress == None
        && snackbarMessage == UploadFailedNotice + errorText
        && snackbarSeverity == SeverityError && snackbarOpen
        && uploadSuccess == old(uploadSuccess)
        && fileData == old(fileData) && folderName == old(folderName)
        && app.fileData == old(app.fileData)
    {
      if file.None? {
        error := NoFileMessage;
        return;
      }
      var selected := file.value;
      var response := post(selected);
      match response {
        case Resolved(body) =>
          fileData := body.data.GetOr([]);
          folderName := BeforeFirstDot(selected.name);
          app.UpdateTableData(body.data.GetOr([]));
          if Truthy(body.message) {
            uploadSuccess := true;
            snackbarMessage := body.message.value;
            snackbarSeverity := SeveritySuccess;
          } else if Truthy(body.error) {
            uploadSuccess := false;
            snackbarMessage := body.error.value;
            snackbarSeverity := SeverityError;
          }
          snackbarOpen := true;
        case Rejected(_) =>
          error := UploadErrorMessage;
          uploadProgress := None;
          snackbarMessage := UploadFailedNotice + errorText;
          snackbarSeverity := SeverityError;
          snackbarOpen := true;
      }
    }

    /**
     * Asks the server to process `fileName`. Success marks the status
     * 'Success' and shows the server's message (JavaScript renders a missing
     * one as "undefined"), keeping the notice's severity; failure marks
     * 'Error' with an error notice.
     */
    method StartFileProcessing(fileName: string, trigger: string -> Fetched<TriggerBody>)
      modifies this`processStatus, this`snackbarOpen, this`snackbarMessage, this`snackbarSeverity
      ensures snackbarOpen
      ensures trigger(fileName).Resolved? ==>
        && processStatus == Some(ProcessSuccess)
        && snackbarMessage == TriggeredPrefix + trigger(fileName).body.message.GetOr("undefined")
        && snackbarSeverity == old(snackbarSeverity)
      ensures trigger(fileName).Rejected? ==>
        && processStatus == Some(ProcessError)
        && snackbarMessage == ProcessFailedNotice && snackbarSeverity == SeverityError
    {
      var response := trigger(fileName);
      if response.Resolved? {
        snackbarMessage := TriggeredPrefix + response.body.message.GetOr("undefined");
        processStatus := Some(ProcessSuccess);
        snackbarOpen := true;
      } else {
        snackbarMessage := ProcessFailedNotice;
        snackbarSeverity := SeverityError;
        processStatus := Some(ProcessError);
        snackbarOpen := true;
      }
    }

    /** The process button: runs the trigger for the selected file's name, or does nothing. */
    method HandleProcess(trigger: string -> Fetched<TriggerBody>)
      modifies this`processStatus, this`snackbarOpen, this`snackbarMessage, this`snackbarSeverity
      ensures file.None? ==>
        processStatus == old(processStatus) && snackbarOpen == old(snackbarOpen)
        && snackbarMessage == old(snackbarMessage) && snackbarSeverity == old(snackbarSeverity)
      ensures file.Some? ==> snackbarOpen
      ensures file.Some? ==> (ShowFolderChecker() <==> |fileData| > 0 && trigger(file.value.name).Resolved?)
      ensures file.Some? && trigger(file.value.name).Resolved? ==>
        && processStatus == Some(ProcessSuccess)
        && snackbarMessage == TriggeredPrefix + trigger(file.value.name).body.message.GetOr("undefined")
        && snackbarSeverity == old(snackbarSeverity)
      ensures file.Some? && trigger(file.value.name).Rejected? ==>
        && processStatus == Some(ProcessError)
        && snackbarMessage == ProcessFailedNotice && snackbarSeverity == SeverityError
    {
      if file.Some? {
        StartFileProcessing(file.value.name, trigger);
      }
    }

    /** Closing the notice, except by a click elsewhere on the page. */
    method HandleSnackbarClose(reason: Option<string>)
      modifies this`snackbarOpen
      ensures snackbarOpen == (old(snackbarOpen) && reason == Some("clickaway"))
    {
      if reason == Some("clickaway") {
        return;
      }
      snackbarOpen := false;
    }

    /** The folder checker appears once data has arrived and processing was triggered successfully. */
    predicate ShowFolderChecker()
      reads this
    {
      |fileData| > 0 && processStatus == Some(ProcessSuccess)
    }

    /**
     * Choosing a file, followed by the effect that uploads every newly
     * accepted selection. A rejected file never reaches the server and
     * leaves the shared dataset as it was.
     */
    method SelectFile(selected: FileRef, post: FileRef -> Fetched<UploadBody>, errorText: string)
      modifies this`file, this`error, this`fileData, this`folderName, this`uploadProgress
      modifies this`uploadSuccess, this`snackbarOpen, this`snackbarMessage, this`snackbarSeverity
      modifies app`fileData
      ensures !ClientAccepts(selected.name) ==>
        && file == None && error == InvalidFileMessage
        && fileData == old(fileData) && app.fileData == old(app.fileData)
        && folderName == old(folderName) && uploadProgress == old(uploadProgress)
        && uploadSuccess == old(uploadSuccess) && snackbarOpen == old(snackbarOpen)
        && snackbarMessage == old(snackbarMessage) && snackbarSeverity == old(snackbarSeverity)
      ensures ClientAccepts(selected.name) && post(selected).Resolved? ==>
        var body := post(selected).body;
        && file == Some(selected) && error == "" && uploadProgress == old(uploadProgress)
        && fileData == body.data.GetOr([]) && app.fileData == fileData
        && folderName == BeforeFirstDot(selected.name)
        && snackbarOpen
        && (Truthy(body.message) ==>
              uploadSuccess && snackbarMessage == body.message.value
              && snackbarSeverity == SeveritySuccess)
        && (!Truthy(body.message) && Truthy(body.error) ==>
              !uploadSuccess && snackbarMessage == body.error.value
              && snackbarSeverity == SeverityError)
        && (!Truthy(body.message) && !Truthy(body.error) ==>
              uploadSuccess == old(uploadSuccess) && snackbarMessage == old(snackbarMessage)
              && snackbarSeverity == old(snackbarSeverity))
      ensures ClientAccepts(selected.name) && post(selected).Rejected? ==>
        && file == Some(selected) && error == UploadErrorMessage && uploadProgress == None
        && snackbarMessage == UploadFailedNotice + errorText
        && snackbarSeverity == SeverityError && snackbarOpen
        && uploadSuccess == old(uploadSuccess)
        && fileData == old(fileData) && folderName == old(folderName)
        && app.fileData == old(app.fileData)
    {
      HandleFileChange(Some(selected));
      if ClientAccepts(selected.name) {
        assert file == Some(selected) && error == "";
        HandleUpload(post, errorText);
      }
    }
  }
}

/**
 * One entry of the folder checker's file list: "Export" only announces the
 * file; "View" fetches the file's sheets and publishes them to the
 * application's shared table data.
 */
module FileView {
  import opened Wrappers
  import opened Dataset
  import opened Responses
  import App

  /** The alert both "Export" buttons show. */
  function ExportNotice(file: string): (notice: string)
    ensures |notice| > |file| && notice[|notice| - |file|..] == file
  {
    "Exporting " + file
  }

  class FileItem {
    /**
     * The entry's props. The list keys its entries by position, so a new
     * list re-renders an entry with new props while its state stays.
     */
    var file: string
    var folderName: string
    /** The shared application state reached through the data context. */
    const app: App.AppState
    var status: string
    var fileData: Sheets

    constructor (file: string, folderName: string, app: App.AppState)
      ensures this.file == file && this.folderName == folderName && this.app == app
      ensures status == "" && fileData == []
    {
      this.file := file;
      this.folderName := folderName;
      this.app := app;
      status := "";
      fileData := [];
    }

    /** A re-render with new props: the state of an earlier view is kept. */
    method ReceiveProps(file: string, folderName: string)
      modifies this`file, this`folderName
      ensures this.file == file && this.folderName == folderName
    {
      this.file := file;
      this.folderName := folderName;
    }

    /** "Export": shows a notice naming the file and changes nothing. */
    method HandleExport() returns (notice: string)
      ensures notice == ExportNotice(file)
    {
      notice := "Exporting " + file;
    }

    /**
     * "View": asks the view endpoint for (folder name, file name). On
     * success the answer's status and sheets are kept and the sheets are
     * published to the application; on failure the status shows the
     * payload's status or "Error occurred", the local sheets are cleared
     * and the application's data is left as it was.
     */
    method HandleView(viewData: (string, string) -> Fetched<ViewBody>)
      modifies this`status, this`fileData, app`fileData
      ensures var answer := viewData(folderName, file);
        && (answer.Resolved? ==>
              status == answer.body.status.GetOr("")
              && fileData == answer.body.data.GetOr([])
              && app.fileData == fileData)
        && (answer.Rejected? ==>
              status == ErrorStatus(PayloadStatus(answer.payload, (b: ViewBody) => b.status))
              && fileData == []
              && app.fileData == old(app.fileData))
      ensures app.tabName == old(app.tabName) && app.tabData == old(app.tabData)
    {
      var answer := viewData(folderName, file);
      match answer
      case Resolved(body) =>
        status := body.status.GetOr("");
        fileData := body.data.GetOr([]);
        app.UpdateTableData(fileData);
      case Rejected(payload) =>
        status := ErrorStatus(if payload.Some? then payload.value.status else None);
        fileData := [];
    }
  }
}

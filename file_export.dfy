/**
 * The stand-alone exporter page: the user types a folder name, checks its
 * status and gets one entry per reported file, each with "Export" and
 * "View" buttons that only show a notice.
 */
module Exporter {
  import opened Wrappers
  import opened Responses
  import FileView

  /** The alert the exporter's "View" buttons show. */
  function ViewNotice(file: string): (notice: string)
    ensures |notice| > |file| && notice[|notice| - |file|..] == file
  {
    "Viewing " + file
  }

  class FileExport {
    var folderName: string
    var status: string
    var files: seq<string>

    constructor ()
      ensures folderName == "" && status == "" && files == []
    {
      folderName := "";
      status := "";
      files := [];
    }

    /** Typing into the folder field replaces the folder name and nothing else. */
    method HandleInputChange(text: string)
      modifies this`folderName
      ensures folderName == text
      ensures status == old(status) && files == old(files)
    {
      folderName := text;
    }

    /**
     * "Check Folder": asks the status endpoint about the folder name as
     * currently typed; the outcome rules are those of the folder checker.
     */
    method HandleCheckFolder(checkStatus: string -> Fetched<StatusBody>)
      modifies this`status, this`files
      ensures folderName == old(folderName)
      ensures (status, files) == CheckOutcome(checkStatus(folderName))
      ensures checkStatus(folderName).Rejected? ==> status != "" && files == []
    {
      var answer := checkStatus(folderName);
      match answer
      case Resolved(body) =>
        status := body.status.GetOr("");
        files := body.files.GetOr([]);
      case Rejected(payload) =>
        status := ErrorStatus(if payload.Some? then payload.value.status else None);
        files := [];
    }

    /** "Export" on a listed file: a notice naming it, no state change. */
    method HandleExport(file: string) returns (notice: string)
      ensures notice == FileView.ExportNotice(file)
    {
      notice := "Exporting " + file;
    }

    /** "View" on a listed file: a notice naming it, no state change. */
    method HandleView(file: string) returns (notice: string)
      ensures notice == ViewNotice(file)
    {
      notice := "Viewing " + file;
    }

    /**
     * The rendered list: nothing when there are no files, otherwise one
     * entry per file in order, each with the notices its buttons show.
     */
    function ListEntries(): (entries: seq<(string, string, string)>)
      reads this
      ensures |entries| == |files|
      ensures forall i :: 0 <= i < |entries| ==>
        entries[i] == (files[i], FileView.ExportNotice(files[i]), ViewNotice(files[i]))
    {
      seq(|files|, i requires 0 <= i < |files| reads this =>
        (files[i], FileView.ExportNotice(files[i]), ViewNotice(files[i])))
    }
  }
}

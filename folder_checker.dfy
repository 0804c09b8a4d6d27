/**
 * The folder-status view mounted under the upload controller: it checks the
 * export folder named after the uploaded file and lists the files the
 * server reports there.
 */
module FolderCheck {
  import opened Wrappers
  import opened Responses

  class FolderChecker {
    /**
     * The folder to check: the parent's current folder name. The parent keeps
     * the view mounted across a new upload, so it can change while `status`
     * and `files` still describe the previous folder.
     */
    var fileName: string
    var status: string
    var files: seq<string>

    constructor (fileName: string)
      ensures this.fileName == fileName && status == "" && files == []
    {
      this.fileName := fileName;
      status := "";
      files := [];
    }

    /**
     * The parent re-renders the mounted view with a new folder name: the
     * state of the earlier check is kept as it is.
     */
    method ReceiveFileName(name: string)
      modifies this`fileName
      ensures fileName == name
    {
      fileName := name;
    }

    /**
     * "View Processed Data": asks the status endpoint about `fileName`.
     * The request is the parameter `checkStatus`, applied to the name it
     * sends. A failed check always leaves a status to show and no list.
     */
    method HandleCheckFolder(checkStatus: string -> Fetched<StatusBody>)
      modifies this`status, this`files
      ensures (status, files) == CheckOutcome(checkStatus(fileName))
      ensures checkStatus(fileName).Rejected? ==> ShowStatus() && !ShowFileList()
    {
      var answer := checkStatus(fileName);
      match answer
      case Resolved(body) =>
        status := body.status.GetOr("");
        files := body.files.GetOr([]);
      case Rejected(payload) =>
        status := ErrorStatus(if payload.Some? then payload.value.status else None);
        files := [];
    }

    /** The status line is rendered only when the status is not empty. */
    predicate ShowStatus()
      reads this
    {
      status != ""
    }

    /** The file list is rendered only when there are files. */
    predicate ShowFileList()
      reads this
    {
      |files| > 0
    }

    /**
     * The entries of the rendered list: one per file, in order, each
     * carrying the folder name the view holds now.
     */
    function ListEntries(): (entries: seq<(string, string)>)
      reads this
      ensures ShowFileList() <==> |entries| > 0
      ensures |entries| == |files|
      ensures forall i :: 0 <= i < |entries| ==> entries[i] == (files[i], fileName)
    {
      seq(|files|, i requires 0 <= i < |files| reads this => (files[i], fileName))
    }
  }

  /**
   * A check followed by a new upload's folder name: the list still shows
   * the files of the folder that was checked, now paired with the new
   * name, so viewing one asks the new folder for it.
   */
  method CheckThenRename(c: FolderChecker, checkStatus: string -> Fetched<StatusBody>, next: string)
    modifies c
    ensures (c.status, c.files) == CheckOutcome(checkStatus(old(c.fileName)))
    ensures c.fileName == next
    ensures forall i :: 0 <= i < |c.files| ==> c.ListEntries()[i] == (c.files[i], next)
  {
    c.HandleCheckFolder(checkStatus);
    c.ReceiveFileName(next);
  }
}

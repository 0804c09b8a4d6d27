/**
 * How the client reads the server's replies: each lemma feeds a server
 * endpoint's reply through the HTTP client's settlement rule and states what
 * the component handling it ends up with.
 */
module EndToEnd {
  import opened Wrappers
  import opened Text
  import opened Dataset
  import opened Responses
  import Server
  import Uploader

  /**
   * The two extension filters disagree: a ".xls" file or a dot-less name
   * ending in "xlsx" passes the client and is refused by the server, while
   * an upper-case ".CSV" passes the server and is refused by the client.
   */
  lemma ExtensionFiltersDisagree(stem: string)
    ensures Uploader.ClientAccepts(stem + ".xls") && !Server.AllowedFile(stem + ".xls")
    ensures Server.AllowedFile(stem + ".CSV") && !Uploader.ClientAccepts(stem + ".CSV")
    ensures '.' !in stem ==> Uploader.ClientAccepts(stem + "xlsx") && !Server.AllowedFile(stem + "xlsx")
  {
    XlsOnlyOnClient(stem);
    UpperCaseCsvOnlyOnServer(stem);
    if '.' !in stem {
      DotlessXlsxOnlyOnClient(stem);
    }
  }

  lemma XlsOnlyOnClient(stem: string)
    ensures Uploader.ClientAccepts(stem + ".xls") && !Server.AllowedFile(stem + ".xls")
  {
    var xls := stem + ".xls";
    Uploader.ClientAcceptsSuffixes(xls);
    assert xls[|xls| - 4..] == ".xls";
    Server.RefusedFileExamples(stem);
  }

  lemma UpperCaseCsvOnlyOnServer(stem: string)
    ensures Server.AllowedFile(stem + ".CSV") && !Uploader.ClientAccepts(stem + ".CSV")
  {
    var upper := stem + ".CSV";
    Uploader.ClientAcceptsSuffixes(upper);
    Server.AllowedUpperCase(stem);
    assert upper[|upper| - 1] == 'V';
    assert !EndsWith(upper, ".csv") by {
      assert ".csv"[3] == 'v';
    }
    assert !EndsWith(upper, "xlsx") by {
      assert "xlsx"[3] == 'x';
    }
    assert !EndsWith(upper, ".xls") by {
      assert ".xls"[3] == 's';
    }
  }

  lemma DotlessXlsxOnlyOnClient(stem: string)
    requires '.' !in stem
    ensures Uploader.ClientAccepts(stem + "xlsx") && !Server.AllowedFile(stem + "xlsx")
  {
    var bare := stem + "xlsx";
    Uploader.ClientAcceptsSuffixes(bare);
    assert bare[|bare| - 4..] == "xlsx";
    forall k | 0 <= k < |bare|
      ensures bare[k] != '.'
    {
      if k < |stem| {
        assert bare[k] == stem[k];
      } else {
        assert bare[k] == "xlsx"[k - |stem|];
      }
    }
    Server.AllowedFileNeedsDot(bare);
  }

  /**
   * An upload the server stores and reads is answered with 2xx and a
   * non-empty message, so the uploader reports success and publishes the
   * single sheet named after the stored file; every other answer rejects
   * the request, so the uploader's branch for a resolved answer carrying an
   * error is never taken with this server.
   */
  lemma UploadRepliesAsTheUploaderReadsThem(part: Option<string>, secureName: string, stored: Server.Outcome<seq<Row>>)
    ensures var f := Fetch(Server.UploadFile(part, secureName, stored));
      && (f.Resolved? ==>
            && Truthy(f.body.message)
            && f.body.message.value == Server.UploadedPrefix + secureName
            && f.body.data == Some([Sheet(secureName, stored.value)]))
      && (f.Rejected? ==> f.payload.Some? && f.payload.value.error.Some?)
      && (f.Resolved? <==>
            (part.Some? && Server.AllowedFile(part.value) && stored.Done?
             && (EndsWith(part.value, ".csv") || EndsWith(part.value, ".xlsx"))))
  {
  }

  /**
   * What either status view shows after checking a folder on this server:
   * an empty name reads as "Error occurred" (the 400 reply has no status),
   * a missing folder as "Folder not found", a finished report as "success"
   * with its CSV and workbook files, a failed one as "File generation
   * failed", anything else as in progress; only a finished report lists
   * files, and a status is always shown.
   */
  lemma StatusCheckAsShown(name: string, folders: map<string, seq<string>>)
    ensures var shown := CheckOutcome(Fetch(Server.CheckFolder(Some(name), folders)));
      && shown.0 != ""
      && (name == "" ==> shown == (ErrorOccurred, []))
      && (name != "" && name !in folders ==> shown == (Server.FolderNotFound, []))
      && (name != "" && name in folders && Server.SuccessMarker in folders[name] ==>
            shown == (Server.SuccessStatus, Server.ReportFiles(folders[name])))
      && ((name != "" && name in folders && Server.SuccessMarker !in folders[name]
           && Server.FailureMarker in folders[name]) ==> shown == (Server.GenerationFailed, []))
      && ((name != "" && name in folders && Server.SuccessMarker !in folders[name]
           && Server.FailureMarker !in folders[name]) ==> shown == (Server.InProgress, []))
  {
  }

  /**
   * A view request the server answers with 2xx always carries the status
   * "success" and a sheet list, so the file entry never falls back to its
   * defaults; and a request for a listed ".csv" file that pandas reads
   * publishes exactly one sheet named after the file.
   */
  lemma ViewRepliesAsTheFileEntryReadsThem(folderName: string, fileName: string, folders: map<string, seq<string>>,
                                           csv: Server.Outcome<seq<Row>>, workbook: Server.Outcome<Server.Workbook>)
    ensures var f := Fetch(Server.GetFile(Some(folderName), Some(fileName), folders, csv, workbook));
      && (f.Resolved? ==> f.body.status == Some(Server.SuccessStatus) && f.body.data.Some?)
      && (folderName != "" && folderName in folders && fileName in folders[folderName]
          && EndsWith(fileName, ".csv") && csv.Done? ==>
            f == Resolved(ViewBody(Some(Server.SuccessStatus), Some([Sheet(fileName, csv.value)]), None)))
  {
  }

  /**
   * The trigger endpoint accepts exactly a JSON object with a non-empty
   * string filename; the uploader then shows "File processing triggered:
   * File processing started".
   */
  lemma TriggerRepliesAsTheUploaderReadsThem(req: Server.TriggerRequest)
    ensures var f := Fetch(Server.TriggerFileProcess(req));
      && (f.Resolved? <==>
            (req.JsonObject? && req.filename.Some? && req.filename.value.JsonString?
             && req.filename.value.text != ""))
      && (f.Resolved? ==>
            Uploader.TriggeredPrefix + f.body.message.GetOr("undefined")
            == Uploader.TriggeredPrefix + Server.ProcessingStarted)
  {
  }

  /**
   * The report walk-through: uploading "report.xlsx" names the folder
   * "report"; once that folder holds "out.csv" and the success marker, the
   * folder checker shows "success" and lists exactly "out.csv".
   */
  lemma ReportWalkThrough()
    ensures BeforeFirstDot("report.xlsx") == "report"
    ensures CheckOutcome(Fetch(Server.CheckFolder(Some("report"), map["report" := ["out.csv", Server.SuccessMarker]])))
      == (Server.SuccessStatus, ["out.csv"])
  {
    Uploader.FolderNameExample();
    var listing := ["out.csv", Server.SuccessMarker];
    assert EndsWith("out.csv", ".csv");
    assert !EndsWith(Server.SuccessMarker, ".csv") by {
      assert Server.SuccessMarker[|Server.SuccessMarker| - 1] == 't';
    }
    assert !EndsWith("out.csv", ".xlsx") by {
      assert "out.csv"[6] == 'v';
    }
    assert !EndsWith(Server.SuccessMarker, ".xlsx") by {
      assert Server.SuccessMarker[|Server.SuccessMarker| - 1] == 't';
    }
    assert listing[1..][1..] == [];
    assert Server.WithSuffix(listing, ".csv") == ["out.csv"];
    assert Server.WithSuffix(listing, ".xlsx") == [];
  }
}

/**
 * The Flask server's decision logic. Each endpoint is a pure function from
 * its request parameters, and from what its calls into the file system and
 * the spreadsheet library produced (passed in as arguments), to the reply
 * it sends: a status code and a JSON body.
 */
module Server {
  import opened Wrappers
  import opened Text
  import opened Dataset
  import opened Responses

  /** What a call into the file system or the spreadsheet library produced: a value, or an exception with its text. */
  datatype Outcome<T> = Done(value: T) | Raised(message: string)

  // ---------------------------------------------------------------- allowed_file

  const AllowedExtensions: set<string> := {"csv", "xlsx"}

  /** `name.rsplit('.', 1)[1]`: the text after the last dot, when there is a dot. */
  function AfterLastDot(name: string): (r: Option<string>)
    ensures r.None? <==> '.' !in name
    ensures r.Some? ==>
      && '.' !in r.value && |r.value| < |name|
      && name[|name| - |r.value|..] == r.value && name[|name| - |r.value| - 1] == '.'
  {
    match LastIndexOf(name, '.')
    case None => None
    case Some(i) =>
      var ext := name[i + 1..];
      assert forall k :: 0 <= k < |ext| ==> ext[k] == name[i + 1 + k];
      Some(ext)
  }

  /** The upload filter: the name has a dot and its extension, lower-cased, is "csv" or "xlsx". */
  predicate AllowedFile(filename: string)
    ensures AllowedFile(filename) ==> '.' in filename && |filename| >= 4
  {
    var ext := AfterLastDot(filename);
    ext.Some? && Lower(ext.value) in AllowedExtensions
  }

  lemma AfterLastDotOf(stem: string, ext: string)
    requires '.' !in ext
    ensures AfterLastDot(stem + "." + ext) == Some(ext)
  {
    LastIndexOfJoined(stem, '.', ext);
    assert stem + "." + ext == stem + ['.'] + ext;
    assert (stem + "." + ext)[|stem| + 1..] == ext;
  }

  /**
   * Only the extension after the last dot decides, compared without regard
   * to letter case; a name without a dot is never allowed.
   */
  lemma AllowedFileByExtension(stem: string, ext: string)
    requires '.' !in ext
    ensures AllowedFile(stem + "." + ext) <==> Lower(ext) in AllowedExtensions
  {
    AfterLastDotOf(stem, ext);
  }

  lemma AllowedFileNeedsDot(name: string)
    requires '.' !in name
    ensures !AllowedFile(name)
  {
  }

  /** `stem + suffix` is allowed when the suffix is a dot and an extension that lower-cases to an allowed one. */
  lemma AllowedWithSuffix(stem: string, ext: string)
    requires '.' !in ext && Lower(ext) in AllowedExtensions
    ensures AllowedFile(stem + ("." + ext))
  {
    assert stem + ("." + ext) == stem + "." + ext;
    AllowedFileByExtension(stem, ext);
  }

  /** The filter ignores letter case: "name.CSV" is allowed whatever the name. */
  lemma AllowedUpperCase(stem: string)
    ensures AllowedFile(stem + ".CSV")
  {
    assert Lower("CSV") == "csv" by {
      var l := Lower("CSV");
      assert l[0] == 'c' && l[1] == 's' && l[2] == 'v';
    }
    assert "." + "CSV" == ".CSV";
    AllowedWithSuffix(stem, "CSV");
  }

  /** `stem + suffix` is refused when the suffix is a dot and an extension that lower-cases to neither allowed one. */
  lemma RefusedWithSuffix(stem: string, ext: string)
    requires '.' !in ext && Lower(ext) !in AllowedExtensions
    ensures !AllowedFile(stem + ("." + ext))
  {
    assert stem + ("." + ext) == stem + "." + ext;
    AllowedFileByExtension(stem, ext);
  }

  /** Whatever comes before the dot: ".xls" (which the client accepts) and ".txt" are refused. */
  lemma RefusedFileExamples(stem: string)
    ensures !AllowedFile(stem + ".xls") && !AllowedFile(stem + ".txt")
  {
    assert Lower("xls")[0] == 'x' && Lower("txt")[0] == 't';
    RefusedWithSuffix(stem, "xls");
    assert "." + "xls" == ".xls";
    RefusedWithSuffix(stem, "txt");
    assert "." + "txt" == ".txt";
  }

  // ---------------------------------------------------------------- upload_file

  const NoFilePart := "No file part in the request"
  const NoSelectedFile := "No selected file"
  const TypeNotAllowed := "File type not allowed"
  const UploadedPrefix := "File uploaded successfully: "
  /** What Python reports when the reply is built from a `df` no branch assigned. */
  const UnboundFrame := "cannot access local variable 'df' where it is not associated with a value"

  function UploadError(code: int, message: string): Reply<UploadBody> {
    Reply(code, UploadBody(None, None, Some(message)))
  }

  /**
   * `POST /api/upload`. `part` is the client file name of the request's
   * "file" part (None when there is no such part), `secureName` the name
   * werkzeug makes of it, and `stored` the records pandas read back from
   * the saved copy (the first sheet of a workbook), or the exception that
   * saving or reading raised.
   */
  function UploadFile(part: Option<string>, secureName: string, stored: Outcome<seq<Row>>): (r: Reply<UploadBody>)
    ensures part.None? ==> r == UploadError(400, NoFilePart)
    ensures part == Some("") ==> r == UploadError(400, NoSelectedFile)
    ensures part.Some? && part.value != "" && !AllowedFile(part.value) ==> r == UploadError(400, TypeNotAllowed)
    ensures r.code == 200 <==>
      part.Some? && AllowedFile(part.value) && stored.Done?
      && (EndsWith(part.value, ".csv") || EndsWith(part.value, ".xlsx"))
    ensures r.code == 200 ==>
      r.body == UploadBody(Some(UploadedPrefix + secureName), Some([Sheet(secureName, stored.value)]), None)
    ensures r.code != 200 ==> (r.code == 400 || r.code == 500) && r.body.error.Some? && r.body.data.None?
  {
    if part.None? then UploadError(400, NoFilePart)
    else if part.value == "" then UploadError(400, NoSelectedFile)
    else if AllowedFile(part.value) then
      match stored
      case Raised(e) => UploadError(500, e)
      case Done(rows) =>
        if EndsWith(part.value, ".csv") || EndsWith(part.value, ".xlsx") then
          Reply(200, UploadBody(Some(UploadedPrefix + secureName), Some([Sheet(secureName, rows)]), None))
        else
          UploadError(500, UnboundFrame)
    else UploadError(400, TypeNotAllowed)
  }

  /**
   * The filter lower-cases the extension but the reading branches compare
   * it exactly: an upper-case ".CSV" passes the filter and then fails with
   * 500 even when the file was stored and read.
   */
  lemma UploadUpperCaseExtension(stem: string, secureName: string, rows: seq<Row>)
    ensures UploadFile(Some(stem + ".CSV"), secureName, Done(rows)).code == 500
  {
    var name := stem + ".CSV";
    AllowedUpperCase(stem);
    assert name[|name| - 1] == 'V';
    assert !EndsWith(name, ".csv") by {
      assert ".csv"[3] == 'v';
    }
    assert !EndsWith(name, ".xlsx") by {
      assert ".xlsx"[4] == 'x';
    }
  }

  // ---------------------------------------------------------------- check_folder

  const SuccessMarker := "success.txt"
  const FailureMarker := "failure.txt"
  const FolderRequired := "Folder name is required"
  const FolderNotFound := "Folder not found"
  const SuccessStatus := "success"
  const GenerationFailed := "File generation failed"
  const InProgress := "Report generation is still in progress"

  /** `[f for f in names if f.endswith(suffix)]`. */
  function WithSuffix(names: seq<string>, suffix: string): (r: seq<string>)
    ensures |r| <= |names|
    ensures forall f :: f in r <==> f in names && EndsWith(f, suffix)
  {
    if names == [] then []
    else (if EndsWith(names[0], suffix) then [names[0]] else []) + WithSuffix(names[1..], suffix)
  }

  /** `sub` can be obtained from `s` by deleting entries: it keeps their order. */
  ghost predicate InOrderWithin(sub: seq<string>, s: seq<string>)
    decreases |s|
  {
    if sub == [] then true
    else if s == [] then false
    else if sub[0] == s[0] then InOrderWithin(sub[1..], s[1..])
    else InOrderWithin(sub, s[1..])
  }

  /** The filtered names keep the order they have in the listing. */
  lemma {:induction false} WithSuffixInListingOrder(names: seq<string>, suffix: string)
    ensures InOrderWithin(WithSuffix(names, suffix), names)
    decreases |names|
  {
    if names != [] {
      var rest := WithSuffix(names[1..], suffix);
      WithSuffixInListingOrder(names[1..], suffix);
      if EndsWith(names[0], suffix) {
        assert WithSuffix(names, suffix) == [names[0]] + rest;
        assert ([names[0]] + rest)[1..] == rest;
      } else {
        assert WithSuffix(names, suffix) == rest;
        if rest != [] {
          assert rest[0] in rest;
        }
      }
    }
  }

  /** The file list of a finished report: the CSV names, then the workbook names. */
  function ReportFiles(listing: seq<string>): (r: seq<string>)
    ensures forall f :: f in r ==> f in listing
    ensures SuccessMarker !in r && FailureMarker !in r
  {
    WithSuffix(listing, ".csv") + WithSuffix(listing, ".xlsx")
  }

  lemma CsvIsNotXlsx(f: string)
    ensures !(EndsWith(f, ".csv") && EndsWith(f, ".xlsx"))
  {
    if EndsWith(f, ".csv") {
      assert f[|f| - 1] == 'v';
    }
  }

  /**
   * A finished report lists exactly the listing's ".csv" and ".xlsx" names,
   * never the marker files, every CSV name before every workbook name, and
   * each group in listing order.
   */
  lemma ReportFilesContents(listing: seq<string>)
    ensures var files := ReportFiles(listing);
      && (forall f :: f in files <==> f in listing && (EndsWith(f, ".csv") || EndsWith(f, ".xlsx")))
      && SuccessMarker !in files && FailureMarker !in files
      && (forall i, j :: 0 <= i < j < |files| && EndsWith(files[i], ".xlsx") ==> !EndsWith(files[j], ".csv"))
      && InOrderWithin(WithSuffix(listing, ".csv"), listing)
      && InOrderWithin(WithSuffix(listing, ".xlsx"), listing)
  {
    var csv := WithSuffix(listing, ".csv");
    var files := ReportFiles(listing);
    assert SuccessMarker[|SuccessMarker| - 1] == 't';
    assert FailureMarker[|FailureMarker| - 1] == 't';
    forall i, j | 0 <= i < j < |files| && EndsWith(files[i], ".xlsx")
      ensures !EndsWith(files[j], ".csv")
    {
      if i < |csv| {
        assert files[i] in csv;
        CsvIsNotXlsx(files[i]);
      }
      assert files[j] in WithSuffix(listing, ".xlsx");
      CsvIsNotXlsx(files[j]);
    }
    WithSuffixInListingOrder(listing, ".csv");
    WithSuffixInListingOrder(listing, ".xlsx");
  }

  /**
   * `GET /api/checkExportStatus?name=…` over the export area, given as a
   * map from folder name to the names the folder holds.
   */
  function CheckFolder(name: Option<string>, folders: map<string, seq<string>>): (r: Reply<StatusBody>)
    ensures !Truthy(name) ==> r == Reply(400, StatusBody(None, None, Some(FolderRequired)))
    ensures Truthy(name) && name.value !in folders ==> r == Reply(404, StatusBody(Some(FolderNotFound), None, None))
    ensures Truthy(name) && name.value in folders ==>
      var listing := folders[name.value];
      && (SuccessMarker in listing ==>
            r == Reply(200, StatusBody(Some(SuccessStatus), Some(ReportFiles(listing)), None)))
      && (SuccessMarker !in listing && FailureMarker in listing ==>
            r == Reply(500, StatusBody(Some(GenerationFailed), None, None)))
      && (SuccessMarker !in listing && FailureMarker !in listing ==>
            r == Reply(200, StatusBody(Some(InProgress), None, None)))
    ensures r.code == 200 ==> r.body.status.Some? && r.body.status.value != ""
  {
    if !Truthy(name) then Reply(400, StatusBody(None, None, Some(FolderRequired)))
    else if name.value !in folders then Reply(404, StatusBody(Some(FolderNotFound), None, None))
    else
      var listing := folders[name.value];
      if SuccessMarker in listing then Reply(200, StatusBody(Some(SuccessStatus), Some(ReportFiles(listing)), None))
      else if FailureMarker in listing then Reply(500, StatusBody(Some(GenerationFailed), None, None))
      else Reply(200, StatusBody(Some(InProgress), None, None))
  }

  // ---------------------------------------------------------------- get_file

  const ParamsRequired := "Folder name and file name are required"
  const FileNotFound := "File not found"
  const NeitherKind := "Provided file is neither a CSV nor an Excel file"

  /** A workbook as pandas loads it with every sheet: (sheet name, records), in workbook order. */
  type Workbook = seq<(string, seq<Row>)>

  /** The reply's sheet list for a workbook: one sheet per workbook sheet, in order. */
  function WorkbookSheets(wb: Workbook): (sheets: Sheets)
    ensures |sheets| == |wb|
    ensures forall i :: 0 <= i < |wb| ==> sheets[i].sheetName == wb[i].0 && sheets[i].sheetContent == wb[i].1
  {
    seq(|wb|, i requires 0 <= i < |wb| => Sheet(wb[i].0, wb[i].1))
  }

  /** The loop over the loaded workbook's sheets that builds the reply's list. */
  method CollectSheets(wb: Workbook) returns (result: Sheets)
    ensures result == WorkbookSheets(wb)
  {
    result := [];
    var k := 0;
    while k < |wb|
      invariant 0 <= k <= |wb|
      invariant |result| == k
      invariant forall i :: 0 <= i < k ==> result[i] == Sheet(wb[i].0, wb[i].1)
    {
      result := result + [Sheet(wb[k].0, wb[k].1)];
      k := k + 1;
    }
  }

  function ViewStatus(code: int, status: string): Reply<ViewBody> {
    Reply(code, ViewBody(Some(status), None, None))
  }

  function ViewSheets(sheets: Sheets): Reply<ViewBody> {
    Reply(200, ViewBody(Some(SuccessStatus), Some(sheets), None))
  }

  function ViewFailure(message: string): Reply<ViewBody> {
    Reply(500, ViewBody(None, None, Some(message)))
  }

  /** Both parameters are present and the folder lists the file. */
  predicate Listed(folderName: Option<string>, fileName: Option<string>, folders: map<string, seq<string>>) {
    Truthy(folderName) && Truthy(fileName) && folderName.value in folders
    && fileName.value in folders[folderName.value]
  }

  /**
   * `GET /api/viewData?folderName=…&fileName=…`. `csv` is what reading the
   * file as CSV produced and `workbook` what reading it as a workbook with
   * every sheet produced; only the one the extension selects is used.
   */
  function GetFile(folderName: Option<string>, fileName: Option<string>, folders: map<string, seq<string>>,
                   csv: Outcome<seq<Row>>, workbook: Outcome<Workbook>): (r: Reply<ViewBody>)
    ensures !Truthy(folderName) || !Truthy(fileName) ==> r == ViewStatus(400, ParamsRequired)
    ensures Truthy(folderName) && Truthy(fileName) && folderName.value !in folders ==>
      r == ViewStatus(404, FolderNotFound)
    ensures (Truthy(folderName) && Truthy(fileName) && folderName.value in folders
      && fileName.value !in folders[folderName.value]) ==> r == ViewStatus(404, FileNotFound)
    ensures r.code == 200 ==>
      && Truthy(folderName) && Truthy(fileName) && folderName.value in folders
      && fileName.value in folders[folderName.value]
      && r.body.status == Some(SuccessStatus) && r.body.data.Some?
    ensures r.code == 200 && EndsWith(fileName.value, ".csv") ==>
      csv.Done? && r.body.data.value == [Sheet(fileName.value, csv.value)]
    ensures r.code == 200 && !EndsWith(fileName.value, ".csv") ==>
      workbook.Done? && (EndsWith(fileName.value, ".xlsx") || EndsWith(fileName.value, ".xls"))
      && |r.body.data.value| == |workbook.value|
      && forall i :: 0 <= i < |workbook.value| ==>
           r.body.data.value[i].sheetName == workbook.value[i].0
           && r.body.data.value[i].sheetContent == workbook.value[i].1
    ensures r.code == 400 && Truthy(folderName) && Truthy(fileName) ==>
      !EndsWith(fileName.value, ".csv") && !EndsWith(fileName.value, ".xlsx") && !EndsWith(fileName.value, ".xls")
    ensures (Listed(folderName, fileName, folders) && EndsWith(fileName.value, ".csv")) ==>
      r == (if csv.Done? then ViewSheets([Sheet(fileName.value, csv.value)]) else ViewFailure(csv.message))
    ensures (Listed(folderName, fileName, folders) && !EndsWith(fileName.value, ".csv")
      && (EndsWith(fileName.value, ".xlsx") || EndsWith(fileName.value, ".xls"))) ==>
      r == (if workbook.Done? then ViewSheets(WorkbookSheets(workbook.value)) else ViewFailure(workbook.message))
    ensures (Listed(folderName, fileName, folders) && !EndsWith(fileName.value, ".csv")
      && !EndsWith(fileName.value, ".xlsx") && !EndsWith(fileName.value, ".xls")) ==>
      r == ViewStatus(400, NeitherKind)
  {
    if !Truthy(folderName) || !Truthy(fileName) then ViewStatus(400, ParamsRequired)
    else if folderName.value !in folders then ViewStatus(404, FolderNotFound)
    else if fileName.value !in folders[folderName.value] then ViewStatus(404, FileNotFound)
    else if EndsWith(fileName.value, ".csv") then
      match csv
      case Raised(e) => ViewFailure(e)
      case Done(rows) => ViewSheets([Sheet(fileName.value, rows)])
    else if EndsWith(fileName.value, ".xlsx") || EndsWith(fileName.value, ".xls") then
      match workbook
      case Raised(e) => ViewFailure(e)
      case Done(wb) => ViewSheets(WorkbookSheets(wb))
    else ViewStatus(400, NeitherKind)
  }

  // ---------------------------------------------------------------- process_file

  const ExportParamsRequired := "filename and foldername parameters are required"
  const NoExcelConversion := "Unsupported file type for Excel conversion"
  const NoCsvConversion := "Unsupported file type for CSV conversion"
  const InvalidFormat := "Invalid format requested. Use \"excel\" or \"csv\"."
  const ExcelMime := "application/vnd.openxmlformats-officedocument.spreadsheetml.sheet"
  const CsvMime := "text/csv"
  const ProcessedPrefix := "processed_"

  /** A download sent as an attachment, or a JSON error reply. */
  datatype Download = Sent(downloadName: string, mimetype: string) | Refused(code: int, error: string)

  /** `os.path.splitext(p)[1]` for POSIX paths: the last dot's suffix of the last path component, unless that component is only leading dots before it. */
  function SplitExt(p: string): (ext: string)
    ensures ext != [] ==> ext[0] == '.' && |ext| <= |p| && p[|p| - |ext|..] == ext
  {
    var sepIndex: int := match LastIndexOf(p, '/') case Some(i) => i case None => -1;
    match LastIndexOf(p, '.')
    case None => ""
    case Some(dotIndex) =>
      if dotIndex > sepIndex && exists k :: sepIndex < k < dotIndex && p[k] != '.' then p[dotIndex..] else ""
  }

  lemma SplitExtOf(stem: string, ext: string)
    requires '/' !in stem && '.' !in ext && '/' !in ext
    requires exists k :: 0 <= k < |stem| && stem[k] != '.'
    ensures SplitExt(stem + "." + ext) == "." + ext
  {
    var p := stem + "." + ext;
    assert p == stem + ['.'] + ext;
    LastIndexOfJoined(stem, '.', ext);
    assert '/' !in p;
    var k :| 0 <= k < |stem| && stem[k] != '.';
    assert p[k] == stem[k];
    assert p[|stem|..] == "." + ext;
  }

  /** The name of a converted download: "processed_", the name before its first dot, the new extension. */
  function ProcessedName(fileName: string, newExt: string): (r: string)
    ensures |r| >= |ProcessedPrefix| + |newExt|
    ensures r[..|ProcessedPrefix|] == ProcessedPrefix && EndsWith(r, newExt)
    ensures '.' !in r[|ProcessedPrefix|..|r| - |newExt|]
  {
    BeforeFirstDotIsPrefix(fileName);
    ProcessedPrefix + BeforeFirstDot(fileName) + newExt
  }

  /** A converted download's name is never the original name. */
  lemma ProcessedNameDiffers(fileName: string, newExt: string)
    ensures ProcessedName(fileName, newExt) != fileName
  {
    var f := BeforeFirstDot(fileName);
    var q := ProcessedName(fileName, newExt);
    BeforeFirstDotIsPrefix(fileName);
    if |f| < |ProcessedPrefix| {
      assert q[|f|] == ProcessedPrefix[|f|];
    } else if |f| < |q| {
      assert q[|f|] == f[|f| - |ProcessedPrefix|];
    }
  }

  /** Send the prepared file, unless reading or converting it raised. */
  function Deliver(failure: Option<string>, name: string, mimetype: string): Download {
    if failure.Some? then Refused(500, failure.value) else Sent(name, mimetype)
  }

  /** The (format, extension) pairs the endpoint serves. */
  predicate ServedPair(outputFormat: string, ext: string) {
    (outputFormat == "excel" || outputFormat == "csv") && (ext == ".xlsx" || ext == ".csv")
  }

  /**
   * `GET /process-file?fileName=…&folderName=…&format=…`. `found` is
   * whether the sanitised name exists in the folder; `failure` the text of
   * the exception reading or converting the file raised, if any.
   */
  function ProcessFile(fileName: Option<string>, folderName: Option<string>, format: Option<string>,
                       found: bool, failure: Option<string>): (r: Download)
    ensures !Truthy(fileName) || !Truthy(folderName) ==> r == Refused(400, ExportParamsRequired)
    ensures Truthy(fileName) && Truthy(folderName) && !found ==> r == Refused(404, FileNotFound)
    ensures r.Sent? <==>
      Truthy(fileName) && Truthy(folderName) && found && failure.None?
      && ServedPair(format.GetOr("excel"), Lower(SplitExt(fileName.value)))
    ensures (r.Refused? && Truthy(fileName) && Truthy(folderName) && found
      && !ServedPair(format.GetOr("excel"), Lower(SplitExt(fileName.value)))) ==> r.code == 400
  {
    var outputFormat := format.GetOr("excel");
    if !Truthy(fileName) || !Truthy(folderName) then Refused(400, ExportParamsRequired)
    else if !found then Refused(404, FileNotFound)
    else
      var name := fileName.value;
      var ext := Lower(SplitExt(name));
      if outputFormat == "excel" then
        if ext == ".xlsx" then Deliver(failure, name, ExcelMime)
        else if ext == ".csv" then Deliver(failure, ProcessedName(name, ".xlsx"), ExcelMime)
        else Refused(400, NoExcelConversion)
      else if outputFormat == "csv" then
        if ext == ".csv" then Deliver(failure, name, CsvMime)
        else if ext == ".xlsx" then Deliver(failure, ProcessedName(name, ".csv"), CsvMime)
        else Refused(400, NoCsvConversion)
      else Refused(400, InvalidFormat)
  }

  /**
   * A download keeps the original name exactly when the file already has
   * the requested format; a conversion is named after the prefix before the
   * first dot with the new extension; the type follows the format, which
   * is "excel" when none is given.
   */
  lemma ProcessFileDownload(fileName: Option<string>, folderName: Option<string>, format: Option<string>,
                            found: bool, failure: Option<string>)
    requires ProcessFile(fileName, folderName, format, found, failure).Sent?
    ensures var r := ProcessFile(fileName, folderName, format, found, failure);
      var outputFormat := format.GetOr("excel");
      var ext := Lower(SplitExt(fileName.value));
      && (r.downloadName == fileName.value <==>
            (outputFormat == "excel" && ext == ".xlsx") || (outputFormat == "csv" && ext == ".csv"))
      && (r.downloadName != fileName.value ==>
            r.downloadName == ProcessedName(fileName.value, if outputFormat == "excel" then ".xlsx" else ".csv"))
      && r.mimetype == (if outputFormat == "excel" then ExcelMime else CsvMime)
  {
    ProcessedNameDiffers(fileName.value, ".xlsx");
    ProcessedNameDiffers(fileName.value, ".csv");
  }

  /**
   * With no format given a CSV file is converted to a workbook named after
   * the prefix before its first dot; asked for "csv" it is sent under its
   * own name.
   */
  lemma ProcessCsvFile(stem: string, folderName: string)
    requires '/' !in stem && folderName != ""
    requires exists k :: 0 <= k < |stem| && stem[k] != '.'
    ensures ProcessFile(Some(stem + ".csv"), Some(folderName), None, true, None)
      == Sent(ProcessedName(stem + ".csv", ".xlsx"), ExcelMime)
    ensures ProcessFile(Some(stem + ".csv"), Some(folderName), Some("csv"), true, None)
      == Sent(stem + ".csv", CsvMime)
  {
    SplitExtOf(stem, "csv");
    assert stem + "." + "csv" == stem + ".csv";
    assert "." + "csv" == ".csv";
    assert Lower(".csv") == ".csv" by {
      assert Lower(".csv") == [LowerChar('.'), LowerChar('c'), LowerChar('s'), LowerChar('v')];
    }
  }

  // ---------------------------------------------------------------- trigger_file_process

  /** A JSON value where only strings matter to the endpoint. */
  datatype JsonValue = JsonString(text: string) | JsonOther

  /**
   * The body of a trigger request: not declared as JSON, declared but
   * unparsable, a JSON object (with its "filename" member, if any), or
   * some other JSON value.
   */
  datatype TriggerRequest = NotJson | MalformedJson | JsonObject(filename: Option<JsonValue>) | JsonNonObject

  const ExpectedJson := "Invalid input format, expected JSON."
  const BadFilename := "Invalid or missing filename."
  const ProcessingStarted := "File processing started"
  const TriggerSuccess := "Success"

  function TriggerError(message: string): Reply<TriggerBody> {
    Reply(400, TriggerBody(None, None, None, Some(message)))
  }

  /**
   * `POST /api/trigger-file-process`. A malformed JSON body is refused by
   * the framework with 400; a JSON value that is not an object makes the
   * member lookup fail, which the framework answers with 500. Neither
   * reply carries a JSON body the client reads.
   */
  function TriggerFileProcess(req: TriggerRequest): (r: Reply<TriggerBody>)
    ensures r.code == 202 <==>
      req.JsonObject? && req.filename.Some? && req.filename.value.JsonString? && req.filename.value.text != ""
    ensures r.code == 202 ==>
      r.body == TriggerBody(Some(TriggerSuccess), Some(ProcessingStarted), Some(req.filename.value.text), None)
    ensures r.code != 202 ==> r.body.status.None? && r.body.filename.None? && (r.code == 400 || r.code == 500)
    ensures req.NotJson? ==> r == TriggerError(ExpectedJson)
    ensures req.JsonObject? && r.code != 202 ==> r == TriggerError(BadFilename)
  {
    match req
    case NotJson => TriggerError(ExpectedJson)
    case MalformedJson => Reply(400, TriggerBody(None, None, None, None))
    case JsonNonObject => Reply(500, TriggerBody(None, None, None, None))
    case JsonObject(filename) =>
      if filename.Some? && filename.value.JsonString? && filename.value.text != "" then
        Reply(202, TriggerBody(Some(TriggerSuccess), Some(ProcessingStarted), Some(filename.value.text), None))
      else TriggerError(BadFilename)
  }
}

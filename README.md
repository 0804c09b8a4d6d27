# Data-Viz-Tool, modelled in Dafny

Data-Viz-Tool is a small data-visualisation application in two parts:

- **The React client.** The user uploads a CSV or Excel file, edits four processing parameters in a settings panel, and triggers server-side processing. They can then check the export folder named after the file, view its sheets in a tabbed data grid, and export them.
- **The Flask server.** It stores uploads, reports the status of export folders, serves sheets for viewing and converts files for download.

This project models the logic of both parts and proves what each one promises.

The modules follow the program's structure:

| file | module | models |
|---|---|---|
| `wrappers.dfy` | `Wrappers` | the `Option` type |
| `text.dfy` | `Text` | the string built-ins the code uses: `includes`, `split`, `slice(-n)`, `toLowerCase`, `trim`, `endswith`, `rsplit`, `lower`; case folding covers ASCII letters only |
| `js_number.dfy` | `JsNumber` | JavaScript's `Number(text)`, restricted to integers |
| `param_rules.dfy` | `ParamRules` | the parameter record, range resolution and the validity check of the settings panel |
| `file_upload.dfy` | `FileUpload` | the host of the settings panel: the initial parameters, the open flag and the commit callback |
| `popup.dfy` | `Popup` | the settings panel itself: working copy, error flags, edit, cancel and submit |
| `dataset.dfy` | `Dataset` | sheets of records, as the server sends them |
| `responses.dfy` | `Responses` | replies and how the HTTP client settles them; the JSON bodies; the shared status-check outcome |
| `data_grid.dfy` | `DataGrid` | column derivation, row striping and paging defaults of the grid |
| `app.dfy` | `App` | the shared application state: dataset, active tab, shown rows |
| `uploader.dfy` | `Uploader` | the upload controller: file selection, upload, progress, processing trigger, notice |
| `folder_checker.dfy` | `FolderCheck` | the folder-status view under the uploader |
| `file_item.dfy` | `FileView` | one entry of that view's file list, with its "View" request |
| `file_export.dfy` | `Exporter` | the stand-alone exporter page |
| `server.dfy` | `Server` | the decision logic of the Flask endpoints |
| `scenarios.dfy` | `EndToEnd` | client and server together |

Components whose state changes step by step are classes whose methods state their whole new state:

- `FileUpload.ParameterHost`
- `Popup.PopupModal`
- `App.AppState`
- `Uploader.FileUploader`
- `FolderCheck.FolderChecker`
- `FileView.FileItem`
- `Exporter.FileExport`

The other modules are made of expressions, and so are pure functions and lemmas.

React effects are explicit method calls:

- the settings panel's constructor stands for mounting plus the first run of its effect;
- `Popup.PopupModal.SyncFromParameters` is the panel's effect;
- `App.AppState.FileDataEffect` is the dataset effect;
- `Uploader.FileUploader.SelectFile` is a file change followed by the upload effect.

Every network request is a function-typed parameter. It maps the values the request carries (the file, the folder name, the file name) to the way the request settled: resolved with a body, or rejected with the body of the answer if one arrived. The server's endpoints are pure functions. What the file system, pandas and werkzeug produce is passed to them as arguments.

Two behaviours of the range check are worth knowing:

- **Negative ranges.** When both ends of `"<a> --> <b>"` are negative, the code swaps them by position; it does not sort them (`PopupModal.tsx:59-63`, `97-102`). So `"-40 --> -120"` gives [-120, -40], but `"-120 --> -40"` gives the empty interval [-40, -120] and accepts nothing (`ParamRules.BothNegativeSwapped`).
- **The split separator.** The code tests for `-->` but splits on `" --> "`, with the spaces. So `"0-->100"` reads as `NaN` at both ends and accepts no value (`ParamRules.ArrowWithoutSpacesRejectsAll`).

## Model

| member | source | states |
|---|---|---|
| Text.JoinSplit | React-UI/src/components/uploader/PopupModal.tsx:58 | joining the pieces of `split(sep)` with `sep` gives back the original string |
| Text.Split | React-UI/src/components/uploader/PopupModal.tsx:58 | at least one piece, none longer than the string |
| Text.SplitPiecesFree | React-UI/src/components/uploader/PopupModal.tsx:58 | no piece of a split contains the separator |
| Text.SplitHead | React-UI/src/components/uploader/uploader.tsx:113 | the first piece of a split is a prefix of the string, and the separator follows it exactly when the string contains the separator |
| Text.SplitAround | React-UI/src/components/uploader/PopupModal.tsx:58 | `a + sep + b` splits into exactly `[a, b]` when neither side holds the separator's first character |
| Text.MissingFirstChar | React-UI/src/components/uploader/PopupModal.tsx:57 | a string lacking a text's first character does not contain that text |
| Text.SliceFromEnd | React-UI/src/components/uploader/uploader.tsx:77 | `slice(-n)` keeps the last `min(n, length)` characters and is a suffix of the string |
| Text.EndsWith | Python-Flask/app/__init__.py:75-78 | `endswith(suffix)` holds exactly when the suffix is no longer than the string and matches its last characters one by one |
| Text.LastIndexOf | Python-Flask/app/__init__.py:51 | the index found holds the character and no later index does; none is found only when the character is absent |
| Text.LastIndexOfJoined | Python-Flask/app/__init__.py:51 | in `a + [c] + b` with no `c` in `b`, the last `c` is at index `|a|` |
| Text.Lower | React-UI/src/components/uploader/PopupModal.tsx:64-67 | lower-casing keeps the length and lower-cases character by character |
| Text.Trim | React-UI/src/components/uploader/PopupModal.tsx:52 | `trim()` removes only white space (the ECMAScript white-space and line-terminator characters) from both ends, keeps the middle, and the result neither starts nor ends with white space |
| Text.TrimNoSpace | React-UI/src/components/uploader/PopupModal.tsx:52 | a string with no white space at either end is its own trim |
| Text.BeforeFirstDotIsPrefix | React-UI/src/components/uploader/uploader.tsx:113 | `name.split('.')[0]` is the prefix before the first dot (the whole name when there is none) and contains no dot |
| JsNumber.ShowNatValue | React-UI/src/components/uploader/PopupModal.tsx:58 | the decimal digits of a natural number read back as that number |
| JsNumber.FromString | React-UI/src/components/uploader/PopupModal.tsx:52 | `Number()` of blank text is 0; an integer is read only from trimmed text made of digits with at most a leading sign |
| JsNumber.ShowRoundTrip | React-UI/src/components/uploader/PopupModal.tsx:58 | `Number()` of an integer's decimal rendering is that integer |
| ParamRules.ArrowDescriptorPieces | React-UI/src/components/uploader/PopupModal.tsx:57-58 | `"<a> --> <b>"` contains the arrow and splits into the two renderings |
| ParamRules.ArrowBounds | React-UI/src/components/uploader/PopupModal.tsx:58-63 | the arrow branch never gives an open end; its ends are the numbers of the first two pieces (`NaN` for a missing one), swapped exactly when both are negative numbers and in order otherwise |
| ParamRules.EditRange | React-UI/src/components/uploader/PopupModal.tsx:55-70 | the edit handler uses the arrow branch when the text contains `-->`; otherwise the only finite ends are 0 and -1 and at least one end is open |
| ParamRules.SubmitRange | React-UI/src/components/uploader/PopupModal.tsx:92-107 | the submit handler uses the arrow branch when the text contains `-->`; otherwise the only finite ends are 0 and -1 and at least one end is open |
| ParamRules.IsValidNumber | React-UI/src/components/uploader/PopupModal.tsx:47-49 | a value is valid exactly when neither end is `NaN` and it lies within each finite end, inclusively |
| ParamRules.InRange | React-UI/src/components/uploader/PopupModal.tsx:47-49 | the open interval accepts every value; a `NaN` end accepts none |
| ParamRules.AnyInvalid | React-UI/src/components/uploader/PopupModal.tsx:92-110 | no field is invalid exactly when every field's value lies in the bounds its descriptor resolves to at submit time; an empty form has no invalid field |
| ParamRules.ArrowDescriptorBounds | React-UI/src/components/uploader/PopupModal.tsx:57-63 | `"<a> --> <b>"` resolves to [b, a] when both ends are negative and to [a, b] otherwise, at edit and at submit time |
| ParamRules.BothNegativeSwapped | React-UI/src/components/uploader/PopupModal.tsx:59-60 | with two negative ends, a value is accepted exactly when it lies in [b, a]; an ascending pair accepts nothing |
| ParamRules.OtherSignsInOrder | React-UI/src/components/uploader/PopupModal.tsx:61-62 | unless both ends are negative, a value is accepted exactly when it lies in [a, b] |
| ParamRules.NoArrowWithoutDash | React-UI/src/components/uploader/PopupModal.tsx:57 | a descriptor with no dash has no arrow, so keyword descriptors never take the arrow branch |
| ParamRules.KeywordBounds | React-UI/src/components/uploader/PopupModal.tsx:64-70 | "any positive integer" gives [0, +Infinity) and "any negative integer" gives (-Infinity, -1], in any letter case, at edit and at submit time |
| ParamRules.ArrowWithoutSpacesRejectsAll | React-UI/src/components/uploader/PopupModal.tsx:57-63 | an arrow without surrounding spaces is not split, both ends read as `NaN`, and no value is accepted |
| ParamRules.UnrecognisedAcceptsAll | React-UI/src/components/uploader/PopupModal.tsx:55 | a descriptor that is neither an arrow nor a keyword accepts every value |
| ParamRules.EditAgreesWithSubmit | React-UI/src/components/uploader/PopupModal.tsx:55-70 | the edit handler and the submit handler resolve every descriptor to the same bounds |
| ParamRules.InclusiveBounds | React-UI/src/components/uploader/PopupModal.tsx:47-49 | validity is inclusive at both ends, open ends accept everything on their side, and a `NaN` end rejects every value |
| ParamRules.WorkingCopy | React-UI/src/components/uploader/PopupModal.tsx:38-41 | the working copy keeps every field except the value; a zero value is replaced by the default |
| ParamRules.ResetToDefaults | React-UI/src/components/uploader/PopupModal.tsx:83-86 | the reset copy keeps every field except the value, which becomes the default |
| ParamRules.NoErrors | React-UI/src/components/uploader/PopupModal.tsx:43 | one cleared error flag per field |
| FileUpload.InitialParameters | React-UI/src/components/uploader/FileUpload.tsx:15-48 | four parameters with the ranges "0 --> 100", "-40 --> -120", "any positive integer" and "any negative integer" |
| FileUpload.InitialArrowRanges | React-UI/src/components/uploader/FileUpload.tsx:16-31 | the two arrow ranges resolve to [0, 100] and [-120, -40] |
| FileUpload.InitialKeywordRanges | React-UI/src/components/uploader/FileUpload.tsx:32-47 | the keyword ranges resolve to [0, +Infinity) and (-Infinity, -1] |
| FileUpload.InitialValuesValid | React-UI/src/components/uploader/FileUpload.tsx:15-48 | every initial value lies in its range |
| FileUpload.InitialDefaultsValid | React-UI/src/components/uploader/FileUpload.tsx:15-48 | every default lies in its range, so a cancel followed by a submit commits |
| FileUpload.InitialNamesDistinct | React-UI/src/components/uploader/FileUpload.tsx:15-48 | the code variable names used as field keys are pairwise distinct |
| FileUpload.ParameterHost.constructor | React-UI/src/components/uploader/FileUpload.tsx:14-15 | the panel starts closed with the initial parameters |
| FileUpload.ParameterHost.HandleProcess | React-UI/src/components/uploader/FileUpload.tsx:50-52 | opens the panel and keeps the parameters |
| FileUpload.ParameterHost.HandlePopupSubmit | React-UI/src/components/uploader/FileUpload.tsx:54-57 | replaces the parameters and keeps the open flag |
| FileUpload.ParameterHost.Close | React-UI/src/components/uploader/FileUpload.tsx:65 | closes the panel and keeps the parameters |
| Popup.PopupModal.constructor | React-UI/src/components/uploader/PopupModal.tsx:33-45 | after mounting, the working copy is `WorkingCopy` of the parameters, with no errors |
| Popup.PopupModal.SyncFromParameters | React-UI/src/components/uploader/PopupModal.tsx:36-45 | a parameter change resets the working copy and clears all flags, one flag per field |
| Popup.PopupModal.HandleInputChange | React-UI/src/components/uploader/PopupModal.tsx:51-80 | only field `index` changes; its flag becomes "out of range", and that flag holds exactly when a submit would reject the field |
| Popup.PopupModal.HandleCancel | React-UI/src/components/uploader/PopupModal.tsx:82-89 | every working value goes back to its default, the flags stay, the panel closes and nothing is committed |
| Popup.PopupModal.HandleSubmit | React-UI/src/components/uploader/PopupModal.tsx:91-118 | all or nothing: commits the whole working copy and closes exactly when no field is out of range; otherwise changes nothing |
| Popup.OpenThenCancel | React-UI/src/components/uploader/FileUpload.tsx:50-65 | opening the panel and cancelling leaves the committed parameters as they were and the panel closed |
| Responses.Fetch | React-UI/src/components/uploader/uploader.tsx:97-134 | a request resolves with the body exactly on a 2xx answer; otherwise it rejects, carrying the body |
| Responses.ErrorStatus | React-UI/src/components/FolderChecker/FolderChecker.tsx:32 | the payload's status when it is non-empty, "Error occurred" otherwise; never empty |
| Responses.CheckOutcome | React-UI/src/components/FolderChecker/FolderChecker.tsx:20-35 | a resolved check takes the answer's status and files (no files reads as none); a rejected one takes `ErrorStatus` and clears the files |
| DataGrid.GenerateColumns | React-UI/src/components/DataGrid/CustomizedDataGrid.tsx:13-22 | one column per key |
| DataGrid.FirstRowKeys | React-UI/src/components/DataGrid/CustomizedDataGrid.tsx:27-28 | no rows give no keys; otherwise the first row's column names, in key order |
| DataGrid.Columns | React-UI/src/components/DataGrid/CustomizedDataGrid.tsx:27-28 | one column per key of the first row, with the key as field and header |
| DataGrid.ColumnsPerFirstRowKey | React-UI/src/components/DataGrid/CustomizedDataGrid.tsx:13-28 | no rows give no columns; otherwise one right-aligned column per key of the first row, in key order, with the key as field and header, flex 1 and minimum width 80 |
| DataGrid.ColumnsIgnoreLaterRows | React-UI/src/components/DataGrid/CustomizedDataGrid.tsx:27-28 | appending rows never changes the columns |
| DataGrid.NoColumnForLaterKeys | React-UI/src/components/DataGrid/CustomizedDataGrid.tsx:27-28 | a key missing from the first row has no column |
| DataGrid.RowClass | React-UI/src/components/DataGrid/CustomizedDataGrid.tsx:36-38 | a row is "even" exactly when its index in the page is even, and "odd" otherwise |
| DataGrid.RowClassesAlternate | React-UI/src/components/DataGrid/CustomizedDataGrid.tsx:36-38 | neighbouring rows differ and rows two apart agree |
| DataGrid.DefaultPageSizeOffered | React-UI/src/components/DataGrid/CustomizedDataGrid.tsx:40-43 | the initial page size 20 is one of the offered sizes 10, 20 and 50 |
| App.FindSheetFrom | React-UI/src/App.tsx:33 | finds the first sheet with the name, or reports that none has it |
| App.FindSheet | React-UI/src/App.tsx:33 | `find` gives the first sheet with the name; none exactly when no sheet has it |
| App.TabDataAfterChange | React-UI/src/App.tsx:30-38 | the rows of the first sheet with the name, or the rows shown before when no sheet has it |
| App.SelectExistingSheet | React-UI/src/App.tsx:30-38 | selecting an existing sheet's name shows the first sheet of that name; with distinct names, that sheet's own rows |
| App.SelectMissingSheet | React-UI/src/App.tsx:34-36 | selecting a name no sheet has leaves the shown rows alone |
| App.ReselectReproduces | React-UI/src/App.tsx:30-38 | selecting a tab twice equals selecting it once, and returning to an existing tab reproduces its rows |
| App.AppState.constructor | React-UI/src/App.tsx:18-20 | starts with no data, no tab name and no rows |
| App.AppState.UpdateTableData | React-UI/src/App.tsx:22-24 | replaces the dataset only |
| App.AppState.UpdateTabName | React-UI/src/App.tsx:26-28 | replaces the tab name only |
| App.AppState.HandleChange | React-UI/src/App.tsx:30-38 | sets the tab name, never changes the dataset, and shows `TabDataAfterChange` |
| App.AppState.FileDataEffect | React-UI/src/App.tsx:40-45 | a non-empty dataset selects its first sheet; an empty one changes nothing |
| App.AppState.TabValues | React-UI/src/App.tsx:58-64 | one tab per sheet, in order, valued by the sheet's name |
| App.AppState.TabsVisible | React-UI/src/App.tsx:53-64 | the tabs are shown exactly when there is at least one tab |
| App.PublishThenSelectFirst | React-UI/src/App.tsx:22-45 | publishing a non-empty dataset and running the effect shows its first sheet |
| Uploader.ClientAcceptsSuffixes | React-UI/src/components/uploader/uploader.tsx:76-78 | a name is accepted exactly when it ends with ".csv", "xlsx" or ".xls", letter case included |
| Uploader.ClientAccepts | React-UI/src/components/uploader/uploader.tsx:76-78 | an accepted name has at least four characters |
| Uploader.ProgressPercent | React-UI/src/components/uploader/uploader.tsx:102-109 | a percentage exists exactly when the total is known and positive, and it is never negative |
| Uploader.ClientAcceptsExamples | React-UI/src/components/uploader/uploader.tsx:76-78 | "report.CSV" and "notes.txt" are refused; "old.xls" and the dot-less "dataxlsx" are accepted |
| Uploader.FolderNameExample | React-UI/src/components/uploader/uploader.tsx:113 | "report.xlsx" gives the folder name "report" |
| Uploader.ProgressPercentNearest | React-UI/src/components/uploader/uploader.tsx:102-109 | the percentage is the integer nearest to `loaded * 100 / total`, halves up, and lies in 0..100 while `loaded <= total` |
| Uploader.FileUploader.constructor | React-UI/src/components/uploader/uploader.tsx:61-71 | the initial state of every field |
| Uploader.FileUploader.HandleFileChange | React-UI/src/components/uploader/uploader.tsx:73-86 | a refused file clears the selection and sets the extension error; an accepted one is selected and clears the error; no file changes nothing |
| Uploader.FileUploader.OnUploadProgress | React-UI/src/components/uploader/uploader.tsx:102-109 | the progress becomes `ProgressPercent` of the event |
| Uploader.FileUploader.HandleUpload | React-UI/src/components/uploader/uploader.tsx:88-135 | without a file only the error changes. A resolved upload publishes the data, sets the folder name and classifies the answer by message, then error, then neither. A rejected one clears the progress and reports failure, leaving the data alone |
| Uploader.FileUploader.StartFileProcessing | React-UI/src/components/uploader/uploader.tsx:137-152 | success marks 'Success' and shows the server's message; failure marks 'Error' with an error notice |
| Uploader.FileUploader.HandleProcess | React-UI/src/components/uploader/uploader.tsx:154-158 | without a selection nothing changes. Otherwise it triggers processing of the selected file's name and opens the notice. Success marks 'Success' with the server's message and keeps the severity; failure marks 'Error' with an error notice. The folder checker then shows exactly when data is present and the trigger succeeded |
| Uploader.FileUploader.HandleSnackbarClose | React-UI/src/components/uploader/uploader.tsx:166-171 | closes the notice unless the reason is a click elsewhere |
| Uploader.FileUploader.SelectFile | React-UI/src/components/uploader/uploader.tsx:73-164 | a refused file clears the selection, shows the extension error and changes nothing else; an accepted one becomes the selection with the error cleared and is uploaded: a reply publishes its data, sets the folder name from the file name and opens the notice the reply's message or error decides; a failed request sets the upload error, clears the progress and opens an error notice, leaving the dataset alone |
| FolderCheck.FolderChecker.constructor | React-UI/src/components/FolderChecker/FolderChecker.tsx:11-14 | starts with no status and no files for the given folder |
| FolderCheck.FolderChecker.ReceiveFileName | React-UI/src/components/uploader/uploader.tsx:204-206 | the parent passes a new folder name to the mounted view; the status and files of the earlier check are kept |
| FolderCheck.FolderChecker.HandleCheckFolder | React-UI/src/components/FolderChecker/FolderChecker.tsx:20-35 | asks about its own folder; the new state is `CheckOutcome` of the answer; a failed check shows a status and no list |
| FolderCheck.FolderChecker.ListEntries | React-UI/src/components/FolderChecker/FolderChecker.tsx:56-59 | the list appears exactly when there are files, one entry per file in order, each with the folder name the view holds now |
| FolderCheck.CheckThenRename | React-UI/src/components/FolderChecker/FolderChecker.tsx:20-59 | after a check and a new folder name, the list shows the checked folder's files paired with the new name |
| FileView.ExportNotice | React-UI/src/components/FolderChecker/FileItem.tsx:17-21 | the export notice ends with the file's name |
| FileView.FileItem.constructor | React-UI/src/components/FolderChecker/FileItem.tsx:12-15 | starts with no status and no data |
| FileView.FileItem.ReceiveProps | React-UI/src/components/FolderChecker/FileList.tsx:17-19 | an entry kept at the same position takes the new file and folder names and keeps its status and data |
| FileView.FileItem.HandleExport | React-UI/src/components/FolderChecker/FileItem.tsx:17-21 | shows the export notice and changes nothing |
| FileView.FileItem.HandleView | React-UI/src/components/FolderChecker/FileItem.tsx:23-38 | success keeps the answer's status and sheets and publishes them; failure shows `ErrorStatus`, clears the local sheets and leaves the shared dataset and tab alone |
| Exporter.ViewNotice | React-UI/src/components/exporter/FileExport.tsx:47-50 | the view notice ends with the file's name |
| Exporter.FileExport.constructor | React-UI/src/components/exporter/FileExport.tsx:12-14 | starts with no folder name, no status and no files |
| Exporter.FileExport.HandleInputChange | React-UI/src/components/exporter/FileExport.tsx:17-19 | replaces the folder name only |
| Exporter.FileExport.HandleCheckFolder | React-UI/src/components/exporter/FileExport.tsx:22-38 | asks about the folder name as typed; the new state is `CheckOutcome` of the answer; a failed check shows a status and no files |
| Exporter.FileExport.HandleExport | React-UI/src/components/exporter/FileExport.tsx:41-44 | shows the export notice and changes nothing |
| Exporter.FileExport.HandleView | React-UI/src/components/exporter/FileExport.tsx:47-50 | shows the view notice and changes nothing |
| Exporter.FileExport.ListEntries | React-UI/src/components/exporter/FileExport.tsx:66-76 | one entry per file in order, each with the notices its buttons show |
| Server.AfterLastDot | Python-Flask/app/__init__.py:51 | `rsplit('.', 1)[1]` exists exactly when there is a dot; it is the dot-free text after the last dot |
| Server.AllowedFile | Python-Flask/app/__init__.py:41-51 | an allowed name contains a dot and has at least four characters |
| Server.AfterLastDotOf | Python-Flask/app/__init__.py:51 | the extension of `stem + "." + ext` is `ext` whatever the stem holds |
| Server.AllowedFileByExtension | Python-Flask/app/__init__.py:27-51 | a name is allowed exactly when its extension after the last dot, lower-cased, is "csv" or "xlsx" |
| Server.AllowedFileNeedsDot | Python-Flask/app/__init__.py:51 | a name without a dot is never allowed |
| Server.AllowedUpperCase | Python-Flask/app/__init__.py:51 | "name.CSV" is allowed whatever the name |
| Server.RefusedFileExamples | Python-Flask/app/__init__.py:27-51 | "name.xls" and "name.txt" are refused whatever the name |
| Server.UploadFile | Python-Flask/app/__init__.py:62-97 | guards in order: no file part, then an empty name, then a refused type, each 400 with its message. 200 exactly for an allowed, stored name ending ".csv" or ".xlsx", with one sheet named after the secured name and the success message. Every other reply is 400 or 500 with an error and no data |
| Server.UploadUpperCaseExtension | Python-Flask/app/__init__.py:70-81 | an upper-case ".CSV" passes the filter, matches neither reading branch and is answered with 500 |
| Server.WithSuffix | Python-Flask/app/__init__.py:134-135 | the filtered list holds exactly the listing's names with the suffix |
| Server.WithSuffixInListingOrder | Python-Flask/app/__init__.py:134-135 | the filtered names keep their listing order |
| Server.ReportFiles | Python-Flask/app/__init__.py:134-144 | the reported files come from the listing and never include a marker file |
| Server.ReportFilesContents | Python-Flask/app/__init__.py:134-144 | a finished report lists exactly the ".csv" and ".xlsx" names and never a marker file; every CSV name comes before every workbook name, each group in listing order |
| Server.CheckFolder | Python-Flask/app/__init__.py:122-148 | a missing name gives 400; an absent folder gives 404. `success.txt` gives 200 "success" with the report files and wins over `failure.txt`. `failure.txt` alone gives 500, neither gives 200 "in progress". Every 200 carries a non-empty status |
| Server.WorkbookSheets | Python-Flask/app/__init__.py:188-191 | one sheet per workbook sheet, in order, with its name and records |
| Server.CollectSheets | Python-Flask/app/__init__.py:188-191 | the loop over the loaded workbook builds exactly `WorkbookSheets` |
| Server.GetFile | Python-Flask/app/__init__.py:151-207 | 400 for a missing parameter; 404 for a missing folder, then for a missing file. For a listed file: ".csv" gives one sheet named after the file, or 500 with the reading error. ".xlsx"/".xls" give `WorkbookSheets` of the workbook, or 500 with the reading error. Any other extension gives 400. A 200 always carries "success" and data |
| Server.SplitExt | Python-Flask/app/__init__.py:228 | `os.path.splitext(p)[1]` is empty or a dot-led suffix of `p` |
| Server.SplitExtOf | Python-Flask/app/__init__.py:228 | a stem with a non-dot character and no slash, plus "." + ext, has the extension "." + ext |
| Server.ProcessedNameDiffers | Python-Flask/app/__init__.py:243-279 | a converted download's name is never the original name |
| Server.ProcessedName | Python-Flask/app/__init__.py:243-279 | a converted name is `processed_`, then a dot-free part, then the new extension |
| Server.ProcessFile | Python-Flask/app/__init__.py:211-286 | 400 for a missing parameter; 404 for a missing file. A download is sent exactly for the formats "excel"/"csv" (default "excel") crossed with the extensions ".xlsx"/".csv", when reading succeeds. Every other combination gives 400 |
| Server.ProcessFileDownload | Python-Flask/app/__init__.py:233-279 | a download keeps the original name exactly when the file already has the requested format; a conversion is named `processed_` + prefix before the first dot + new extension; the type follows the format |
| Server.ProcessCsvFile | Python-Flask/app/__init__.py:211-266 | with no format a CSV is converted to "processed_<prefix>.xlsx"; asked for "csv" it is sent under its own name |
| Server.TriggerFileProcess | Python-Flask/app/__init__.py:304-321 | 202 exactly for a JSON object with a non-empty string filename, echoing it with status "Success" and message "File processing started"; a body not declared as JSON gives 400 "Invalid input format, expected JSON."; a bad filename gives 400 "Invalid or missing filename." |
| EndToEnd.ExtensionFiltersDisagree | React-UI/src/components/uploader/uploader.tsx:76-78 | the client accepts ".xls" and dot-less "…xlsx" names that the server refuses, and refuses ".CSV" names that the server allows |
| EndToEnd.UploadRepliesAsTheUploaderReadsThem | Python-Flask/app/__init__.py:62-97 | a resolved upload always carries a non-empty message and the single stored sheet; every other answer rejects with an error |
| EndToEnd.StatusCheckAsShown | React-UI/src/components/FolderChecker/FolderChecker.tsx:20-35 | what a status view shows after each server answer: "Error occurred", "Folder not found", "success" with the report files, "File generation failed", or "in progress"; a status is always shown |
| EndToEnd.ViewRepliesAsTheFileEntryReadsThem | React-UI/src/components/FolderChecker/FileItem.tsx:23-38 | a resolved view always carries "success" and data; a listed, readable ".csv" resolves with exactly one sheet named after the file |
| EndToEnd.TriggerRepliesAsTheUploaderReadsThem | React-UI/src/components/uploader/uploader.tsx:137-144 | the trigger resolves exactly for a non-empty string filename, and the notice then reads "File processing triggered: File processing started" |
| EndToEnd.ReportWalkThrough | React-UI/src/components/uploader/uploader.tsx:113 | uploading "report.xlsx" names the folder "report"; a folder holding "out.csv" and the success marker shows "success" and lists exactly "out.csv" |

## Left out

- Network transport is not modelled: axios, multipart encoding, progress events and blob downloads. Requests are function-typed parameters, and a request that got no answer is a rejection without a payload.
- The file system and the libraries are inputs, not code: `os.path.exists`, `os.listdir`, `file.save`, `makedirs`, pandas reading and writing, werkzeug's `secure_filename` and `trigger_main`. A folder is either missing or a directory with its listing: an export path that exists but is a plain file is not represented (`os.listdir` would raise there, and `get_file` would answer "File not found").
  - A folder listing is a map from folder name to names, so nested paths in request parameters are not modelled.
  - An exception's text is given, not computed.
- `export_data` (`/api/export`) is not modelled. It serialises the request itself, and its failure path refers to a name it never bound.
- `archive_and_move_file` is not modelled. Its naming depends on the clock and it is never called.
- `process_file_trigger` is not modelled: threading, logging and the background work the trigger endpoint starts.
- Server.UploadFile: the exact text of the error for an allowed name that matches neither reading branch is Python's message for an unbound local, which varies between Python versions.
- Server.TriggerFileProcess: the replies the framework itself makes for unparsable JSON (400) and for a JSON value that is not an object (500) are modelled without a JSON body.
- JsNumber.FromString: `Number()` is modelled on decimal integers only. Decimals, exponents, hexadecimal (`0x`), binary (`0b`) and octal (`0o`) literals, `Infinity` and IEEE rounding are not; the model reads every such text as `NaN` (so `"0b0 --> 0o144"` gives `NaN` bounds here, where JavaScript gives 0 and 100), and values and bounds are integers.
- Popup.PopupModal.HandleInputChange: takes the parsed integer, not the text field's string. The text-to-number step is `JsNumber.FromString`, proved separately for the range descriptors.
- Text.Lower: case folding covers ASCII letters only; JavaScript and Python fold all of Unicode.
- Dataset: a record is a list of (key, cell) pairs in key order. JavaScript's `Object.keys` puts integer-like keys first; that reordering is not modelled.
- The rendering is not modelled: Material UI widgets, styling, the grid's own paging, filtering and selection, and snackbar timing.
- FolderCheck.FolderChecker.HandleCheckFolder: a 2xx answer without a status is read as the empty status. The browser stores `undefined`, which also shows as an empty status line, but then `status != ''` still holds.
- Exporter.FileExport.HandleCheckFolder: a 2xx answer without a status is read as the empty status, as above.
- FileView.FileItem.HandleView: a 2xx answer without a status or data is read as "" and no sheets. The browser stores `undefined`. The server always sends both (`EndToEnd.ViewRepliesAsTheFileEntryReadsThem`).
- Uploader.FileUploader.HandleUpload: a 2xx answer without data publishes no sheets where the browser publishes `undefined`. The error object's string form in the failure notice is a parameter.
- Concurrency is not modelled: overlapping requests whose answers arrive out of order, and effects React may batch. Every handler runs to completion before the next.
- The settings dialog's own close button and backdrop call the host's `Close` directly (`ParameterHost.Close`); no separate member models them.
- `React-UI/src/data/gridData.tsx` is not part of this model: it is a static demo fixture that depends on `Date`.
- FileList.tsx has no module of its own. Its one entry per file is `FolderCheck.FolderChecker.ListEntries`, and its position keys are `FileView.FileItem.ReceiveProps`; its markup is not modelled.

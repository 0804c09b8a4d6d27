/**
 * The application state shared through the data context: the dataset, the
 * name of the active tab and the rows the active tab shows.
 */
module App {
  import opened Wrappers
  import opened Dataset

  /** Index of the first sheet named `name` at or after `from`. */
  function FindSheetFrom(data: Sheets, name: string, from: nat): (r: Option<nat>)
    requires from <= |data|
    decreases |data| - from
    ensures r.Some? ==> from <= r.value < |data| && data[r.value].sheetName == name
    ensures r.Some? ==> forall j :: from <= j < r.value ==> data[j].sheetName != name
    ensures r.None? ==> forall j :: from <= j < |data| ==> data[j].sheetName != name
  {
    if from == |data| then None
    else if data[from].sheetName == name then Some(from)
    else FindSheetFrom(data, name, from + 1)
  }

  /** `fileData.find(sheet => sheet.sheetName === name)`, as an index. */
  function FindSheet(data: Sheets, name: string): (r: Option<nat>)
    ensures r.Some? ==> r.value < |data| && data[r.value].sheetName == name
    ensures r.Some? ==> forall j :: 0 <= j < r.value ==> data[j].sheetName != name
    ensures r.None? <==> forall j :: 0 <= j < |data| ==> data[j].sheetName != name
  {
    FindSheetFrom(data, name, 0)
  }

  /**
   * The rows shown after selecting tab `name`: the first sheet of that name,
   * or the rows shown before when the dataset is empty or has no such sheet.
   */
  function TabDataAfterChange(data: Sheets, shown: seq<Row>, name: string): (r: seq<Row>)
    ensures (forall i :: 0 <= i < |data| ==> data[i].sheetName != name) ==> r == shown
    ensures forall i :: (0 <= i < |data| && data[i].sheetName == name
      && (forall j :: 0 <= j < i ==> data[j].sheetName != name)) ==> r == data[i].sheetContent
  {
    if |data| > 0 then
      match FindSheet(data, name)
      case Some(i) => data[i].sheetContent
      case None => shown
    else shown
  }

  /** Selecting a sheet that exists shows its rows whatever was shown before. */
  lemma SelectExistingSheet(data: Sheets, shown: seq<Row>, k: nat)
    requires k < |data|
    ensures exists i :: 0 <= i <= k && TabDataAfterChange(data, shown, data[k].sheetName) == data[i].sheetContent
    ensures DistinctNames(data) ==> TabDataAfterChange(data, shown, data[k].sheetName) == data[k].sheetContent
  {
    var r := FindSheet(data, data[k].sheetName);
    assert r.Some?;
  }

  /** Selecting a name no sheet has leaves the shown rows alone. */
  lemma SelectMissingSheet(data: Sheets, shown: seq<Row>, name: string)
    requires forall i :: 0 <= i < |data| ==> data[i].sheetName != name
    ensures TabDataAfterChange(data, shown, name) == shown
  {
  }

  /**
   * Selecting the same tab twice shows what selecting it once shows, and
   * returning to a tab that exists reproduces its rows whatever was shown
   * in between.
   */
  lemma ReselectReproduces(data: Sheets, shown: seq<Row>, other: seq<Row>, name: string)
    ensures TabDataAfterChange(data, TabDataAfterChange(data, shown, name), name)
      == TabDataAfterChange(data, shown, name)
    ensures FindSheet(data, name).Some? ==>
      TabDataAfterChange(data, other, name) == TabDataAfterChange(data, shown, name)
  {
  }

  class AppState {
    var fileData: Sheets
    var tabName: string
    var tabData: seq<Row>

    constructor ()
      ensures fileData == [] && tabName == "" && tabData == []
    {
      fileData, tabName, tabData := [], "", [];
    }

    /** `updateTableData`: the dataset is replaced wholesale. */
    method UpdateTableData(newData: Sheets)
      modifies this`fileData
      ensures fileData == newData && tabName == old(tabName) && tabData == old(tabData)
    {
      fileData := newData;
    }

    /** `updateTabName`: only the active tab name changes. */
    method UpdateTabName(newName: string)
      modifies this`tabName
      ensures tabName == newName && fileData == old(fileData) && tabData == old(tabData)
    {
      tabName := newName;
    }

    /**
     * A tab change always takes the new name and shows the rows of the first
     * sheet so named; it never touches the dataset.
     */
    method HandleChange(newValue: string)
      modifies this`tabName, this`tabData
      ensures tabName == newValue && fileData == old(fileData)
      ensures tabData == TabDataAfterChange(fileData, old(tabData), newValue)
    {
      tabName := newValue;
      if |fileData| > 0 {
        var selected := FindSheet(fileData, newValue);
        if selected.Some? {
          tabData := fileData[selected.value].sheetContent;
        }
      }
    }

    /** The effect run on a dataset change: a non-empty dataset opens on its first sheet. */
    method FileDataEffect()
      modifies this`tabName, this`tabData
      ensures fileData == old(fileData)
      ensures |fileData| > 0 ==> tabData == fileData[0].sheetContent && tabName == fileData[0].sheetName
      ensures |fileData| == 0 ==> tabData == old(tabData) && tabName == old(tabName)
    {
      if |fileData| > 0 {
        tabData := fileData[0].sheetContent;
        tabName := fileData[0].sheetName;
      }
    }

    /** Tabs are rendered only for a non-empty dataset. */
    predicate TabsVisible()
      reads this
      ensures TabsVisible() <==> |TabValues()| > 0
    {
      |fileData| > 0
    }

    /** One tab per sheet, labelled and keyed by the sheet name, in dataset order. */
    function TabValues(): (names: seq<string>)
      reads this
      ensures |names| == |fileData|
      ensures forall i :: 0 <= i < |fileData| ==> names[i] == fileData[i].sheetName
    {
      seq(|fileData|, i reads this requires 0 <= i < |fileData| => fileData[i].sheetName)
    }
  }

  /**
   * Publishing a dataset and running its effect opens the first sheet, and
   * selecting that sheet again shows the same rows.
   */
  method PublishThenSelectFirst(app: AppState, data: Sheets)
    requires |data| > 0
    modifies app
    ensures app.fileData == data && app.tabName == data[0].sheetName
    ensures app.tabData == data[0].sheetContent
  {
    app.UpdateTableData(data);
    app.FileDataEffect();
    SelectExistingSheet(data, app.tabData, 0);
    app.HandleChange(data[0].sheetName);
  }
}

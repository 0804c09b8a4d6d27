/**
 * The grid that shows one sheet: its columns come from the keys of the
 * first row only, rows are striped by their index within the page, and
 * paging starts at 20 rows among the choices 10, 20 and 50.
 */
module DataGrid {
  import opened Dataset

  datatype Align = Right

  datatype Column = Column(
    field: string, headerName: string, headerAlign: Align, align: Align, flex: int, minWidth: int)

  /** `generateColumns(keys)`: one right-aligned, flexible column per key. */
  function GenerateColumns(keys: seq<string>): (cols: seq<Column>)
    ensures |cols| == |keys|
  {
    seq(|keys|, i requires 0 <= i < |keys| => Column(keys[i], keys[i], Right, Right, 1, 80))
  }

  /** `Object.keys(fileRowData[0] || {})`. */
  function FirstRowKeys(rows: seq<Row>): (keys: seq<string>)
    ensures |rows| == 0 ==> keys == []
    ensures |rows| > 0 ==> |keys| == |rows[0]| && forall i :: 0 <= i < |keys| ==> keys[i] == rows[0][i].0
  {
    if |rows| == 0 then [] else Keys(rows[0])
  }

  /** The columns the grid is given for a list of rows. */
  function Columns(rows: seq<Row>): (cols: seq<Column>)
    ensures |cols| == |FirstRowKeys(rows)|
    ensures forall i :: 0 <= i < |cols| ==> cols[i].field == FirstRowKeys(rows)[i] == cols[i].headerName
  {
    GenerateColumns(FirstRowKeys(rows))
  }

  /**
   * One column per key of the first row, in key order, each with the key as
   * field and header, right alignment, flex 1 and minimum width 80; no rows
   * give no columns.
   */
  lemma ColumnsPerFirstRowKey(rows: seq<Row>)
    ensures |rows| == 0 ==> Columns(rows) == []
    ensures |rows| > 0 ==> |Columns(rows)| == |rows[0]|
    ensures |rows| > 0 ==> forall i :: 0 <= i < |rows[0]| ==>
      var c := Columns(rows)[i];
      c.field == c.headerName == rows[0][i].0 && c.align == c.headerAlign == Right
      && c.flex == 1 && c.minWidth == 80
  {
  }

  /** Rows after the first never change the columns. */
  lemma ColumnsIgnoreLaterRows(rows: seq<Row>, more: seq<Row>)
    requires |rows| > 0
    ensures Columns(rows + more) == Columns(rows)
  {
    assert (rows + more)[0] == rows[0];
  }

  /** A key that only later rows have gets no column. */
  lemma NoColumnForLaterKeys(rows: seq<Row>, key: string)
    requires |rows| > 0 && forall i :: 0 <= i < |rows[0]| ==> rows[0][i].0 != key
    ensures forall c :: c in Columns(rows) ==> c.field != key
  {
    ColumnsPerFirstRowKey(rows);
  }

  /** `getRowClassName`: "even" or "odd" by the index within the current page. */
  function RowClass(indexInPage: nat): (cls: string)
    ensures cls == "even" <==> indexInPage % 2 == 0
    ensures cls == "even" || cls == "odd"
  {
    if indexInPage % 2 == 0 then "even" else "odd"
  }

  /** Neighbouring rows alternate. */
  lemma RowClassesAlternate(i: nat)
    ensures RowClass(i) != RowClass(i + 1) && RowClass(i) == RowClass(i + 2)
  {
  }

  const DefaultPageSize := 20
  const PageSizeOptions := [10, 20, 50]

  /** The initial page size is one of the offered choices. */
  lemma DefaultPageSizeOffered()
    ensures DefaultPageSize in PageSizeOptions
  {
  }
}

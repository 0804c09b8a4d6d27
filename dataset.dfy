/**
 * The tabular data shared by every component: a dataset is an ordered
 * list of named sheets, a sheet an ordered list of row records, a row
 * record a list of (column name, cell) pairs in key order.
 */
module Dataset {

  /** A scalar cell as it arrives in the JSON rows. */
  datatype Cell = Num(n: int) | Str(s: string) | Flag(b: bool) | Empty

  type Row = seq<(string, Cell)>

  datatype Sheet = Sheet(sheetName: string, sheetContent: seq<Row>)

  type Sheets = seq<Sheet>

  /** `Object.keys(row)`: the column names of a row, in key order. */
  function Keys(row: Row): (keys: seq<string>)
    ensures |keys| == |row|
    ensures forall i :: 0 <= i < |row| ==> keys[i] == row[i].0
  {
    seq(|row|, i requires 0 <= i < |row| => row[i].0)
  }

  /** Sheet names are unique within a dataset. */
  predicate DistinctNames(data: Sheets) {
    forall i, j :: 0 <= i < j < |data| ==> data[i].sheetName != data[j].sheetName
  }
}

/** Spreadsheet rows as the sheet reader hands them over, with columns addressed by letter,
    and the header-row slice that readExcelFile applies to every data sheet. */
module Sheet {
  import opened JsValues

  /** One property of a row object: its column letter and its cell text (`None` for a blank
      cell, which the reader fills with `null`). */
  datatype Cell = Cell(key: string, text: Option<string>)

  /** A row object. The order of the cells is the order of `Object.keys(row)`. */
  type Row = seq<Cell>

  /** An element of a processed sheet. The header slice can produce a `Missing` row
      (`undefined`) when the sheet is too short. */
  datatype SheetRow = Missing | Present(cells: Row)

  /** A real row object never has two properties with the same key. */
  predicate DistinctKeys(row: Row) {
    forall i, j :: 0 <= i < j < |row| ==> row[i].key != row[j].key
  }

  function CellValue(text: Option<string>): Value {
    match text
    case None => Null
    case Some(s) => Str(s)
  }

  /** `row[key]` */
  function Get(row: Row, key: string): (v: Value)
  {
    if row == [] then Undefined
    else if row[0].key == key then CellValue(row[0].text)
    else Get(row[1..], key)
  }

  /** In a row with distinct keys, reading the key at position `i` gives the cell at position `i`. */
  lemma {:induction false} GetAtPosition(row: Row, i: nat)
    requires DistinctKeys(row) && i < |row|
    ensures Get(row, row[i].key) == CellValue(row[i].text)
  {
    if i > 0 {
      assert row[0].key != row[i].key;
      assert row[1..][i - 1] == row[i];
      GetAtPosition(row[1..], i - 1);
    }
  }

  /** `row?.key` on an element of a processed sheet. */
  function Field(r: SheetRow, key: string): Value {
    match r
    case Missing => Undefined
    case Present(cells) => Get(cells, key)
  }

  /** `row[Object.keys(row)[i]]`. Past the last key the index yields `undefined`, and the
      property read becomes `row["undefined"]`. */
  function AtPosition(row: Row, i: int): Value {
    if 0 <= i < |row| then Get(row, row[i].key) else Get(row, "undefined")
  }

  /** Every element of a processed sheet is a row object (none is `undefined`). */
  predicate AllPresent(data: seq<SheetRow>) {
    forall i :: 0 <= i < |data| ==> data[i].Present?
  }

  /** `String.fromCharCode(65 + col - 1)`, for the columns A to Z. */
  function ColumnKey(col: nat): (k: string)
    requires 1 <= col <= 26
    ensures |k| == 1 && 'A' <= k[0] <= 'Z' && k[0] as int - 'A' as int == col - 1
  {
    [(64 + col) as char]
  }

  /** The index (0-based) of the column-label row of a data sheet: its ninth row. */
  const HEADER_ROW: nat := 8

  /** readExcelFile's `processSheet`. With `skipRows`, the rows before the header row are dropped
      and the header row comes first, followed by every row after it. When the sheet has no ninth
      row, the result starts with `undefined`. */
  function ProcessSheet(rows: seq<Row>, skipRows: bool): (r: seq<SheetRow>)
    ensures !skipRows ==> |r| == |rows| && forall i :: 0 <= i < |rows| ==> r[i] == Present(rows[i])
    ensures skipRows ==> |r| == (if |rows| > HEADER_ROW then |rows| - HEADER_ROW else 1)
    ensures skipRows ==> r[0] == (if |rows| > HEADER_ROW then Present(rows[HEADER_ROW]) else Missing)
    ensures skipRows ==> forall i :: 0 < i < |r| ==> r[i] == Present(rows[HEADER_ROW + i])
  {
    if skipRows then
      var header := if |rows| > HEADER_ROW then Present(rows[HEADER_ROW]) else Missing;
      var after := if |rows| > HEADER_ROW + 1 then rows[HEADER_ROW + 1..] else [];
      [header] + seq(|after|, i requires 0 <= i < |after| => Present(after[i]))
    else
      seq(|rows|, i requires 0 <= i < |rows| => Present(rows[i]))
  }
}

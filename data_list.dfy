/** List building and serialisation of the brand and imagery lists: formatDataList and formatEntry. */
module DataList {
  import opened JsValues
  import opened Sheet
  import opened FlagResolution
  import opened ListText

  /** One emitted list element: the code column's text, the (possibly bolded) name, and the
      resolved category codes in column order. */
  datatype Entry = Entry(code: string, name: string, categoryCodes: seq<string>)

  /** formatEntry: the four lines `_code "name"`, `[`, `      CategoryCode = "{_c1,_c2}"`, `]`,
      joined by newlines into one list element. */
  function FormatEntry(code: string, name: string, categoryCodes: seq<string>): string {
    "_" + code + " \"" + name + "\"\n[\n      CategoryCode = \"{" + CategoryList(categoryCodes) + "}\"\n]"
  }

  /** The text between the braces of an entry: `_c1,_c2`. */
  function CategoryList(categoryCodes: seq<string>): string {
    "_" + Join(categoryCodes, ",_")
  }

  function FormatAll(entries: seq<Entry>): seq<string> {
    seq(|entries|, i requires 0 <= i < |entries| =>
      FormatEntry(entries[i].code, entries[i].name, entries[i].categoryCodes))
  }

  /** The block formatDataList returns around its formatted entries. */
  function ListBlock(listName: string, entries: seq<string>): seq<string> {
    [DefineLine(listName), "{"] + WithCommas(entries) + ["};"]
  }

  /** Imagery names are wrapped as `<b>name</b>`. */
  function DisplayName(name: string, isImagery: bool): string {
    if isImagery then "<b>" + name + "</b>" else name
  }

  /** What one row contributes: an entry when column A and the code column are non-empty and at
      least one category column reads "yes"; nothing otherwise. */
  function EntryOf(headers: Row, row: Row, codeKey: string, startCol: nat, isImagery: bool): Option<Entry> {
    var name := Get(row, "A");
    var code := Get(row, codeKey);
    if Truthy(name) && Truthy(code) then
      var codes := CategoryCodes(headers, row, startCol);
      if |codes| > 0 then Some(Entry(code.s, DisplayName(name.s, isImagery), codes)) else None
    else None
  }

  /** What one element of a processed sheet contributes (an `undefined` row is handled by the caller). */
  function RowEntries(headers: Row, r: SheetRow, codeKey: string, startCol: nat, isImagery: bool): seq<Entry> {
    match r
    case Missing => []
    case Present(cells) => AsList(EntryOf(headers, cells, codeKey, startCol, isImagery))
  }

  /** The entries of the first `n` rows, in row order. */
  function Entries(headers: Row, rows: seq<SheetRow>, n: nat, codeKey: string, startCol: nat, isImagery: bool)
    : seq<Entry>
    requires n <= |rows|
  {
    if n == 0 then []
    else
      Entries(headers, rows, n - 1, codeKey, startCol, isImagery)
      + RowEntries(headers, rows[n - 1], codeKey, startCol, isImagery)
  }

  /** The entries of a processed sheet whose first row holds the column labels. Reading the code
      column of an `undefined` row throws. The header row itself is read like any other row. */
  function DataListEntries(data: seq<SheetRow>, codeKey: string, startCol: nat, isImagery: bool): Result<seq<Entry>> {
    if !AllPresent(data) then Err(TypeError)
    else Ok(Entries(HeaderCells(data), data, |data|, codeKey, startCol, isImagery))
  }

  /** The cells of the column-label row (none when there is no such row, in which case there are
      no rows to read either). */
  function HeaderCells(data: seq<SheetRow>): Row {
    if data != [] && data[0].Present? then data[0].cells else []
  }

  function DataListText(data: seq<SheetRow>, listName: string, codeKey: string, startCol: nat, isImagery: bool)
    : Result<seq<string>>
  {
    match DataListEntries(data, codeKey, startCol, isImagery)
    case Err(e) => Err(e)
    case Ok(entries) => Ok(ListBlock(listName, FormatAll(entries)))
  }

  function AsList(e: Option<Entry>): seq<Entry> {
    match e
    case Some(x) => [x]
    case None => []
  }

  lemma FormatAllSnoc(es: seq<Entry>, e: Entry)
    ensures FormatAll(es + [e]) == FormatAll(es) + [FormatEntry(e.code, e.name, e.categoryCodes)]
  {
  }

  /** formatDataList: the block of the entries of every qualifying row, or the TypeError of an
      `undefined` row. An empty list is not an error. */
  method FormatDataList(data: seq<SheetRow>, listName: string, codeCol: nat, categoryStartCol: nat, isImagery: bool)
    returns (r: Result<seq<string>>)
    requires 1 <= codeCol <= 26
    ensures r == DataListText(data, listName, ColumnKey(codeCol), categoryStartCol, isImagery)
  {
    var key := ColumnKey(codeCol);
    var entries := FormatRows(data, key, categoryStartCol, isImagery);
    match entries
    case Err(e) => r := Err(e);
    case Ok(lines) => r := Ok(ListBlock(listName, lines));
  }

  /** The loop of formatDataList: the formatted entry of every qualifying row, in row order. */
  method FormatRows(data: seq<SheetRow>, key: string, categoryStartCol: nat, isImagery: bool)
    returns (r: Result<seq<string>>)
    ensures r == match DataListEntries(data, key, categoryStartCol, isImagery)
                 case Err(e) => Err(e)
                 case Ok(es) => Ok(FormatAll(es))
  {
    var entries: seq<string> := [];
    var i := 0;
    while i < |data|
      invariant 0 <= i <= |data|
      invariant forall j :: 0 <= j < i ==> data[j].Present?
      invariant entries == FormatAll(Entries(HeaderCells(data), data, i, key, categoryStartCol, isImagery))
    {
      var row := data[i];
      if row.Missing? {
        return Err(TypeError);
      }
      var e := RowEntry(data[0].cells, row.cells, key, categoryStartCol, isImagery);
      assert HeaderCells(data) == data[0].cells;
      match e {
        case Some(entry) =>
          FormatAllSnoc(Entries(HeaderCells(data), data, i, key, categoryStartCol, isImagery), entry);
          entries := entries + [FormatEntry(entry.code, entry.name, entry.categoryCodes)];
        case None =>
      }
      i := i + 1;
    }
    r := Ok(entries);
  }

  /** The body of formatDataList's loop for one row: the name in column A, the code in the code
      column, and the category codes of the flagged columns. */
  method RowEntry(headers: Row, row: Row, codeKey: string, startCol: nat, isImagery: bool) returns (e: Option<Entry>)
    ensures e == EntryOf(headers, row, codeKey, startCol, isImagery)
  {
    var name := Get(row, "A");
    var code := Get(row, codeKey);
    e := None;
    if Truthy(name) && Truthy(code) {
      var formattedName := if isImagery then "<b>" + name.s + "</b>" else name.s;
      var categoryCodes := GetCategoryCodes(headers, row, startCol);
      if |categoryCodes| > 0 {
        e := Some(Entry(code.s, formattedName, categoryCodes));
      }
    }
  }

  /** An entry is emitted exactly for the rows that have a name, a code and a resolved category. */
  lemma {:induction false} EntriesMembership(headers: Row, rows: seq<SheetRow>, n: nat, codeKey: string,
                                             startCol: nat, isImagery: bool, e: Entry)
    requires n <= |rows|
    ensures e in Entries(headers, rows, n, codeKey, startCol, isImagery)
        <==> exists i :: 0 <= i < n && rows[i].Present?
                         && EntryOf(headers, rows[i].cells, codeKey, startCol, isImagery) == Some(e)
  {
    if n > 0 {
      EntriesMembership(headers, rows, n - 1, codeKey, startCol, isImagery, e);
    }
  }

  /** Every emitted entry has a non-empty code and name, and a non-empty list of category codes,
      each of them a run of digits. Imagery names are bolded. There are no more entries than rows. */
  lemma {:induction false} EntriesWellFormed(headers: Row, rows: seq<SheetRow>, n: nat, codeKey: string,
                                             startCol: nat, isImagery: bool)
    requires n <= |rows|
    ensures |Entries(headers, rows, n, codeKey, startCol, isImagery)| <= n
    ensures forall e :: e in Entries(headers, rows, n, codeKey, startCol, isImagery) ==>
      && e.code != "" && e.name != "" && e.categoryCodes != []
      && (forall c :: c in e.categoryCodes ==> IsDigitRun(c))
      && (isImagery ==> StartsWith(e.name, "<b>"))
  {
    if n > 0 {
      EntriesWellFormed(headers, rows, n - 1, codeKey, startCol, isImagery);
      if rows[n - 1].Present? {
        EntryOfWellFormed(headers, rows[n - 1].cells, codeKey, startCol, isImagery);
      }
    }
  }

  /** What EntriesWellFormed states, for the entry of one row. */
  lemma EntryOfWellFormed(headers: Row, row: Row, codeKey: string, startCol: nat, isImagery: bool)
    ensures match EntryOf(headers, row, codeKey, startCol, isImagery)
      case None => true
      case Some(e) =>
        && e.code != "" && e.name != "" && e.categoryCodes != []
        && (forall c :: c in e.categoryCodes ==> IsDigitRun(c))
        && (isImagery ==> StartsWith(e.name, "<b>"))
  {
    CodesBetweenAreDigitRuns(headers, row, FirstScanned(startCol), |row|);
    var name := Get(row, "A");
    if isImagery && Truthy(name) {
      assert ("<b>" + name.s + "</b>")[..3] == "<b>";
    }
  }
}

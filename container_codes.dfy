/** The containers of a diary category: getContainerCodes, which finds the category's column in
    the CONTAINERS sheet and reads the container codes flagged "yes" in it, and
    formatCategoryEntry, which renders one category element of the diary taxonomy. */
module ContainerCodes {
  import opened JsValues
  import opened Sheet
  import opened FlagResolution
  import opened DataList

  /** `extractCategoryCode(headerRow[key])` for the key at position `i`. A blank header cell is
      `null`, which the regular expression reads as the text "null". */
  function HeaderCode(headerRow: Row, i: nat): string {
    ExtractCategoryCode(TemplateText(AtPosition(headerRow, i)))
  }

  /** The value of `targetCol` after the `forEach` over the first `n` keys of the header row:
      the last position whose header code is `categoryCode`, or -1. */
  function TargetColumn(headerRow: Row, categoryCode: string, n: nat): int {
    if n == 0 then -1
    else if HeaderCode(headerRow, n - 1) == categoryCode then n - 1
    else TargetColumn(headerRow, categoryCode, n - 1)
  }

  /** The column-D text of row `r` when its cell at position `col` reads "yes" and that text is
      non-empty. */
  function RowContainer(r: SheetRow, col: int): seq<string> {
    match r
    case Missing => []
    case Present(row) =>
      var code := Get(row, "D");
      if IsYes(AtPosition(row, col)) && Truthy(code) then [code.s] else []
  }

  /** The container codes of the first `n` rows, in row order. */
  function Collected(data: seq<SheetRow>, col: int, n: nat): seq<string>
    requires n <= |data|
  {
    if n == 0 then [] else Collected(data, col, n - 1) + RowContainer(data[n - 1], col)
  }

  /** getContainerCodes(containerData, categoryCode). Taking the keys of a missing first row, or
      reading a cell of a missing row once a column was found, throws. The header row is read
      like any other row. */
  function ContainerCodesOf(data: seq<SheetRow>, categoryCode: string): Result<seq<string>> {
    if data == [] || data[0].Missing? then Err(TypeError)
    else
      var col := TargetColumn(data[0].cells, categoryCode, |data[0].cells|);
      if col == -1 then Ok([])
      else if !AllPresent(data) then Err(TypeError)
      else Ok(Collected(data, col, |data|))
  }

  /** getContainerCodes: a `forEach` over the header keys that remembers the last matching
      position, then a loop over the rows that collects the flagged containers. */
  method GetContainerCodes(data: seq<SheetRow>, categoryCode: string) returns (r: Result<seq<string>>)
    ensures r == ContainerCodesOf(data, categoryCode)
  {
    if data == [] || data[0].Missing? {
      return Err(TypeError);
    }
    var headerRow := data[0].cells;
    var targetCol := -1;
    var index := 0;
    while index < |headerRow|
      invariant index <= |headerRow|
      invariant targetCol == TargetColumn(headerRow, categoryCode, index)
    {
      if HeaderCode(headerRow, index) == categoryCode {
        targetCol := index;
      }
      index := index + 1;
    }
    if targetCol == -1 {
      return Ok([]);
    }
    var codes := [];
    var i := 0;
    while i < |data|
      invariant i <= |data|
      invariant forall j :: 0 <= j < i ==> data[j].Present?
      invariant codes == Collected(data, targetCol, i)
    {
      match data[i]
      case Missing =>
        return Err(TypeError);
      case Present(row) =>
        var containerCode := Get(row, "D");
        if IsYes(AtPosition(row, targetCol)) && Truthy(containerCode) {
          codes := codes + [containerCode.s];
        }
      i := i + 1;
    }
    return Ok(codes);
  }

  /** The header search finds the last matching position, and -1 exactly when no position of the
      header row carries the category code. */
  lemma {:induction false} TargetColumnIsLastMatch(headerRow: Row, categoryCode: string, n: nat)
    ensures TargetColumn(headerRow, categoryCode, n) == -1
        <==> forall i :: 0 <= i < n ==> HeaderCode(headerRow, i) != categoryCode
    ensures var t := TargetColumn(headerRow, categoryCode, n);
      t != -1 ==> (0 <= t < n && HeaderCode(headerRow, t) == categoryCode
        && forall i :: t < i < n ==> HeaderCode(headerRow, i) != categoryCode)
  {
    if n > 0 {
      TargetColumnIsLastMatch(headerRow, categoryCode, n - 1);
    }
  }

  /** When no header column carries the category code, the category has no containers. */
  lemma NoColumnNoContainers(data: seq<SheetRow>, categoryCode: string)
    requires data != [] && data[0].Present?
    requires forall i :: 0 <= i < |data[0].cells| ==> HeaderCode(data[0].cells, i) != categoryCode
    ensures ContainerCodesOf(data, categoryCode) == Ok([])
  {
    TargetColumnIsLastMatch(data[0].cells, categoryCode, |data[0].cells|);
  }

  /** Row `r` reads "yes" in column `col` and has `c` as its non-empty column-D text. */
  predicate Contributes(r: SheetRow, col: int, c: string) {
    r.Present? && IsYes(AtPosition(r.cells, col)) && Get(r.cells, "D") == Str(c) && c != ""
  }

  lemma RowContainerMembership(r: SheetRow, col: int, c: string)
    ensures c in RowContainer(r, col) <==> Contributes(r, col, c)
    ensures |RowContainer(r, col)| <= 1
  {
  }

  /** A code is collected exactly when some row reads "yes" in the target column and has that
      code as its non-empty column-D text; there is at most one code per row. */
  lemma {:induction false} CollectedMembership(data: seq<SheetRow>, col: int, n: nat, c: string)
    requires n <= |data|
    ensures c in Collected(data, col, n) <==> exists i :: 0 <= i < n && Contributes(data[i], col, c)
    ensures |Collected(data, col, n)| <= n
  {
    if n > 0 {
      var prev := Collected(data, col, n - 1);
      CollectedMembership(data, col, n - 1, c);
      RowContainerMembership(data[n - 1], col, c);
      assert Collected(data, col, n) == prev + RowContainer(data[n - 1], col);
      if exists i :: 0 <= i < n && Contributes(data[i], col, c) {
        var i :| 0 <= i < n && Contributes(data[i], col, c);
        if i < n - 1 {
          assert c in prev;
        }
      }
    }
  }

  /** The first line of a category element: `      _code "name"`. */
  function CategoryLine(code: string, name: string): string {
    "      _" + code + " \"" + name + "\""
  }

  /** formatCategoryEntry: the category line, followed by a `ContainersCodes` bracket only when
      there are containers. */
  function FormatCategoryEntry(code: string, name: string, containerCodes: seq<string>): string {
    CategoryLine(code, name)
    + (if |containerCodes| > 0
       then "\n[\n      ContainersCodes = \"{" + CategoryList(containerCodes) + "}\"\n]"
       else "")
  }

  /** The element starts with its category line, and when neither the code nor the name holds a
      `[`, the element holds a `[` exactly when there are containers; without containers it is the
      category line alone. */
  lemma FormatCategoryEntryBracket(code: string, name: string, containerCodes: seq<string>)
    requires '[' !in code && '[' !in name
    ensures StartsWith(FormatCategoryEntry(code, name, containerCodes), CategoryLine(code, name))
    ensures '[' in FormatCategoryEntry(code, name, containerCodes) <==> |containerCodes| > 0
    ensures |containerCodes| == 0 ==> FormatCategoryEntry(code, name, containerCodes) == CategoryLine(code, name)
  {
    var line := CategoryLine(code, name);
    var e := FormatCategoryEntry(code, name, containerCodes);
    assert e[..|line|] == line;
    if |containerCodes| > 0 {
      assert e[|line| + 1] == '[';
    } else {
      assert e == line;
      assert line == "      _" + code + " \"" + name + "\"";
    }
  }
}

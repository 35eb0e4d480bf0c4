/** processExcelFile up to the export: the country lookup in COUNTRY_CODES, the sheets as the
    reader slices them, processSheets, which builds the five lists, and the ALL_LISTS file, which
    concatenates them. */
module ExcelProcessor {
  import opened JsValues
  import opened Sheet
  import opened ListText
  import opened DataList
  import opened ContainerCodes
  import opened DiaryCategories

  /** COUNTRY_CODES: the country names the INDEX sheet may hold, and the code that suffixes every
      list name. */
  const COUNTRY_CODES: map<string, string> := map[
    "Austria" := "AT",
    "Croatia" := "CR",
    "Czechia" := "CZ",
    "Denmark" := "DK",
    "Finland" := "FI",
    "Ireland" := "IE",
    "Norway" := "NO",
    "Slovakia" := "SK",
    "Sweden" := "SE",
    "Switzerland" := "CH",
    "Hungary" := "HU",
    "Nigeria" := "NG",
    "Serbia" := "SB",
    "Bulgaria" := "BG",
    "KENYA" := "KE",
    "Greece" := "GR"
  ]

  /** The properties every plain object literal inherits from `Object.prototype`. Reading any of
      them gives a function or an object, which is truthy. */
  const OBJECT_PROTOTYPE_MEMBERS: set<string> := {
    "constructor", "hasOwnProperty", "isPrototypeOf", "propertyIsEnumerable", "toLocaleString",
    "toString", "valueOf", "__proto__", "__defineGetter__", "__defineSetter__",
    "__lookupGetter__", "__lookupSetter__"
  }

  /** The property key a value becomes when it indexes an object. */
  function PropertyKey(v: Value): string {
    TemplateText(v)
  }

  /** What `COUNTRY_CODES[countryName]` reads, as written: an own property, an inherited member,
      or nothing. */
  datatype Lookup = Own(code: string) | Inherited(member: string) | Absent

  function LookupAsWritten(countryName: Value): Lookup {
    var key := PropertyKey(countryName);
    if key in COUNTRY_CODES then Own(COUNTRY_CODES[key])
    else if key in OBJECT_PROTOTYPE_MEMBERS then Inherited(key)
    else Absent
  }

  /** `!isoCode` is false, so processExcelFile goes on. */
  predicate PassesCheckAsWritten(countryName: Value) {
    match LookupAsWritten(countryName)
    case Own(code) => code != ""
    case Inherited(_) => true
    case Absent => false
  }

  /** The country lookup as intended: only the sixteen own keys are countries. */
  function CountryCode(countryName: Value): Option<string> {
    var key := PropertyKey(countryName);
    if key in COUNTRY_CODES then Some(COUNTRY_CODES[key]) else None
  }

  /** The as-written check lets the name "constructor" through, although it names no country and
      the intended lookup rejects it. */
  lemma InheritedNameAccepted()
    ensures PassesCheckAsWritten(Str("constructor"))
    ensures CountryCode(Str("constructor")) == None
  {
  }

  /** The as-written check agrees with the intended lookup except on the inherited member names. */
  lemma AsWrittenDiffersOnlyOnInherited(countryName: Value)
    ensures PassesCheckAsWritten(countryName) <==>
      CountryCode(countryName).Some? || PropertyKey(countryName) in OBJECT_PROTOTYPE_MEMBERS
  {
    var key := PropertyKey(countryName);
    if key in COUNTRY_CODES {
      CountryCodesWellFormed(key);
    }
  }

  /** Every country code is two capital letters, so it is never empty. */
  lemma CountryCodesWellFormed(name: string)
    requires name in COUNTRY_CODES
    ensures |COUNTRY_CODES[name]| == 2
    ensures 'A' <= COUNTRY_CODES[name][0] <= 'Z' && 'A' <= COUNTRY_CODES[name][1] <= 'Z'
  {
  }

  /** The sheets of the workbook, as the sheet reader parses them. */
  datatype Workbook = Workbook(
    index: seq<Row>, mainBrandList: seq<Row>, diaryBrandList: seq<Row>,
    imagery: seq<Row>, subCategoryList: seq<Row>, containers: seq<Row>)

  /** ExcelData: the INDEX sheet whole, every other sheet from its header row on. */
  datatype ExcelData = ExcelData(
    index: seq<SheetRow>, mainBrandList: seq<SheetRow>, diaryBrandList: seq<SheetRow>,
    imagery: seq<SheetRow>, subCategoryList: seq<SheetRow>, containers: seq<SheetRow>)

  function ReadSheets(wb: Workbook): ExcelData {
    ExcelData(
      ProcessSheet(wb.index, false), ProcessSheet(wb.mainBrandList, true),
      ProcessSheet(wb.diaryBrandList, true), ProcessSheet(wb.imagery, true),
      ProcessSheet(wb.subCategoryList, true), ProcessSheet(wb.containers, true))
  }

  /** `data.INDEX[4]?.D` */
  function CountryName(data: ExcelData): Value {
    if |data.index| > 4 then Field(data.index[4], "D") else Undefined
  }

  /** ProcessedData, without `fullList`, which stays empty. */
  datatype ProcessedData = ProcessedData(
    mainBrandList: seq<string>, diaryBrandList: seq<string>, equityBrandList: seq<string>,
    imageryList: seq<string>, diaryCategories: seq<string>)

  /** processSheets: the main and equity lists both come from the MAIN BRAND LIST sheet (code in
      column B, categories from column C); the imagery list takes its code from column D and its
      categories from column E. The first list that throws decides the outcome. */
  function ProcessSheets(data: ExcelData, isoCode: string): Result<ProcessedData> {
    var main := DataListText(data.mainBrandList, "MAIN_BRANDLIST_" + isoCode, ColumnKey(2), 3, false);
    var diary := DataListText(data.diaryBrandList, "DIARY_BRANDLIST_" + isoCode, ColumnKey(2), 3, false);
    var equity := DataListText(data.mainBrandList, "EQUITY_BRANDLIST_" + isoCode, ColumnKey(2), 3, false);
    var imagery := DataListText(data.imagery, "IMAGERY_BRANDLIST_" + isoCode, ColumnKey(4), 5, true);
    var categories := DiaryText(data.subCategoryList, data.containers, isoCode);
    if main.Err? then Err(main.error)
    else if diary.Err? then Err(diary.error)
    else if equity.Err? then Err(equity.error)
    else if imagery.Err? then Err(imagery.error)
    else if categories.Err? then Err(categories.error)
    else Ok(ProcessedData(main.value, diary.value, equity.value, imagery.value, categories.value))
  }

  /** processExcelFile up to the export, with the intended country lookup. */
  function ExcelFileResult(wb: Workbook): Result<ProcessedData> {
    var data := ReadSheets(wb);
    match CountryCode(CountryName(data))
    case None => Err(CountryNotRecognized)
    case Some(isoCode) => ProcessSheets(data, isoCode)
  }

  /** processExcelFile: the country check comes before any list is built. */
  method ProcessExcelFile(wb: Workbook) returns (r: Result<ProcessedData>)
    ensures r == ExcelFileResult(wb)
  {
    var data := ReadSheets(wb);
    var countryName := CountryName(data);
    var isoCode := CountryCode(countryName);
    if isoCode.None? {
      return Err(CountryNotRecognized);
    }
    var iso := isoCode.value;
    var main := FormatDataList(data.mainBrandList, "MAIN_BRANDLIST_" + iso, 2, 3, false);
    if main.Err? {
      return Err(main.error);
    }
    var diary := FormatDataList(data.diaryBrandList, "DIARY_BRANDLIST_" + iso, 2, 3, false);
    if diary.Err? {
      return Err(diary.error);
    }
    var equity := FormatDataList(data.mainBrandList, "EQUITY_BRANDLIST_" + iso, 2, 3, false);
    if equity.Err? {
      return Err(equity.error);
    }
    var imagery := FormatDataList(data.imagery, "IMAGERY_BRANDLIST_" + iso, 4, 5, true);
    if imagery.Err? {
      return Err(imagery.error);
    }
    var categories := ProcessDiaryCategories(data.subCategoryList, data.containers, iso);
    if categories.Err? {
      return Err(categories.error);
    }
    return Ok(ProcessedData(main.value, diary.value, equity.value, imagery.value, categories.value));
  }

  /** The builders only ever throw TypeErrors. */
  lemma {:induction false} ItemsErrorIsTypeError(rows: seq<SheetRow>, containerData: seq<SheetRow>, n: nat)
    requires n <= |rows|
    ensures Items(rows, containerData, n).Err? ==> Items(rows, containerData, n).error == TypeError
  {
    if n > 0 {
      ItemsErrorIsTypeError(rows, containerData, n - 1);
    }
  }

  /** processExcelFile throws "Country not recognized" exactly when the INDEX country is not a key
      of COUNTRY_CODES; otherwise every list is named after the country's code. */
  lemma CountryCheck(wb: Workbook)
    ensures ExcelFileResult(wb) == Err(CountryNotRecognized) <==> CountryCode(CountryName(ReadSheets(wb))).None?
    ensures ExcelFileResult(wb).Ok? ==>
      var iso := CountryCode(CountryName(ReadSheets(wb))).value;
      var p := ExcelFileResult(wb).value;
      p.mainBrandList[0] == DefineLine("MAIN_BRANDLIST_" + iso)
      && p.diaryBrandList[0] == DefineLine("DIARY_BRANDLIST_" + iso)
      && p.equityBrandList[0] == DefineLine("EQUITY_BRANDLIST_" + iso)
      && p.imageryList[0] == DefineLine("IMAGERY_BRANDLIST_" + iso)
      && p.diaryCategories[0] == DefineLine(DiaryListName(iso))
  {
    var data := ReadSheets(wb);
    ItemsErrorIsTypeError(data.subCategoryList, data.containers, |data.subCategoryList|);
    if ExcelFileResult(wb).Ok? {
      DiaryTextFraming(data.subCategoryList, data.containers, CountryCode(CountryName(data)).value);
    }
  }

  /** The ALL_LISTS file: the five lists in order, separated by empty lines. */
  function AllLists(p: ProcessedData): seq<string> {
    p.mainBrandList + [""] + p.diaryBrandList + [""] + p.equityBrandList + [""] + p.imageryList + [""]
    + p.diaryCategories
  }

  /** Each list of ALL_LISTS sits at its own offset, after one empty line per earlier list. */
  lemma AllListsSections(p: ProcessedData)
    ensures var a := AllLists(p);
      var o1 := |p.mainBrandList| + 1;
      var o2 := o1 + |p.diaryBrandList| + 1;
      var o3 := o2 + |p.equityBrandList| + 1;
      var o4 := o3 + |p.imageryList| + 1;
      |a| == o4 + |p.diaryCategories|
      && a[..o1 - 1] == p.mainBrandList && a[o1 - 1] == ""
      && a[o1..o2 - 1] == p.diaryBrandList && a[o2 - 1] == ""
      && a[o2..o3 - 1] == p.equityBrandList && a[o3 - 1] == ""
      && a[o3..o4 - 1] == p.imageryList && a[o4 - 1] == ""
      && a[o4..] == p.diaryCategories
  {
  }
}

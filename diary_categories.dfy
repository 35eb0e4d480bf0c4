/** The diary category taxonomy: processDiaryCategories selects the diary rows of the SUB CATEGORY
    LIST sheet, groups them under their header code (keeping the local code 1000 apart), sorts the
    groups by `parseInt` of their code and renders the DIARY_CATEGORIES block. */
module DiaryCategories {
  import opened JsValues
  import opened Sheet
  import opened ListText
  import opened ContainerCodes
  import opened ParseInt
  import opened StableSort

  /** One selected row: its header code (column E), header label (column D) and its rendered
      category element. */
  datatype Item = Item(headerCode: Value, headerLabel: Value, entry: string)

  /** One entry of the `headers` map: the key, the label of the first row seen with that key,
      and the category elements of its rows in source order. */
  datatype Group = Group(code: Value, headerLabel: Value, categories: seq<string>)

  /** Rows whose header code is the string "1000" go to the local list. */
  const LOCAL_CODE: Value := Str("1000")

  const LOCAL_LINE: string := "_1000 \"Local, traditional or other type of drink\""

  /** `definition?.toLowerCase().includes("diary")` is truthy. */
  predicate IsDiary(definition: Value) {
    definition.Str? && Contains(Lower(definition.s), "diary")
  }

  /** A row with a label (A) and a code (B) whose definition (C) mentions "diary". */
  predicate Selected(r: SheetRow) {
    Truthy(Field(r, "A")) && Truthy(Field(r, "B")) && IsDiary(Field(r, "C"))
  }

  function ItemOf(r: SheetRow, containerCodes: seq<string>): Item
    requires Selected(r)
  {
    Item(Field(r, "E"), Field(r, "D"), FormatCategoryEntry(Field(r, "B").s, Field(r, "A").s, containerCodes))
  }

  /** The items of the selected rows among the first `n`, in row order, or the error of the first
      getContainerCodes call that throws. */
  function Items(rows: seq<SheetRow>, containerData: seq<SheetRow>, n: nat): Result<seq<Item>>
    requires n <= |rows|
  {
    if n == 0 then Ok([])
    else
      match Items(rows, containerData, n - 1)
      case Err(e) => Err(e)
      case Ok(items) =>
        var r := rows[n - 1];
        if !Selected(r) then Ok(items)
        else
          match ContainerCodesOf(containerData, Field(r, "B").s)
          case Err(e) => Err(e)
          case Ok(cc) => Ok(items + [ItemOf(r, cc)])
  }

  /** `headers.has(code)`: the position of the group with that key, or -1. Map keys compare with
      SameValueZero, which on these values is equality. */
  function FindGroup(groups: seq<Group>, code: Value): (k: int)
    ensures -1 <= k < |groups|
    ensures k == -1 <==> forall j :: 0 <= j < |groups| ==> groups[j].code != code
    ensures k != -1 ==> groups[k].code == code
  {
    if groups == [] then -1
    else if groups[|groups| - 1].code == code then |groups| - 1
    else FindGroup(groups[..|groups| - 1], code)
  }

  /** The map after one more item: a local item leaves it alone; otherwise the item's element is
      appended to the group of its key, which is created with the item's label when new. */
  function AddItem(groups: seq<Group>, it: Item): seq<Group> {
    if it.headerCode == LOCAL_CODE then groups
    else
      var k := FindGroup(groups, it.headerCode);
      if k == -1 then groups + [Group(it.headerCode, it.headerLabel, [it.entry])]
      else groups[k := groups[k].(categories := groups[k].categories + [it.entry])]
  }

  /** The `headers` map, in insertion order, after all items. */
  function Grouped(items: seq<Item>): seq<Group> {
    if items == [] then [] else AddItem(Grouped(items[..|items| - 1]), items[|items| - 1])
  }

  /** `localCategories` after all items. */
  function LocalEntries(items: seq<Item>): seq<string> {
    if items == [] then []
    else
      var last := items[|items| - 1];
      LocalEntries(items[..|items| - 1]) + (if last.headerCode == LOCAL_CODE then [last.entry] else [])
  }

  /** The elements of the items with header code `code`, in order. */
  function EntriesWithKey(items: seq<Item>, code: Value): seq<string> {
    if items == [] then []
    else
      var last := items[|items| - 1];
      EntriesWithKey(items[..|items| - 1], code) + (if last.headerCode == code then [last.entry] else [])
  }

  /** The position of the first item with header code `code`, or -1. */
  function FirstItem(items: seq<Item>, code: Value): (k: int)
    ensures -1 <= k < |items|
    ensures k == -1 <==> forall j :: 0 <= j < |items| ==> items[j].headerCode != code
    ensures k != -1 ==> items[k].headerCode == code && forall j :: 0 <= j < k ==> items[j].headerCode != code
  {
    if items == [] then -1
    else
      var k := FirstItem(items[..|items| - 1], code);
      if k != -1 then k
      else if items[|items| - 1].headerCode == code then |items| - 1
      else -1
  }

  predicate KeysDistinct(groups: seq<Group>) {
    forall i, j :: 0 <= i < j < |groups| ==> groups[i].code != groups[j].code
  }

  /** The sort comparator `parseInt(a) - parseInt(b)`; a NaN difference counts as 0, as the
      array sort treats it. */
  function Compare(a: Group, b: Group): int {
    match (ParseIntValue(a.code), ParseIntValue(b.code))
    case (Some(x), Some(y)) => x - y
    case _ => 0
  }

  /** `Array.from(headers.entries()).sort(...)`, stable as the insertion sort is. */
  function SortGroups(s: seq<Group>): seq<Group> {
    SortBy(s, Compare)
  }

  /** `_code "label"` */
  function GroupLine(g: Group): string {
    "_" + TemplateText(g.code) + " \"" + TemplateText(g.headerLabel) + "\""
  }

  function RenderGroup(g: Group): seq<string> {
    [GroupLine(g), "{"] + WithCommas(g.categories) + ["},"]
  }

  function RenderGroups(gs: seq<Group>): seq<string> {
    if gs == [] then [] else RenderGroups(gs[..|gs| - 1]) + RenderGroup(gs[|gs| - 1])
  }

  /** The local block, present only when there are local categories. */
  function LocalBlock(local: seq<string>): seq<string> {
    if |local| > 0 then [LOCAL_LINE, "{"] + WithCommas(local) + ["} fix"] else []
  }

  function DiaryListName(isoCode: string): string {
    "DIARY_CATEGORIES_" + isoCode
  }

  /** processDiaryCategories(categoryData, containerData, isoCode) */
  function DiaryText(rows: seq<SheetRow>, containerData: seq<SheetRow>, isoCode: string): Result<seq<string>> {
    match Items(rows, containerData, |rows|)
    case Err(e) => Err(e)
    case Ok(items) =>
      Ok([DefineLine(DiaryListName(isoCode)), "{"] + RenderGroups(SortGroups(Grouped(items)))
        + LocalBlock(LocalEntries(items)) + ["};"])
  }

  /** processDiaryCategories: one pass over the rows that fills the `headers` map and the local
      list, then the sorted groups and the local block are appended to the result. */
  method ProcessDiaryCategories(categoryData: seq<SheetRow>, containerData: seq<SheetRow>, isoCode: string)
    returns (r: Result<seq<string>>)
    ensures r == DiaryText(categoryData, containerData, isoCode)
  {
    var groups, localCategories := CollectCategories(categoryData, containerData);
    if groups.Err? {
      return Err(groups.error);
    }
    ghost var items := Items(categoryData, containerData, |categoryData|).value;
    assert groups.value == Grouped(items) && localCategories == LocalEntries(items);
    var result := [DefineLine(DiaryListName(isoCode)), "{"];
    var lines := PushGroups(SortGroups(groups.value));
    result := result + lines;
    if |localCategories| > 0 {
      result := result + ([LOCAL_LINE, "{"] + WithCommas(localCategories) + ["} fix"]);
    } else {
      assert LocalBlock(localCategories) == [];
    }
    result := result + ["};"];
    assert result == [DefineLine(DiaryListName(isoCode)), "{"] + RenderGroups(SortGroups(Grouped(items)))
        + LocalBlock(LocalEntries(items)) + ["};"];
    assert Items(categoryData, containerData, |categoryData|) == Ok(items);
    return Ok(result);
  }

  /** The `forEach` that pushes each sorted group's lines. */
  method PushGroups(sorted: seq<Group>) returns (lines: seq<string>)
    ensures lines == RenderGroups(sorted)
  {
    lines := [];
    var g := 0;
    while g < |sorted|
      invariant g <= |sorted|
      invariant lines == RenderGroups(sorted[..g])
    {
      assert sorted[..g + 1][..g] == sorted[..g];
      lines := lines + RenderGroup(sorted[g]);
      g := g + 1;
    }
    assert sorted[..g] == sorted;
  }

  /** Once a getContainerCodes call throws, the whole run has thrown. */
  lemma {:induction false} ItemsErrorPersists(rows: seq<SheetRow>, containerData: seq<SheetRow>, i: nat, n: nat)
    requires i <= n <= |rows|
    requires Items(rows, containerData, i).Err?
    ensures Items(rows, containerData, n) == Items(rows, containerData, i)
    decreases n
  {
    if n > i {
      ItemsErrorPersists(rows, containerData, i, n - 1);
    }
  }

  /** The loop of processDiaryCategories over the category rows. */
  method CollectCategories(categoryData: seq<SheetRow>, containerData: seq<SheetRow>)
    returns (groups: Result<seq<Group>>, localCategories: seq<string>)
    ensures groups == match Items(categoryData, containerData, |categoryData|)
      case Err(e) => Err(e)
      case Ok(items) => Ok(Grouped(items))
    ensures Items(categoryData, containerData, |categoryData|).Ok? ==>
      localCategories == LocalEntries(Items(categoryData, containerData, |categoryData|).value)
  {
    var headers: seq<Group> := [];
    localCategories := [];
    var i := 0;
    while i < |categoryData|
      invariant i <= |categoryData|
      invariant Items(categoryData, containerData, i).Ok?
      invariant headers == Grouped(Items(categoryData, containerData, i).value)
      invariant localCategories == LocalEntries(Items(categoryData, containerData, i).value)
    {
      var row := categoryData[i];
      var name := Field(row, "A");
      var code := Field(row, "B");
      var definition := Field(row, "C");
      if Truthy(name) && Truthy(code) && IsDiary(definition) {
        var cc := GetContainerCodes(containerData, code.s);
        if cc.Err? {
          ItemsErrorPersists(categoryData, containerData, i + 1, |categoryData|);
          return Err(cc.error), localCategories;
        }
        var entry := FormatCategoryEntry(code.s, name.s, cc.value);
        var it := Item(Field(row, "E"), Field(row, "D"), entry);
        ItemsSnoc(Items(categoryData, containerData, i).value, it);
        headers, localCategories := FileItem(headers, localCategories, it);
      }
      i := i + 1;
    }
    return Ok(headers), localCategories;
  }

  /** Filing one item: `localCategories.push(entry)` for the local code, otherwise
      `headers.set` when the key is new and `headers.get(code).categories.push(entry)`. */
  method FileItem(headers: seq<Group>, localCategories: seq<string>, it: Item)
    returns (headers': seq<Group>, localCategories': seq<string>)
    ensures headers' == AddItem(headers, it)
    ensures localCategories' == localCategories + (if it.headerCode == LOCAL_CODE then [it.entry] else [])
  {
    headers', localCategories' := headers, localCategories;
    if it.headerCode == LOCAL_CODE {
      localCategories' := localCategories + [it.entry];
    } else {
      var k := FindGroup(headers, it.headerCode);
      if k == -1 {
        headers' := headers + [Group(it.headerCode, it.headerLabel, [])];
        k := |headers'| - 1;
      }
      headers' := headers'[k := headers'[k].(categories := headers'[k].categories + [it.entry])];
      if k == |headers| {
        assert [] + [it.entry] == [it.entry];
        assert headers'[..k] == headers;
        assert headers' == headers'[..k] + [headers'[k]];
      }
    }
  }

  /** Grouping and the local list after one more item. */
  lemma ItemsSnoc(items: seq<Item>, it: Item)
    ensures Grouped(items + [it]) == AddItem(Grouped(items), it)
    ensures LocalEntries(items + [it]) == LocalEntries(items) + (if it.headerCode == LOCAL_CODE then [it.entry] else [])
  {
    assert (items + [it])[..|items|] == items;
  }

  /** Row `i` is selected and gives the item `it`. */
  predicate TakenAs(rows: seq<SheetRow>, containerData: seq<SheetRow>, i: nat, it: Item)
    requires i < |rows|
  {
    Selected(rows[i])
    && ContainerCodesOf(containerData, Field(rows[i], "B").s).Ok?
    && it == ItemOf(rows[i], ContainerCodesOf(containerData, Field(rows[i], "B").s).value)
  }

  /** The items are exactly those of the selected rows: a row is taken when it has a label and a
      code and its definition mentions "diary", and nothing else is taken. */
  lemma {:induction false} ItemsAreSelectedRows(rows: seq<SheetRow>, containerData: seq<SheetRow>, n: nat, it: Item)
    requires n <= |rows| && Items(rows, containerData, n).Ok?
    ensures it in Items(rows, containerData, n).value <==>
      exists i :: 0 <= i < n && TakenAs(rows, containerData, i, it)
    ensures |Items(rows, containerData, n).value| <= n
  {
    if n > 0 {
      var prev := Items(rows, containerData, n - 1);
      assert prev.Ok?;
      ItemsAreSelectedRows(rows, containerData, n - 1, it);
      var added := Items(rows, containerData, n).value[|prev.value|..];
      assert Items(rows, containerData, n).value == prev.value + added;
      assert it in added <==> TakenAs(rows, containerData, n - 1, it);
      if exists i :: 0 <= i < n && TakenAs(rows, containerData, i, it) {
        var i :| 0 <= i < n && TakenAs(rows, containerData, i, it);
        if i < n - 1 {
          assert it in prev.value;
        }
      }
    }
  }

  /** Codes of the groups before and after one more item: old positions keep their code, and
      any new group carries the item's key. */
  lemma AddItemCodes(groups: seq<Group>, it: Item)
    ensures |groups| <= |AddItem(groups, it)| <= |groups| + 1
    ensures forall j :: 0 <= j < |groups| ==> AddItem(groups, it)[j].code == groups[j].code
    ensures |AddItem(groups, it)| == |groups| + 1 ==>
      AddItem(groups, it)[|groups|] == Group(it.headerCode, it.headerLabel, [it.entry])
      && it.headerCode != LOCAL_CODE && FindGroup(groups, it.headerCode) == -1
  {
  }

  /** The keys of the map are pairwise distinct and never the local code. */
  lemma {:induction false} GroupedKeysDistinct(items: seq<Item>)
    ensures KeysDistinct(Grouped(items))
    ensures forall k :: 0 <= k < |Grouped(items)| ==> Grouped(items)[k].code != LOCAL_CODE
  {
    if items != [] {
      GroupedKeysDistinct(items[..|items| - 1]);
      AddItemCodes(Grouped(items[..|items| - 1]), items[|items| - 1]);
    }
  }

  /** Every key of the map is the key of some item. */
  lemma {:induction false} GroupedKeysOccur(items: seq<Item>)
    ensures forall k :: 0 <= k < |Grouped(items)| ==> FirstItem(items, Grouped(items)[k].code) != -1
  {
    if items != [] {
      var p := items[..|items| - 1];
      GroupedKeysOccur(p);
      var gp := Grouped(p);
      var g := Grouped(items);
      AddItemCodes(gp, items[|items| - 1]);
      forall k | 0 <= k < |g| ensures FirstItem(items, g[k].code) != -1 {
        if k < |gp| {
          var f := FirstItem(p, gp[k].code);
          assert items[f] == p[f];
        }
      }
    }
  }

  /** Every item with a non-local key has a group. */
  lemma {:induction false} GroupedKeysCover(items: seq<Item>)
    ensures forall i :: 0 <= i < |items| && items[i].headerCode != LOCAL_CODE ==>
      FindGroup(Grouped(items), items[i].headerCode) != -1
  {
    if items != [] {
      var p := items[..|items| - 1];
      var x := items[|items| - 1];
      GroupedKeysCover(p);
      var gp := Grouped(p);
      var g := Grouped(items);
      AddItemCodes(gp, x);
      forall i | 0 <= i < |items| && items[i].headerCode != LOCAL_CODE
        ensures FindGroup(g, items[i].headerCode) != -1
      {
        if i < |items| - 1 {
          assert items[i] == p[i];
          var j := FindGroup(gp, p[i].headerCode);
          assert g[j].code == p[i].headerCode;
        } else if |g| == |gp| {
          var j := FindGroup(gp, x.headerCode);
          assert g[j].code == x.headerCode;
        } else {
          assert g[|gp|].code == x.headerCode;
        }
      }
    }
  }

  /** An item key with no group belongs to no earlier item. */
  lemma NoGroupNoItem(items: seq<Item>, code: Value)
    requires code != LOCAL_CODE && FindGroup(Grouped(items), code) == -1
    ensures FirstItem(items, code) == -1
  {
    GroupedKeysCover(items);
  }

  lemma {:induction false} EntriesWithKeyNone(items: seq<Item>, code: Value)
    requires FirstItem(items, code) == -1
    ensures EntriesWithKey(items, code) == []
  {
    if items != [] {
      var p := items[..|items| - 1];
      assert forall j :: 0 <= j < |p| ==> p[j] == items[j];
      EntriesWithKeyNone(p, code);
    }
  }

  /** Each group holds the elements of exactly the items with its key, in source order. */
  lemma {:induction false} GroupedCategories(items: seq<Item>)
    ensures forall k :: 0 <= k < |Grouped(items)| ==>
      Grouped(items)[k].categories == EntriesWithKey(items, Grouped(items)[k].code)
  {
    if items != [] {
      var p := items[..|items| - 1];
      var x := items[|items| - 1];
      GroupedCategories(p);
      GroupedKeysDistinct(p);
      var gp := Grouped(p);
      var g := Grouped(items);
      AddItemCodes(gp, x);
      if |g| > |gp| {
        NoGroupNoItem(p, x.headerCode);
        EntriesWithKeyNone(p, x.headerCode);
      }
    }
  }

  /** Each group is labelled with the header label of the first item with its key. */
  lemma {:induction false} GroupedLabels(items: seq<Item>)
    ensures forall k :: 0 <= k < |Grouped(items)| ==> (FirstItem(items, Grouped(items)[k].code) != -1
      && Grouped(items)[k].headerLabel == items[FirstItem(items, Grouped(items)[k].code)].headerLabel)
  {
    GroupedKeysOccur(items);
    if items != [] {
      var p := items[..|items| - 1];
      var x := items[|items| - 1];
      GroupedLabels(p);
      var gp := Grouped(p);
      var g := Grouped(items);
      AddItemCodes(gp, x);
      forall k | 0 <= k < |g|
        ensures g[k].headerLabel == items[FirstItem(items, g[k].code)].headerLabel
      {
        if k < |gp| {
          var f := FirstItem(p, gp[k].code);
          assert p[f] == items[f];
        } else {
          NoGroupNoItem(p, x.headerCode);
        }
      }
    }
  }

  /** The local list holds the elements of exactly the items with the local code, in order. */
  lemma {:induction false} LocalEntriesAreLocalItems(items: seq<Item>)
    ensures LocalEntries(items) == EntriesWithKey(items, LOCAL_CODE)
  {
    if items != [] {
      LocalEntriesAreLocalItems(items[..|items| - 1]);
    }
  }

  /** The number a group's code parses to (0 for NaN, where the comparator gives 0 anyway). */
  function CodeNumber(g: Group): int {
    match ParseIntValue(g.code)
    case Some(n) => n
    case None => 0
  }

  predicate CodeParses(g: Group) {
    ParseIntValue(g.code).Some?
  }

  predicate AllCodesParse(gs: seq<Group>) {
    forall i :: 0 <= i < |gs| ==> CodeParses(gs[i])
  }

  predicate SortedByCode(gs: seq<Group>) {
    SortedBy(gs, CodeNumber)
  }

  /** Between codes that parse, the comparator is the difference of their numbers. */
  lemma CompareConsistent()
    ensures Consistent(Compare, CodeNumber, CodeParses)
  {
  }

  /** The sort is a permutation of the map's entries. */
  lemma SortGroupsMultiset(s: seq<Group>)
    ensures multiset(SortGroups(s)) == multiset(s)
  {
    SortByMultiset(s, Compare);
  }

  /** When every key parses as a number, the groups come out in ascending numeric order. */
  lemma SortGroupsSorted(s: seq<Group>)
    requires AllCodesParse(s)
    ensures SortedByCode(SortGroups(s))
  {
    CompareConsistent();
    SortBySorted(s, Compare, CodeNumber, CodeParses);
  }

  /** A category element line: it starts with a space, unlike every framing line. */
  predicate Indented(line: string) {
    |line| > 0 && line[0] == ' '
  }

  predicate GroupsIndented(gs: seq<Group>) {
    forall k, m :: 0 <= k < |gs| && 0 <= m < |gs[k].categories| ==> Indented(gs[k].categories[m])
  }

  lemma {:induction false} ItemsIndented(rows: seq<SheetRow>, containerData: seq<SheetRow>, n: nat)
    requires n <= |rows| && Items(rows, containerData, n).Ok?
    ensures forall k :: 0 <= k < |Items(rows, containerData, n).value| ==>
      Indented(Items(rows, containerData, n).value[k].entry)
  {
    if n > 0 {
      ItemsIndented(rows, containerData, n - 1);
    }
  }

  lemma {:induction false} GroupedIndented(items: seq<Item>)
    requires forall k :: 0 <= k < |items| ==> Indented(items[k].entry)
    ensures GroupsIndented(Grouped(items))
  {
    if items != [] {
      var p := items[..|items| - 1];
      GroupedIndented(p);
      var gp := Grouped(p);
      var g := Grouped(items);
      AddItemCodes(gp, items[|items| - 1]);
      forall k, m | 0 <= k < |g| && 0 <= m < |g[k].categories| ensures Indented(g[k].categories[m]) {
        if k < |gp| && m < |gp[k].categories| {
          assert g[k].categories[m] == gp[k].categories[m];
        }
      }
    }
  }

  lemma SortGroupsIndented(gs: seq<Group>)
    requires GroupsIndented(gs)
    ensures GroupsIndented(SortGroups(gs))
  {
    var sorted := SortGroups(gs);
    SortGroupsMultiset(gs);
    forall k | 0 <= k < |sorted| ensures exists j :: 0 <= j < |gs| && gs[j] == sorted[k] {
      assert sorted[k] in multiset(gs);
    }
  }

  lemma {:induction false} RenderGroupsNoFix(gs: seq<Group>)
    requires GroupsIndented(gs)
    ensures "} fix" !in RenderGroups(gs)
  {
    if gs != [] {
      var init := gs[..|gs| - 1];
      var g := gs[|gs| - 1];
      assert GroupsIndented(init) by {
        forall k, m | 0 <= k < |init| && 0 <= m < |init[k].categories| ensures Indented(init[k].categories[m]) {
          assert init[k] == gs[k];
        }
      }
      RenderGroupsNoFix(init);
      var lines := WithCommas(g.categories);
      forall m | 0 <= m < |lines| ensures lines[m] != "} fix" {
        assert Indented(g.categories[m]);
        assert lines[m][0] == ' ';
      }
      assert GroupLine(g)[0] == '_';
    }
  }

  /** The DIARY_CATEGORIES block: its define line and opening brace, the `} fix` line exactly when
      there are local categories (then just before the end), and the closing `};` last. */
  lemma DiaryTextFraming(rows: seq<SheetRow>, containerData: seq<SheetRow>, isoCode: string)
    requires DiaryText(rows, containerData, isoCode).Ok?
    ensures var t := DiaryText(rows, containerData, isoCode).value;
      var local := LocalEntries(Items(rows, containerData, |rows|).value);
      |t| >= 3 && t[0] == DefineLine(DiaryListName(isoCode)) && t[1] == "{" && t[|t| - 1] == "};"
      && ("} fix" in t <==> |local| > 0)
      && (|local| > 0 ==> t[|t| - 2] == "} fix")
  {
    var items := Items(rows, containerData, |rows|).value;
    ItemsIndented(rows, containerData, |rows|);
    GroupedIndented(items);
    SortGroupsIndented(Grouped(items));
    RenderGroupsNoFix(SortGroups(Grouped(items)));
    var head := [DefineLine(DiaryListName(isoCode)), "{"];
    assert head[0][0] == 'D';
    var local := LocalEntries(items);
    if |local| > 0 {
      assert "} fix" in LocalBlock(local);
    }
  }
}

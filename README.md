# Country list compiler, materials table and checklist tree

This project models three parts of a Next.js tool that prepares survey list definitions for
a soft-drink tracking study.

- **The list compiler** (`src/app/lib/excel-processor.ts`). It reads the sheets of a country
  workbook and writes the text of a list-definition language. That text holds four brand lists
  and a diary-category taxonomy. It can also turn list text back into flat import rows.
  The model covers:
  - the country lookup;
  - the header-row slice applied to every data sheet;
  - flag resolution over the "yes" matrix (`extractCategoryCode`, `getCategoryCodes`);
  - list building and serialisation (`formatDataList`, `formatEntry`);
  - the diary taxonomy (`processDiaryCategories`, `getContainerCodes`, `formatCategoryEntry`);
  - the way back (`parseListToExcelRows`, `convertToExcelFormat`);
  - the ALL_LISTS concatenation.
- **The materials API** (`src/app/api/materials/route.ts`). It is an in-memory table of links:
  GET lists it, POST appends to it, PUT replaces an entry by id, DELETE splices one out.
- **The checklist panel** (`src/app/components/Checklist.tsx`). It is a tree of checklist items:
  counting its nodes, counting its checked nodes, and toggling an item by id.

## Modules

Each module is one file.

- **`JsValues`** (`js_values.dfy`) holds the JavaScript semantics the compiler relies on:
  - `undefined`, `null` and cell text as `Value`;
  - truthiness and template-literal text;
  - ASCII `toLowerCase`, `\s`, `trim`, `includes`, `join`;
  - the `Result` of a run that can throw a `TypeError`.
- **`Sheet`** (`sheet.dfy`) holds row objects as ordered `(column letter, optional text)` cells, in
  `Object.keys` order, and `processSheet`'s header-row slice.
- **`FlagResolution`** (`flag_resolution.dfy`): `extractCategoryCode` and `getCategoryCodes`. The
  latter is a method with a loop, proved against `CategoryCodes`.
- **`ListText`** and **`DataList`** (`list_text.dfy`, `data_list.dfy`) hold the block framing,
  `formatEntry`, and `formatDataList` (a loop proved against `DataListText`).
- **`ListParser`** (`list_parser.dfy`) holds the regular expression of `parseListToExcelRows`, as a
  deterministic scanner. It also holds the loop that carries `currentObject`, and the round trip
  from `formatDataList` back to rows.
- **`ExcelFormat`** (`excel_format.dfy`): `convertToExcelFormat`, which removes duplicates by
  Object Name and then sorts.
- **`ContainerCodes`** (`container_codes.dfy`): `getContainerCodes` (two loops) and
  `formatCategoryEntry`.
- **`ParseInt`** (`parse_int.dfy`): `parseInt` without a radix, as the taxonomy sort calls it.
- **`StableSort`** (`stable_sort.dfy`) holds the array sort with a comparator.
- **`DiaryCategories`** (`diary_categories.dfy`): `processDiaryCategories`. It is the loop that
  fills the `headers` map and the local list, then the sort and the rendering.
- **`ExcelProcessor`** (`excel_processor.dfy`) holds:
  - `COUNTRY_CODES` and the country check;
  - the sheets as read;
  - `processSheets` and `processExcelFile` up to the export;
  - ALL_LISTS.
- **`Materials`** (`materials.dfy`): the `materialsLinks` table as a class whose methods reassign
  its `links` field, and the functions that specify them.
- **`Checklist`** (`checklist.dfy`): the item tree, the two counting methods (loops plus recursion),
  and `toggleItem`.

Where the code differs from what one might expect of it, the model follows the code:
- An empty brand list is not an error. The block is just the define line, `{` and `};`.
- The header row of each data sheet (the first element after the slice) is read like any data
  row. In `getContainerCodes` it is also scanned for "yes" cells.
- Rows with no header code in column E are grouped under `undefined` or `null`, and rendered as
  `_undefined` or `_null`.
- There is no position or Group-ID parser and no synthetic "Other (specify)" row.
- The comment at `excel-processor.ts:27` says "Row 10". The code reads `data.INDEX[4]`, the fifth
  row of the INDEX sheet, and the model reads that.

## Model

| member | source | states |
|---|---|---|
| JsValues.IsYesLowersToYes | src/app/lib/excel-processor.ts:204 | the "yes" test holds exactly for a string whose lowercase form is `yes` |
| JsValues.Contains | src/app/lib/excel-processor.ts:128 | `includes` is true exactly when the text occurs at some position |
| JsValues.TrimEnd | src/app/lib/excel-processor.ts:338 | the trimmed text is a prefix of the input, does not end in white space, and only white space was removed |
| JsValues.SpanSplits | src/app/lib/excel-processor.ts:213 | a greedy run splits the text into a prefix of matching characters and a rest that does not start with one |
| JsValues.SpanUnique | src/app/lib/excel-processor.ts:325 | the greedy split is the only split with those two properties, so each regex run is determined |
| Sheet.GetAtPosition | src/app/lib/excel-processor.ts:197-199 | in a row with distinct keys, reading the key at position `i` gives the cell at position `i` |
| Sheet.ColumnKey | src/app/lib/excel-processor.ts:175 | the code column's key is the single letter `col - 1` places after `A` |
| Sheet.ProcessSheet | src/app/lib/excel-processor.ts:57-62 | without skipping, every row is kept; with skipping, the ninth row (or `undefined` when there is none) comes first, followed by every row after it |
| FlagResolution.ExtractCategoryCode | src/app/lib/excel-processor.ts:212-215 | definition of extractCategoryCode: the first run of digits of the header text, or ""; properties in ExtractCategoryCodeDigits and ExtractCategoryCodeIsFirstRun |
| FlagResolution.CategoryCodes | src/app/lib/excel-processor.ts:191-210 | definition of getCategoryCodes' result: the codes of the flagged columns from position `startCol - 1` on; properties in CodesBetweenMembership, CodesBetweenAreDigitRuns and CategoryCodesIgnoreEarlierColumns |
| FlagResolution.ExtractCategoryCodeDigits | src/app/lib/excel-processor.ts:212-215 | the extracted code is all digits, and it is empty exactly when the header has no digit |
| FlagResolution.ExtractCategoryCodeIsFirstRun | src/app/lib/excel-processor.ts:212-215 | the extracted code is the first maximal run of digits: no digit precedes it and no digit follows it |
| FlagResolution.GetCategoryCodes | src/app/lib/excel-processor.ts:191-210 | the loop returns the codes of the flagged columns from position `startCol - 1` on, in column order |
| FlagResolution.CodesBetweenMembership | src/app/lib/excel-processor.ts:197-207 | a code is returned exactly when some scanned column reads "yes" under a header whose extracted code it is |
| FlagResolution.CodesBetweenAreDigitRuns | src/app/lib/excel-processor.ts:204-206 | every returned code is a non-empty digit run, and there are no more codes than scanned columns |
| FlagResolution.ColumnCodeLocal | src/app/lib/excel-processor.ts:198-205 | a column's code depends only on that column's cell |
| FlagResolution.CodesBetweenLocal | src/app/lib/excel-processor.ts:197-207 | two rows that agree on the scanned columns give the same codes |
| FlagResolution.CategoryCodesIgnoreEarlierColumns | src/app/lib/excel-processor.ts:197 | columns before `startCol` never influence the codes |
| DataList.FormatEntry | src/app/lib/excel-processor.ts:217-224 | definition of formatEntry: `_code "name"`, `[`, the CategoryCode line and `]`, joined by newlines; its text parses back in ListParser.EntryMatches |
| DataList.DataListText | src/app/lib/excel-processor.ts:168-189 | definition of formatDataList's result: the framed block of the qualifying rows' entries, or a TypeError; properties in EntriesMembership, EntriesWellFormed and ListParser.DataListRoundTrip |
| DataList.FormatDataList | src/app/lib/excel-processor.ts:168-189 | the method returns the framed block of the qualifying rows' entries, or the TypeError of an `undefined` row |
| DataList.FormatRows | src/app/lib/excel-processor.ts:172-186 | the loop formats the entry of every qualifying row in row order, and throws on an `undefined` row |
| DataList.RowEntry | src/app/lib/excel-processor.ts:173-183 | one row gives an entry exactly when column A and the code column are non-empty and a category resolves; imagery names are bolded |
| DataList.EntriesMembership | src/app/lib/excel-processor.ts:177-182 | an entry is emitted exactly for the rows that have a name, a code and a resolved category |
| DataList.EntriesWellFormed | src/app/lib/excel-processor.ts:177-182 | every entry has a non-empty code and name and a non-empty list of digit-run codes; imagery names start with `<b>`; there are at most as many entries as rows |
| DataList.EntryOfWellFormed | src/app/lib/excel-processor.ts:177-182 | the same properties, for the entry of one row |
| DataList.FormatAllSnoc | src/app/lib/excel-processor.ts:181 | pushing one more entry appends exactly its formatted text |
| ListParser.FirstMatch | src/app/lib/excel-processor.ts:325-328 | definition of `line.match(pattern)`: the match at the leftmost position that has one; properties in FirstMatchTextNonEmpty, FirstMatchNeedsBracket and EntryMatches |
| ListParser.NormalizeCategoryCode | src/app/lib/excel-processor.ts:338 | definition of the CategoryCode normalisation: the trimmed text, with `_` put in front when it does not start with one; property in NormalizeFormattedCategories |
| ListParser.ParsedRows | src/app/lib/excel-processor.ts:320-350 | definition of parseListToExcelRows' result: one row per matching list element, in order; properties in ListBlockRoundTrip and DataListRoundTrip |
| ListParser.ParseListToExcelRows | src/app/lib/excel-processor.ts:320-350 | the loop that carries `currentObject` returns one row per matching list element, in list order |
| ListParser.FirstMatchTextNonEmpty | src/app/lib/excel-processor.ts:330 | a matched row always has text, so the `currentObject.Text` test never drops a row |
| ListParser.FirstMatchNeedsBracket | src/app/lib/excel-processor.ts:325 | a line without `]` never matches the pattern |
| ListParser.EntryMatches | src/app/lib/excel-processor.ts:217-224 | a formatEntry element, with or without its comma, matches at its first character and captures back its code, its name and its category list |
| ListParser.NormalizeFormattedCategories | src/app/lib/excel-processor.ts:338 | the category text of a formatted entry needs no trim and already starts with `_` |
| ListParser.EntryLineRow | src/app/lib/excel-processor.ts:333-340 | a formatted entry parses to exactly the row holding its name, `_` + its code, and its category list |
| ListParser.NoRows | src/app/lib/excel-processor.ts:327-342 | list lines without `]` yield no rows |
| ListParser.EntriesRows | src/app/lib/excel-processor.ts:186 | the comma-separated entries yield one row each, in order |
| ListParser.DefineLineNoBracket | src/app/lib/excel-processor.ts:169 | the define line of a list whose name has no `]` has none |
| ListParser.ListBlockRoundTrip | src/app/lib/excel-processor.ts:320-350 | parsing a framed block gives back one row per entry, in order |
| ListParser.DataListRoundTrip | src/app/lib/excel-processor.ts:168-189 | parsing formatDataList's text, when codes are digit runs and names have no `"`, recovers every emitted entry's name, code and code list, in order |
| ExcelFormat.Convert | src/app/lib/excel-processor.ts:352-359 | definition of convertToExcelFormat: the filter of first occurrences, then the sort by Object Name; properties in ConvertCorrect and ConvertIdempotent |
| ExcelFormat.FindName | src/app/lib/excel-processor.ts:355 | `findIndex` gives -1 exactly when no row from the start position has the name, and otherwise the first row that does |
| ExcelFormat.UniqueKeepsFirst | src/app/lib/excel-processor.ts:354-356 | a row survives the filter exactly when no earlier row has its Object Name; survivors have distinct names |
| ExcelFormat.UniqueKeepsNames | src/app/lib/excel-processor.ts:354-356 | every Object Name of the input is still present after the filter |
| ExcelFormat.UniqueOfDistinct | src/app/lib/excel-processor.ts:354-356 | the filter leaves rows with distinct names unchanged |
| ExcelFormat.UniqueLength | src/app/lib/excel-processor.ts:354-356 | the filter never adds rows |
| ExcelFormat.LexIrreflexive | src/app/lib/excel-processor.ts:358 | no name sorts before itself |
| ExcelFormat.LexTransitive | src/app/lib/excel-processor.ts:358 | the order on names is transitive |
| ExcelFormat.LexTotal | src/app/lib/excel-processor.ts:358 | of two different names, one sorts first |
| ExcelFormat.InsertMultiset | src/app/lib/excel-processor.ts:358 | inserting a row adds exactly that row |
| ExcelFormat.InsertMembers | src/app/lib/excel-processor.ts:358 | after an insertion, the members are the new row and the old members |
| ExcelFormat.AscendingHead | src/app/lib/excel-processor.ts:358 | the head of an ascending list precedes every later row |
| ExcelFormat.InsertAscending | src/app/lib/excel-processor.ts:358 | inserting a row with a new name keeps a list strictly ascending |
| ExcelFormat.SortByNameMultiset | src/app/lib/excel-processor.ts:358 | the sort is a permutation |
| ExcelFormat.SortByNameAscending | src/app/lib/excel-processor.ts:358 | the sort of rows with distinct names is strictly ascending |
| ExcelFormat.SortByNameOfAscending | src/app/lib/excel-processor.ts:358 | sorting a list that is already ascending leaves it unchanged |
| ExcelFormat.AscendingDistinct | src/app/lib/excel-processor.ts:358 | an ascending list has distinct names |
| ExcelFormat.ConvertCorrect | src/app/lib/excel-processor.ts:352-359 | the result is strictly ascending and has distinct names; it holds exactly the first row of each Object Name, one for every name of the input, and is no longer than the input |
| ExcelFormat.ConvertIdempotent | src/app/lib/excel-processor.ts:352-359 | converting twice gives what converting once gives |
| ContainerCodes.ContainerCodesOf | src/app/lib/excel-processor.ts:236-260 | definition of getContainerCodes' result: the flagged column-D codes under the last matching header column, [] without one, or a TypeError; properties in TargetColumnIsLastMatch, NoColumnNoContainers and CollectedMembership |
| ContainerCodes.FormatCategoryEntry | src/app/lib/excel-processor.ts:226-234 | definition of formatCategoryEntry; properties in FormatCategoryEntryBracket |
| ContainerCodes.GetContainerCodes | src/app/lib/excel-processor.ts:236-260 | the two loops compute the container codes of the category's last matching column, or throw on an `undefined` header row or row |
| ContainerCodes.TargetColumnIsLastMatch | src/app/lib/excel-processor.ts:239-246 | `targetCol` is -1 exactly when no header key carries the code; otherwise it is the last position that does |
| ContainerCodes.NoColumnNoContainers | src/app/lib/excel-processor.ts:248 | with no matching header column, the category has no containers |
| ContainerCodes.RowContainerMembership | src/app/lib/excel-processor.ts:253-255 | a row contributes a code exactly when it reads "yes" in the column and has that code as its non-empty column-D text, and it contributes at most one |
| ContainerCodes.CollectedMembership | src/app/lib/excel-processor.ts:251-257 | a code is collected exactly when some row contributes it, and there are at most as many codes as rows |
| ContainerCodes.FormatCategoryEntryBracket | src/app/lib/excel-processor.ts:226-234 | the element starts with its `_code "name"` line and has a `[` bracket exactly when there are containers; without containers it is that line alone |
| ParseInt.ParseIntText | src/app/lib/excel-processor.ts:147 | definition of `parseInt` without a radix: leading white space, a sign, an optional `0x`, then the longest digit run, or NaN (`None`); property in ParseIntOfDecimal |
| ParseInt.DecimalTextDigits | src/app/lib/excel-processor.ts:147 | a numeral is a digit run denoting its number |
| ParseInt.ParseIntOfDecimal | src/app/lib/excel-processor.ts:147 | `parseInt` reads back a numeral of a natural number, whatever follows it, unless a digit or `x` does |
| StableSort.LastSplit | src/app/lib/excel-processor.ts:146-147 | a sequence is its prefix plus its last element, as a multiset |
| StableSort.InsertByMultiset | src/app/lib/excel-processor.ts:146-147 | inserting an element adds exactly that element |
| StableSort.SortByMultiset | src/app/lib/excel-processor.ts:146-147 | the comparator sort is a permutation |
| StableSort.InsertByBounded | src/app/lib/excel-processor.ts:146-147 | an insertion keeps every key under a bound that holds for all elements |
| StableSort.SnocSorted | src/app/lib/excel-processor.ts:146-147 | appending an element no smaller than the rest keeps a list sorted |
| StableSort.InsertBySorted | src/app/lib/excel-processor.ts:146-147 | with a comparator that is a difference of keys, an insertion keeps the list sorted by key |
| StableSort.SortBySorted | src/app/lib/excel-processor.ts:146-147 | with such a comparator, the sort orders its input by key |
| DiaryCategories.Compare | src/app/lib/excel-processor.ts:147 | definition of the sort comparator `parseInt(a) - parseInt(b)`, NaN counting as 0; property in CompareConsistent |
| DiaryCategories.SortGroups | src/app/lib/excel-processor.ts:146-147 | definition of the sort of the map's entries; properties in SortGroupsMultiset and SortGroupsSorted |
| DiaryCategories.DiaryText | src/app/lib/excel-processor.ts:111-165 | definition of processDiaryCategories' result; properties in DiaryTextFraming, GroupedCategories, GroupedLabels, LocalEntriesAreLocalItems and SortGroupsSorted |
| DiaryCategories.FindGroup | src/app/lib/excel-processor.ts:137 | `headers.has(code)` is false exactly when no group has that key; otherwise the position found holds it |
| DiaryCategories.ProcessDiaryCategories | src/app/lib/excel-processor.ts:111-165 | the method returns the taxonomy block of the selected rows, or the first container error |
| DiaryCategories.CollectCategories | src/app/lib/excel-processor.ts:118-143 | the loop fills `headers` with the grouping of the selected rows' items and `localCategories` with their local entries, or stops at the first container error |
| DiaryCategories.FileItem | src/app/lib/excel-processor.ts:134-141 | one item goes to the local list when its key is "1000"; otherwise it goes into its group, which is created when the key is new |
| DiaryCategories.PushGroups | src/app/lib/excel-processor.ts:148-153 | the `forEach` pushes every sorted group's lines in order |
| DiaryCategories.ItemsErrorPersists | src/app/lib/excel-processor.ts:129 | once a getContainerCodes call throws, the whole run throws that error |
| DiaryCategories.ItemsSnoc | src/app/lib/excel-processor.ts:134-141 | the map and the local list after one more item |
| DiaryCategories.ItemsAreSelectedRows | src/app/lib/excel-processor.ts:118-132 | an item is produced exactly for a row with a label and a code whose definition contains "diary" in any case, and no more items than rows |
| DiaryCategories.AddItemCodes | src/app/lib/excel-processor.ts:134-141 | filing an item keeps every existing key in place and adds at most one group, for a new non-local key, with the item's label |
| DiaryCategories.GroupedKeysDistinct | src/app/lib/excel-processor.ts:137-138 | the keys of the map are distinct and never "1000" |
| DiaryCategories.GroupedKeysOccur | src/app/lib/excel-processor.ts:137-138 | every key of the map is the header code of some item |
| DiaryCategories.GroupedKeysCover | src/app/lib/excel-processor.ts:137-140 | every item with a non-local header code has a group |
| DiaryCategories.NoGroupNoItem | src/app/lib/excel-processor.ts:137-138 | a non-local key without a group belongs to no item |
| DiaryCategories.EntriesWithKeyNone | src/app/lib/excel-processor.ts:140 | a key no item has collects no elements |
| DiaryCategories.GroupedCategories | src/app/lib/excel-processor.ts:137-140 | each group holds the elements of exactly the items with its key, in source order |
| DiaryCategories.GroupedLabels | src/app/lib/excel-processor.ts:137-138 | each group carries the header label of the first item with its key |
| DiaryCategories.LocalEntriesAreLocalItems | src/app/lib/excel-processor.ts:134-135 | the local list holds the elements of exactly the items with key "1000", in order |
| DiaryCategories.CompareConsistent | src/app/lib/excel-processor.ts:147 | between codes that parse, the comparator is the difference of their numbers |
| DiaryCategories.SortGroupsMultiset | src/app/lib/excel-processor.ts:146-147 | the sort is a permutation of the map's entries |
| DiaryCategories.SortGroupsSorted | src/app/lib/excel-processor.ts:146-147 | when every key parses, the groups come out in ascending numeric order |
| DiaryCategories.ItemsIndented | src/app/lib/excel-processor.ts:227 | every category element starts with a space |
| DiaryCategories.GroupedIndented | src/app/lib/excel-processor.ts:137-140 | grouping keeps only such elements |
| DiaryCategories.SortGroupsIndented | src/app/lib/excel-processor.ts:146-147 | so does the sort |
| DiaryCategories.RenderGroupsNoFix | src/app/lib/excel-processor.ts:148-153 | the rendered groups never hold a `} fix` line |
| DiaryCategories.DiaryTextFraming | src/app/lib/excel-processor.ts:111-164 | the block starts with its define line and `{`, ends with `};`, and holds `} fix` exactly when there are local categories, then just before the end |
| ExcelProcessor.LookupAsWritten | src/app/lib/excel-processor.ts:29 | definition of `COUNTRY_CODES[countryName]` as written: an own key, an inherited Object.prototype member, or nothing; properties in InheritedNameAccepted and AsWrittenDiffersOnlyOnInherited |
| ExcelProcessor.CountryCode | src/app/lib/excel-processor.ts:29-33 | definition of the intended lookup: only the sixteen own keys are countries; properties in CountryCheck and AsWrittenDiffersOnlyOnInherited |
| ExcelProcessor.InheritedNameAccepted | src/app/lib/excel-processor.ts:29-33 | the as-written check lets the name "constructor" through, which the intended lookup rejects |
| ExcelProcessor.AsWrittenDiffersOnlyOnInherited | src/app/lib/excel-processor.ts:29-33 | the as-written check passes exactly for the own keys and the inherited member names |
| ExcelProcessor.CountryCodesWellFormed | src/app/lib/excel-processor.ts:6-23 | every country code is two capital letters |
| ExcelProcessor.ProcessSheets | src/app/lib/excel-processor.ts:84-109 | definition of processSheets: the four brand lists and the taxonomy, each with its list name, code column and first category column, the first error winning; properties in CountryCheck |
| ExcelProcessor.ExcelFileResult | src/app/lib/excel-processor.ts:25-35 | definition of processExcelFile's outcome up to the export; properties in CountryCheck |
| ExcelProcessor.ProcessExcelFile | src/app/lib/excel-processor.ts:25-35 | the method checks the country first, then builds the five lists, the first error winning |
| ExcelProcessor.ItemsErrorIsTypeError | src/app/lib/excel-processor.ts:129 | the taxonomy only ever throws a TypeError |
| ExcelProcessor.CountryCheck | src/app/lib/excel-processor.ts:27-35 | "Country not recognized" is thrown exactly when the INDEX country is not a key of COUNTRY_CODES; otherwise every list name carries the country's code |
| ExcelProcessor.AllLists | src/app/lib/excel-processor.ts:272-273 | definition of the ALL_LISTS content; property in AllListsSections |
| ExcelProcessor.AllListsSections | src/app/lib/excel-processor.ts:272-273 | ALL_LISTS holds the five lists in order, each followed by one empty line except the last |
| Materials.Posted | src/app/api/materials/route.ts:345-365 | definition of POST's new table and reply; properties in PostSpec |
| Materials.Put | src/app/api/materials/route.ts:385-414 | definition of PUT's new table and reply; properties in PutSpec |
| Materials.Deleted | src/app/api/materials/route.ts:431-451 | definition of DELETE's new table and reply; properties in DeleteSpec |
| Materials.FirstIndexOf | src/app/api/materials/route.ts:394 | the index found is -1 or a position of the table |
| Materials.FirstIndexOfIsFirst | src/app/api/materials/route.ts:394 | `findIndex` gives -1 exactly when no link has the id, and otherwise the first link that does |
| Materials.MaterialsStore.constructor | src/app/api/materials/route.ts:5-311 | the table starts with the seed links |
| Materials.MaterialsStore.Get | src/app/api/materials/route.ts:325-328 | GET returns the current table and changes nothing |
| Materials.MaterialsStore.FindIndex | src/app/api/materials/route.ts:394 | the search returns the first index with the id, or -1 |
| Materials.MaterialsStore.Post | src/app/api/materials/route.ts:339-368 | the new table and reply are those of `Posted` |
| Materials.MaterialsStore.Update | src/app/api/materials/route.ts:379-415 | the new table and reply are those of `Put` |
| Materials.MaterialsStore.Delete | src/app/api/materials/route.ts:426-452 | the new table and reply are those of `Deleted` |
| Materials.PostSpec | src/app/api/materials/route.ts:345-365 | an invalid POST answers 400 and keeps the table; a valid one appends exactly one link, with the body's fields, `''` for a missing description and "User", after the unchanged earlier links |
| Materials.PutSpec | src/app/api/materials/route.ts:385-412 | PUT answers 400 or 404 and keeps the table, answers 200 whenever the body is valid and some link has the id, and then overwrites only the first link with the id, keeping its id and the table's length |
| Materials.DeleteSpec | src/app/api/materials/route.ts:431-451 | DELETE answers 400 or 404 and keeps the table, answers 200 whenever the id is given and some link has it, and then removes and returns exactly the first link with the id, keeping the others in order |
| Checklist.Flatten | src/app/components/Checklist.tsx:11-16 | definition of the nodes of a forest in pre-order, the reference for both counts; properties in CountTotalItems and SameShapeTotal |
| Checklist.CheckedCount | src/app/components/Checklist.tsx:173 | definition of the number of checked nodes of a node list; properties in CountCheckedItems and CheckedCountAtMostTotal |
| Checklist.ToggleOne | src/app/components/Checklist.tsx:203-209 | definition of toggleItem on one item; properties in Toggle, ToggleOneSameShape and ToggleOneTwice |
| Checklist.FlattenAppend | src/app/components/Checklist.tsx:162-166 | the nodes of two lists are the nodes of each, in order |
| Checklist.CheckedCountAppend | src/app/components/Checklist.tsx:172-177 | checked nodes add up over concatenation |
| Checklist.FlattenPrefix | src/app/components/Checklist.tsx:162-166 | one more item adds its subtree |
| Checklist.CountTotalItems | src/app/components/Checklist.tsx:160-168 | the count is the number of nodes in the tree, every nested item included |
| Checklist.CountCheckedItems | src/app/components/Checklist.tsx:170-179 | the count is the number of checked nodes in the tree |
| Checklist.CheckedCountAtMostTotal | src/app/components/Checklist.tsx:170-179 | there are never more checked nodes than nodes |
| Checklist.Toggle | src/app/components/Checklist.tsx:201-211 | a matching item has `checked` flipped and its subItems untouched; any other item keeps its id, text and `checked`, and only its subItems are searched |
| Checklist.ToggleAt | src/app/components/Checklist.tsx:202 | toggling maps over the items one by one |
| Checklist.ToggleSameShape | src/app/components/Checklist.tsx:201-211 | toggling keeps the tree's shape, ids and texts |
| Checklist.ToggleOneSameShape | src/app/components/Checklist.tsx:203-209 | so does toggling one item |
| Checklist.SameShapeReflexive | src/app/components/Checklist.tsx:209 | an item left alone keeps its shape |
| Checklist.SameShapeTotal | src/app/components/Checklist.tsx:160-168 | trees of the same shape have the same number of nodes |
| Checklist.ToggleKeepsTotal | src/app/components/Checklist.tsx:201-211 | toggling never changes the total count |
| Checklist.ToggleTwice | src/app/components/Checklist.tsx:201-211 | toggling the same id twice gives back the original tree |
| Checklist.ToggleOneTwice | src/app/components/Checklist.tsx:203-209 | the same, for one item |

## Left out

- Reading the workbook (`FileReader`, `XLSX.read`, `sheet_to_json`) is a foreign library doing asynchronous I/O. The model starts from each sheet's rows as the reader hands them over, and keeps only the header-row slice.
- `generateExportFiles` is left out: the JSZip archive, `json_to_sheet`/`XLSX.write`, `saveAs`, `join('\n')` and the zip name built with `countryName.toUpperCase()`. They are file packaging. Only the ALL_LISTS concatenation is modelled.
- `JSON.stringify` of the `Extended Properties` object is not modelled. An import row carries the `CategoryCode` string itself.
- `processSheets`'s `fullList` is not modelled. It stays empty and nothing reads it.
- ExcelFormat.LexLess: `localeCompare` depends on the locale. It is modelled as code-point order.
- JsValues.Lower: `toLowerCase` is modelled on ASCII letters only. That is exact for the comparisons with "yes" and "diary", but not in general.
- ParseInt.ParseIntText: the result of `parseInt` is a double. The model keeps the exact integer, so rounding of numerals longer than 15 digits is not modelled.
- DiaryCategories.SortGroups: with a NaN code the comparator is inconsistent, and the engine's sort order is then implementation-defined. The model uses a stable insertion sort and treats NaN as 0, so order is proved only when every code parses. Stability is not stated as a lemma.
- The sorts of `convertToExcelFormat` and the taxonomy are specified by their results, not by the engine's algorithm.
- `Date.now()` and `new Date().toISOString()` in the materials route are parameters. They are not clocks.
- The NextResponse/CORS wrapping, `OPTIONS`, and the 500 replies of the `catch` blocks are HTTP plumbing. A failing `request.json()` is one of these and is not modelled.
- Materials.LinkBody: request bodies are typed. Text fields are `Option<string>` and `year` is `Option<int>`, so a body field of another JSON type is not modelled.
- Materials.MaterialsStore.constructor: the 30 seeded links are data. They are the constructor's argument and are not transcribed.
- The checklist's rendering, `localStorage`, `confirm` and reset are presentation.
- The progress percentage `Math.round((checked / total) * 100)` is floating point.
- `processExcelFile` is asynchronous. The model is its synchronous logic up to the export.

## Findings

| source | as written | input that shows it | evidently intended | confidence | as-written member | corrected member |
|---|---|---|---|---|---|---|
| src/app/lib/excel-processor.ts:29-33 | `COUNTRY_CODES[countryName]` reads inherited `Object.prototype` members too, so the truthiness check passes for them | an INDEX sheet whose fifth row has `constructor` in column D: the lookup yields a function, `!isoCode` is false, and every list is named after that function's source text | only the sixteen own keys are countries; any other name throws "Country not recognized" | not executed | ExcelProcessor.InheritedNameAccepted | ExcelProcessor.CountryCheck |

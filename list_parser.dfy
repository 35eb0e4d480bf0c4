/** The inverse direction: parseListToExcelRows, which pulls the code, the name and the
    CategoryCode back out of each element of a list block with the pattern
    `_(\d+)\s*"([^"]+)"\s*\[\s*CategoryCode\s*=\s*"\{([^}]+)\}"\s*\]`. */
module ListParser {
  import opened JsValues
  import opened ListText
  import opened DataList
  import opened Sheet

  /** The three capture groups of one match. */
  datatype Match = Match(code: string, text: string, categories: string)

  /** One import row: `Text`, `Object Name`, and the `CategoryCode` carried in `Extended Properties`. */
  datatype ImportRow = ImportRow(text: string, objectName: string, categoryCode: string)

  predicate NotQuote(c: char) { c != '"' }

  predicate NotCloseBrace(c: char) { c != '}' }

  /** `\s*"([^"]+)"`: the quoted text and what follows its closing quote. */
  function QuotedText(s: string): Option<(string, string)> {
    var r := TrimStart(s);
    if r == [] || r[0] != '"' then None
    else
      var (text, rest) := Span(r[1..], NotQuote);
      if text == [] || rest == [] then None else Some((text, rest[1..]))
  }

  /** `\s*\[\s*CategoryCode\s*=\s*"\{`: what follows the opening brace. */
  function CategoryOpening(s: string): Option<string> {
    var r4 := TrimStart(s);
    if r4 == [] || r4[0] != '[' then None
    else
      var r5 := TrimStart(r4[1..]);
      if !StartsWith(r5, "CategoryCode") then None
      else
        var r6 := TrimStart(r5[12..]);
        if r6 == [] || r6[0] != '=' then None
        else
          var r7 := TrimStart(r6[1..]);
          if |r7| < 2 || r7[0] != '"' || r7[1] != '{' then None else Some(r7[2..])
  }

  /** `([^}]+)\}"\s*\]`: the text between the braces. */
  function BracedCategories(s: string): Option<string> {
    var (categories, r8) := Span(s, NotCloseBrace);
    if categories == [] || |r8| < 2 || r8[1] != '"' then None
    else
      var r9 := TrimStart(r8[2..]);
      if r9 == [] || r9[0] != ']' then None else Some(categories)
  }

  /** The pattern matched at the start of `s`.
      Each repetition in the pattern is followed by a character its class excludes
      (`\d+` by `\s` or `"`, `\s*` by a literal, `[^"]+` by `"`, `[^}]+` by `}`), so no shorter
      repetition can lead to a match, and taking every run greedily decides the match. */
  function MatchHere(s: string): Option<Match> {
    if s == [] || s[0] != '_' then None
    else
      var (code, r1) := Span(s[1..], IsDigit);
      if code == [] then None
      else
        match QuotedText(r1)
        case None => None
        case Some((text, r3)) =>
          match CategoryOpening(r3)
          case None => None
          case Some(r7) =>
            match BracedCategories(r7)
            case None => None
            case Some(categories) => Some(Match(code, text, categories))
  }

  /** `line.match(pattern)`: the match at the leftmost position where there is one. */
  function FirstMatch(s: string): Option<Match>
    decreases |s|
  {
    if MatchHere(s).Some? then MatchHere(s)
    else if s == [] then None
    else FirstMatch(s[1..])
  }

  /** `categories.trim().startsWith('_') ? categories.trim() : '_' + categories.trim()` */
  function NormalizeCategoryCode(categories: string): string {
    var t := Trim(categories);
    if StartsWith(t, "_") then t else "_" + t
  }

  /** The row built from one match. */
  function RowOf(m: Match): ImportRow {
    ImportRow(m.text, "_" + m.code, NormalizeCategoryCode(m.categories))
  }

  function RowsOfMatch(line: string): seq<ImportRow> {
    match FirstMatch(line)
    case Some(m) => [RowOf(m)]
    case None => []
  }

  /** One row per list element that matches the pattern, in list order. */
  function ParsedRows(list: seq<string>): seq<ImportRow> {
    FlatMap(list, RowsOfMatch)
  }

  /** The results of `f` on every element, concatenated in order. */
  function FlatMap<A, B>(xs: seq<A>, f: A -> seq<B>): seq<B> {
    if xs == [] then []
    else FlatMap(xs[..|xs| - 1], f) + f(xs[|xs| - 1])
  }

  /** parseListToExcelRows. `current` is `currentObject`: the row of the last match, pushed when the
      next match arrives and once more at the end. */
  method ParseListToExcelRows(list: seq<string>) returns (rows: seq<ImportRow>)
    ensures rows == ParsedRows(list)
  {
    rows := [];
    var current: Option<ImportRow> := None;
    var i := 0;
    while i < |list|
      invariant 0 <= i <= |list|
      invariant current.Some? ==> current.value.text != ""
      invariant rows + (if current.Some? then [current.value] else []) == ParsedRows(list[..i])
    {
      assert list[..i + 1][..i] == list[..i];
      var m := FirstMatch(list[i]);
      if m.Some? {
        FirstMatchTextNonEmpty(list[i]);
        if current.Some? && current.value.text != "" {
          rows := rows + [current.value];
        }
        current := Some(RowOf(m.value));
      }
      i := i + 1;
    }
    if current.Some? && current.value.text != "" {
      rows := rows + [current.value];
    }
    assert list[..|list|] == list;
  }

  /** `[^"]+` never captures the empty string, so a matched row always has text, and the
      `currentObject.Text` test never drops a row. */
  lemma {:induction false} FirstMatchTextNonEmpty(s: string)
    requires FirstMatch(s).Some?
    ensures FirstMatch(s).value.text != ""
    decreases |s|
  {
    if MatchHere(s).None? {
      FirstMatchTextNonEmpty(s[1..]);
    }
  }

  /** Every match ends on `]`, so a line without `]` (a `define` line, `{`, `};`) yields no row. */
  lemma {:induction false} FirstMatchNeedsBracket(s: string)
    requires ']' !in s
    ensures FirstMatch(s) == None
    decreases |s|
  {
    if s != [] {
      FirstMatchNeedsBracket(s[1..]);
    }
    if MatchHere(s).Some? {
      var r1 := Span(s[1..], IsDigit).1;
      var (_, r3) := QuotedText(r1).value;
      var r7 := CategoryOpening(r3).value;
      DropChars(s, 1);
      SpanRestChars(s[1..], IsDigit);
      QuotedTextRest(r1);
      CategoryOpeningRest(r3);
      BracedCategoriesBracket(r7);
    }
  }

  lemma SpanRestChars(s: string, p: char -> bool)
    ensures forall c :: c in Span(s, p).1 ==> c in s
  {
    var (a, b) := Span(s, p);
    SpanSplits(s, p);
    forall c | c in b ensures c in s {
      var j :| 0 <= j < |b| && b[j] == c;
      assert s[|a| + j] == c;
    }
  }

  lemma DropChars(s: string, k: nat)
    requires k <= |s|
    ensures forall c :: c in s[k..] ==> c in s
  {
    forall c | c in s[k..] ensures c in s {
      var j :| 0 <= j < |s| - k && s[k..][j] == c;
      assert s[k + j] == c;
    }
  }

  lemma QuotedTextRest(s: string)
    requires QuotedText(s).Some?
    ensures forall c :: c in QuotedText(s).value.1 ==> c in s
  {
    var r := TrimStart(s);
    var rest := Span(r[1..], NotQuote).1;
    SpanRestChars(s, IsSpace);
    DropChars(r, 1);
    SpanRestChars(r[1..], NotQuote);
    DropChars(rest, 1);
  }

  lemma CategoryOpeningRest(s: string)
    requires CategoryOpening(s).Some?
    ensures forall c :: c in CategoryOpening(s).value ==> c in s
  {
    var r4 := TrimStart(s);
    var r5 := TrimStart(r4[1..]);
    var r6 := TrimStart(r5[12..]);
    var r7 := TrimStart(r6[1..]);
    SpanRestChars(s, IsSpace);
    DropChars(r4, 1);
    SpanRestChars(r4[1..], IsSpace);
    DropChars(r5, 12);
    SpanRestChars(r5[12..], IsSpace);
    DropChars(r6, 1);
    SpanRestChars(r6[1..], IsSpace);
    DropChars(r7, 2);
  }

  lemma BracedCategoriesBracket(s: string)
    requires BracedCategories(s).Some?
    ensures ']' in s
  {
    var r8 := Span(s, NotCloseBrace).1;
    var r9 := TrimStart(r8[2..]);
    SpanRestChars(s, NotCloseBrace);
    DropChars(r8, 2);
    SpanRestChars(r8[2..], IsSpace);
    assert r9[0] in r9;
  }

  lemma {:induction false} FlatMapAppend<A, B>(a: seq<A>, b: seq<A>, f: A -> seq<B>)
    ensures FlatMap(a + b, f) == FlatMap(a, f) + FlatMap(b, f)
    decreases |b|
  {
    if b == [] {
      assert a + b == a;
    } else {
      var b' := b[..|b| - 1];
      assert (a + b)[..|a + b| - 1] == a + b';
      assert (a + b)[|a + b| - 1] == b[|b| - 1];
      FlatMapAppend(a, b', f);
    }
  }

  /** The row the parser recovers from a formatted entry: the name as text, the code with its
      underscore, and the braced category list exactly as formatEntry wrote it. */
  function EntryRow(e: Entry): ImportRow {
    ImportRow(e.name, "_" + e.code, CategoryList(e.categoryCodes))
  }

  /** What formatEntry needs of an entry for its text to parse back: a digit-run code, a name with
      no double quote, and at least one digit-run category code. */
  predicate Parsable(e: Entry) {
    && IsDigitRun(e.code)
    && e.name != "" && '"' !in e.name
    && e.categoryCodes != []
    && forall c :: c in e.categoryCodes ==> IsDigitRun(c)
  }

  predicate CodeListChar(c: char) {
    IsDigit(c) || c == ',' || c == '_'
  }

  lemma {:induction false} JoinCodesChars(codes: seq<string>)
    requires forall c :: c in codes ==> IsDigitRun(c)
    ensures forall i :: 0 <= i < |Join(codes, ",_")| ==> CodeListChar(Join(codes, ",_")[i])
  {
    if |codes| > 1 {
      assert forall c :: c in codes[1..] ==> c in codes;
      JoinCodesChars(codes[1..]);
      assert codes[0] in codes;
      var j := Join(codes[1..], ",_");
      assert Join(codes, ",_") == codes[0] + ",_" + j;
      forall i | 0 <= i < |Join(codes, ",_")| ensures CodeListChar(Join(codes, ",_")[i]) {
        if i >= |codes[0]| + 2 {
          assert Join(codes, ",_")[i] == j[i - |codes[0]| - 2];
        }
      }
    } else if |codes| == 1 {
      assert codes[0] in codes;
    }
  }

  /** Leading white space is skipped up to the first other character. */
  lemma TrimStartPast(spaces: string, rest: string)
    requires forall i :: 0 <= i < |spaces| ==> IsSpace(spaces[i])
    requires rest != [] && !IsSpace(rest[0])
    ensures TrimStart(spaces + rest) == rest
  {
    SpanUnique(spaces, rest, IsSpace);
  }

  lemma CategoryOpeningOf(x: string)
    ensures CategoryOpening("\n[\n      CategoryCode = \"{" + x) == Some(x)
  {
    var r7 := "\"{" + x;
    var r6 := "=" + (" " + r7);
    var r5 := "CategoryCode" + (" " + r6);
    var r4 := "[" + ("\n      " + r5);
    OpeningShape(x, r4, r5, r6, r7);
    TrimStartPast("\n", r4);
    TrimStartPast("\n      ", r5);
    TrimStartPast(" ", r6);
    TrimStartPast(" ", r7);
  }

  lemma OpeningShape(x: string, r4: string, r5: string, r6: string, r7: string)
    requires r7 == "\"{" + x && r6 == "=" + (" " + r7)
    requires r5 == "CategoryCode" + (" " + r6) && r4 == "[" + ("\n      " + r5)
    ensures "\n[\n      CategoryCode = \"{" + x == "\n" + r4
    ensures r4[1..] == "\n      " + r5 && r5[..12] == "CategoryCode" && r5[12..] == " " + r6
    ensures r6[1..] == " " + r7 && |r7| >= 2 && r7[0] == '"' && r7[1] == '{' && r7[2..] == x
  {
    var opening := "\n[\n      CategoryCode = \"{";
    assert opening == "\n" + ("[" + ("\n      " + ("CategoryCode" + (" " + ("=" + (" " + "\"{"))))));
    AppendAssoc("\n", "[", "\n      ", "CategoryCode", " ", "=", " " + ("\"{" + x));
    assert " " + "\"{" + x == " " + ("\"{" + x);
  }

  lemma BracedCategoriesOf(categories: string, suffix: string)
    requires categories != [] && '}' !in categories
    ensures BracedCategories(categories + ("}\"\n]" + suffix)) == Some(categories)
  {
    var r8 := "}\"\n]" + suffix;
    SpanUnique(categories, r8, NotCloseBrace);
    assert r8[2..] == "\n" + ("]" + suffix);
    SpanUnique("\n", "]" + suffix, IsSpace);
  }

  /** A formatted entry, with or without its trailing comma, matches at its first character and
      yields back its code, its name and its braced category list. */
  lemma EntryMatches(e: Entry, suffix: string)
    requires Parsable(e)
    ensures FirstMatch(FormatEntry(e.code, e.name, e.categoryCodes) + suffix)
         == Some(Match(e.code, e.name, CategoryList(e.categoryCodes)))
  {
    var categories := CategoryList(e.categoryCodes);
    CategoriesHaveNoBrace(e.categoryCodes);
    var x := categories + ("}\"\n]" + suffix);
    var r3 := "\n[\n      CategoryCode = \"{" + x;
    var tail := "\"" + r3;
    var quoted := "\"" + (e.name + tail);
    var r1 := " " + quoted;
    var s := FormatEntry(e.code, e.name, e.categoryCodes) + suffix;
    EntryShape(e, suffix, x, r3);
    assert s[1..] == e.code + r1;
    SpanUnique(e.code, r1, IsDigit);
    TrimStartPast(" ", quoted);
    assert forall i :: 0 <= i < |e.name| ==> NotQuote(e.name[i]) by {
      forall i | 0 <= i < |e.name| ensures NotQuote(e.name[i]) { assert e.name[i] in e.name; }
    }
    assert quoted[1..] == e.name + tail;
    SpanUnique(e.name, tail, NotQuote);
    assert tail[1..] == r3;
    assert QuotedText(r1) == Some((e.name, r3));
    CategoryOpeningOf(x);
    BracedCategoriesOf(categories, suffix);
    assert MatchHere(s) == Some(Match(e.code, e.name, categories));
  }

  lemma AppendAssoc(a: string, b: string, c: string, d: string, f: string, g: string, h: string)
    ensures a + b + c + d + f + g + h == a + (b + (c + (d + (f + (g + h)))))
  {
  }

  /** A formatted entry, split at the places the pattern cares about. */
  lemma EntryShape(e: Entry, suffix: string, x: string, r3: string)
    requires x == CategoryList(e.categoryCodes) + ("}\"\n]" + suffix)
    requires r3 == "\n[\n      CategoryCode = \"{" + x
    ensures FormatEntry(e.code, e.name, e.categoryCodes) + suffix
         == "_" + (e.code + (" " + ("\"" + (e.name + ("\"" + r3)))))
  {
    var l2 := "\"\n[\n      CategoryCode = \"{";
    var l3 := "}\"\n]";
    AppendAssoc("_", e.code, " \"", e.name, l2, CategoryList(e.categoryCodes), l3);
    AppendAssoc("_", e.code, " \"", e.name, l2, CategoryList(e.categoryCodes) + l3, suffix);
    assert l2 + x == "\"" + r3;
    assert " \"" + (e.name + ("\"" + r3)) == " " + ("\"" + (e.name + ("\"" + r3)));
  }

  lemma CategoriesHaveNoBrace(codes: seq<string>)
    requires forall c :: c in codes ==> IsDigitRun(c)
    ensures '}' !in CategoryList(codes)
  {
    var j := Join(codes, ",_");
    var categories := "_" + j;
    JoinCodesChars(codes);
    forall i | 0 <= i < |categories| ensures categories[i] != '}' {
      if i > 0 { assert categories[i] == j[i - 1]; }
    }
  }

  /** The category text of a parsed entry needs no trimming and already starts with `_`. */
  lemma NormalizeFormattedCategories(codes: seq<string>)
    requires forall c :: c in codes ==> IsDigitRun(c)
    ensures NormalizeCategoryCode(CategoryList(codes)) == CategoryList(codes)
  {
    var j := Join(codes, ",_");
    var t := "_" + j;
    assert !IsSpace(t[0]);
    assert TrimStart(t) == t;
    var last := t[|t| - 1];
    if |t| > 1 {
      JoinCodesChars(codes);
      assert last == j[|j| - 1];
      assert CodeListChar(last);
    }
    assert !IsSpace(last);
    assert TrimEnd(t) == t;
    assert StartsWith(t, "_");
  }

  lemma EntryLineRow(e: Entry, suffix: string)
    requires Parsable(e)
    ensures RowsOfMatch(FormatEntry(e.code, e.name, e.categoryCodes) + suffix) == [EntryRow(e)]
  {
    EntryMatches(e, suffix);
    NormalizeFormattedCategories(e.categoryCodes);
  }

  lemma {:induction false} FlatMapEach<A, B>(xs: seq<A>, f: A -> seq<B>, ys: seq<B>)
    requires |xs| == |ys|
    requires forall i :: 0 <= i < |xs| ==> f(xs[i]) == [ys[i]]
    ensures FlatMap(xs, f) == ys
    decreases |xs|
  {
    if xs != [] {
      var n := |xs| - 1;
      FlatMapEach(xs[..n], f, ys[..n]);
      assert ys[..n] + [ys[n]] == ys;
    }
  }

  lemma {:induction false} FlatMapNone<A, B>(xs: seq<A>, f: A -> seq<B>)
    requires forall i :: 0 <= i < |xs| ==> f(xs[i]) == []
    ensures FlatMap(xs, f) == []
    decreases |xs|
  {
    if xs != [] {
      FlatMapNone(xs[..|xs| - 1], f);
    }
  }

  /** Lines without `]` yield no rows. */
  lemma NoRows(lines: seq<string>)
    requires forall i :: 0 <= i < |lines| ==> ']' !in lines[i]
    ensures ParsedRows(lines) == []
  {
    forall i | 0 <= i < |lines| ensures RowsOfMatch(lines[i]) == [] {
      FirstMatchNeedsBracket(lines[i]);
    }
    FlatMapNone(lines, RowsOfMatch);
  }

  /** Each formatted entry, comma or not, yields its own row. */
  lemma EntriesRows(es: seq<Entry>)
    requires forall e :: e in es ==> Parsable(e)
    ensures ParsedRows(WithCommas(FormatAll(es))) == seq(|es|, i requires 0 <= i < |es| => EntryRow(es[i]))
  {
    var body := WithCommas(FormatAll(es));
    var rows := seq(|es|, i requires 0 <= i < |es| => EntryRow(es[i]));
    forall i | 0 <= i < |body| ensures RowsOfMatch(body[i]) == [rows[i]] {
      assert es[i] in es;
      var suffix := if i < |es| - 1 then "," else "";
      assert body[i] == FormatEntry(es[i].code, es[i].name, es[i].categoryCodes) + suffix;
      EntryLineRow(es[i], suffix);
    }
    FlatMapEach(body, RowsOfMatch, rows);
  }

  /** The define line of a list whose name has no `]` has none either. */
  lemma DefineLineNoBracket(listName: string)
    requires ']' !in listName
    ensures ']' !in DefineLine(listName)
  {
    var define := DefineLine(listName);
    forall i | 0 <= i < |define| ensures define[i] != ']' {
      if i < |listName| {
        assert define[i] == listName[i];
      } else {
        assert define[i] == " \"\" define"[i - |listName|];
      }
    }
  }

  /** Parsing a formatted list block gives back one row per entry, in order: the two opening lines
      and the closing line hold no match. */
  lemma ListBlockRoundTrip(listName: string, es: seq<Entry>)
    requires ']' !in listName
    requires forall e :: e in es ==> Parsable(e)
    ensures ParsedRows(ListBlock(listName, FormatAll(es)))
         == seq(|es|, i requires 0 <= i < |es| => EntryRow(es[i]))
  {
    var head := [DefineLine(listName), "{"];
    DefineLineNoBracket(listName);
    NoRows(head);
    NoRows(["};"]);
    EntriesRows(es);
    FlatMapFramed(head, WithCommas(FormatAll(es)), ["};"], RowsOfMatch);
  }

  lemma FlatMapFramed<A, B>(head: seq<A>, body: seq<A>, tail: seq<A>, f: A -> seq<B>)
    requires FlatMap(head, f) == [] && FlatMap(tail, f) == []
    ensures FlatMap(head + body + tail, f) == FlatMap(body, f)
  {
    FlatMapAppend(head, body, f);
    FlatMapAppend(head + body, tail, f);
  }

  /** parseListToExcelRows undoes formatDataList: for a list whose name has no `]`, and whose
      entries have digit codes and names without a double quote, parsing the list text gives back
      one row per entry, in order, with the entry's name, its code and its category list. */
  lemma DataListRoundTrip(data: seq<SheetRow>, listName: string, codeKey: string, startCol: nat, isImagery: bool)
    requires ']' !in listName
    requires DataListEntries(data, codeKey, startCol, isImagery).Ok?
    requires forall e :: e in DataListEntries(data, codeKey, startCol, isImagery).value ==>
      IsDigitRun(e.code) && '"' !in e.name
    ensures DataListText(data, listName, codeKey, startCol, isImagery).Ok?
    ensures var es := DataListEntries(data, codeKey, startCol, isImagery).value;
      ParsedRows(DataListText(data, listName, codeKey, startCol, isImagery).value)
        == seq(|es|, i requires 0 <= i < |es| => EntryRow(es[i]))
  {
    var es := DataListEntries(data, codeKey, startCol, isImagery).value;
    EntriesWellFormed(HeaderCells(data), data, |data|, codeKey, startCol, isImagery);
    ListBlockRoundTrip(listName, es);
  }
}

/** Flag resolution: which category columns of a brand row say "yes", and the numeric code that
    each such column's header carries (extractCategoryCode and getCategoryCodes). */
module FlagResolution {
  import opened JsValues
  import opened Sheet

  /** `s` starts with a maximal run of digits equal to `code`. */
  predicate MaximalDigitPrefix(s: string, code: string) {
    StartsWith(s, code) && AllDigits(code) && (|code| == |s| || !IsDigit(s[|code|]))
  }

  /** extractCategoryCode: what `/\d+/.exec(headerText)` finds, a run of digits that is empty
      exactly when the text has no digit (ExtractCategoryCodeDigits; ExtractCategoryCodeIsFirstRun
      says which run). */
  function ExtractCategoryCode(text: string): string {
    if text == [] then ""
    else if IsDigit(text[0]) then Span(text, IsDigit).0
    else ExtractCategoryCode(text[1..])
  }

  /** The extracted code is made of digits, and it is empty exactly when the text has none. */
  lemma {:induction false} ExtractCategoryCodeDigits(text: string)
    ensures AllDigits(ExtractCategoryCode(text))
    ensures ExtractCategoryCode(text) == "" <==> NoDigit(text)
  {
    if text != [] {
      if IsDigit(text[0]) {
        SpanSplits(text, IsDigit);
        assert Span(text, IsDigit).0 != [];
      } else {
        ExtractCategoryCodeDigits(text[1..]);
        if !NoDigit(text) {
          var i :| 0 <= i < |text| && IsDigit(text[i]);
          assert text[1..][i - 1] == text[i];
        }
      }
    }
  }

  /** The code extracted from a header is its first maximal run of digits: no digit comes before it,
      and the character after it, if any, is not a digit. */
  lemma {:induction false} ExtractCategoryCodeIsFirstRun(text: string)
    requires !NoDigit(text)
    ensures exists i :: 0 <= i < |text| && NoDigit(text[..i]) && MaximalDigitPrefix(text[i..], ExtractCategoryCode(text))
  {
    var code := ExtractCategoryCode(text);
    if IsDigit(text[0]) {
      SpanSplits(text, IsDigit);
      assert text[..0] == [] && text[0..] == text;
      assert MaximalDigitPrefix(text[0..], code);
    } else {
      assert code == ExtractCategoryCode(text[1..]);
      var j :| 0 <= j < |text| && IsDigit(text[j]);
      assert text[1..][j - 1] == text[j];
      ExtractCategoryCodeIsFirstRun(text[1..]);
      var i :| 0 <= i < |text| - 1 && NoDigit(text[1..][..i]) && MaximalDigitPrefix(text[1..][i..], code);
      assert text[1..][i..] == text[i + 1..];
      assert text[..i + 1] == [text[0]] + text[1..][..i];
    }
  }

  /** The code that column position `i` of `row` contributes: its cell reads "yes" in any case,
      the header row has non-empty text under the same key, and that text has a digit run. */
  function ColumnCode(headers: Row, row: Row, i: nat): string
    requires i < |row|
  {
    var key := row[i].key;
    var header := Get(headers, key);
    if IsYes(Get(row, key)) && Truthy(header) then ExtractCategoryCode(header.s) else ""
  }

  /** The codes contributed by the column positions `lo` to `hi - 1`, in column order. */
  function CodesBetween(headers: Row, row: Row, lo: nat, hi: nat): seq<string>
    requires hi <= |row|
    decreases hi
  {
    if hi <= lo then []
    else
      var code := ColumnCode(headers, row, hi - 1);
      CodesBetween(headers, row, lo, hi - 1) + (if code != "" then [code] else [])
  }

  /** `i = startCol - 1` at the start of the scan; the 1-based column `startCol` is the first one read. */
  function FirstScanned(startCol: nat): nat {
    if startCol == 0 then 0 else startCol - 1
  }

  /** getCategoryCodes(data, row, startCol): `headers` is the sheet's first row, `data[0]`. */
  function CategoryCodes(headers: Row, row: Row, startCol: nat): seq<string> {
    CodesBetween(headers, row, FirstScanned(startCol), |row|)
  }

  /** getCategoryCodes: scans the keys of `row` from position `startCol - 1` on and collects the
      header code of every column that reads "yes". */
  method GetCategoryCodes(headers: Row, row: Row, startCol: nat) returns (codes: seq<string>)
    ensures codes == CategoryCodes(headers, row, startCol)
  {
    codes := [];
    var i := FirstScanned(startCol);
    if i > |row| {
      i := |row|;
    }
    while i < |row|
      invariant FirstScanned(startCol) <= |row| ==> FirstScanned(startCol) <= i
      invariant i <= |row|
      invariant codes == CodesBetween(headers, row, FirstScanned(startCol), i)
    {
      var key := row[i].key;
      var value := Get(row, key);
      var headerValue := Get(headers, key);
      if IsYes(value) && Truthy(headerValue) {
        var code := ExtractCategoryCode(headerValue.s);
        if code != "" {
          codes := codes + [code];
        }
      }
      i := i + 1;
    }
  }

  /** Column position `i` flags a category: "yes" under a header that carries a digit run. */
  predicate Flagged(headers: Row, row: Row, i: nat)
    requires i < |row|
  {
    ColumnCode(headers, row, i) != ""
  }

  /** A code is resolved exactly when some scanned column flags it. */
  lemma {:induction false} CodesBetweenMembership(headers: Row, row: Row, lo: nat, hi: nat, code: string)
    requires hi <= |row|
    ensures code in CodesBetween(headers, row, lo, hi)
        <==> exists i :: lo <= i < hi && Flagged(headers, row, i) && ColumnCode(headers, row, i) == code
    decreases hi
  {
    if hi > lo {
      CodesBetweenMembership(headers, row, lo, hi - 1, code);
      var last := ColumnCode(headers, row, hi - 1);
      assert CodesBetween(headers, row, lo, hi)
          == CodesBetween(headers, row, lo, hi - 1) + (if last != "" then [last] else []);
      if exists i :: lo <= i < hi && Flagged(headers, row, i) && ColumnCode(headers, row, i) == code {
        var i :| lo <= i < hi && Flagged(headers, row, i) && ColumnCode(headers, row, i) == code;
        if i < hi - 1 {
          assert code in CodesBetween(headers, row, lo, hi - 1);
        }
      }
    }
  }

  /** Every resolved code is a non-empty run of digits taken from a header, and there are no
      more codes than scanned columns. */
  lemma {:induction false} CodesBetweenAreDigitRuns(headers: Row, row: Row, lo: nat, hi: nat)
    requires hi <= |row|
    ensures forall c :: c in CodesBetween(headers, row, lo, hi) ==> IsDigitRun(c)
    ensures |CodesBetween(headers, row, lo, hi)| <= if hi > lo then hi - lo else 0
    decreases hi
  {
    if hi > lo {
      CodesBetweenAreDigitRuns(headers, row, lo, hi - 1);
      var header := Get(headers, row[hi - 1].key);
      if header.Str? {
        ExtractCategoryCodeDigits(header.s);
      }
    }
  }

  /** Over rows with distinct keys, a column's contribution depends on that column's cell alone. */
  lemma {:induction false} CodesBetweenLocal(headers: Row, row1: Row, row2: Row, lo: nat, hi: nat)
    requires DistinctKeys(row1) && DistinctKeys(row2)
    requires hi <= |row1| && hi <= |row2|
    requires forall i :: lo <= i < hi ==> row1[i] == row2[i]
    ensures CodesBetween(headers, row1, lo, hi) == CodesBetween(headers, row2, lo, hi)
    decreases hi
  {
    if hi > lo {
      ColumnCodeLocal(headers, row1, row2, hi - 1);
      CodesBetweenLocal(headers, row1, row2, lo, hi - 1);
    }
  }

  lemma ColumnCodeLocal(headers: Row, row1: Row, row2: Row, i: nat)
    requires DistinctKeys(row1) && DistinctKeys(row2)
    requires i < |row1| && i < |row2| && row1[i] == row2[i]
    ensures ColumnCode(headers, row1, i) == ColumnCode(headers, row2, i)
  {
    GetAtPosition(row1, i);
    GetAtPosition(row2, i);
  }

  /** getCategoryCodes only reads the columns from `startCol` on: two rows with distinct keys that
      agree from there on resolve the same codes, whatever their earlier cells hold. */
  lemma CategoryCodesIgnoreEarlierColumns(headers: Row, row1: Row, row2: Row, startCol: nat)
    requires DistinctKeys(row1) && DistinctKeys(row2)
    requires |row1| == |row2|
    requires forall i :: FirstScanned(startCol) <= i < |row1| ==> row1[i] == row2[i]
    ensures CategoryCodes(headers, row1, startCol) == CategoryCodes(headers, row2, startCol)
  {
    CodesBetweenLocal(headers, row1, row2, FirstScanned(startCol), |row1|);
  }
}

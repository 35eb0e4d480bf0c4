/** convertToExcelFormat: drops every import row whose Object Name already occurred earlier,
    then sorts the rest by Object Name. `localeCompare` is taken as code-point order. */
module ExcelFormat {
  import opened ListParser

  /** `rows.findIndex(r => r['Object Name'] === name)`: the first position holding `name`, or -1. */
  function FindName(rows: seq<ImportRow>, name: string, from: nat): (k: int)
    requires from <= |rows|
    ensures k == -1 || from <= k < |rows|
    ensures k == -1 <==> forall j :: from <= j < |rows| ==> rows[j].objectName != name
    ensures k != -1 ==> rows[k].objectName == name && forall j :: from <= j < k ==> rows[j].objectName != name
    decreases |rows| - from
  {
    if from == |rows| then -1
    else if rows[from].objectName == name then from
    else FindName(rows, name, from + 1)
  }

  /** No row before position `i` has the Object Name of row `i`. */
  predicate FirstWithName(rows: seq<ImportRow>, i: nat)
    requires i < |rows|
  {
    forall j :: 0 <= j < i ==> rows[j].objectName != rows[i].objectName
  }

  /** The `filter` step over the first `n` rows: a row stays when `findIndex` of its name is its
      own index. */
  function Unique(rows: seq<ImportRow>, n: nat): seq<ImportRow>
    requires n <= |rows|
  {
    if n == 0 then []
    else Unique(rows, n - 1) + (if FindName(rows, rows[n - 1].objectName, 0) == n - 1 then [rows[n - 1]] else [])
  }

  /** Code-point order on strings: a proper prefix comes first, otherwise the first differing
      character decides. */
  predicate LexLess(a: string, b: string) {
    if b == [] then false
    else if a == [] then true
    else if a[0] != b[0] then a[0] < b[0]
    else LexLess(a[1..], b[1..])
  }

  predicate NamesDistinct(s: seq<ImportRow>) {
    forall i, j :: 0 <= i < j < |s| ==> s[i].objectName != s[j].objectName
  }

  /** Strictly ascending Object Names. */
  predicate Ascending(s: seq<ImportRow>) {
    forall i, j :: 0 <= i < j < |s| ==> LexLess(s[i].objectName, s[j].objectName)
  }

  /** Puts `x` in front of the first row whose name it precedes. */
  function Insert(x: ImportRow, s: seq<ImportRow>): seq<ImportRow> {
    if s == [] then [x]
    else if LexLess(x.objectName, s[0].objectName) then [x] + s
    else [s[0]] + Insert(x, s[1..])
  }

  /** `sort` by Object Name. */
  function SortByName(s: seq<ImportRow>): seq<ImportRow> {
    if s == [] then [] else Insert(s[0], SortByName(s[1..]))
  }

  /** convertToExcelFormat */
  function Convert(rows: seq<ImportRow>): seq<ImportRow> {
    SortByName(Unique(rows, |rows|))
  }

  lemma {:induction false} LexIrreflexive(a: string)
    ensures !LexLess(a, a)
  {
    if a != [] {
      LexIrreflexive(a[1..]);
    }
  }

  lemma {:induction false} LexTransitive(a: string, b: string, c: string)
    requires LexLess(a, b) && LexLess(b, c)
    ensures LexLess(a, c)
  {
    if a != [] && a[0] == b[0] && b[0] == c[0] {
      LexTransitive(a[1..], b[1..], c[1..]);
    }
  }

  lemma {:induction false} LexTotal(a: string, b: string)
    requires a != b
    ensures LexLess(a, b) || LexLess(b, a)
  {
    if a != [] && b != [] && a[0] == b[0] {
      assert a == [a[0]] + a[1..] && b == [b[0]] + b[1..];
      LexTotal(a[1..], b[1..]);
    }
  }

  /** The rows kept by the filter are exactly the rows that are the first with their Object Name,
      and they have pairwise distinct names. */
  lemma {:induction false} UniqueKeepsFirst(rows: seq<ImportRow>, n: nat)
    requires n <= |rows|
    ensures forall x :: x in Unique(rows, n) <==> exists i :: 0 <= i < n && rows[i] == x && FirstWithName(rows, i)
    ensures NamesDistinct(Unique(rows, n))
  {
    if n > 0 {
      UniqueKeepsFirst(rows, n - 1);
      var prev := Unique(rows, n - 1);
      var k := FindName(rows, rows[n - 1].objectName, 0);
      assert k == n - 1 <==> FirstWithName(rows, n - 1);
      forall x ensures x in Unique(rows, n) <==> exists i :: 0 <= i < n && rows[i] == x && FirstWithName(rows, i) {
        if x in Unique(rows, n) && x !in prev {
          assert x == rows[n - 1];
        }
        if exists i :: 0 <= i < n && rows[i] == x && FirstWithName(rows, i) {
          var i :| 0 <= i < n && rows[i] == x && FirstWithName(rows, i);
          if i == n - 1 {
            assert x in Unique(rows, n);
          }
        }
      }
      if k == n - 1 {
        forall j | 0 <= j < |prev| ensures prev[j].objectName != rows[n - 1].objectName {
          assert prev[j] in prev;
        }
      }
    }
  }

  /** Every Object Name of the input survives the filter. */
  lemma {:induction false} UniqueKeepsNames(rows: seq<ImportRow>, n: nat, i: nat)
    requires i < n <= |rows|
    ensures exists x :: x in Unique(rows, n) && x.objectName == rows[i].objectName
  {
    var k := FindName(rows, rows[i].objectName, 0);
    assert 0 <= k <= i;
    UniqueKeepsFirst(rows, n);
    assert FirstWithName(rows, k);
  }

  /** On rows whose names are already distinct, the filter keeps every row. */
  lemma {:induction false} UniqueOfDistinct(rows: seq<ImportRow>, n: nat)
    requires n <= |rows| && NamesDistinct(rows)
    ensures Unique(rows, n) == rows[..n]
  {
    if n > 0 {
      UniqueOfDistinct(rows, n - 1);
      assert rows[..n] == rows[..n - 1] + [rows[n - 1]];
    }
  }

  lemma {:induction false} InsertMultiset(x: ImportRow, s: seq<ImportRow>)
    ensures multiset(Insert(x, s)) == multiset(s) + multiset{x}
  {
    if s != [] && !LexLess(x.objectName, s[0].objectName) {
      InsertMultiset(x, s[1..]);
      assert s == [s[0]] + s[1..];
    }
  }

  /** Insertion adds `x` and nothing else. */
  lemma {:induction false} InsertMembers(x: ImportRow, s: seq<ImportRow>)
    ensures forall y :: y in Insert(x, s) <==> y == x || y in s
  {
    if s != [] && !LexLess(x.objectName, s[0].objectName) {
      InsertMembers(x, s[1..]);
      assert s == [s[0]] + s[1..];
    }
  }

  /** The head of an ascending sequence precedes every later row. */
  lemma AscendingHead(s: seq<ImportRow>)
    requires Ascending(s) && s != []
    ensures forall y :: y in s[1..] ==> LexLess(s[0].objectName, y.objectName)
  {
    forall y | y in s[1..] ensures LexLess(s[0].objectName, y.objectName) {
      var k :| 0 <= k < |s[1..]| && s[1..][k] == y;
      assert s[k + 1] == y;
    }
  }

  lemma {:induction false} InsertAscending(x: ImportRow, s: seq<ImportRow>)
    requires Ascending(s)
    requires forall y :: y in s ==> y.objectName != x.objectName
    ensures Ascending(Insert(x, s))
  {
    if s == [] {
    } else if LexLess(x.objectName, s[0].objectName) {
      var r := [x] + s;
      forall i, j | 0 <= i < j < |r| ensures LexLess(r[i].objectName, r[j].objectName) {
        if i == 0 && j > 1 {
          LexTransitive(x.objectName, s[0].objectName, s[j - 1].objectName);
        }
      }
    } else {
      assert s[0] in s;
      LexTotal(x.objectName, s[0].objectName);
      var rest := Insert(x, s[1..]);
      InsertAscending(x, s[1..]);
      InsertMembers(x, s[1..]);
      AscendingHead(s);
      var r := [s[0]] + rest;
      forall i, j | 0 <= i < j < |r| ensures LexLess(r[i].objectName, r[j].objectName) {
        if i == 0 {
          assert rest[j - 1] in rest;
        }
      }
    }
  }

  lemma {:induction false} SortByNameMultiset(s: seq<ImportRow>)
    ensures multiset(SortByName(s)) == multiset(s)
  {
    if s != [] {
      SortByNameMultiset(s[1..]);
      InsertMultiset(s[0], SortByName(s[1..]));
      assert s == [s[0]] + s[1..];
    }
  }

  /** Sorting rows with distinct names leaves them strictly ascending. */
  lemma {:induction false} SortByNameAscending(s: seq<ImportRow>)
    requires NamesDistinct(s)
    ensures Ascending(SortByName(s))
  {
    if s != [] {
      SortByNameAscending(s[1..]);
      SortByNameMultiset(s[1..]);
      forall y | y in SortByName(s[1..]) ensures y.objectName != s[0].objectName {
        assert y in multiset(s[1..]);
        var k :| 0 <= k < |s[1..]| && s[1..][k] == y;
        assert s[k + 1] == y;
      }
      InsertAscending(s[0], SortByName(s[1..]));
    }
  }

  /** Sorting rows that are already strictly ascending changes nothing. */
  lemma {:induction false} SortByNameOfAscending(s: seq<ImportRow>)
    requires Ascending(s)
    ensures SortByName(s) == s
  {
    if s != [] {
      SortByNameOfAscending(s[1..]);
      assert s == [s[0]] + s[1..];
    }
  }

  lemma AscendingDistinct(s: seq<ImportRow>)
    requires Ascending(s)
    ensures NamesDistinct(s)
  {
    forall i, j | 0 <= i < j < |s| ensures s[i].objectName != s[j].objectName {
      if s[i].objectName == s[j].objectName {
        LexIrreflexive(s[i].objectName);
      }
    }
  }

  /** What convertToExcelFormat yields: strictly ascending (hence pairwise distinct) Object Names,
      made of exactly the rows that are the first with their Object Name, with every input name
      represented. */
  lemma ConvertCorrect(rows: seq<ImportRow>)
    ensures Ascending(Convert(rows)) && NamesDistinct(Convert(rows))
    ensures forall x :: x in Convert(rows) <==>
      exists i :: 0 <= i < |rows| && rows[i] == x && FirstWithName(rows, i)
    ensures forall i :: 0 <= i < |rows| ==>
      exists x :: x in Convert(rows) && x.objectName == rows[i].objectName
    ensures |Convert(rows)| <= |rows|
  {
    var u := Unique(rows, |rows|);
    UniqueKeepsFirst(rows, |rows|);
    SortByNameAscending(u);
    SortByNameMultiset(u);
    AscendingDistinct(Convert(rows));
    forall x ensures x in Convert(rows) <==> x in u {
      assert x in Convert(rows) <==> x in multiset(Convert(rows));
    }
    forall i | 0 <= i < |rows| ensures exists x :: x in Convert(rows) && x.objectName == rows[i].objectName {
      UniqueKeepsNames(rows, |rows|, i);
    }
    UniqueLength(rows, |rows|);
  }

  lemma {:induction false} UniqueLength(rows: seq<ImportRow>, n: nat)
    requires n <= |rows|
    ensures |Unique(rows, n)| <= n
  {
    if n > 0 {
      UniqueLength(rows, n - 1);
    }
  }

  /** Applying convertToExcelFormat twice gives the same rows as applying it once. */
  lemma ConvertIdempotent(rows: seq<ImportRow>)
    ensures Convert(Convert(rows)) == Convert(rows)
  {
    var c := Convert(rows);
    ConvertCorrect(rows);
    UniqueOfDistinct(c, |c|);
    assert c[..|c|] == c;
    SortByNameOfAscending(c);
  }
}

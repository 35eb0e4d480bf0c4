/** The JavaScript values and string operations the list compiler depends on:
    property reads that may be `undefined` or `null`, truthiness, template-literal text,
    `toLowerCase`, `\s`, `trim`, `includes` and `join`. */
module JsValues {

  datatype Option<T> = None | Some(value: T)

  /** The two ways a run can fail: a `TypeError` from reading a property of `undefined`,
      and the `Error('Country not recognized')` thrown by processExcelFile. */
  datatype Error = TypeError | CountryNotRecognized

  datatype Result<T> = Ok(value: T) | Err(error: Error)

  /** What a read such as `row?.A` yields. A missing key or a missing row gives `undefined`;
      an empty cell gives `null`, because the sheet reader fills blanks with `null`;
      anything else is the cell's formatted text. */
  datatype Value = Undefined | Null | Str(s: string)

  /** JavaScript truthiness of a value of this kind: only a non-empty string is truthy. */
  predicate Truthy(v: Value) {
    v.Str? && v.s != ""
  }

  /** The text that the template literal `${v}` produces. */
  function TemplateText(v: Value): string {
    match v
    case Undefined => "undefined"
    case Null => "null"
    case Str(s) => s
  }

  function LowerChar(c: char): char {
    if 'A' <= c <= 'Z' then (c as int + 32) as char else c
  }

  /** `toLowerCase`, on the ASCII letters. No other character lowercases to a lone ASCII letter
      of "yes" or "diary", which are the only strings the result is compared with. */
  function Lower(s: string): string {
    seq(|s|, i requires 0 <= i < |s| => LowerChar(s[i]))
  }

  /** `v?.toLowerCase() === "yes"`, compared character by character (IsYesLowersToYes). */
  predicate IsYes(v: Value) {
    v.Str? && |v.s| == 3 && LowerChar(v.s[0]) == 'y' && LowerChar(v.s[1]) == 'e' && LowerChar(v.s[2]) == 's'
  }

  /** IsYes is the comparison of the lowercased text with "yes". */
  lemma IsYesLowersToYes(v: Value)
    ensures IsYes(v) <==> v.Str? && Lower(v.s) == "yes"
  {
    if v.Str? && Lower(v.s) == "yes" {
      assert Lower(v.s)[0] == 'y' && Lower(v.s)[1] == 'e' && Lower(v.s)[2] == 's';
    }
  }

  predicate IsDigit(c: char) {
    '0' <= c <= '9'
  }

  predicate IsHexDigit(c: char) {
    IsDigit(c) || 'a' <= c <= 'f' || 'A' <= c <= 'F'
  }

  /** The characters matched by `\s` and removed by `trim` and `parseInt`:
      ECMAScript's WhiteSpace and LineTerminator productions. */
  predicate IsSpace(c: char) {
    || c == '\t' || c == '\n' || c == '\U{B}' || c == '\U{C}' || c == '\r' || c == ' '
    || c == '\U{A0}' || c == '\U{1680}' || ('\U{2000}' <= c <= '\U{200A}')
    || c == '\U{2028}' || c == '\U{2029}' || c == '\U{202F}' || c == '\U{205F}'
    || c == '\U{3000}' || c == '\U{FEFF}'
  }

  predicate NoDigit(s: string) {
    forall i :: 0 <= i < |s| ==> !IsDigit(s[i])
  }

  predicate AllDigits(s: string) {
    forall i :: 0 <= i < |s| ==> IsDigit(s[i])
  }

  /** A non-empty string of decimal digits, as `/\d+/` matches. */
  predicate IsDigitRun(s: string) {
    s != "" && AllDigits(s)
  }

  /** Splits `s` into its longest prefix whose characters all satisfy `p`, and the rest. */
  function Span(s: string, p: char -> bool): (string, string) {
    if s == [] || !p(s[0]) then ([], s)
    else
      var rest := Span(s[1..], p);
      ([s[0]] + rest.0, rest.1)
  }

  /** `Span` splits `s` into a prefix whose characters all satisfy `p` and a rest that does not
      start with such a character. */
  lemma {:induction false} SpanSplits(s: string, p: char -> bool)
    ensures Span(s, p).0 + Span(s, p).1 == s
    ensures forall i :: 0 <= i < |Span(s, p).0| ==> p(Span(s, p).0[i])
    ensures Span(s, p).1 == [] || !p(Span(s, p).1[0])
  {
    if s != [] && p(s[0]) {
      SpanSplits(s[1..], p);
      var rest := Span(s[1..], p);
      assert Span(s, p).0 == [s[0]] + rest.0;
      assert [s[0]] + rest.0 + rest.1 == [s[0]] + (rest.0 + rest.1);
    }
  }

  /** The split `Span` makes is the only one with its two properties. */
  lemma {:induction false} SpanUnique(a: string, b: string, p: char -> bool)
    requires forall i :: 0 <= i < |a| ==> p(a[i])
    requires b == [] || !p(b[0])
    ensures Span(a + b, p) == (a, b)
  {
    if a == [] {
      assert a + b == b;
    } else {
      assert (a + b)[0] == a[0];
      assert (a + b)[1..] == a[1..] + b;
      SpanUnique(a[1..], b, p);
      assert [a[0]] + a[1..] == a;
    }
  }

  function StartsWith(s: string, prefix: string): bool {
    |prefix| <= |s| && s[..|prefix|] == prefix
  }

  /** `s.includes(sub)` */
  function Contains(s: string, sub: string): (r: bool)
    ensures r <==> exists i :: 0 <= i <= |s| && StartsWith(s[i..], sub)
  {
    if StartsWith(s, sub) then
      assert s[0..] == s;
      true
    else if s == [] then
      false
    else
      var r := Contains(s[1..], sub);
      if r then
        var i :| 0 <= i <= |s| - 1 && StartsWith(s[1..][i..], sub);
        assert s[1..][i..] == s[i + 1..];
        true
      else
        forall i | 0 < i <= |s| ensures !StartsWith(s[i..], sub) {
          assert s[1..][i - 1..] == s[i..];
        }
        assert s[0..] == s;
        false
  }

  /** `s.trimStart()` */
  function TrimStart(s: string): string {
    Span(s, IsSpace).1
  }

  /** `s.trimEnd()` */
  function TrimEnd(s: string): (r: string)
    ensures StartsWith(s, r)
    ensures r == [] || !IsSpace(r[|r| - 1])
    ensures forall i :: |r| <= i < |s| ==> IsSpace(s[i])
  {
    if s == [] || !IsSpace(s[|s| - 1]) then s
    else
      var r := TrimEnd(s[..|s| - 1]);
      assert s[..|s| - 1][..|r|] == s[..|r|];
      r
  }

  /** `s.trim()` */
  function Trim(s: string): string {
    TrimEnd(TrimStart(s))
  }

  /** `xs.join(sep)` */
  function Join(xs: seq<string>, sep: string): string {
    if |xs| == 0 then ""
    else if |xs| == 1 then xs[0]
    else xs[0] + sep + Join(xs[1..], sep)
  }

  /** Joining two non-empty lists is joining their joins. */
  lemma {:induction false} JoinAppend(a: seq<string>, b: seq<string>, sep: string)
    requires a != [] && b != []
    ensures Join(a + b, sep) == Join(a, sep) + sep + Join(b, sep)
  {
    if |a| == 1 {
      assert (a + b)[1..] == b;
    } else {
      assert (a + b)[1..] == a[1..] + b;
      JoinAppend(a[1..], b, sep);
    }
  }
}

/** JavaScript's `parseInt(x)` with no radix, as the diary-category sort uses it on header codes:
    leading white space, an optional sign, an optional `0x` prefix that switches to base 16, and
    the longest run of digits that follows. No digits gives NaN (`None`). */
module ParseInt {
  import opened JsValues

  function DigitValue(c: char): nat {
    if '0' <= c <= '9' then c as int - '0' as int
    else if 'a' <= c <= 'f' then c as int - 'a' as int + 10
    else if 'A' <= c <= 'F' then c as int - 'A' as int + 10
    else 0
  }

  /** The number a run of digits in base `base` denotes. */
  function DigitsValue(ds: string, base: nat): nat {
    if ds == [] then 0 else DigitsValue(ds[..|ds| - 1], base) * base + DigitValue(ds[|ds| - 1])
  }

  /** `parseInt(text)` */
  function ParseIntText(text: string): Option<int> {
    var s := TrimStart(text);
    var sign := if s != [] && s[0] == '-' then -1 else 1;
    var u := if s != [] && (s[0] == '-' || s[0] == '+') then s[1..] else s;
    if |u| >= 2 && u[0] == '0' && (u[1] == 'x' || u[1] == 'X') then
      var z := Span(u[2..], IsHexDigit).0;
      if z == [] then None else Some(sign * DigitsValue(z, 16))
    else
      var z := Span(u, IsDigit).0;
      if z == [] then None else Some(sign * DigitsValue(z, 10))
  }

  /** `parseInt(v)` on a cell value: `undefined` and `null` are read as their names, which hold no
      digits. */
  function ParseIntValue(v: Value): Option<int> {
    ParseIntText(TemplateText(v))
  }

  /** The decimal numeral of `n`, without leading zeros. */
  function DecimalText(n: nat): string {
    if n < 10 then [('0' as int + n) as char] else DecimalText(n / 10) + [('0' as int + n % 10) as char]
  }

  lemma {:induction false} DecimalTextDigits(n: nat)
    ensures IsDigitRun(DecimalText(n))
    ensures DigitsValue(DecimalText(n), 10) == n
  {
    if n >= 10 {
      DecimalTextDigits(n / 10);
      var s := DecimalText(n);
      assert s[..|s| - 1] == DecimalText(n / 10);
    }
  }

  /** parseInt reads back the numeral of a natural number, whatever follows it, as long as the
      next character neither continues the numeral nor turns `0` into a `0x` prefix. */
  lemma ParseIntOfDecimal(n: nat, rest: string)
    requires rest == [] || (!IsDigit(rest[0]) && rest[0] != 'x' && rest[0] != 'X')
    ensures ParseIntText(DecimalText(n) + rest) == Some(n)
  {
    var d := DecimalText(n);
    DecimalTextDigits(n);
    var u := d + rest;
    assert u[0] == d[0];
    assert TrimStart(u) == u;
    if |u| >= 2 {
      assert u[1] == if |d| >= 2 then d[1] else rest[0];
    }
    SpanUnique(d, rest, IsDigit);
  }
}

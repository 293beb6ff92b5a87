/** Python's `int(s)` and `int(s, 16)` restricted to plain digit strings, and
    `str(n)` for naturals. Signs, surrounding whitespace and `_` separators,
    which `int()` also accepts, are outside this grammar. */
module Numerals {
  import opened Wrappers

  predicate IsDigit(c: char) { '0' <= c <= '9' }

  predicate IsHexDigit(c: char) { IsDigit(c) || 'a' <= c <= 'f' || 'A' <= c <= 'F' }

  function DigitValue(c: char): nat
    requires IsDigit(c)
  {
    c as int - '0' as int
  }

  function HexDigitValue(c: char): (v: nat)
    requires IsHexDigit(c)
    ensures v < 16
  {
    if IsDigit(c) then DigitValue(c)
    else if 'a' <= c <= 'f' then c as int - 'a' as int + 10
    else c as int - 'A' as int + 10
  }

  predicate AllDigits(s: string) { forall i :: 0 <= i < |s| ==> IsDigit(s[i]) }

  predicate AllHexDigits(s: string) { forall i :: 0 <= i < |s| ==> IsHexDigit(s[i]) }

  /** The number a string of decimal digits denotes (most significant digit first). */
  function DecimalValue(s: string): nat
    requires AllDigits(s)
    decreases |s|
  {
    if |s| == 0 then 0 else 10 * DecimalValue(s[..|s| - 1]) + DigitValue(s[|s| - 1])
  }

  /** The number a string of hexadecimal digits denotes. */
  function HexValue(s: string): nat
    requires AllHexDigits(s)
    decreases |s|
  {
    if |s| == 0 then 0 else 16 * HexValue(s[..|s| - 1]) + HexDigitValue(s[|s| - 1])
  }

  /** `int(s)` on the digit grammar: a non-empty run of decimal digits, else failure. */
  function ParseDecimal(s: string): (r: Option<nat>)
    ensures r.Some? <==> |s| > 0 && AllDigits(s)
  {
    if |s| > 0 && AllDigits(s) then Some(DecimalValue(s)) else None
  }

  /** `int(s, 16)`: an optional lower- or upper-case `0x` prefix, then a non-empty run of hex digits. */
  function ParseHex(s: string): (r: Option<nat>)
    ensures r.Some? <==> (|s| > 0 && AllHexDigits(s))
                         || (|s| > 2 && s[0] == '0' && (s[1] == 'x' || s[1] == 'X') && AllHexDigits(s[2..]))
  {
    if |s| > 2 && s[0] == '0' && (s[1] == 'x' || s[1] == 'X') && AllHexDigits(s[2..]) then Some(HexValue(s[2..]))
    else if |s| > 0 && AllHexDigits(s) then Some(HexValue(s))
    else None
  }

  function DigitChar(d: nat): (c: char)
    requires d < 10
    ensures IsDigit(c) && DigitValue(c) == d
  {
    ('0' as int + d) as char
  }

  /** `str(n)` for a natural number: its decimal digits without leading zeros. */
  function ShowDecimal(n: nat): (s: string)
    ensures |s| > 0 && AllDigits(s)
    ensures s[0] == '0' ==> n == 0
    decreases n
  {
    if n < 10 then [DigitChar(n)] else ShowDecimal(n / 10) + [DigitChar(n % 10)]
  }

  /** Parsing what `str` printed gives the number back. */
  lemma {:induction false} ParseShowDecimal(n: nat)
    ensures ParseDecimal(ShowDecimal(n)) == Some(n)
    decreases n
  {
    var s := ShowDecimal(n);
    if n >= 10 {
      ParseShowDecimal(n / 10);
      assert s[..|s| - 1] == ShowDecimal(n / 10);
      assert DecimalValue(s) == 10 * (n / 10) + n % 10;
    }
  }
}

/**
 * The JavaScript numbers the catalogue script computes with: prices are
 * exact reals, NaN is `None`, and `parseFloat` reads the longest decimal
 * prefix of a string after its leading white space.
 */
module JsNumber {
  import opened JsText

  datatype Option<+T> = None | Some(value: T)

  /** A number as the script sees it; `None` is NaN. */
  type Number = Option<real>

  /** `a + b`; NaN absorbs everything. */
  function Plus(a: Number, b: Number): (r: Number)
    ensures r.Some? <==> a.Some? && b.Some?
  {
    if a.Some? && b.Some? then Some(a.value + b.value) else None
  }

  /** `a * n` for a whole count `n`; NaN stays NaN. */
  function Times(a: Number, n: nat): (r: Number)
    ensures r.Some? <==> a.Some?
  {
    if a.Some? then Some(a.value * n as real) else None
  }

  /** One more unit adds the price once more: `a * (n + 1) == a * n + a`. */
  lemma TimesSucc(a: Number, n: nat)
    ensures Times(a, n + 1) == Plus(Times(a, n), a)
  {
    if a.Some? {
      var x := a.value;
      var m: real := n as real;
      assert (n + 1) as real == m + 1.0;
      assert x * (m + 1.0) == x * m + x;
      assert Times(a, n + 1).value == x * (m + 1.0);
      assert Times(a, n).value == x * m;
    }
  }

  // ---------------------------------------------------------------------
  // decimal digits
  // ---------------------------------------------------------------------

  predicate IsDigit(c: char) {
    '0' <= c <= '9'
  }

  predicate AllDigits(s: string) {
    forall i | 0 <= i < |s| :: IsDigit(s[i])
  }

  /** The longest prefix of `s` made of decimal digits. */
  function DigitRun(s: string): (r: string)
    ensures |r| <= |s| && r == s[..|r|]
    ensures AllDigits(r)
    ensures |r| == |s| || !IsDigit(s[|r|])
  {
    if |s| > 0 && IsDigit(s[0]) then [s[0]] + DigitRun(s[1..]) else ""
  }

  /** The value of a string of decimal digits, most significant first. */
  function DigitsValue(ds: string): nat
    requires AllDigits(ds)
  {
    if |ds| == 0 then 0
    else DigitsValue(ds[..|ds| - 1]) * 10 + (ds[|ds| - 1] as int - '0' as int)
  }

  function Pow10(n: nat): (r: nat)
    ensures r >= 1
  {
    if n == 0 then 1 else 10 * Pow10(n - 1)
  }

  /** The decimal numeral of `n`, without leading zeros. */
  function NatString(n: nat): (s: string)
    ensures |s| >= 1 && AllDigits(s)
  {
    var d := [('0' as int + n % 10) as char];
    if n < 10 then d else NatString(n / 10) + d
  }

  /** Reading a numeral back gives the number it was written from. */
  lemma {:induction false} DigitsValueNatString(n: nat)
    ensures DigitsValue(NatString(n)) == n
  {
    if n >= 10 {
      DigitsValueNatString(n / 10);
      var s := NatString(n);
      assert s[..|s| - 1] == NatString(n / 10);
    }
  }

  /** A string made of digits only is its own digit run. */
  lemma {:induction false} DigitRunAllDigits(s: string)
    requires AllDigits(s)
    ensures DigitRun(s) == s
  {
    if |s| > 0 {
      DigitRunAllDigits(s[1..]);
    }
  }

  // ---------------------------------------------------------------------
  // parseFloat
  // ---------------------------------------------------------------------

  /** The value of an exponent part `e12`, `E-3`, `e+4` at the start of `s`;
      0 when `s` does not start with a complete one (`parseFloat` then
      stops before the `e`). */
  function Exponent(s: string): int {
    if |s| >= 2 && (s[0] == 'e' || s[0] == 'E') then
      var v := s[1..];
      var w := if v[0] == '-' || v[0] == '+' then v[1..] else v;
      var d := DigitRun(w);
      if |d| == 0 then 0 else if v[0] == '-' then 0 - DigitsValue(d) as int else DigitsValue(d)
    else 0
  }

  /** What is left of `s` after leading white space and one sign. */
  function Unsigned(s: string): string {
    var t := TrimStart(s);
    if |t| > 0 && (t[0] == '-' || t[0] == '+') then t[1..] else t
  }

  /** `parseFloat(s)`: the longest prefix of the form
      [sign] digits [. digits] [exponent] (at least one digit before or
      after the point), after leading white space; NaN when there is none. */
  function ParseFloat(s: string): (r: Number)
    ensures var u := Unsigned(s);
      r.None? <==> !(|u| > 0 && IsDigit(u[0])) && !(|u| > 1 && u[0] == '.' && IsDigit(u[1]))
  {
    var t := TrimStart(s);
    var negative := |t| > 0 && t[0] == '-';
    var u := Unsigned(s);
    var whole := DigitRun(u);
    var rest := u[|whole|..];
    var point := |rest| > 0 && rest[0] == '.';
    var frac := if point then DigitRun(rest[1..]) else "";
    if |whole| + |frac| == 0 then None
    else
      var tail := if point then rest[1 + |frac|..] else rest;
      var mantissa := DigitsValue(whole + frac) as real / Pow10(|frac|) as real;
      var e := Exponent(tail);
      var magnitude := if e >= 0 then mantissa * Pow10(e) as real
                       else mantissa / Pow10(-e) as real;
      Some(if negative then -magnitude else magnitude)
  }

  /** An empty price box reads as NaN. */
  lemma ParseFloatEmpty()
    ensures ParseFloat("") == None
  {
  }

  /** `parseFloat` reads a plain numeral as the number it denotes. */
  lemma ParseFloatNatString(n: nat)
    ensures ParseFloat(NatString(n)) == Some(n as real)
  {
    var s := NatString(n);
    assert !IsJsSpace(s[0]);
    assert TrimStart(s) == s;
    assert Unsigned(s) == s;
    DigitRunAllDigits(s);
    DigitsValueNatString(n);
    assert s + "" == s;
  }
}

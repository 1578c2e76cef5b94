/** The optional value used wherever the scripts produce `null`, `undefined` or `NaN`. */
module Optional {
  datatype Option<+T> = None | Some(value: T) {
    function GetOr(default: T): T
    {
      match this
      case Some(v) => v
      case None => default
    }
  }
}

/** JavaScript's number parsing and rounding, as the scripts use them:
    `parseInt`, `parseFloat`, `x || 0` and `Math.round`. `NaN` is `None`. */
module JsNumbers {
  import opened Optional
  import opened JsStrings

  /** The value of a character as a digit of radix up to 36 (`0-9`, `a-z`, `A-Z`),
      or 36 for a character that is a digit in no radix. */
  function DigitValue(c: char): nat
  {
    if '0' <= c <= '9' then c as int - '0' as int
    else if 'a' <= c <= 'z' then c as int - 'a' as int + 10
    else if 'A' <= c <= 'Z' then c as int - 'A' as int + 10
    else 36
  }

  /** Length of the longest prefix of `s` made of digits of `radix`. */
  function DigitRun(s: string, radix: nat): (n: nat)
    ensures n <= |s|
    ensures forall k :: 0 <= k < n ==> DigitValue(s[k]) < radix
    ensures n < |s| ==> DigitValue(s[n]) >= radix
  {
    if s != [] && DigitValue(s[0]) < radix then 1 + DigitRun(s[1..], radix) else 0
  }

  /** The number a digit string denotes in `radix`, most significant digit first. */
  function ValueOf(ds: string, radix: nat): nat
  {
    if ds == [] then 0 else ValueOf(ds[..|ds| - 1], radix) * radix + DigitValue(ds[|ds| - 1])
  }

  function Pow10(n: nat): (p: nat)
    ensures p >= 1
  {
    if n == 0 then 1 else 10 * Pow10(n - 1)
  }

  /** The sign that `parseInt`/`parseFloat` read before the digits, and what follows it. */
  function SignAndBody(t: string): (bool, string)
  {
    if |t| > 0 && t[0] == '-' then (true, t[1..])
    else if |t| > 0 && t[0] == '+' then (false, t[1..])
    else (false, t)
  }

  function Signed(negative: bool, v: nat): int
  {
    if negative then -(v as int) else v
  }

  /** `parseInt(s, radix)`, with `radix == 0` standing for an absent radix: leading white
      space and a sign are skipped, a `0x`/`0X` prefix switches to radix 16 when no radix
      or radix 16 is given, and the longest run of digits is read; no digit is `NaN`. */
  function ParseIntRadix(s: string, radix: nat): Option<int>
  {
    if radix != 0 && (radix < 2 || radix > 36) then None
    else
      var (negative, u) := SignAndBody(TrimStart(s));
      var hexPrefix := (radix == 0 || radix == 16) && |u| >= 2 && u[0] == '0' && (u[1] == 'x' || u[1] == 'X');
      var r := if hexPrefix then 16 else if radix == 0 then 10 else radix;
      var v := if hexPrefix then u[2..] else u;
      var n := DigitRun(v, r);
      if n == 0 then None else Some(Signed(negative, ValueOf(v[..n], r)))
  }

  /** `parseInt(s)`. */
  function ParseInt(s: string): Option<int>
  {
    ParseIntRadix(s, 0)
  }

  /** `parseInt(s) || 0`: `NaN` (and 0) become 0. */
  function Num(s: string): int
  {
    ParseInt(s).GetOr(0)
  }

  /** The exponent part of a decimal literal (`e-3`, `E+12`); without digits it is absent. */
  function Exponent(s: string): int
  {
    if |s| > 0 && (s[0] == 'e' || s[0] == 'E') then
      var (negative, v) := SignAndBody(s[1..]);
      var m := DigitRun(v, 10);
      if m == 0 then 0 else Signed(negative, ValueOf(v[..m], 10))
    else 0
  }

  function Scale(x: real, e: int): real
  {
    if e >= 0 then x * Pow10(e) as real else x / Pow10(-e) as real
  }

  /** `parseFloat(s)`: the longest prefix (after white space) that is a decimal literal
      with optional sign, fraction and exponent; no digit before or after the point is `NaN`. */
  function ParseFloat(s: string): Option<real>
  {
    var (negative, u) := SignAndBody(TrimStart(s));
    var n1 := DigitRun(u, 10);
    var rest := u[n1..];
    var point := |rest| > 0 && rest[0] == '.';
    var n2 := if point then DigitRun(rest[1..], 10) else 0;
    if n1 == 0 && n2 == 0 then None
    else
      var whole := ValueOf(u[..n1], 10) as real;
      var fraction := if point then ValueOf(rest[1..1 + n2], 10) as real / Pow10(n2) as real else 0.0;
      var after := if point then rest[1 + n2..] else rest;
      var magnitude := Scale(whole + fraction, Exponent(after));
      Some(if negative then -magnitude else magnitude)
  }

  /** `parseFloat(s) || 0`. */
  function NumF(s: string): real
  {
    ParseFloat(s).GetOr(0.0)
  }

  /** `Math.round`: the nearest integer, halves rounded up. */
  function Round(x: real): (r: int)
    ensures x - 0.5 < r as real <= x + 0.5
  {
    (x + 0.5).Floor
  }

  lemma {:induction false} DigitRunOfDigits(ds: string)
    requires forall k :: 0 <= k < |ds| ==> IsAsciiDigit(ds[k])
    ensures DigitRun(ds, 10) == |ds|
  {
    if ds != [] {
      DigitRunOfDigits(ds[1..]);
    }
  }

  /** A string of ASCII digits parses to the number it spells, and the empty one to `NaN`:
      this is what `getPoblacion` relies on after stripping every non-digit. */
  lemma {:induction false} ParseIntOfDigits(ds: string)
    requires forall k :: 0 <= k < |ds| ==> IsAsciiDigit(ds[k])
    ensures ParseInt(ds) == if ds == [] then None else Some(ValueOf(ds, 10))
  {
    if ds != [] {
      assert !IsSpace(ds[0]);
      assert TrimStart(ds) == ds;
      assert SignAndBody(ds) == (false, ds);
      assert !(|ds| >= 2 && ds[0] == '0' && (ds[1] == 'x' || ds[1] == 'X'));
      DigitRunOfDigits(ds);
      assert ds[..|ds|] == ds;
    }
  }

  /** On a plain digit string `parseFloat` gives the same number as `parseInt`. */
  lemma {:induction false} ParseFloatOfDigits(ds: string)
    requires forall k :: 0 <= k < |ds| ==> IsAsciiDigit(ds[k])
    ensures ParseFloat(ds) == if ds == [] then None else Some(ValueOf(ds, 10) as real)
  {
    if ds != [] {
      assert !IsSpace(ds[0]);
      assert TrimStart(ds) == ds;
      assert SignAndBody(ds) == (false, ds);
      DigitRunOfDigits(ds);
      assert ds[..|ds|] == ds;
      assert ds[|ds|..] == [];
      assert Exponent([]) == 0;
    }
  }
}

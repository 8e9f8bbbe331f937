/**
 * Raw catalog values, as a YAML loader hands them to the scheduler, and the
 * Python conversions the scheduler applies to them: `int(v)`, `float(v)` and
 * `v * u.s`. Each conversion returns `None` exactly where Python would raise,
 * so that the caller's bare `except:` can fall back to a default.
 */
module Values {
  import opened Wrappers

  /** One YAML value. Mappings are keyed by strings. */
  datatype Value =
    | Null
    | Bool(b: bool)
    | Int(i: int)
    | Num(x: real)
    | Str(s: string)
    | List(items: seq<Value>)
    | Dict(fields: map<string, Value>)

  /** A parsed YAML mapping: one catalog entry or one observation entry. */
  type Record = map<string, Value>

  /** The field `key` of `rec` converted by `convert`; `None` when the key is
      absent (a `KeyError`) or the conversion raises. */
  function Field<T>(rec: Record, key: string, convert: Value -> Option<T>): (r: Option<T>)
    ensures key !in rec ==> r.None?
    ensures key in rec ==> r == convert(rec[key])
  {
    if key in rec then convert(rec[key]) else None
  }

  /** The best-effort reading of one field: its converted value when the key
      is present and the conversion succeeds, and `default` in every other
      case, the way a `try:` around the lookup with a bare `except:` behaves. */
  function ReadOr<T>(rec: Record, key: string, convert: Value -> Option<T>, default: T): (r: T)
    ensures key !in rec ==> r == default
    ensures key in rec && convert(rec[key]).None? ==> r == default
    ensures key in rec && convert(rec[key]).Some? ==> r == convert(rec[key]).value
  {
    match Field(rec, key, convert)
    case Some(x) => x
    case None => default
  }

  // ---------------------------------------------------------------------------
  // Truncation toward zero (Python's int() of a float)
  // ---------------------------------------------------------------------------

  /** `int(x)` for a finite float: drops the fractional part, rounding toward zero. */
  function Truncate(x: real): (n: int)
    ensures 0.0 <= x ==> 0 <= n && n as real <= x < n as real + 1.0
    ensures x < 0.0 ==> n <= 0 && n as real - 1.0 < x <= n as real
  {
    if x >= 0.0 then x.Floor else -((-x).Floor)
  }

  // ---------------------------------------------------------------------------
  // Literal syntax of int() and float() on strings
  // ---------------------------------------------------------------------------

  /** The ASCII whitespace that int() and float() strip from both ends. */
  predicate IsSpace(c: char)
  {
    c == ' ' || c == '\t' || c == '\n' || c == '\r' || c == '\U{000B}' || c == '\U{000C}'
  }

  function StripLeft(s: string): (r: string)
    ensures |r| <= |s| && r == s[|s| - |r|..]
    ensures |r| > 0 ==> !IsSpace(r[0])
  {
    if |s| > 0 && IsSpace(s[0]) then StripLeft(s[1..]) else s
  }

  function StripRight(s: string): (r: string)
    ensures |r| <= |s| && r == s[..|r|]
    ensures |r| > 0 ==> !IsSpace(r[|r| - 1])
  {
    if |s| > 0 && IsSpace(s[|s| - 1]) then StripRight(s[..|s| - 1]) else s
  }

  function Strip(s: string): string
  {
    StripRight(StripLeft(s))
  }

  predicate IsDigit(c: char)
  {
    '0' <= c <= '9'
  }

  predicate AllDigits(s: string)
  {
    forall i :: 0 <= i < |s| ==> IsDigit(s[i])
  }

  function DigitValue(c: char): (d: nat)
    requires IsDigit(c)
    ensures d < 10
  {
    (c as int) - ('0' as int)
  }

  function DigitChar(d: nat): (c: char)
    requires d < 10
    ensures IsDigit(c) && DigitValue(c) == d
  {
    ('0' as int + d) as char
  }

  /** The number a string of decimal digits denotes, most significant first. */
  function DigitsValue(s: string): nat
    requires AllDigits(s)
  {
    if |s| == 0 then 0 else 10 * DigitsValue(s[..|s| - 1]) + DigitValue(s[|s| - 1])
  }

  /** The decimal spelling of a natural number, without leading zeros. */
  function ShowNat(n: nat): (s: string)
    ensures |s| > 0 && AllDigits(s)
    ensures n > 0 ==> s[0] != '0'
  {
    if n < 10 then [DigitChar(n)] else ShowNat(n / 10) + [DigitChar(n % 10)]
  }

  /** The decimal spelling of an integer, as Python's str() writes it. */
  function ShowInt(n: int): (s: string)
    ensures |s| > 0 && IsDigit(s[|s| - 1])
    ensures n < 0 <==> s[0] == '-'
  {
    if n < 0 then "-" + ShowNat(-n) else ShowNat(n)
  }

  /** An optionally signed run of at least one digit, with nothing around it. */
  function ParseSigned(t: string): (r: Option<int>)
    ensures r.Some? ==> |t| > 0 && IsDigit(t[|t| - 1])
  {
    if |t| > 0 && (t[0] == '-' || t[0] == '+') then
      var d := t[1..];
      if |d| > 0 && AllDigits(d) then
        var magnitude: int := DigitsValue(d);
        Some(if t[0] == '-' then -magnitude else magnitude)
      else None
    else if |t| > 0 && AllDigits(t) then Some(DigitsValue(t))
    else None
  }

  /** Python's int() of a string: surrounding whitespace, a sign, decimal digits. */
  function ParseInt(s: string): Option<int>
  {
    ParseSigned(Strip(s))
  }

  /** Index of the first occurrence of `c` in `s`, or `|s|` when there is none. */
  function IndexOf(s: string, c: char): (k: nat)
    ensures k <= |s|
    ensures k < |s| ==> s[k] == c
    ensures forall i :: 0 <= i < k ==> s[i] != c
  {
    if |s| == 0 then 0 else if s[0] == c then 0 else 1 + IndexOf(s[1..], c)
  }

  function Pow10(e: nat): (p: nat)
    ensures p >= 1
  {
    if e == 0 then 1 else 10 * Pow10(e - 1)
  }

  /** The value of the digits after a decimal point. */
  function Fraction(frac: string): real
    requires AllDigits(frac)
  {
    DigitsValue(frac) as real / Pow10(|frac|) as real
  }

  /** Unsigned digits with an optional decimal point: `12`, `12.`, `.5`, `12.5`. */
  function ParseMantissa(m: string): Option<real>
  {
    var p := IndexOf(m, '.');
    var whole := m[..p];
    var frac := if p < |m| then m[p + 1..] else "";
    if AllDigits(whole) && AllDigits(frac) && |whole| + |frac| > 0 then
      Some(DigitsValue(whole) as real + Fraction(frac))
    else None
  }

  /** An unsigned decimal float literal with an optional exponent. */
  function ParseUnsignedReal(u: string): Option<real>
  {
    var e := if IndexOf(u, 'e') < |u| then IndexOf(u, 'e') else IndexOf(u, 'E');
    match ParseMantissa(u[..e])
    case None => None
    case Some(m) =>
      if e == |u| then Some(m)
      else
        match ParseSigned(u[e + 1..])
        case None => None
        case Some(x) =>
          Some(if x >= 0 then m * Pow10(x) as real else m / Pow10(-x) as real)
  }

  /** Python's float() of a string, for finite decimal literals. */
  function ParseReal(s: string): Option<real>
  {
    var t := Strip(s);
    if |t| > 0 && (t[0] == '-' || t[0] == '+') then
      match ParseUnsignedReal(t[1..])
      case None => None
      case Some(x) => Some(if t[0] == '-' then -x else x)
    else ParseUnsignedReal(t)
  }

  lemma {:induction false} DigitsValueShowNat(n: nat)
    ensures DigitsValue(ShowNat(n)) == n
    decreases n
  {
    var s := ShowNat(n);
    if n < 10 {
      assert s[..|s| - 1] == [];
    } else {
      assert s[..|s| - 1] == ShowNat(n / 10);
      DigitsValueShowNat(n / 10);
    }
  }

  /** A spelling with no whitespace at either end is left alone by Strip. */
  lemma StripUnspaced(s: string)
    requires |s| > 0 && !IsSpace(s[0]) && !IsSpace(s[|s| - 1])
    ensures Strip(s) == s
  {
  }

  /** int() reads back what str() writes. */
  lemma ParseIntShowInt(n: int)
    ensures ParseInt(ShowInt(n)) == Some(n)
  {
    var s := ShowInt(n);
    StripUnspaced(s);
    if n < 0 {
      assert s[1..] == ShowNat(-n);
      DigitsValueShowNat(-n);
    } else {
      DigitsValueShowNat(n);
    }
  }

  lemma FractionOfNothing()
    ensures Fraction("") == 0.0
  {
    var none: string := "";
    assert DigitsValue(none) == 0;
    assert Pow10(|none|) == 1;
  }

  lemma MantissaOfDigits(u: string)
    requires |u| > 0 && AllDigits(u)
    ensures ParseMantissa(u) == Some(DigitsValue(u) as real)
  {
    var p := IndexOf(u, '.');
    assert p == |u| by {
      NoLetterInDigits(u, '.');
    }
    assert u[..p] == u;
    var frac: string := "";
    assert Fraction(frac) == 0.0 by {
      FractionOfNothing();
    }
  }

  /** A plain run of digits reads as the number it denotes. */
  lemma ParseUnsignedDigits(u: string)
    requires |u| > 0 && AllDigits(u)
    ensures ParseUnsignedReal(u) == Some(DigitsValue(u) as real)
  {
    assert IndexOf(u, 'e') == |u| by {
      NoLetterInDigits(u, 'e');
    }
    assert IndexOf(u, 'E') == |u| by {
      NoLetterInDigits(u, 'E');
    }
    assert u[..|u|] == u;
    MantissaOfDigits(u);
  }

  lemma ParseRealShowNat(n: nat)
    ensures ParseReal(ShowNat(n)) == Some(n as real)
  {
    var s := ShowNat(n);
    StripUnspaced(s);
    DigitsValueShowNat(n);
    ParseUnsignedDigits(s);
  }

  /** float() of an integer's spelling is that integer. */
  lemma ParseRealShowInt(n: int)
    ensures ParseReal(ShowInt(n)) == Some(n as real)
  {
    if n < 0 {
      var s := ShowInt(n);
      StripUnspaced(s);
      assert s[1..] == ShowNat(-n);
      DigitsValueShowNat(-n);
      ParseUnsignedDigits(s[1..]);
    } else {
      ParseRealShowNat(n);
    }
  }

  lemma NoLetterInDigits(s: string, c: char)
    requires AllDigits(s) && !IsDigit(c)
    ensures IndexOf(s, c) == |s|
  {
  }

  // ---------------------------------------------------------------------------
  // Python conversions of a whole value
  // ---------------------------------------------------------------------------

  /** `int(v)`; `None` where Python raises (None, lists, mappings, bad strings). */
  function ToInt(v: Value): (r: Option<int>)
    ensures v.Int? ==> r == Some(v.i)
    ensures v.Bool? ==> r == Some(if v.b then 1 else 0)
    ensures v.Num? ==> r == Some(Truncate(v.x))
    ensures v.Str? ==> r == ParseInt(v.s)
    ensures v.Null? || v.List? || v.Dict? ==> r.None?
  {
    match v
    case Bool(b) => Some(if b then 1 else 0)
    case Int(i) => Some(i)
    case Num(x) => Some(Truncate(x))
    case Str(s) => ParseInt(s)
    case _ => None
  }

  /** `float(v)`; `None` where Python raises. */
  function ToFloat(v: Value): (r: Option<real>)
    ensures v.Int? ==> r == Some(v.i as real)
    ensures v.Bool? ==> r == Some(if v.b then 1.0 else 0.0)
    ensures v.Num? ==> r == Some(v.x)
    ensures v.Str? ==> r == ParseReal(v.s)
    ensures v.Null? || v.List? || v.Dict? ==> r.None?
  {
    match v
    case Bool(b) => Some(if b then 1.0 else 0.0)
    case Int(i) => Some(i as real)
    case Num(x) => Some(x)
    case Str(s) => ParseReal(s)
    case _ => None
  }

  /** `v * u.s` as a number of seconds, for the scalar numbers it accepts. */
  function ToSeconds(v: Value): (r: Option<real>)
    ensures v.Int? ==> r == Some(v.i as real)
    ensures v.Bool? ==> r == Some(if v.b then 1.0 else 0.0)
    ensures v.Num? ==> r == Some(v.x)
    ensures !(v.Int? || v.Bool? || v.Num?) ==> r.None?
  {
    match v
    case Bool(b) => Some(if b then 1.0 else 0.0)
    case Int(i) => Some(i as real)
    case Num(x) => Some(x)
    case _ => None
  }
}

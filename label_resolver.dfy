/** Label resolution: a model's raw class code is turned into its string form and looked up
    in the static label mapping (code string to intent label). */
module LabelResolver {
  import opened Wrappers

  /** A raw class code as an inference backend reports it: an integer class index (an element
      of an integer tensor) or a class name (an element of a string tensor). */
  datatype RawCode = IntCode(n: int) | TextCode(s: string)

  predicate IsDigit(c: char)
  {
    '0' <= c <= '9'
  }

  predicate AllDigits(s: string)
  {
    forall i :: 0 <= i < |s| ==> IsDigit(s[i])
  }

  /** A canonical decimal numeral of a natural number: digits only, and no leading zero unless
      the numeral is "0" itself. The keys of a label mapping that lists class indices have this
      form. */
  predicate IsNumeral(s: string)
  {
    |s| > 0 && AllDigits(s) && (s[0] == '0' ==> |s| == 1)
  }

  function DigitValue(c: char): (d: nat)
    requires IsDigit(c)
    ensures d < 10 && ('0' as int + d) as char == c
  {
    c as int - '0' as int
  }

  function DigitChar(d: nat): (c: char)
    requires d < 10
    ensures IsDigit(c) && DigitValue(c) == d
  {
    ('0' as int + d) as char
  }

  /** The decimal numeral of `n`, as `n.toString()` writes it. */
  function NatToDecimal(n: nat): (s: string)
    ensures IsNumeral(s)
    ensures s[0] == '0' <==> n == 0
    decreases n
  {
    if n < 10 then [DigitChar(n)] else NatToDecimal(n / 10) + [DigitChar(n % 10)]
  }

  /** The decimal numeral of an integer, with a leading '-' when it is negative. */
  function IntToDecimal(n: int): string
  {
    if n < 0 then "-" + NatToDecimal(-n) else NatToDecimal(n)
  }

  /** The value a string of decimal digits denotes. */
  function ParseNat(s: string): nat
    requires AllDigits(s)
  {
    if s == [] then 0 else ParseNat(s[..|s| - 1]) * 10 + DigitValue(s[|s| - 1])
  }

  /** `String(code)`: the string a raw code is looked up under. */
  function CodeKey(code: RawCode): string
  {
    match code
    case IntCode(n) => IntToDecimal(n)
    case TextCode(s) => s
  }

  /** `labelMapping[code.toString()]`: a code missing from the mapping resolves to `undefined`
      (`None`), and every label it can resolve to is one of the mapping's labels. */
  function Resolve(mapping: map<string, string>, code: RawCode): (resolved: Option<string>)
    ensures resolved.Some? <==> CodeKey(code) in mapping
    ensures resolved.Some? ==> resolved.value in mapping.Values
  {
    var key := CodeKey(code);
    if key in mapping then Some(mapping[key]) else None
  }

  /** Reading back the numeral of `n` gives `n`. */
  lemma {:induction false} NatDecimalRoundTrip(n: nat)
    ensures ParseNat(NatToDecimal(n)) == n
    decreases n
  {
    var s := NatToDecimal(n);
    if n < 10 {
      assert s[..0] == [];
    } else {
      NatDecimalRoundTrip(n / 10);
      assert s[..|s| - 1] == NatToDecimal(n / 10);
    }
  }

  lemma {:induction false} ParseNatPositive(s: string)
    requires |s| > 0 && AllDigits(s) && s[0] != '0'
    ensures ParseNat(s) > 0
    decreases |s|
  {
    if |s| > 1 {
      ParseNatPositive(s[..|s| - 1]);
    } else {
      assert s[..0] == [];
    }
  }

  /** A canonical numeral is the numeral of the number it denotes. */
  lemma {:induction false} NumeralRoundTrip(s: string)
    requires IsNumeral(s)
    ensures NatToDecimal(ParseNat(s)) == s
    decreases |s|
  {
    var p := s[..|s| - 1];
    var c := s[|s| - 1];
    if |s| == 1 {
      assert p == [];
    } else {
      ParseNatPositive(p);
      NumeralRoundTrip(p);
      var q, d := ParseNat(p), DigitValue(c);
      var n := q * 10 + d;
      DecimalStep(q, d);
      assert NatToDecimal(n) == NatToDecimal(q) + [DigitChar(d)];
      assert s == p + [c];
    }
  }

  lemma DecimalStep(q: nat, d: nat)
    requires q > 0 && d < 10
    ensures q * 10 + d >= 10 && (q * 10 + d) / 10 == q && (q * 10 + d) % 10 == d
  {
  }

  /** Different naturals have different numerals. */
  lemma NatDecimalInjective(m: nat, n: nat)
    requires m != n
    ensures NatToDecimal(m) != NatToDecimal(n)
  {
    NatDecimalRoundTrip(m);
    NatDecimalRoundTrip(n);
  }

  /** Different integer codes are looked up under different keys, so the mapping never gives
      one class index the entry of another. */
  lemma IntKeysInjective(a: int, b: int)
    requires a != b
    ensures CodeKey(IntCode(a)) != CodeKey(IntCode(b))
  {
    var x, y := IntToDecimal(a), IntToDecimal(b);
    if a < 0 && b < 0 {
      NatDecimalInjective(-a, -b);
      assert x[1..] == NatToDecimal(-a) && y[1..] == NatToDecimal(-b);
    } else if a >= 0 && b >= 0 {
      NatDecimalInjective(a, b);
    } else {
      assert x[0] != y[0];
    }
  }

  /** An integer class index is looked up under the mapping key that spells it: the code whose
      value is the numeral `key` finds exactly the entry stored under `key`. */
  lemma ResolveIndexKey(mapping: map<string, string>, key: string)
    requires IsNumeral(key)
    ensures Resolve(mapping, IntCode(ParseNat(key))) == if key in mapping then Some(mapping[key]) else None
  {
    NumeralRoundTrip(key);
  }
}

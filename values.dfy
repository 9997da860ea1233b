/** The small universe of Python values the model stores in a host object's
    field store, together with the two Python notions the library relies on:
    truthiness (flags, configuration entries) and `repr` (the formatted
    representation). */
module PyValues {

  datatype Option<+T> = None | Some(value: T)

  /** `None`, `bool`, `int` and `str`; other Python objects are not modelled. */
  datatype Value = PyNone | PyBool(b: bool) | PyInt(i: int) | PyStr(s: string)

  /** Python truthiness: `None`, `False`, `0` and `''` are false, everything else true. */
  predicate Truthy(v: Value)
  {
    match v
    case PyNone => false
    case PyBool(b) => b
    case PyInt(i) => i != 0
    case PyStr(s) => s != ""
  }

  /** `dict.get(key)` used as a condition: a missing key counts as false. */
  predicate FlagSet(flags: map<string, Value>, key: string)
  {
    key in flags && Truthy(flags[key])
  }

  function DigitChar(d: nat): (c: char)
    requires d < 10
    ensures '0' <= c <= '9' && DigitValue(c) == d
  {
    ('0' as int + d) as char
  }

  /** The value of a decimal digit character. */
  function DigitValue(c: char): nat
  {
    if '0' <= c <= '9' then c as int - '0' as int else 0
  }

  /** The natural number a string of decimal digits spells. */
  function DigitsValue(s: string): nat
    decreases |s|
  {
    if s == [] then 0 else DigitsValue(s[..|s| - 1]) * 10 + DigitValue(s[|s| - 1])
  }

  /** The integer a string spells: an optional minus sign, then decimal digits. */
  function ParseInt(s: string): int
  {
    if |s| > 0 && s[0] == '-' then 0 - DigitsValue(s[1..]) as int else DigitsValue(s)
  }

  /** Decimal digits of a natural number, most significant first. */
  function NatToString(n: nat): (r: string)
    ensures |r| >= 1
    ensures forall j :: 0 <= j < |r| ==> '0' <= r[j] <= '9'
    decreases n
  {
    if n < 10 then [DigitChar(n)] else NatToString(n / 10) + [DigitChar(n % 10)]
  }

  /** The digits spell `n`, and only `0` itself starts with the digit `0`. */
  lemma {:induction false} NatToStringValue(n: nat)
    ensures DigitsValue(NatToString(n)) == n
    ensures n >= 10 ==> NatToString(n)[0] != '0'
    decreases n
  {
    if n >= 10 {
      var q := NatToString(n / 10);
      var r := NatToString(n);
      NatToStringValue(n / 10);
      assert r[..|r| - 1] == q && r[0] == q[0];
      if n / 10 < 10 {
        assert DigitValue(q[0]) == n / 10;
      }
    }
  }

  /** `repr(i)` for an `int`: a leading minus sign for negative numbers, then
      the decimal digits of the magnitude without leading zeros; reading it
      back gives `i`. */
  function IntToString(i: int): (r: string)
    ensures |r| >= 1 && ParseInt(r) == i
    ensures r[0] == '-' <==> i < 0
    ensures forall j :: (if i < 0 then 1 else 0) <= j < |r| ==> '0' <= r[j] <= '9'
    ensures |r| >= (if i < 0 then 3 else 2) ==> r[if i < 0 then 1 else 0] != '0'
  {
    if i < 0 then
      NatToStringValue(-i);
      var r := "-" + NatToString(-i);
      assert r[1..] == NatToString(-i);
      assert -i < 10 ==> |r| == 2;
      r
    else
      NatToStringValue(i);
      assert i < 10 ==> |NatToString(i)| == 1;
      NatToString(i)
  }

  /** `repr(v)` on the modelled values: strings in single quotes, the rest as
      Python literals. String escaping (and Python's switch to double quotes
      for strings holding a single quote) is not modelled. */
  function ReprValue(v: Value): (r: string)
    ensures |r| >= 1
    ensures v.PyInt? ==> ParseInt(r) == v.i
    ensures v.PyInt? ==> (|r| >= (if v.i < 0 then 3 else 2) ==> r[if v.i < 0 then 1 else 0] != '0')
    ensures v.PyInt? ==> r == IntToString(v.i)
    ensures v.PyBool? ==> r == (if v.b then "True" else "False")
    ensures v.PyNone? ==> r == "None"
    ensures v.PyStr? ==> |r| >= 2 && r[0] == '\'' == r[|r| - 1] && r[1..|r| - 1] == v.s
  {
    match v
    case PyNone => "None"
    case PyBool(b) => if b then "True" else "False"
    case PyInt(i) => IntToString(i)
    case PyStr(s) => "'" + s + "'"
  }
}

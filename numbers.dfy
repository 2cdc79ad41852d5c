/** JavaScript numbers as far as the components use them: integer ids and
    keys, `Number(text)` and the decimal text of a number in a template. */
module Numbers {

  /** A JavaScript number: an integer or NaN (fractions, infinities and
      -0 are not needed by the modelled code). */
  datatype JsNumber = Finite(value: int) | NaN

  /** `a === b` on numbers: NaN equals nothing, not even itself. */
  predicate StrictEquals(a: JsNumber, b: JsNumber)
  {
    a.Finite? && b.Finite? && a.value == b.value
  }

  predicate IsDigit(c: char)
  {
    '0' <= c <= '9'
  }

  predicate AllDigits(s: string)
  {
    forall i :: 0 <= i < |s| ==> IsDigit(s[i])
  }

  /** The value of a string of decimal digits. */
  function DigitsValue(s: string): nat
    requires AllDigits(s)
  {
    if s == [] then 0 else DigitsValue(s[..|s| - 1]) * 10 + (s[|s| - 1] as int - '0' as int)
  }

  /** The decimal text of a natural number, without leading zeros. */
  function NatToString(n: nat): (r: string)
    ensures |r| >= 1 && AllDigits(r)
    ensures |r| > 1 ==> r[0] != '0'
  {
    if n < 10 then [('0' as int + n) as char]
    else NatToString(n / 10) + [('0' as int + n % 10) as char]
  }

  /** Reading back the decimal text of `n` gives `n`. */
  lemma {:induction false} NatToStringValue(n: nat)
    ensures DigitsValue(NatToString(n)) == n
  {
    if n >= 10 {
      NatToStringValue(n / 10);
      var s := NatToString(n);
      assert s[..|s| - 1] == NatToString(n / 10);
    }
  }

  /** `Number(s)` for the texts the components produce: the empty string is
      0, an optional minus sign followed by decimal digits is that integer,
      anything else is NaN. */
  function ToNumber(s: string): JsNumber
  {
    if s == "" then Finite(0)
    else if AllDigits(s) then Finite(DigitsValue(s))
    else if s[0] == '-' && |s| > 1 && AllDigits(s[1..]) then Finite(0 - DigitsValue(s[1..]))
    else NaN
  }

  /** `${x}`: the text of a number inside a template literal. */
  function NumberToString(x: JsNumber): (r: string)
    ensures r != ""
  {
    match x
    case NaN => "NaN"
    case Finite(v) => if v >= 0 then NatToString(v) else "-" + NatToString(-v)
  }

  /** `Number(`${x}`)` gives back every integer, and NaN stays NaN. */
  lemma NumberTextRoundTrip(x: JsNumber)
    ensures ToNumber(NumberToString(x)) == x
  {
    match x
    case NaN =>
      assert !IsDigit("NaN"[0]);
    case Finite(v) =>
      if v >= 0 {
        NatToStringValue(v);
      } else {
        NatToStringValue(-v);
        var s := NumberToString(x);
        assert !IsDigit(s[0]);
        assert s[1..] == NatToString(-v);
      }
  }

  /** The decimal text of a number never contains the character `c` unless
      it is a digit, the minus sign or a letter of "NaN". */
  lemma NumberTextCharacters(x: JsNumber, c: char)
    requires !IsDigit(c) && c != '-' && c != 'N' && c != 'a'
    ensures c !in NumberToString(x)
  {
    match x
    case NaN =>
    case Finite(v) =>
      if v < 0 {
        assert NumberToString(x) == "-" + NatToString(-v);
      }
  }
}

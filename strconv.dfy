/**
 * Go's `strconv.Atoi` on a 64-bit platform, and `strconv.Itoa` to state the
 * round trip. Atoi accepts an optional sign followed by at least one decimal
 * digit. The digits are scanned left to right: once they exceed the uint64
 * range the scan stops with a range error and the int64 bound of the sign,
 * even if a bad character follows; a bad character met first yields 0 with
 * an error; a numeral outside the int64 range yields the nearest bound with
 * an error.
 */
module Strconv {

  const MaxInt: int := 0x7FFF_FFFF_FFFF_FFFF
  const MinInt: int := -0x8000_0000_0000_0000
  const MaxUint: int := 0xFFFF_FFFF_FFFF_FFFF

  /** What Atoi returns: the value and whether the error was nil. */
  datatype Parsed = Parsed(value: int, ok: bool)

  predicate IsDigit(ch: char)
  {
    '0' <= ch <= '9'
  }

  predicate AllDigits(s: string)
  {
    forall k :: 0 <= k < |s| ==> IsDigit(s[k])
  }

  /** The value of a run of decimal digits, most significant first. */
  function DigitsValue(ds: string): nat
    requires AllDigits(ds)
  {
    if ds == [] then 0
    else DigitsValue(ds[..|ds| - 1]) * 10 + (ds[|ds| - 1] as int - '0' as int)
  }

  /** The text after an optional leading sign. */
  function Magnitude(s: string): string
  {
    if |s| > 0 && (s[0] == '-' || s[0] == '+') then s[1..] else s
  }

  /** The number of leading decimal digits of `s`. */
  function DigitRun(s: string): (j: nat)
    ensures j <= |s| && AllDigits(s[..j])
    ensures j < |s| ==> !IsDigit(s[j])
  {
    if s == [] || !IsDigit(s[0]) then 0
    else
      var j := 1 + DigitRun(s[1..]);
      assert s[..j] == [s[0]] + s[1..][..j - 1];
      j
  }

  /** The digits before the first bad character already exceed the uint64 range. */
  predicate Overflows(s: string)
  {
    var m := Magnitude(s);
    DigitsValue(m[..DigitRun(m)]) > MaxUint
  }

  /** The int64 bound on the side of the sign. */
  function Bound(s: string): int
  {
    if |s| > 0 && s[0] == '-' then MinInt else MaxInt
  }

  /** A decimal numeral: an optional sign and at least one digit. */
  predicate IsNumeral(s: string)
  {
    |Magnitude(s)| > 0 && AllDigits(Magnitude(s))
  }

  function Atoi(s: string): (r: Parsed)
    ensures MinInt <= r.value <= MaxInt
    ensures r.ok <==> IsNumeral(s) && MinInt <= NumeralValue(s) <= MaxInt
    ensures r.ok ==> r.value == NumeralValue(s)
    ensures !r.ok ==> r.value in {0, Bound(s)}
    ensures Overflows(s) ==> r == Parsed(Bound(s), false)
    ensures !IsNumeral(s) && !Overflows(s) ==> r == Parsed(0, false)
    ensures IsNumeral(s) && !(MinInt <= NumeralValue(s) <= MaxInt) ==> r == Parsed(Bound(s), false)
  {
    var m := Magnitude(s);
    var j := DigitRun(m);
    if Overflows(s) then
      assert IsNumeral(s) ==> m[..j] == m;
      Parsed(Bound(s), false)
    else if !IsNumeral(s) then Parsed(0, false)
    else
      assert m[..j] == m;
      var v := NumeralValue(s);
      if v > MaxInt then Parsed(MaxInt, false)
      else if v < MinInt then Parsed(MinInt, false)
      else Parsed(v, true)
  }

  /** The signed value a numeral spells. */
  function NumeralValue(s: string): int
    requires IsNumeral(s)
  {
    var m: int := DigitsValue(Magnitude(s));
    if s[0] == '-' then -m else m
  }

  /** Decimal digits of a natural number, without leading zeros. */
  function FormatNat(n: nat): (ds: string)
    ensures |ds| > 0 && AllDigits(ds)
  {
    if n < 10 then [('0' as int + n) as char]
    else FormatNat(n / 10) + [('0' as int + n % 10) as char]
  }

  /** `strconv.Itoa`: a minus sign for negative values, then the digits. */
  function Itoa(n: int): (s: string)
    ensures IsNumeral(s)
    ensures ' ' !in s
  {
    if n < 0 then "-" + FormatNat(-n) else FormatNat(n)
  }

  lemma {:induction false} FormatNatValue(n: nat)
    ensures DigitsValue(FormatNat(n)) == n
  {
    if n >= 10 {
      var ds := FormatNat(n);
      FormatNatValue(n / 10);
      assert ds[..|ds| - 1] == FormatNat(n / 10);
    }
  }

  /** Atoi reads back every int64 that Itoa writes. */
  lemma AtoiItoa(n: int)
    requires MinInt <= n <= MaxInt
    ensures Atoi(Itoa(n)) == Parsed(n, true)
  {
    var s := Itoa(n);
    if n < 0 {
      FormatNatValue(-n);
      assert Magnitude(s) == FormatNat(-n);
    } else {
      FormatNatValue(n);
      assert Magnitude(s) == FormatNat(n);
    }
  }
}

/**
 * Decimal text of 64-bit integers: Go's `fmt.Sprintf("%d", ...)` and
 * `strconv.Itoa` (as `Itoa`) and `strconv.Atoi` (as `Atoi`) on a 64-bit platform.
 */
module Decimal {
  import opened Bytes
  import opened Wrappers

  const MinInt64: int := -0x8000_0000_0000_0000
  const MaxInt64: int := 0x7FFF_FFFF_FFFF_FFFF

  predicate InInt64(n: int) { MinInt64 <= n <= MaxInt64 }

  /** Why `Atoi` refused a text; the distinction between syntax and range errors is not kept. */
  datatype NumError = InvalidNumber(text: Text)

  predicate IsDigit(c: byte) { '0' as int <= c <= '9' as int }

  predicate AllDigits(s: Text) { forall i :: 0 <= i < |s| ==> IsDigit(s[i]) }

  /** The decimal digits of `n`, without leading zeros ("0" for zero). */
  function Digits(n: nat): (s: Text)
    decreases n
  {
    if n < 10 then [48 + n] else Digits(n / 10) + [48 + n % 10]
  }

  /** The number a string of decimal digits denotes. */
  function DigitsValue(s: Text): nat
    requires AllDigits(s)
  {
    if s == [] then 0 else 10 * DigitsValue(s[..|s| - 1]) + (s[|s| - 1] - 48)
  }

  /** `strconv.Itoa(n)`, also `%d`: a minus sign for negative numbers, then the digits of |n|. */
  function Itoa(n: int): Text
  {
    if n < 0 then ['-' as int] + Digits(-n) else Digits(n)
  }

  /** `strconv.Atoi(s)`: an optional sign, at least one decimal digit, and a value that fits in 64 bits. */
  function Atoi(s: Text): Result<int, NumError>
  {
    var signed := |s| > 0 && (s[0] == '-' as int || s[0] == '+' as int);
    var digits := if signed then s[1..] else s;
    if digits == [] || !AllDigits(digits) then Err(InvalidNumber(s))
    else
      var magnitude: int := DigitsValue(digits);
      var v := if signed && s[0] == '-' as int then -magnitude else magnitude;
      if InInt64(v) then Ok(v) else Err(InvalidNumber(s))
  }

  lemma {:induction false} DigitsAreDigits(n: nat)
    ensures Digits(n) != [] && AllDigits(Digits(n)) && DigitsValue(Digits(n)) == n
    decreases n
  {
    if n >= 10 {
      DigitsAreDigits(n / 10);
      var s := Digits(n);
      assert s[..|s| - 1] == Digits(n / 10);
    }
  }

  /** Printing a 64-bit integer in decimal and parsing it back gives the integer. */
  lemma AtoiItoa(n: int)
    requires InInt64(n)
    ensures Atoi(Itoa(n)) == Ok(n)
  {
    if n < 0 {
      AtoiNegative(-n);
    } else {
      AtoiNatural(n);
    }
  }

  lemma AtoiNatural(n: nat)
    requires n <= MaxInt64
    ensures Atoi(Digits(n)) == Ok(n)
  {
    DigitsAreDigits(n);
    assert IsDigit(Digits(n)[0]);
  }

  lemma AtoiNegative(m: nat)
    requires 0 < m <= -MinInt64
    ensures Atoi(['-' as int] + Digits(m)) == Ok(-(m as int))
  {
    DigitsAreDigits(m);
    assert (['-' as int] + Digits(m))[1..] == Digits(m);
  }

  /** `Itoa` is injective on 64-bit integers, so decimal labels tell numbers apart. */
  lemma ItoaInjective(m: int, n: int)
    requires InInt64(m) && InInt64(n) && Itoa(m) == Itoa(n)
    ensures m == n
  {
    AtoiItoa(m);
    AtoiItoa(n);
  }
}

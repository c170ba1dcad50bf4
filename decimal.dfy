/** Decimal rendering (`u64` as `Display`) and parsing (`str::parse::<u64>`)
    of unsigned 64-bit integers, as the Rust standard library does them. */
module Decimal {
  import opened Wrappers

  const U64_LIMIT: int := 0x1_0000_0000_0000_0000

  type U64 = n: int | 0 <= n < U64_LIMIT

  /** The kinds of `std::num::ParseIntError` that parsing an unsigned integer can produce. */
  datatype ParseIntError = Empty | InvalidDigit | PosOverflow

  predicate IsDigit(c: char) {
    '0' <= c <= '9'
  }

  function DigitValue(c: char): nat
    requires IsDigit(c)
  {
    (c as int) - ('0' as int)
  }

  function DigitChar(d: nat): (c: char)
    requires d < 10
    ensures IsDigit(c) && DigitValue(c) == d
  {
    (('0' as int) + d) as char
  }

  /** The canonical decimal form: no sign, no leading zeros, "0" for zero. */
  function Show(n: nat): (s: string)
    ensures s != []
    ensures forall i :: 0 <= i < |s| ==> IsDigit(s[i])
    ensures |s| > 1 ==> s[0] != '0'
  {
    if n < 10 then [DigitChar(n)] else Show(n / 10) + [DigitChar(n % 10)]
  }

  /** The digit loop of `from_str_radix`, left to right: a character that is not a
      digit fails with `InvalidDigit`, a value above `u64::MAX` with `PosOverflow`,
      whichever happens first. */
  function Accumulate(digits: string): (r: Result<U64, ParseIntError>)
    ensures r.Failure? ==> r.error != Empty
  {
    if digits == [] then Success(0)
    else
      match Accumulate(digits[..|digits| - 1])
      case Failure(e) => Failure(e)
      case Success(v) =>
        var c := digits[|digits| - 1];
        if !IsDigit(c) then Failure(InvalidDigit)
        else if v * 10 + DigitValue(c) >= U64_LIMIT then Failure(PosOverflow)
        else Success(v * 10 + DigitValue(c))
  }

  /** `str::parse::<u64>`: an empty string is `Empty`; one leading `+` is accepted
      but a lone sign is an `InvalidDigit`; `-` is never accepted. */
  function ParseU64(s: string): (r: Result<U64, ParseIntError>)
    ensures s == [] <==> r == Failure(Empty)
  {
    if s == [] then Failure(Empty)
    else
      var digits := if s[0] == '+' then s[1..] else s;
      if digits == [] then Failure(InvalidDigit)
      else Accumulate(digits)
  }

  predicate AllDigits(s: string) {
    forall i :: 0 <= i < |s| ==> IsDigit(s[i])
  }

  lemma {:induction false} AccumulateShow(n: nat)
    requires n < U64_LIMIT
    ensures Accumulate(Show(n)) == Success(n)
  {
    var s := Show(n);
    if n >= 10 {
      assert s[..|s| - 1] == Show(n / 10);
      AccumulateShow(n / 10);
    } else {
      assert s[..0] == [];
    }
  }

  /** Parsing the rendered form gives the number back. */
  lemma ParseShow(n: U64)
    ensures ParseU64(Show(n)) == Success(n)
  {
    AccumulateShow(n);
  }

  /** Different numbers render differently. */
  lemma ShowInjective(a: U64, b: U64)
    ensures Show(a) == Show(b) <==> a == b
  {
    ParseShow(a);
    ParseShow(b);
  }

  /** A successful parse read only digits, after at most one leading `+`. */
  lemma {:induction false} AccumulateDigits(digits: string)
    requires Accumulate(digits).Success?
    ensures AllDigits(digits)
  {
    if digits != [] {
      AccumulateDigits(digits[..|digits| - 1]);
      forall i | 0 <= i < |digits| ensures IsDigit(digits[i]) {
        if i < |digits| - 1 {
          assert digits[i] == digits[..|digits| - 1][i];
        }
      }
    }
  }

  /** Anything that is not a (possibly `+`-signed) run of digits is rejected. */
  lemma RejectsNonNumeric(s: string)
    requires s != []
    requires !AllDigits(if s[0] == '+' then s[1..] else s)
    ensures ParseU64(s).Failure?
  {
    var digits := if s[0] == '+' then s[1..] else s;
    if digits != [] && Accumulate(digits).Success? {
      AccumulateDigits(digits);
    }
  }

  /** The value read by `Accumulate`, without the range check. */
  function DigitsValue(digits: string): nat
    requires AllDigits(digits)
  {
    if digits == [] then 0
    else DigitsValue(digits[..|digits| - 1]) * 10 + DigitValue(digits[|digits| - 1])
  }

  lemma {:induction false} DigitsValueMonotone(digits: string, k: nat)
    requires AllDigits(digits) && k <= |digits|
    ensures DigitsValue(digits[..k]) <= DigitsValue(digits)
  {
    if k < |digits| {
      assert digits[..|digits| - 1][..k] == digits[..k];
      DigitsValueMonotone(digits[..|digits| - 1], k);
    } else {
      assert digits[..k] == digits;
    }
  }

  lemma {:induction false} AccumulateValue(digits: string)
    requires AllDigits(digits)
    ensures DigitsValue(digits) < U64_LIMIT ==> Accumulate(digits) == Success(DigitsValue(digits))
    ensures DigitsValue(digits) >= U64_LIMIT ==> Accumulate(digits) == Failure(PosOverflow)
  {
    if digits != [] {
      var init := digits[..|digits| - 1];
      AccumulateValue(init);
      DigitsValueMonotone(digits, |digits| - 1);
    }
  }

  /** Numbers beyond `u64::MAX` are rejected with `PosOverflow`. */
  lemma RejectsOutOfRange(s: string)
    requires s != [] && AllDigits(s)
    requires DigitsValue(s) >= U64_LIMIT
    ensures ParseU64(s) == Failure(PosOverflow)
  {
    AccumulateValue(s);
  }
}

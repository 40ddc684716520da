/** Decimal text of unsigned integers: the digits `operator<<` writes for a
    `uint32_t` in the reports, and the value `std::stoi` reads back from the
    digit buffer of the record parser (main.cpp:145-149, main.cpp:418-422). */
module Decimal {

  datatype Option<T> = None | Some(value: T)

  /** `isdigit` in the "C" locale: only the ASCII digits. */
  predicate IsDigit(c: char) {
    '0' <= c <= '9'
  }

  predicate AllDigits(s: string) {
    forall i :: 0 <= i < |s| ==> IsDigit(s[i])
  }

  function DigitValue(c: char): (d: nat)
    requires IsDigit(c)
    ensures d < 10
  {
    c as int - '0' as int
  }

  function DigitChar(d: nat): (c: char)
    requires d < 10
    ensures IsDigit(c) && DigitValue(c) == d
  {
    ('0' as int + d) as char
  }

  /** The text `operator<<` writes for an unsigned integer: at least one
      digit, and no leading zero unless the number is zero. */
  function Format(n: nat): (s: string)
    ensures s != [] && AllDigits(s)
    ensures n > 0 ==> s[0] != '0'
    ensures n == 0 ==> s == "0"
  {
    if n < 10 then [DigitChar(n)] else Format(n / 10) + [DigitChar(n % 10)]
  }

  /** The number a non-empty run of digits denotes (leading zeros allowed). */
  function Value(s: string): nat
    requires AllDigits(s)
  {
    if s == [] then 0 else 10 * Value(s[..|s| - 1]) + DigitValue(s[|s| - 1])
  }

  /** Reading back what `Format` writes gives the number again. */
  lemma {:induction false} ValueOfFormat(n: nat)
    ensures Value(Format(n)) == n
  {
    if n >= 10 {
      var s := Format(n);
      assert s[..|s| - 1] == Format(n / 10);
      ValueOfFormat(n / 10);
    }
  }

  /** Length of the longest run of digits at the front of `s`. */
  function DigitRun(s: string): (k: nat)
    ensures k <= |s| && AllDigits(s[..k])
    ensures k < |s| ==> !IsDigit(s[k])
  {
    if s == [] || !IsDigit(s[0]) then 0
    else
      var k := 1 + DigitRun(s[1..]);
      assert s[..k] == [s[0]] + s[1..][..k - 1];
      k
  }

  /** A run of digits followed by nothing or by a non-digit is read whole. */
  lemma {:induction false} DigitRunOfDigits(d: string, t: string)
    requires AllDigits(d)
    requires t == [] || !IsDigit(t[0])
    ensures DigitRun(d + t) == |d|
  {
    if d != [] {
      assert (d + t)[1..] == d[1..] + t;
      DigitRunOfDigits(d[1..], t);
    }
  }

  /** `INT_MAX` for the 32-bit `int` that `std::stoi` returns. */
  const IntMax: nat := 0x7fff_ffff

  /** The two exceptions `std::stoi` throws. */
  datatype StoiError = InvalidArgument | OutOfRange

  datatype Conversion = Converted(value: nat) | Rejected(error: StoiError)

  /** `std::stoi` applied to a buffer that only ever holds digits
      (main.cpp:422): no digits is `invalid_argument`, a value above
      `INT_MAX` is `out_of_range`, anything else is its decimal value. */
  function Stoi(s: string): (r: Conversion)
    requires AllDigits(s)
    ensures s == [] <==> r == Rejected(InvalidArgument)
    ensures r.Rejected? && s != [] <==> IntMax < Value(s)
    ensures r.Converted? ==> r.value == Value(s) <= IntMax
  {
    if s == [] then Rejected(InvalidArgument)
    else if Value(s) > IntMax then Rejected(OutOfRange)
    else Converted(Value(s))
  }

  /** `stoi` reads back every number an `int` can hold from its own text. */
  lemma StoiOfFormat(n: nat)
    requires n <= IntMax
    ensures Stoi(Format(n)) == Converted(n)
  {
    ValueOfFormat(n);
  }
}

/**
 * The conversion of `Input::unsignedIntegerFormat`: the digit check, the
 * `strtoul` call it relies on, and the classification into a value, an
 * `invalid_argument` or an `out_of_range`.
 */
module UnsignedFormat {

  /** `std::numeric_limits<unsigned int>::max()` for a 32-bit `unsigned int`. */
  const UINT_MAX: nat := 0xFFFF_FFFF
  /** `ULONG_MAX` for a 64-bit `unsigned long` (LP64 platforms). */
  const ULONG_MAX: nat := 0xFFFF_FFFF_FFFF_FFFF

  newtype uint32 = x: int | 0 <= x <= 0xFFFF_FFFF

  /** The three outcomes: the value, `std::invalid_argument`, `std::out_of_range`. */
  datatype Parsed = Ok(n: uint32) | InvalidFormat | OutOfRange

  /** `std::isdigit` in the "C" locale. */
  predicate IsDigit(c: char): (b: bool)
    ensures b <==> c in "0123456789"
  {
    '0' <= c <= '9'
  }

  predicate AllDigits(s: string) {
    forall i :: 0 <= i < |s| ==> IsDigit(s[i])
  }

  function DigitValue(c: char): (d: nat)
    requires IsDigit(c)
    ensures d < 10
  {
    (c as int) - ('0' as int)
  }

  function DigitChar(d: nat): (c: char)
    requires d < 10
    ensures IsDigit(c) && DigitValue(c) == d
  {
    (('0' as int) + d) as char
  }

  /** `10` to the power `k`. */
  function Pow10(k: nat): (p: nat)
    ensures p >= 1
  {
    if k == 0 then 1 else 10 * Pow10(k - 1)
  }

  /** The base-10 value of a digit sequence, most significant digit first; `n` digits stay below `10^n`. */
  function DecimalValue(digits: string): (v: nat)
    requires AllDigits(digits)
    ensures v < Pow10(|digits|)
  {
    if digits == [] then 0
    else DecimalValue(digits[..|digits| - 1]) * 10 + DigitValue(digits[|digits| - 1])
  }

  /** The decimal numeral of `n`, without leading zeros. */
  function Numeral(n: nat): (s: string)
    ensures |s| > 0 && AllDigits(s)
  {
    if n < 10 then [DigitChar(n)] else Numeral(n / 10) + [DigitChar(n % 10)]
  }

  /** Reading a numeral gives back its number. */
  lemma {:induction false} ValueOfNumeral(n: nat)
    ensures DecimalValue(Numeral(n)) == n
  {
    if n >= 10 {
      var s := Numeral(n);
      assert s[..|s| - 1] == Numeral(n / 10);
      ValueOfNumeral(n / 10);
    }
  }

  /** Leading zeros do not change the value. */
  lemma {:induction false} ValueLeadingZero(digits: string)
    requires AllDigits(digits)
    ensures AllDigits("0" + digits) && DecimalValue("0" + digits) == DecimalValue(digits)
  {
    var s := "0" + digits;
    if digits != [] {
      assert s[..|s| - 1] == "0" + digits[..|digits| - 1];
      ValueLeadingZero(digits[..|digits| - 1]);
    }
  }

  /** How many characters the optional leading '+' takes. */
  function SignLength(s: string): (k: nat)
    ensures k <= |s| && k <= 1
    ensures k == 1 <==> |s| > 0 && s[0] == '+'
  {
    if |s| > 0 && s[0] == '+' then 1 else 0
  }

  /** The part of the input after the optional leading '+'. */
  function Body(s: string): string {
    s[SignLength(s)..]
  }

  /** The input passes both checks: it is neither "" nor "+", and only digits follow the optional '+'. */
  predicate WellFormed(s: string) {
    Body(s) != [] && AllDigits(Body(s))
  }

  /** The number a well-formed input spells. */
  function Number(s: string): nat
    requires WellFormed(s)
  {
    DecimalValue(Body(s))
  }

  /**
   * The reference meaning of the conversion: ill-formed input and numbers
   * beyond `unsigned long` are invalid, numbers beyond `unsigned int` are out
   * of range, all others are returned.
   */
  function Classify(s: string): (r: Parsed)
    ensures r == InvalidFormat <==> !WellFormed(s) || Strtoul(s).rangeError
    ensures r == OutOfRange <==> WellFormed(s) && !Strtoul(s).rangeError && Strtoul(s).value > UINT_MAX
    ensures r.Ok? ==> WellFormed(s) && r.n as nat == Strtoul(s).value
  {
    if !WellFormed(s) then InvalidFormat
    else
      StrtoulOnWellFormed(s);
      if Number(s) > ULONG_MAX then InvalidFormat
      else if Number(s) > UINT_MAX then OutOfRange
      else Ok(Number(s) as uint32)
  }

  /** What `strtoul(str, &endptr, 10)` reports: its return value, whether errno became ERANGE, and `endptr - str`. */
  datatype Conversion = Conversion(value: nat, rangeError: bool, end: nat)

  /** The length of the run of digits at the start of `s`. */
  function DigitRun(s: string): (n: nat)
    ensures n <= |s| && AllDigits(s[..n])
    ensures n < |s| ==> !IsDigit(s[n])
  {
    if s == [] || !IsDigit(s[0]) then 0
    else
      var n := 1 + DigitRun(s[1..]);
      assert s[..n] == [s[0]] + s[1..][..n - 1];
      n
  }

  /**
   * `strtoul` in base 10 on a string with no leading white space and no '-':
   * the optional '+', then the longest run of digits. Without digits nothing
   * is consumed; a value beyond `ULONG_MAX` saturates and sets ERANGE.
   */
  function Strtoul(s: string): (c: Conversion)
    ensures c.end <= |s| && c.value <= ULONG_MAX
    ensures c.rangeError ==> c.value == ULONG_MAX
  {
    var sign := SignLength(s);
    var run := DigitRun(s[sign..]);
    if run == 0 then Conversion(0, false, 0)
    else
      var v := DecimalValue(s[sign..][..run]);
      if v > ULONG_MAX then Conversion(ULONG_MAX, true, sign + run)
      else Conversion(v, false, sign + run)
  }

  /**
   * Once the digit check has passed, `strtoul` consumes the whole input, so
   * the `*endptr` test never fires, and ERANGE is set exactly when the number
   * exceeds `ULONG_MAX`.
   */
  lemma StrtoulOnWellFormed(s: string)
    requires WellFormed(s)
    ensures Strtoul(s).end == |s|
    ensures Strtoul(s).rangeError <==> Number(s) > ULONG_MAX
    ensures !Strtoul(s).rangeError ==> Strtoul(s).value == Number(s)
  {
    assert Body(s)[..|Body(s)|] == Body(s);
  }

  /**
   * The decimal numeral of any number, with or without a '+', converts back
   * to that number when it fits `unsigned int`, is out of range when it fits
   * only `unsigned long`, and is invalid beyond.
   */
  lemma ClassifyNumeral(n: nat)
    ensures Classify(Numeral(n)) == Classify("+" + Numeral(n))
    ensures Classify(Numeral(n)) ==
      if n > ULONG_MAX then InvalidFormat
      else if n > UINT_MAX then OutOfRange
      else Ok(n as uint32)
  {
    var s := Numeral(n);
    ValueOfNumeral(n);
    assert IsDigit(s[0]);
    assert Body(s) == s;
    assert WellFormed(s) && Number(s) == n;
    assert ("+" + s)[1..] == s;
    assert WellFormed("+" + s) && Number("+" + s) == n;
  }

  /** A '0' put after the optional '+' of a well-formed input is accepted and ignored. */
  lemma ClassifyLeadingZero(s: string)
    requires WellFormed(s)
    ensures Classify(s[..SignLength(s)] + "0" + Body(s)) == Classify(s)
  {
    ValueLeadingZero(Body(s));
    assert Body(s[..SignLength(s)] + "0" + Body(s)) == "0" + Body(s);
  }

  /** "", "+", a second sign, a minus sign or a trailing letter are invalid. */
  lemma ClassifyInvalidExamples()
    ensures Classify("") == InvalidFormat
    ensures Classify("+") == InvalidFormat
    ensures Classify("-5") == InvalidFormat
    ensures Classify("12a") == InvalidFormat
    ensures Classify("++1") == InvalidFormat
  {
    assert Body("") == [] && Body("+") == [];
    assert Body("-5")[0] == '-' && !IsDigit('-');
    assert Body("12a")[2] == 'a' && !IsDigit('a');
    assert Body("++1")[0] == '+' && !IsDigit('+');
  }

  /** Appending a digit to a numeral gives the numeral of ten times the number plus that digit. */
  lemma NumeralAppend(n: nat, d: nat, s: string)
    requires n >= 1 && d < 10 && Numeral(n) == s
    ensures Numeral(10 * n + d) == s + [DigitChar(d)]
  {
    assert (10 * n + d) / 10 == n && (10 * n + d) % 10 == d;
  }

  /** "42" gives 42 and "+7" gives 7. */
  lemma ClassifyNumberExamples()
    ensures Classify("42") == Ok(42)
    ensures Classify("+7") == Ok(7)
  {
    NumeralAppend(4, 2, "4");
    assert "4" + [DigitChar(2)] == "42";
    ClassifyNumeral(42);
    assert Numeral(7) == "7";
    ClassifyNumeral(7);
  }

  /** 2^32, one more than `UINT_MAX`, is out of range. */
  lemma ClassifyOutOfRangeExample()
    ensures Classify("4294967296") == OutOfRange
  {
    NumeralAppend(4, 2, "4");
    NumeralAppend(42, 9, "42");
    NumeralAppend(429, 4, "429");
    NumeralAppend(4294, 9, "4294");
    NumeralAppend(42949, 6, "42949");
    NumeralAppend(429496, 7, "429496");
    NumeralAppend(4294967, 2, "4294967");
    NumeralAppend(42949672, 9, "42949672");
    NumeralAppend(429496729, 6, "429496729");
    assert "429496729" + [DigitChar(6)] == "4294967296";
    ClassifyNumeral(4294967296);
  }
}

/**
 * Decimal integers as Go's strconv package reads and writes them:
 * `strconv.Atoi` (base 10, optional sign, 64-bit range) and `strconv.Itoa`.
 */
module Numbers {
  import opened Results

  const Int64Min: int := -0x8000_0000_0000_0000
  const Int64Max: int := 0x7FFF_FFFF_FFFF_FFFF
  const Uint64Max: int := 0xFFFF_FFFF_FFFF_FFFF

  predicate InInt64(n: int) { Int64Min <= n <= Int64Max }

  /** Two's-complement wrap-around of Go's int64 arithmetic: the one 64-bit value congruent to x. */
  function WrapInt64(x: int): (r: int)
    ensures InInt64(r)
    ensures (x - r) % 0x1_0000_0000_0000_0000 == 0
    ensures InInt64(x) ==> r == x
  {
    (x - Int64Min) % 0x1_0000_0000_0000_0000 + Int64Min
  }

  predicate IsDigit(c: char) { '0' <= c <= '9' }

  predicate AllDigits(s: string) { forall i :: 0 <= i < |s| ==> IsDigit(s[i]) }

  function DigitValue(c: char): (d: nat)
    requires IsDigit(c)
    ensures d < 10
  {
    (c as int) - ('0' as int)
  }

  function DigitChar(d: nat): (c: char)
    requires d < 10
    ensures IsDigit(c) && DigitValue(c) == d
  {
    (('0' as int) + d) as char
  }

  /** Value of a run of decimal digits, most significant digit first. */
  function DigitsValue(s: string): nat
    requires AllDigits(s)
  {
    if s == [] then 0 else 10 * DigitsValue(s[..|s| - 1]) + DigitValue(s[|s| - 1])
  }

  /** Length of the run of decimal digits that starts s. */
  function DigitRun(s: string): (k: nat)
    ensures k <= |s| && AllDigits(s[..k])
    ensures k < |s| ==> !IsDigit(s[k])
  {
    if s == [] || !IsDigit(s[0]) then 0
    else
      var k := 1 + DigitRun(s[1..]);
      assert s[..k] == [s[0]] + s[1..][..k - 1];
      k
  }

  function Pow10(n: nat): (p: nat)
    ensures p > 0
  {
    if n == 0 then 1 else 10 * Pow10(n - 1)
  }

  /** n decimal digits stay below 10^n. */
  lemma {:induction false} DigitsBelow(d: string, n: nat)
    requires AllDigits(d) && |d| <= n
    ensures DigitsValue(d) < Pow10(n)
  {
    if d != [] {
      DigitsBelow(d[..|d| - 1], n - 1);
    }
  }

  /** The two ways strconv reports a failed conversion. */
  datatype NumError = ErrSyntax | ErrRange

  /** The text strconv.Atoi accepts: an optional sign followed by at least one decimal digit. */
  predicate IsDecimal(s: string)
  {
    var body := if |s| > 0 && (s[0] == '+' || s[0] == '-') then s[1..] else s;
    |body| > 0 && AllDigits(body)
  }

  /**
   * `strconv.Atoi`. After an optional sign the digits are read one by one:
   * a character that is not a digit is a syntax error, unless the digits
   * before it already exceed the unsigned 64-bit range, which ParseUint
   * reports as a range error first. A complete run of digits is then
   * checked against the signed 64-bit range.
   */
  function Atoi(s: string): (r: Result<int, NumError>)
    ensures r.Ok? ==> IsDecimal(s) && InInt64(r.value)
    ensures !IsDecimal(s) ==> r.Err?
    ensures r.Ok? && |s| > 0 && s[0] == '-' ==> r.value <= 0
    ensures r.Ok? && |s| > 0 && s[0] != '-' ==> r.value >= 0
  {
    if s == [] then Err(ErrSyntax)
    else
      var negative := s[0] == '-';
      var body := if s[0] == '+' || s[0] == '-' then s[1..] else s;
      if body == [] then Err(ErrSyntax)
      else if !AllDigits(body) then
        if DigitsValue(body[..DigitRun(body)]) > Uint64Max then Err(ErrRange) else Err(ErrSyntax)
      else
        var v: int := if negative then 0 - DigitsValue(body) as int else DigitsValue(body);
        if InInt64(v) then Ok(v) else Err(ErrRange)
  }

  /** Plain digits in the signed range read as their value. */
  lemma AtoiDigits(s: string)
    requires s != [] && AllDigits(s) && DigitsValue(s) <= Int64Max
    ensures Atoi(s) == Ok(DigitsValue(s))
  {
    assert IsDigit(s[0]);
  }

  /** Text of at most 20 characters that is not decimal is always a syntax error. */
  lemma ShortTextSyntaxError(s: string)
    requires !IsDecimal(s) && |s| <= 20
    ensures Atoi(s) == Err(ErrSyntax)
  {
    if s != [] {
      var body := if s[0] == '+' || s[0] == '-' then s[1..] else s;
      if body != [] && !AllDigits(body) {
        DigitsBelow(body[..DigitRun(body)], 19);
        Pow10Values();
      }
    }
  }

  lemma Pow10Values()
    ensures Pow10(19) == 10_000_000_000_000_000_000
    ensures Pow10(20) == 100_000_000_000_000_000_000
  {
    assert Pow10(5) == 100_000;
    assert Pow10(10) == 10_000_000_000;
    assert Pow10(15) == 1_000_000_000_000_000;
  }

  /** More than n digits without a leading zero reach 10^n. */
  lemma {:induction false} DigitsAtLeast(d: string, n: nat)
    requires AllDigits(d) && |d| > n && d[0] != '0'
    ensures DigitsValue(d) >= Pow10(n)
  {
    if |d| > 1 {
      DigitsAtLeast(d[..|d| - 1], if n == 0 then 0 else n - 1);
    }
  }

  lemma {:induction false} DigitRunStops(d: string, tail: string)
    requires AllDigits(d) && (tail == [] || !IsDigit(tail[0]))
    ensures DigitRun(d + tail) == |d|
  {
    if d != [] {
      assert (d + tail)[1..] == d[1..] + tail;
      DigitRunStops(d[1..], tail);
    }
  }

  /**
   * More than 20 digits exceed the unsigned 64-bit range, so a bad character
   * after them is reported as a range error, not a syntax error.
   */
  lemma OverflowBeforeSyntax(d: string, c: char, rest: string)
    requires AllDigits(d) && |d| > 20 && d[0] != '0' && !IsDigit(c)
    ensures Atoi(d + [c] + rest) == Err(ErrRange)
  {
    var s := d + [c] + rest;
    assert s == d + ([c] + rest);
    DigitRunStops(d, [c] + rest);
    assert s[..|d|] == d;
    assert !AllDigits(s) by { assert !IsDigit(s[|d|]); }
    DigitsAtLeast(d, 20);
    Pow10Values();
  }

  /** Decimal digits of a natural number, without leading zeros. */
  function NatDigits(n: nat): (s: string)
    ensures |s| > 0 && AllDigits(s)
    ensures |s| > 1 ==> s[0] != '0'
    decreases n
  {
    if n < 10 then [DigitChar(n)] else NatDigits(n / 10) + [DigitChar(n % 10)]
  }

  /** `strconv.Itoa`: a minus sign for negative numbers, then the digits of the magnitude. */
  function Itoa(n: int): string
  {
    if n < 0 then "-" + NatDigits(-n) else NatDigits(n)
  }

  lemma {:induction false} NatDigitsValue(n: nat)
    ensures DigitsValue(NatDigits(n)) == n
    decreases n
  {
    if n >= 10 {
      NatDigitsValue(n / 10);
      var s := NatDigits(n);
      assert s[..|s| - 1] == NatDigits(n / 10);
    }
  }

  /** Reading back what Itoa wrote gives the same number, for every 64-bit value. */
  lemma AtoiItoa(n: int)
    requires InInt64(n)
    ensures Atoi(Itoa(n)) == Ok(n)
  {
    var s := Itoa(n);
    if n < 0 {
      NatDigitsValue(-n);
      assert s[1..] == NatDigits(-n);
      assert s[0] == '-' && AllDigits(s[1..]) && |s[1..]| > 0;
    } else {
      NatDigitsValue(n);
      assert s[0] != '+' && s[0] != '-' by { assert IsDigit(s[0]); }
    }
  }

  /** Itoa never writes a leading plus sign, a space or an empty string. */
  lemma ItoaShape(n: int)
    ensures |Itoa(n)| > 0
    ensures n >= 0 ==> AllDigits(Itoa(n))
    ensures n < 0 ==> Itoa(n)[0] == '-' && AllDigits(Itoa(n)[1..])
  {
    if n < 0 {
      assert Itoa(n)[1..] == NatDigits(-n);
    }
  }
}

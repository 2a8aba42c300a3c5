/**
 * Decimal text of integers, as the checkout handler uses it to turn a price in
 * whole dollars into cents: it writes the price in decimal (`str`), appends
 * two zeros and reads the text back as an integer (`int`).
 */
module Decimal {
  import opened Wrappers

  predicate IsDigit(c: char) {
    '0' <= c <= '9'
  }

  predicate AllDigits(s: string) {
    forall k :: 0 <= k < |s| ==> IsDigit(s[k])
  }

  function DigitValue(c: char): nat
    requires IsDigit(c)
  {
    c as int - '0' as int
  }

  function DigitChar(d: nat): (c: char)
    requires d < 10
    ensures IsDigit(c) && DigitValue(c) == d
  {
    ('0' as int + d) as char
  }

  /** The decimal digits of a natural number, most significant first, without leading zeros. */
  function Digits(n: nat): (s: string)
    ensures |s| >= 1 && AllDigits(s)
    ensures s[0] == '0' <==> n == 0
    decreases n
  {
    if n < 10 then [DigitChar(n)] else Digits(n / 10) + [DigitChar(n % 10)]
  }

  /** The number a non-empty run of decimal digits denotes; leading zeros are allowed. */
  function DigitsValue(s: string): nat
    requires AllDigits(s)
  {
    if s == [] then 0 else DigitsValue(s[..|s| - 1]) * 10 + DigitValue(s[|s| - 1])
  }

  /** Python's `str` of an integer: a minus sign before the digits of a negative number. */
  function Show(n: int): (s: string)
    ensures |s| >= 1
    ensures s[0] == '-' <==> n < 0
  {
    if n < 0 then "-" + Digits(-n) else Digits(n)
  }

  /**
   * Python's `int` of a string, on the text `str` of an integer can produce:
   * an optional sign followed by at least one ASCII decimal digit. Any other
   * text gives None.
   */
  function Parse(s: string): (r: Option<int>)
    ensures r.Some? ==> |s| >= 1
    ensures r.Some? && r.value < 0 ==> s[0] == '-'
  {
    if |s| >= 1 && (s[0] == '-' || s[0] == '+') then
      if |s| >= 2 && AllDigits(s[1..]) then
        var v: int := DigitsValue(s[1..]);
        Some(if s[0] == '-' then -v else v)
      else
        None
    else if |s| >= 1 && AllDigits(s) then
      Some(DigitsValue(s))
    else
      None
  }

  /**
   * The text `Parse` accepts: one or more digits, or a sign followed by one
   * or more digits.
   */
  lemma ParseAccepts(s: string)
    ensures Parse(s).Some? <==>
      || (|s| >= 1 && AllDigits(s))
      || (|s| >= 2 && (s[0] == '-' || s[0] == '+') && AllDigits(s[1..]))
  {
  }

  lemma {:induction false} DigitsValueOfDigits(n: nat)
    ensures DigitsValue(Digits(n)) == n
    decreases n
  {
    if n >= 10 {
      var s := Digits(n / 10);
      assert Digits(n)[..|Digits(n)| - 1] == s;
      DigitsValueOfDigits(n / 10);
    }
  }

  /** Appending a zero digit multiplies the value by ten. */
  lemma AppendZero(s: string)
    requires AllDigits(s)
    ensures AllDigits(s + "0") && DigitsValue(s + "0") == DigitsValue(s) * 10
  {
  }

  /** Reading back what `Show` writes gives the number again. */
  lemma ParseShow(n: int)
    ensures Parse(Show(n)) == Some(n)
  {
    DigitsValueOfDigits(if n < 0 then -n else n);
    if n < 0 {
      assert Show(n)[1..] == Digits(-n);
    }
  }

  /** Appending two zero digits multiplies the value by a hundred. */
  lemma AppendZeros(s: string)
    requires AllDigits(s)
    ensures AllDigits(s + "00") && DigitsValue(s + "00") == DigitsValue(s) * 100
  {
    AppendZero(s);
    AppendZero(s + "0");
    assert s + "0" + "0" == s + "00";
  }

  /** `int(str(n) + "00")` is `n * 100` for every integer `n`, negative ones included. */
  lemma ShowHundredfold(n: int)
    ensures Parse(Show(n) + "00") == Some(n * 100)
  {
    var m: nat := if n < 0 then -n else n;
    var d := Digits(m);
    DigitsValueOfDigits(m);
    AppendZeros(d);
    if n < 0 {
      assert Show(n) + "00" == "-" + (d + "00");
      assert (Show(n) + "00")[1..] == d + "00";
    } else {
      assert Show(n) + "00" == d + "00";
    }
  }

  /** The minor-unit amount the checkout handler sends: the price text with "00" appended, read back. */
  function MinorUnits(price: int): (amount: int)
    ensures amount == price * 100
  {
    ShowHundredfold(price);
    Parse(Show(price) + "00").value
  }
}

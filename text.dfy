/** Decimal rendering of integers, as C#'s and Python's string conversions print them. */
module Text {
  /** An ASCII decimal digit. */
  predicate IsDigit(c: char) { '0' <= c <= '9' }

  function DigitChar(d: nat): (c: char)
    requires d < 10
    ensures '0' <= c <= '9'
  {
    "0123456789"[d]
  }

  /** Decimal digits of n without leading zeros ("0" for zero). */
  function Dec(n: nat): (s: string)
    ensures |s| > 0
    ensures forall i :: 0 <= i < |s| ==> '0' <= s[i] <= '9'
    decreases n
  {
    if n < 10 then [DigitChar(n)] else Dec(n / 10) + [DigitChar(n % 10)]
  }

  /** Value of a string of decimal digits. */
  function DigitsValue(s: string): nat
    requires forall i :: 0 <= i < |s| ==> '0' <= s[i] <= '9'
  {
    if s == [] then 0 else DigitsValue(s[..|s| - 1]) * 10 + (s[|s| - 1] as int - '0' as int)
  }

  lemma {:induction false} DigitsValueOfDec(n: nat)
    ensures DigitsValue(Dec(n)) == n
    decreases n
  {
    if n >= 10 {
      var s := Dec(n);
      assert s[..|s| - 1] == Dec(n / 10);
      DigitsValueOfDec(n / 10);
    }
  }

  /** Signed decimal rendering, as Int32.ToString prints it. */
  function IntToString(i: int): (s: string)
    ensures |s| > 0
    ensures forall k :: 0 <= k < |s| ==> s[k] == '-' || '0' <= s[k] <= '9'
    ensures s[0] == '-' <==> i < 0
  {
    if i < 0 then "-" + Dec(-i) else Dec(i)
  }

  /** Different integers print differently. */
  lemma {:induction false} IntToStringInjective(i: int, j: int)
    ensures IntToString(i) == IntToString(j) <==> i == j
  {
    if IntToString(i) == IntToString(j) {
      SameDec(i, j);
    }
  }

  lemma {:induction false} SameDec(i: int, j: int)
    requires IntToString(i) == IntToString(j)
    ensures i == j
  {
    var si, sj := IntToString(i), IntToString(j);
    assert i < 0 <==> j < 0 by { assert si[0] == sj[0]; }
    var a: nat, b: nat := if i < 0 then -i else i, if j < 0 then -j else j;
    assert Dec(a) == Dec(b) by {
      if i < 0 {
        assert Dec(a) == si[1..] && Dec(b) == sj[1..];
      }
    }
    DigitsValueOfDec(a);
    DigitsValueOfDec(b);
  }
}

/**
 * Decimal rendering of unsigned integers, as `std::to_string(size_t)` and
 * `std::ostream << size_t` produce it (no sign, no padding, no leading zeros),
 * together with the reader that undoes it.
 */
module Decimal {
  import opened Wrappers

  predicate IsDigit(c: char) {
    '0' <= c <= '9'
  }

  predicate AllDigits(s: string) {
    forall i :: 0 <= i < |s| ==> IsDigit(s[i])
  }

  function DigitChar(d: nat): (c: char)
    requires d < 10
    ensures IsDigit(c)
  {
    ('0' as int + d) as char
  }

  function DigitValue(c: char): (d: nat)
    requires IsDigit(c)
    ensures d < 10 && DigitChar(d) == c
  {
    c as int - '0' as int
  }

  /** The decimal text of `n`: at least one digit, only digits, and no leading zero. */
  function Render(n: nat): (s: string)
    ensures 1 <= |s|
    ensures AllDigits(s)
    ensures s[0] == '0' ==> n == 0
    decreases n
  {
    if n < 10 then [DigitChar(n)] else Render(n / 10) + [DigitChar(n % 10)]
  }

  /** The number a string of digits denotes (most significant digit first). */
  function Value(s: string): nat
    requires AllDigits(s)
  {
    if s == [] then 0 else Value(s[..|s| - 1]) * 10 + DigitValue(s[|s| - 1])
  }

  /** Reading back what `Render` wrote gives the number again. */
  lemma {:induction false} ValueOfRender(n: nat)
    ensures Value(Render(n)) == n
    decreases n
  {
    var s := Render(n);
    if n >= 10 {
      ValueOfRender(n / 10);
      assert s[..|s| - 1] == Render(n / 10);
    }
  }

  /** Two numbers with the same decimal text are equal. */
  lemma RenderInjective(m: nat, n: nat)
    requires Render(m) == Render(n)
    ensures m == n
  {
    ValueOfRender(m);
    ValueOfRender(n);
  }

  /** The length of the run of digits at the front of `s`. */
  function DigitRun(s: string): (k: nat)
    ensures k <= |s|
    ensures AllDigits(s[..k])
    ensures k < |s| ==> !IsDigit(s[k])
  {
    if s == [] || !IsDigit(s[0]) then 0
    else
      var k := 1 + DigitRun(s[1..]);
      assert s[..k] == [s[0]] + s[1..][..k - 1];
      k
  }

  /** Reads the maximal run of digits at the front of `s` as a number and
      returns it with the text that follows; `None` when `s` does not start
      with a digit. */
  function ReadNat(s: string): Option<(nat, string)> {
    var k := DigitRun(s);
    if k == 0 then None else Some((Value(s[..k]), s[k..]))
  }

  /** `Render` followed by anything that does not continue the digit run is
      read back exactly. */
  lemma ReadNatOfRender(n: nat, rest: string)
    requires rest == [] || !IsDigit(rest[0])
    ensures ReadNat(Render(n) + rest) == Some((n, rest))
  {
    var d := Render(n);
    var s := d + rest;
    var k := DigitRun(s);
    assert forall i :: 0 <= i < |d| ==> s[i] == d[i];
    assert |d| < |s| ==> s[|d|] == rest[0];
    assert k == |d|;
    assert s[..k] == d;
    assert s[k..] == rest;
    ValueOfRender(n);
  }
}

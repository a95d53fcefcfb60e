/** Decimal rendering of naturals, plain and zero-padded. */
module Decimal {

  function Digit(d: nat): char
    requires d < 10
  {
    '0' + d as char
  }

  predicate IsDigit(c: char) {
    '0' <= c <= '9'
  }

  function DigitValue(c: char): nat
    requires IsDigit(c)
  {
    c as int - '0' as int
  }

  function Render(n: nat): (s: string)
    ensures s != [] && forall i :: 0 <= i < |s| ==> IsDigit(s[i])
  {
    if n < 10 then [Digit(n)] else Render(n / 10) + [Digit(n % 10)]
  }

  function Zeros(n: nat): (s: string)
    ensures |s| == n && forall i :: 0 <= i < |s| ==> s[i] == '0'
  {
    seq(n, _ => '0')
  }

  /** Go's %0*d for a non-negative number. */
  function Padded(n: nat, width: nat): (s: string)
    ensures s != [] && forall i :: 0 <= i < |s| ==> IsDigit(s[i])
  {
    var digits := Render(n);
    if |digits| < width then Zeros(width - |digits|) + digits else digits
  }

  /** The number a digit string denotes; leading zeros do not matter. */
  function Value(s: string): nat
    requires forall i :: 0 <= i < |s| ==> IsDigit(s[i])
  {
    if s == [] then 0 else Value(s[..|s| - 1]) * 10 + DigitValue(s[|s| - 1])
  }

  lemma {:induction false} ValueOfRender(n: nat)
    ensures Value(Render(n)) == n
  {
    if n < 10 {
      assert [Digit(n)][..0] == [];
    } else {
      ValueOfRender(n / 10);
      var s := Render(n);
      assert s[..|s| - 1] == Render(n / 10);
    }
  }

  lemma {:induction false} ValueIgnoresZeros(k: nat, s: string)
    requires forall i :: 0 <= i < |s| ==> IsDigit(s[i])
    ensures Value(Zeros(k) + s) == Value(s)
    decreases k + |s|
  {
    if s == [] {
      if k > 0 {
        assert (Zeros(k) + s)[..k - 1] == Zeros(k - 1) + [];
        ValueIgnoresZeros(k - 1, []);
      }
    } else {
      var n := |s| - 1;
      assert (Zeros(k) + s)[..k + n] == Zeros(k) + s[..n];
      ValueIgnoresZeros(k, s[..n]);
    }
  }

  /** Reading a padded number back gives the number, whatever the width. */
  lemma PaddedRoundTrip(n: nat, width: nat)
    ensures Value(Padded(n, width)) == n
  {
    ValueOfRender(n);
    if |Render(n)| < width {
      ValueIgnoresZeros(width - |Render(n)|, Render(n));
    }
  }
}

/** Decimal digits of natural numbers, the highest first, without leading zeros. */
module Decimal {

  function Digits(n: nat): (s: seq<nat>)
    ensures |s| > 0 && forall i :: 0 <= i < |s| ==> s[i] < 10
  {
    if n < 10 then [n] else Digits(n / 10) + [n % 10]
  }

  function Pow10(k: nat): (p: nat)
    ensures p > 0
  {
    if k == 0 then 1 else 10 * Pow10(k - 1)
  }

  lemma {:induction false} Pow10Monotone(j: nat, k: nat)
    requires j <= k
    ensures Pow10(j) <= Pow10(k)
  {
    if j < k {
      Pow10Monotone(j, k - 1);
    }
  }

  lemma {:induction false} DigitsBound(n: nat)
    ensures n < Pow10(|Digits(n)|) && (n >= 10 ==> Pow10(|Digits(n)| - 1) <= n)
  {
    if n >= 10 {
      DigitsBound(n / 10);
      assert Pow10(|Digits(n)|) == 10 * Pow10(|Digits(n / 10)|);
      assert n / 10 < 10 ==> Digits(n / 10) == [n / 10] && Pow10(1) == 10;
    }
  }

  lemma {:induction false} DigitsOneToOne(m: nat, n: nat)
    requires Digits(m) == Digits(n)
    ensures m == n
  {
    if m >= 10 && n >= 10 {
      LastDigit(Digits(m / 10), m % 10, Digits(n / 10), n % 10);
      DigitsOneToOne(m / 10, n / 10);
    }
  }

  lemma {:induction false} LastDigit(s: seq<nat>, x: nat, t: seq<nat>, y: nat)
    requires s + [x] == t + [y]
    ensures s == t && x == y
  {
    assert (s + [x])[..|s|] == s && (t + [y])[..|t|] == t;
    assert (s + [x])[|s|] == x && (t + [y])[|t|] == y;
  }

  /** The number with the digits of `low` behind those of `high`. */
  function Behind(high: nat, low: nat): nat {
    high * Pow10(|Digits(low)|) + low
  }

  lemma {:induction false} BehindUnfold(high: nat, low: nat)
    ensures low < 10 ==> Behind(high, low) == 10 * high + low
    ensures low >= 10 ==> Behind(high, low) == 10 * Behind(high, low / 10) + low % 10
  {
    if low < 10 {
      assert Pow10(1) == 10;
    } else {
      var p := Pow10(|Digits(low / 10)|);
      assert Pow10(|Digits(low)|) == 10 * p;
      assert high * (10 * p) == 10 * (high * p);
    }
  }

  lemma {:induction false} DigitsBehind(high: nat, low: nat)
    requires high > 0
    ensures Digits(Behind(high, low)) == Digits(high) + Digits(low) && Behind(high, low) > 0
  {
    BehindUnfold(high, low);
    if low >= 10 {
      DigitsBehind(high, low / 10);
      assert Digits(high) + (Digits(low / 10) + [low % 10]) == (Digits(high) + Digits(low / 10)) + [low % 10];
    }
  }

  /** If the digits of `m` end in those of `low`, the ones before are digits of a number. */
  lemma {:induction false} DigitsSplit(m: nat, z: seq<nat>, low: nat) returns (high: nat)
    requires Digits(m) == z + Digits(low) && z != []
    ensures high > 0 && z == Digits(high) && m == Behind(high, low)
  {
    high := m / 10;
    BehindUnfold(high, low);
    if low < 10 {
      LastDigit(Digits(m / 10), m % 10, z, low);
    } else {
      assert z + (Digits(low / 10) + [low % 10]) == (z + Digits(low / 10)) + [low % 10];
      LastDigit(Digits(m / 10), m % 10, z + Digits(low / 10), low % 10);
      high := DigitsSplit(m / 10, z, low / 10);
      BehindUnfold(high, low);
    }
  }

  /** The number of the first `k` digits. */
  function Leading(n: nat, k: nat): nat
    requires k > 0
  {
    if |Digits(n)| <= k then n else Leading(n / 10, k)
  }

  lemma {:induction false} LeadingDigits(n: nat, k: nat)
    requires k > 0
    ensures Digits(Leading(n, k)) == if |Digits(n)| <= k then Digits(n) else Digits(n)[..k]
  {
    if |Digits(n)| > k {
      LeadingDigits(n / 10, k);
      assert Digits(n) == Digits(n / 10) + [n % 10];
      assert Digits(n)[..k] == Digits(n / 10)[..k];
    }
  }

  /** The number that a sequence of digits stands for. */
  function Value(s: seq<nat>): nat {
    if s == [] then 0 else 10 * Value(s[..|s| - 1]) + s[|s| - 1]
  }

  lemma {:induction false} DigitsValue(n: nat)
    ensures Value(Digits(n)) == n && (n > 0 ==> Digits(n)[0] != 0)
  {
    var s := Digits(n);
    if n < 10 {
      assert s[..0] == [] && Value([]) == 0;
    } else {
      DigitsValue(n / 10);
      assert s[..|s| - 1] == Digits(n / 10);
    }
  }
}

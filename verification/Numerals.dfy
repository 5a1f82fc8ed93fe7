/** Decimal numerals: distinct for distinct numbers, and short. */
module Numerals {
  import opened Common

  function Decimal(n: nat): (numeral: string)
    ensures numeral != ""
  {
    (if n < 10 then "" else Decimal(n / 10)) + ['0' + (n % 10) as char]
  }

  function PowerOfTen(d: nat): nat {
    if d == 0 then 1 else 10 * PowerOfTen(d - 1)
  }

  /** Twenty digits hold any 64-bit key. */
  lemma TwentyDigits()
    ensures 0x7FFF_FFFF_FFFF_FFFF + 1 < PowerOfTen(20)
  {
    assert PowerOfTen(4) == 10 * (10 * (10 * (10 * PowerOfTen(0)))) == 10_000;
    assert PowerOfTen(8) == 10 * (10 * (10 * (10 * PowerOfTen(4)))) == 100_000_000;
    assert PowerOfTen(12) == 10 * (10 * (10 * (10 * PowerOfTen(8)))) == 1_000_000_000_000;
    assert PowerOfTen(16) == 10 * (10 * (10 * (10 * PowerOfTen(12)))) == 10_000_000_000_000_000;
    assert PowerOfTen(20) == 10 * (10 * (10 * (10 * PowerOfTen(16))));
  }

  lemma {:induction false} DecimalTrimmed(n: nat)
    ensures Trimmed(Decimal(n))
  {
    if n >= 10 {
      DecimalTrimmed(n / 10);
    }
  }

  /** Below the d-th power of ten, d digits do. */
  lemma {:induction false} DecimalShort(n: nat, d: nat)
    requires d > 0 && n < PowerOfTen(d)
    ensures |Decimal(n)| <= d
    decreases d
  {
    if n >= 10 {
      assert n / 10 < PowerOfTen(d - 1);
      DecimalShort(n / 10, d - 1);
    }
  }

  lemma {:induction false} DecimalInjective(m: nat, n: nat)
    requires Decimal(m) == Decimal(n)
    ensures m == n
    decreases m + n
  {
    var a, b := Decimal(m), Decimal(n);
    assert a[|a| - 1] == '0' + (m % 10) as char && b[|b| - 1] == '0' + (n % 10) as char;
    assert m % 10 == n % 10;
    assert a[..|a| - 1] == if m < 10 then "" else Decimal(m / 10);
    assert b[..|b| - 1] == if n < 10 then "" else Decimal(n / 10);
    if m >= 10 && n >= 10 {
      DecimalInjective(m / 10, n / 10);
    }
  }

  ghost function Numerals(n: nat): set<string> {
    set k: nat | k < n :: Decimal(k)
  }

  lemma {:induction false} NumeralsCount(n: nat)
    ensures |Numerals(n)| == n
  {
    if n > 0 {
      NumeralsCount(n - 1);
      assert Numerals(n) == Numerals(n - 1) + {Decimal(n - 1)};
      forall k: nat | k < n - 1
        ensures Decimal(k) != Decimal(n - 1)
      {
        if Decimal(k) == Decimal(n - 1) {
          DecimalInjective(k, n - 1);
        }
      }
    }
  }

  lemma SubsetCount<T>(a: set<T>, b: set<T>)
    requires a <= b
    ensures |a| <= |b|
  {
    assert b == a + (b - a);
  }

  /** Among one numeral more than there are texts taken, one is free. */
  lemma FreeNumeral(taken: set<string>) returns (n: nat)
    ensures n <= |taken| && Decimal(n) !in taken
  {
    if forall k: nat | k <= |taken| :: Decimal(k) in taken {
      NumeralsCount(|taken| + 1);
      SubsetCount(Numerals(|taken| + 1), taken);
      assert false;
    }
    n :| n <= |taken| && Decimal(n) !in taken;
  }
}

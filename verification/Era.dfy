/** The validity period given to a benchmark transaction: half the next power of two. */
module Era {
  import opened Wrappers

  const MAX_U32: nat := 0xFFFF_FFFF

  type U32 = x: int | 0 <= x <= MAX_U32

  function Pow2(k: nat): (p: nat)
    ensures p > 0
  {
    if k == 0 then 1 else 2 * Pow2(k - 1)
  }

  predicate IsPow2(n: nat) { n == 1 || (n > 1 && n % 2 == 0 && IsPow2(n / 2)) }

  // The smallest exponent from k on whose power of two is not below c.
  function ExponentFrom(c: nat, k: nat): (e: nat)
    requires k > 0 ==> Pow2(k - 1) < c
    ensures Pow2(e) >= c && (e > 0 ==> Pow2(e - 1) < c)
    decreases c - Pow2(k)
  {
    if Pow2(k) >= c then k else ExponentFrom(c, k + 1)
  }

  // The smallest power of two that is not below c, if 32 bits can hold it.
  function CheckedNextPowerOfTwo(c: U32): Option<U32> {
    var p := Pow2(ExponentFrom(c, 0));
    if p <= MAX_U32 then Some(p) else None
  }

  function Period(blockHashCount: U32): nat {
    match CheckedNextPowerOfTwo(blockHashCount)
    case Some(p) => p / 2
    case None => 2
  }

  lemma {:induction false} Pow2IsPow2(k: nat)
    ensures IsPow2(Pow2(k))
  {
    if k > 0 {
      Pow2IsPow2(k - 1);
    }
  }

  lemma {:induction false} Pow2Monotone(j: nat, k: nat)
    requires j <= k
    ensures Pow2(j) <= Pow2(k)
  {
    if j < k {
      Pow2Monotone(j, k - 1);
    }
  }

  lemma {:induction false} IsPow2Exponent(n: nat) returns (k: nat)
    requires IsPow2(n)
    ensures Pow2(k) == n
  {
    if n == 1 {
      k := 0;
    } else {
      k := IsPow2Exponent(n / 2);
      k := k + 1;
    }
  }

  const TWO_31: nat := 0x8000_0000

  lemma {:induction false} Pow2Of31()
    ensures Pow2(31) == TWO_31
  {
    assert Pow2(8) == 0x100;
    assert Pow2(16) == 0x1_0000;
    assert Pow2(24) == 0x100_0000;
  }

  // Up to 2^31 the next power of two fits; past it, it does not.
  lemma {:induction false} NextPowerFits(c: U32)
    ensures CheckedNextPowerOfTwo(c).Some? <==> c <= 2147483648
  {
    var e := ExponentFrom(c, 0);
    Pow2Of31();
    if e <= 31 {
      Pow2Monotone(e, 31);
    } else {
      Pow2Monotone(31, e - 1);
    }
  }

  // For a count of two or more the period is a power of two below the count: up to 2^31 the largest
  // one, and 2 beyond.
  lemma {:induction false} PeriodBound(c: U32)
    requires c >= 2
    ensures IsPow2(Period(c)) && 1 <= Period(c) < c
    ensures c <= 2147483648 ==> c <= 2 * Period(c) && forall p: nat :: IsPow2(p) && p < c ==> p <= Period(c)
    ensures c > 2147483648 ==> Period(c) == 2
  {
    NextPowerFits(c);
    if c <= TWO_31 {
      var e := ExponentFrom(c, 0);
      assert e > 0 && Period(c) == Pow2(e - 1);
      Pow2IsPow2(e - 1);
      forall p: nat | IsPow2(p) && p < c ensures p <= Period(c) {
        var k := IsPow2Exponent(p);
        if k >= e {
          Pow2Monotone(e, k);
        } else {
          Pow2Monotone(k, e - 1);
        }
      }
    }
  }

  // The period is a power of two exactly when the count is at least two; below that it is zero.
  lemma {:induction false} PeriodZero(c: U32)
    ensures Period(c) == 0 <==> c < 2
    ensures IsPow2(Period(c)) <==> c >= 2
  {
    NextPowerFits(c);
    if c >= 2 {
      PeriodBound(c);
    } else {
      assert ExponentFrom(c, 0) == 0;
    }
  }

  // The runtime keeps 2400 block hashes, which gives 2048.
  lemma {:induction false} RuntimePeriod()
    ensures Period(2400) == 2048
  {
    assert Pow2(8) == 0x100;
    assert Pow2(11) == 2048 && Pow2(12) == 4096;
    var e := ExponentFrom(2400, 0);
    if e < 12 {
      Pow2Monotone(e, 11);
    } else {
      Pow2Monotone(12, e);
      if e > 12 {
        Pow2Monotone(12, e - 1);
      }
    }
  }

  // At the edges: the last count whose next power of two fits, the first that does not, and the largest.
  lemma {:induction false} PeriodAtEdges()
    ensures Period(2) == 1 && Period(3) == 2
    ensures Period(2147483648) == 1073741824 && Period(2147483649) == 2 && Period(4294967295) == 2
  {
    assert Pow2(1) == 2 && Pow2(2) == 4;
    Pow2Of31();
    ExponentIs(2, 1);
    ExponentIs(3, 2);
    ExponentIs(2147483648, 31);
    NextPowerFits(2147483649);
    NextPowerFits(4294967295);
  }

  lemma {:induction false} ExponentIs(c: nat, k: nat)
    requires k > 0 && Pow2(k - 1) < c <= Pow2(k)
    ensures ExponentFrom(c, 0) == k
  {
    var e := ExponentFrom(c, 0);
    if e < k {
      Pow2Monotone(e, k - 1);
    } else if e > k {
      Pow2Monotone(k, e - 1);
    }
  }
}

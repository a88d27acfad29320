/** The manifest's limit equations in exponents of two. */
module ManifestLimits {
  import opened Manifest
  import S = Sealing

  function Pow2(k: nat): (p: nat)
    ensures p > 0
  {
    if k == 0 then 1 else 2 * Pow2(k - 1)
  }

  lemma {:induction false} Pow2IsPower(k: nat)
    ensures IsPowerOfTwo(Pow2(k))
  {
    if k > 0 {
      Pow2IsPower(k - 1);
    }
  }

  lemma {:induction false} PowerIsPow2(n: nat) returns (k: nat)
    requires IsPowerOfTwo(n)
    ensures n == Pow2(k)
  {
    if n == 1 {
      k := 0;
    } else {
      var j := PowerIsPow2(n / 2);
      k := j + 1;
    }
  }

  lemma {:induction false} Pow2Grows(a: nat, b: nat)
    requires a < b
    ensures 2 * Pow2(a) <= Pow2(b)
  {
    if a < b - 1 {
      Pow2Grows(a, b - 1);
    }
  }

  lemma {:induction false} Pow2Times(a: nat, d: nat)
    ensures Pow2(a) * Pow2(d) == Pow2(a + d)
  {
    if d > 0 {
      Pow2Times(a, d - 1);
      assert Pow2(a) * (2 * Pow2(d - 1)) == 2 * (Pow2(a) * Pow2(d - 1));
    }
  }

  lemma Bounds()
    ensures Pow2(5) == 32 && Pow2(6) == 64 && Pow2(15) == 32_768 && Pow2(20) == 1_048_576 && Pow2(30) == 1_073_741_824
  {
    assert Pow2(5) == 32 by { assert Pow2(2) == 4; assert Pow2(3) == 8; }
    Pow2Times(5, 1);
    Pow2Times(5, 5);
    Pow2Times(10, 5);
    Pow2Times(15, 5);
    Pow2Times(15, 15);
  }

  /** Exponents within fixed bounds compare as the numbers do. */
  lemma Between(a: nat, low: nat, high: nat)
    ensures low <= a <= high <==> Pow2(low) <= Pow2(a) <= Pow2(high)
  {
    if a < low {
      Pow2Grows(a, low);
    } else if low < a {
      Pow2Grows(low, a);
    }
    if high < a {
      Pow2Grows(high, a);
    } else if a < high {
      Pow2Grows(a, high);
    }
  }

  /** A chunk is 2^a bytes, the object 2^b, and it has 2^(b - a) chunks. */
  predicate Exponents(paddedSize: nat, chunkSize: nat, count: nat, a: nat, b: nat) {
    && 5 <= a <= 20 && 6 <= b <= 30 && a <= b <= a + 15
    && chunkSize == Pow2(a) && paddedSize == Pow2(b) && count == Pow2(b - a)
  }

  /** The limit equations hold exactly for chunks of 2^5 to 2^20 bytes in objects of 2^6 to 2^30 bytes with
      1 to 2^15 chunks. */
  lemma LimitsExactly(paddedSize: nat, chunkSize: nat, count: nat)
    ensures LimitsHold(paddedSize, chunkSize, count) <==>
              exists a: nat, b: nat :: Exponents(paddedSize, chunkSize, count, a, b)
  {
    hide IsPowerOfTwo;
    if LimitsHold(paddedSize, chunkSize, count) {
      var a := PowerIsPow2(chunkSize);
      var b := PowerIsPow2(paddedSize);
      LimitsGiveExponents(paddedSize, chunkSize, count, a, b);
    }
    forall a: nat, b: nat | Exponents(paddedSize, chunkSize, count, a, b)
      ensures LimitsHold(paddedSize, chunkSize, count)
    {
      ExponentsGiveLimits(paddedSize, chunkSize, count, a, b);
    }
  }

  lemma LimitsGiveExponents(paddedSize: nat, chunkSize: nat, count: nat, a: nat, b: nat)
    requires LimitsHold(paddedSize, chunkSize, count) && chunkSize == Pow2(a) && paddedSize == Pow2(b)
    ensures Exponents(paddedSize, chunkSize, count, a, b)
  {
    hide IsPowerOfTwo, Pow2;
    Bounds();
    Between(a, 5, 20);
    Between(b, 6, 30);
    if b < a {
      Pow2Grows(b, a);
      Smaller(paddedSize, chunkSize);
    }
    Pow2Times(a, b - a);
    S.MultipleHasNoRemainder(chunkSize, Pow2(b - a));
    if b - a > 15 {
      Pow2Grows(15, b - a);
    }
  }

  lemma Smaller(p: nat, c: nat)
    requires p < c
    ensures p / c == 0
  {
  }

  lemma ExponentsGiveLimits(paddedSize: nat, chunkSize: nat, count: nat, a: nat, b: nat)
    requires Exponents(paddedSize, chunkSize, count, a, b)
    ensures LimitsHold(paddedSize, chunkSize, count)
  {
    hide IsPowerOfTwo, Pow2;
    Bounds();
    Between(a, 5, 20);
    Between(b, 6, 30);
    Pow2IsPower(a);
    Pow2IsPower(b);
    Pow2Times(a, b - a);
    S.MultipleHasNoRemainder(chunkSize, count);
    if b - a < 15 {
      Pow2Grows(b - a, 15);
    }
  }
}

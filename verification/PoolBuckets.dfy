/** Size buckets of the memory pool: powers of two, at least 4 KiB, in 64-bit arithmetic. */
module PoolBuckets {

  const MIN_BUCKET := 4096
  const HALF_WORD := 0x8000_0000_0000_0000      // 2^63
  const WORD := 0x1_0000_0000_0000_0000         // 2^64

  function Pow2(k: nat): (p: nat)
    ensures p > 0
  {
    if k == 0 then 1 else 2 * Pow2(k - 1)
  }

  /** `bucket <<= 1` on a 64-bit word. */
  function Shl(bucket: nat): nat { bucket * 2 % WORD }

  /** The bucket a size is served from, for the sizes the doubling loop terminates on. */
  function BucketOf(bytes: nat): nat { Grow(MIN_BUCKET, bytes) }

  function Grow(bucket: nat, bytes: nat): nat
    requires bucket > 0
    decreases bytes - bucket
  {
    if bytes <= bucket then bucket else Grow(2 * bucket, bytes)
  }

  /** The loop's variable after `k` shifts. */
  function Shifted(k: nat): nat {
    if k == 0 then MIN_BUCKET else Shl(Shifted(k - 1))
  }

  lemma {:induction false} Pow2Mono(j: nat, k: nat)
    requires j <= k
    ensures 0 < Pow2(j) <= Pow2(k) && (j < k ==> 2 * Pow2(j) <= Pow2(k))
    decreases k - j
  {
    if j < k {
      Pow2Mono(j + 1, k);
    }
  }

  lemma Pow2Constants()
    ensures Pow2(12) == MIN_BUCKET && Pow2(63) == HALF_WORD && Pow2(64) == WORD
  {
    assert Pow2(12) == 0x1000;
    assert Pow2(24) == 0x100_0000;
    assert Pow2(36) == 0x10_0000_0000;
    assert Pow2(48) == 0x1_0000_0000_0000;
    assert Pow2(60) == 0x1000_0000_0000_0000;
  }

  /** `b` is the least power of two that is at least `bytes` and at least the minimum. */
  ghost predicate IsLeastBucket(bytes: nat, b: nat) {
    && (exists k :: k >= 12 && b == Pow2(k))
    && bytes <= b
    && (forall k: nat {:trigger Pow2(k)} :: Pow2(k) >= bytes && Pow2(k) >= MIN_BUCKET ==> b <= Pow2(k))
    && (bytes > MIN_BUCKET ==> b < 2 * bytes)
  }

  lemma {:induction false} GrowIsLeast(k: nat, bytes: nat)
    requires k >= 12 && (k > 12 ==> Pow2(k) < 2 * bytes)
    ensures IsLeastBucket(bytes, Grow(Pow2(k), bytes))
    decreases bytes - Pow2(k)
  {
    Pow2Constants();
    if bytes <= Pow2(k) {
      forall j: nat | Pow2(j) >= bytes && Pow2(j) >= MIN_BUCKET ensures Pow2(k) <= Pow2(j) {
        if j < k {
          Pow2Mono(j, k);
          assert false;
        }
        Pow2Mono(k, j);
      }
    } else {
      Pow2Mono(k, k + 1);
      GrowIsLeast(k + 1, bytes);
    }
  }

  lemma BucketIsLeast(bytes: nat)
    ensures IsLeastBucket(bytes, BucketOf(bytes))
  {
    Pow2Constants();
    GrowIsLeast(12, bytes);
  }

  /** Buckets are monotone and stable, and a bucket serves itself. */
  lemma BucketIsMonotone(a: nat, b: nat)
    requires a <= b
    ensures BucketOf(a) <= BucketOf(b) && BucketOf(BucketOf(a)) == BucketOf(a)
  {
    BucketIsLeast(a);
    BucketIsLeast(b);
    BucketIsLeast(BucketOf(a));
    Pow2Constants();
    var k :| k >= 12 && BucketOf(b) == Pow2(k);
    var j :| j >= 12 && BucketOf(a) == Pow2(j);
    Pow2Mono(12, k);
    Pow2Mono(12, j);
    assert Pow2(j) >= BucketOf(a);
  }

  /** The doubling loop, on a 64-bit word: no shift overflows for sizes up to 2^63. */
  method BucketFor(bytes: nat) returns (bucket: nat)
    requires bytes <= HALF_WORD
    ensures bucket == BucketOf(bytes) && bucket <= HALF_WORD
  {
    if bytes <= MIN_BUCKET {
      return MIN_BUCKET;
    }
    bucket := MIN_BUCKET;
    ghost var k := 12;
    Pow2Constants();
    while bucket < bytes
      invariant bucket == Pow2(k) && 0 < bucket <= HALF_WORD && BucketOf(bytes) == Grow(bucket, bytes)
      decreases HALF_WORD - bucket
    {
      if k >= 63 {
        Pow2Mono(63, k);
        assert false;
      }
      Pow2Mono(k + 1, 63);
      assert Shl(bucket) == 2 * bucket;
      bucket := Shl(bucket);
      k := k + 1;
    }
  }

  /** One more shift of a value that is a power of two, or zero once it has left the word. */
  lemma ShiftOnce(k: nat)
    ensures Shl(if k <= 51 then Pow2(k + 12) else 0) == if k + 1 <= 51 then Pow2(k + 13) else 0
  {
    Pow2Constants();
    if k < 51 {
      Pow2Mono(k + 13, 63);
    }
  }

  lemma {:induction false} ShiftedValue(k: nat)
    ensures Shifted(k) == if k <= 51 then Pow2(k + 12) else 0
  {
    if k == 0 {
      Pow2Constants();
    } else {
      ShiftedValue(k - 1);
      ShiftOnce(k - 1);
    }
  }

  /** The bound is exact: the loop reaches the requested size if and only if it is at most 2^63;
      above it the shift wraps to zero and stays there. */
  lemma LoopEndsIff(bytes: nat)
    ensures (exists k :: Shifted(k) >= bytes) <==> bytes <= HALF_WORD
  {
    Pow2Constants();
    ShiftedValue(51);
    if bytes > HALF_WORD {
      forall k: nat ensures Shifted(k) < bytes {
        ShiftedValue(k);
        if k <= 51 {
          Pow2Mono(k + 12, 63);
        }
      }
    }
  }
}

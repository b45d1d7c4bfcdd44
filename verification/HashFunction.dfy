/** The multiplicative hash of the table, and its exact balance. */
module HashFunction {
  import opened Words
  import opened Mixing

  const GOLDEN_RATIO_64: nat := 0x61C8864680B583EB
  const GOLDEN_INVERSE: nat := 0x0e217c1e66c88cc3

  /** hash_64: the top bits of the product. */
  function Hash64(key: nat, bits: nat): nat
    requires 1 <= bits <= 30
  {
    Shr(Mul(key, GOLDEN_RATIO_64, 64), 64 - bits)
  }

  /** The key times the golden ratio, what a 64-bit word keeps of it, and its top bits. */
  lemma Hash64Is(key: nat, bits: nat)
    requires 1 <= bits <= 30
    ensures Hash64(key, bits) == key * 0x61C8864680B583EB % 0x1_0000_0000_0000_0000 / Pow2(64 - bits)
  {
    hide Low, Shr, Pow2;
    Pow2Values();
    var x := key * GOLDEN_RATIO_64;
    LowIsMod(x, 64);
    LowIsMod(Low(x, 64), 64 - bits);
  }

  lemma Inverses()
    ensures Inverse(GOLDEN_RATIO_64, GOLDEN_INVERSE, 64) && Inverse(GOLDEN_INVERSE, GOLDEN_RATIO_64, 64)
  {
    hide Low, Pow2;
    Pow2Values();
    UnitIs(GOLDEN_RATIO_64, GOLDEN_INVERSE, 0x565c199e7ece725, 0x1_0000_0000_0000_0000, 64);
  }

  /** The index is always inside the table. */
  lemma Hash64InTable(key: nat, bits: nat)
    requires 1 <= bits <= 30
    ensures Hash64(key, bits) < Pow2(bits)
  {
    hide Mul, Shr, Pow2, Low;
    MulFits(key, GOLDEN_RATIO_64, 64);
    HighLow(Mul(key, GOLDEN_RATIO_64, 64), 64 - bits);
    Pow2Add(bits, 64 - bits);
    var x := Mul(key, GOLDEN_RATIO_64, 64);
    HighBelow(x, Pow2(bits), Pow2(64 - bits), Shr(x, 64 - bits), Low(x, 64 - bits));
  }

  /** The r-th key of bucket i: the one whose product has i in its top bits and r below. */
  function Nth(i: nat, r: nat, bits: nat): nat
    requires 1 <= bits <= 30
  {
    Mul(i * Pow2(64 - bits) + r, GOLDEN_INVERSE, 64)
  }

  lemma ProductFits(i: nat, r: nat, p: nat, q: nat)
    requires i < p && r < q
    ensures i * q + r < p * q
  {
    MultipleGrows(p - i, q);
    assert (p - i) * q == p * q - i * q;
  }

  lemma NthIsInBucket(i: nat, r: nat, bits: nat)
    requires 1 <= bits <= 30 && i < Pow2(bits) && r < Pow2(64 - bits)
    ensures Fits(Nth(i, r, bits), 64) && Hash64(Nth(i, r, bits), bits) == i
    ensures Mul(Nth(i, r, bits), GOLDEN_RATIO_64, 64) == i * Pow2(64 - bits) + r
  {
    hide Mul, Shr, Pow2, Low;
    Pow2Add(bits, 64 - bits);
    ProductFits(i, r, Pow2(bits), Pow2(64 - bits));
    var x := i * Pow2(64 - bits) + r;
    Inverses();
    MulBack(x, GOLDEN_INVERSE, GOLDEN_RATIO_64, 64);
    MulFits(x, GOLDEN_INVERSE, 64);
    HighLowUnique(x, 64 - bits, i, r);
  }

  lemma EveryKeyIsNth(key: nat, bits: nat)
    requires 1 <= bits <= 30 && Fits(key, 64)
    ensures var r := Low(Mul(key, GOLDEN_RATIO_64, 64), 64 - bits);
            r < Pow2(64 - bits) && key == Nth(Hash64(key, bits), r, bits)
  {
    hide Mul, Shr, Pow2;
    Inverses();
    MulBack(key, GOLDEN_RATIO_64, GOLDEN_INVERSE, 64);
    HighLow(Mul(key, GOLDEN_RATIO_64, 64), 64 - bits);
  }

  /** The 64-bit keys that go to bucket i. */
  ghost function Bucket(i: nat, bits: nat): set<nat>
    requires 1 <= bits <= 30
  {
    set key: nat | key < Pow2(64) && Hash64(key, bits) == i
  }

  /** The first n of them. */
  ghost function FirstOf(i: nat, bits: nat, n: nat): set<nat>
    requires 1 <= bits <= 30
    decreases n
  {
    if n == 0 then {} else FirstOf(i, bits, n - 1) + {Nth(i, n - 1, bits)}
  }

  lemma {:induction false} FirstOfIs(i: nat, bits: nat, n: nat, key: nat)
    requires 1 <= bits <= 30
    ensures key in FirstOf(i, bits, n) <==> exists r: nat :: r < n && key == Nth(i, r, bits)
    decreases n
  {
    hide Nth;
    if n > 0 {
      FirstOfIs(i, bits, n - 1, key);
    }
  }

  lemma {:induction false} FirstOfCount(i: nat, bits: nat, n: nat)
    requires 1 <= bits <= 30 && i < Pow2(bits) && n <= Pow2(64 - bits)
    ensures |FirstOf(i, bits, n)| == n
    decreases n
  {
    hide Nth, Pow2, Mul;
    if n > 0 {
      FirstOfCount(i, bits, n - 1);
      NthIsInBucket(i, n - 1, bits);
      FirstOfIs(i, bits, n - 1, Nth(i, n - 1, bits));
      if r: nat :| r < n - 1 && Nth(i, n - 1, bits) == Nth(i, r, bits) {
        NthIsInBucket(i, r, bits);
      }
    }
  }

  /** Exact balance: each bucket gets exactly 2^(64-bits) of the 2^64 keys. */
  lemma Balanced(i: nat, bits: nat)
    requires 1 <= bits <= 30 && i < Pow2(bits)
    ensures |Bucket(i, bits)| == Pow2(64 - bits)
  {
    hide Nth, Pow2, Mul, Hash64, FirstOf;
    var all := FirstOf(i, bits, Pow2(64 - bits));
    forall key: nat
      ensures key in Bucket(i, bits) <==> key in all
    {
      FirstOfIs(i, bits, Pow2(64 - bits), key);
      if key in all {
        var r: nat :| r < Pow2(64 - bits) && key == Nth(i, r, bits);
        NthIsInBucket(i, r, bits);
      }
      if key < Pow2(64) && Hash64(key, bits) == i {
        EveryKeyIsNth(key, bits);
      }
    }
    assert Bucket(i, bits) == all;
    FirstOfCount(i, bits, Pow2(64 - bits));
  }
}

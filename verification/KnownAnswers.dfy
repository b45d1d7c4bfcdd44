/** Known answers of the three hashes. */
module KnownAnswers {
  import opened Words
  import opened Mixing
  import opened HexWords
  import X64 = MurmurX64
  import X128 = MurmurX86x128
  import X32 = MurmurX86x32

  /** The bytes from 1 to n. */
  function Counting(n: nat): seq<u8>
    requires n < 256
  {
    seq(n, i requires 0 <= i < n => i + 1)
  }

  lemma Word4(key: seq<u8>, p: nat)
    ensures Word(key, p, 4) == At(key, p) + 0x100 * At(key, p + 1) + 0x1_0000 * At(key, p + 2) + 0x100_0000 * At(key, p + 3)
  {
    assert Word(key, p + 2, 2) == At(key, p + 2) + 0x100 * At(key, p + 3);
    assert Word(key, p, 4) == At(key, p) + 0x100 * (At(key, p + 1) + 0x100 * Word(key, p + 2, 2));
  }

  lemma Word8(key: seq<u8>, p: nat)
    ensures Word(key, p, 8) == Word(key, p, 4) + 0x1_0000_0000 * Word(key, p + 4, 4)
  {
    Word4(key, p);
    assert Word(key, p + 2, 6) == At(key, p + 2) + 0x100 * (At(key, p + 3) + 0x100 * Word(key, p + 4, 4));
    assert Word(key, p, 8) == At(key, p) + 0x100 * (At(key, p + 1) + 0x100 * Word(key, p + 2, 6));
  }

  lemma CountingAt(n: nat, i: nat)
    requires n < 256
    ensures At(Counting(n), i) == if i < n then i + 1 else 0
  {
  }

  lemma CountingWord(n: nat, p: nat)
    requires n < 256
    ensures Word(Counting(n), p, 4) ==
            (if p < n then p + 1 else 0) + 0x100 * (if p + 1 < n then p + 2 else 0)
            + 0x1_0000 * (if p + 2 < n then p + 3 else 0) + 0x100_0000 * (if p + 3 < n then p + 4 else 0)
  {
    hide Word, Counting, At;
    Word4(Counting(n), p);
    CountingAt(n, p);
    CountingAt(n, p + 1);
    CountingAt(n, p + 2);
    CountingAt(n, p + 3);
  }

  // MurmurHash3_x64_128

  lemma Empty64Sums()
    ensures X64.Cross(X64.Hash(Xor(0x1, 0), Xor(0x1, 0))) == X64.Hash(0x2, 0x3)
  {
    hide Xor, Low, Shr, Rotl, Mul, Add, Pow2;
    Powers();
    XorZero(0x1);
    XorZero(0x1);
    AddTo(0x1, 0x1, 64, 0x10000000000000000, 0x2);
    AddTo(0x1, 0x2, 64, 0x10000000000000000, 0x3);
  }

  lemma Empty64Fmix1()
    ensures Fmix64(0x2) == 0x3abf2a20650683e7
  {
    hide Xor, Low, Shr, Rotl, Mul, Add, Pow2;
    Powers();
    assert Xor(0xfea35fafdaab199a, 0x7f51afd7) == 0xfea35fafa5fab64d by {
      Xor64To(Q(HF, HE, HA, H3), Q(H5, HF, HA, HF), Q(HD, HA, HA, HB), Q(H1, H9, H9, HA), Q(H0, H0, H0, H0),
        Q(H0, H0, H0, H0), Q(H7, HF, H5, H1), Q(HA, HF, HD, H7), 0xfea35fafdaab199a, 0x7f51afd7,
        0xfea35fafa5fab64d);
    }
    assert Xor(0x3abf2a20785916f7, 0x1d5f9510) == 0x3abf2a20650683e7 by {
      Xor64To(Q(H3, HA, HB, HF), Q(H2, HA, H2, H0), Q(H7, H8, H5, H9), Q(H1, H6, HF, H7), Q(H0, H0, H0, H0),
        Q(H0, H0, H0, H0), Q(H1, HD, H5, HF), Q(H9, H5, H1, H0), 0x3abf2a20785916f7, 0x1d5f9510,
        0x3abf2a20650683e7);
    }
    ShrTo(0x2, 33, 0x200000000, 0x0, 0x2);
    XorZero(0x2);
    MulTo(0x2, 0xff51afd7ed558ccd, 64, 0x10000000000000000, 0x1, 0xfea35fafdaab199a);
    ShrTo(0xfea35fafdaab199a, 33, 0x200000000, 0x7f51afd7, 0x1daab199a);
    MulTo(0xfea35fafa5fab64d, 0xc4ceb9fe1a85ec53, 64, 0x10000000000000000, 0xc3c2b5ba4b0c3034, 0x3abf2a20785916f7);
    ShrTo(0x3abf2a20785916f7, 33, 0x200000000, 0x1d5f9510, 0x785916f7);
  }

  lemma Empty64Fmix2()
    ensures Fmix64(0x3) == 0xb5181c509f8d8ce
  {
    hide Xor, Low, Shr, Rotl, Mul, Add, Pow2;
    Powers();
    assert Xor(0xfdf50f87c800a667, 0x7efa87c3) == 0xfdf50f87b6fa21a4 by {
      Xor64To(Q(HF, HD, HF, H5), Q(H0, HF, H8, H7), Q(HC, H8, H0, H0), Q(HA, H6, H6, H7), Q(H0, H0, H0, H0),
        Q(H0, H0, H0, H0), Q(H7, HE, HF, HA), Q(H8, H7, HC, H3), 0xfdf50f87c800a667, 0x7efa87c3,
        0xfdf50f87b6fa21a4);
    }
    assert Xor(0xb5181c50c50182c, 0x5a8c0e2) == 0xb5181c509f8d8ce by {
      Xor64To(Q(H0, HB, H5, H1), Q(H8, H1, HC, H5), Q(H0, HC, H5, H0), Q(H1, H8, H2, HC), Q(H0, H0, H0, H0),
        Q(H0, H0, H0, H0), Q(H0, H5, HA, H8), Q(HC, H0, HE, H2), 0xb5181c50c50182c, 0x5a8c0e2,
        0xb5181c509f8d8ce);
    }
    ShrTo(0x3, 33, 0x200000000, 0x0, 0x3);
    XorZero(0x3);
    MulTo(0x3, 0xff51afd7ed558ccd, 64, 0x10000000000000000, 0x2, 0xfdf50f87c800a667);
    ShrTo(0xfdf50f87c800a667, 33, 0x200000000, 0x7efa87c3, 0x1c800a667);
    MulTo(0xfdf50f87b6fa21a4, 0xc4ceb9fe1a85ec53, 64, 0x10000000000000000, 0xc33cb39892faf940, 0xb5181c50c50182c);
    ShrTo(0xb5181c50c50182c, 33, 0x200000000, 0x5a8c0e2, 0x10c50182c);
  }

  lemma Empty64Finish()
    ensures X64.Finish(X64.Hash(0x1, 0x1), 0) == X64.Hash(0x4610abe56eff5cb5, 0x51622daa78f83583)
  {
    hide Xor, Low, Shr, Rotl, Mul, Add, Pow2, Fmix64;
    Powers();
    Empty64Sums();
    Empty64Fmix1();
    Empty64Fmix2();
    AddTo(0x3abf2a20650683e7, 0xb5181c509f8d8ce, 64, 0x10000000000000000, 0x4610abe56eff5cb5);
    AddTo(0xb5181c509f8d8ce, 0x4610abe56eff5cb5, 64, 0x10000000000000000, 0x51622daa78f83583);
  }

  lemma NoBytes64(seed: nat)
    ensures X64.Taken([], seed) == X64.Hash(seed, seed)
  {
    hide Xor, Mix;
    assert Word([], 0, 8) == 0 && Word([], 8, 8) == 0 by {
      WordBehind([], 0, 8);
      WordBehind([], 8, 8);
    }
    MixZero(X64.C1, 31, X64.C2, 64);
    MixZero(X64.C2, 33, X64.C1, 64);
    XorZero(seed);
  }

  /** The empty key with seed 1. */
  lemma EmptyX64()
    ensures X64.Murmur([], 1) == X64.Hash(0x4610abe56eff5cb5, 0x51622daa78f83583)
  {
    hide X64.Finish, X64.Taken;
    NoBytes64(1);
    Empty64Finish();
  }

  lemma Words64()
    ensures Word(Counting(27), 0, 8) == 0x807060504030201
    ensures Word(Counting(27), 8, 8) == 0x100f0e0d0c0b0a09
    ensures Word(Counting(27), 16, 8) == 0x1817161514131211
    ensures Word(Counting(27), 24, 8) == 0x1b1a19
  {
    hide Word, Counting;
    Word8(Counting(27), 0);
    CountingWord(27, 0);
    CountingWord(27, 4);
    Word8(Counting(27), 8);
    CountingWord(27, 8);
    CountingWord(27, 12);
    Word8(Counting(27), 16);
    CountingWord(27, 16);
    CountingWord(27, 20);
    Word8(Counting(27), 24);
    CountingWord(27, 24);
    CountingWord(27, 28);
  }

  lemma BlockMix64()
    ensures X64.Mix1(0x807060504030201) == 0x84912ea0966db987
    ensures X64.Mix2(0x100f0e0d0c0b0a09) == 0x1c70dd70c03cdcd6
  {
    hide Xor, Low, Shr, Rotl, Mul, Add, Pow2;
    Powers();
    MulTo(0x807060504030201, 0x87c37b91114253d5, 64, 0x10000000000000000, 0x441d566275901f4, 0x9cc87bf2e568fdd5);
    RotlTo(0x9cc87bf2e568fdd5, 31, 64, 0x10000000000000000, 0x80000000, 0x200000000, 0x4e643df9, 0xe568fdd5, 0x72b47eeace643df9);
    MulTo(0x72b47eeace643df9, 0x4cf5ad432745937f, 64, 0x10000000000000000, 0x227baa0d3c97d955, 0x84912ea0966db987);
    MulTo(0x100f0e0d0c0b0a09, 0x4cf5ad432745937f, 64, 0x10000000000000000, 0x4d3e172b4f5f48c, 0x462c193f63aa2577);
    RotlTo(0x462c193f63aa2577, 33, 64, 0x10000000000000000, 0x200000000, 0x80000000, 0x8c58327e, 0x63aa2577, 0xc7544aee8c58327e);
    MulTo(0xc7544aee8c58327e, 0x87c37b91114253d5, 64, 0x10000000000000000, 0x69b5a8ef53e6b656, 0x1c70dd70c03cdcd6);
  }

  lemma TailMix64()
    ensures X64.Mix1(0x1817161514131211) == 0x5e88441d34dfab1b
    ensures X64.Mix2(0x1b1a19) == 0x40ffc24391066e14
  {
    hide Xor, Low, Shr, Rotl, Mul, Add, Pow2;
    Powers();
    MulTo(0x1817161514131211, 0x87c37b91114253d5, 64, 0x10000000000000000, 0xcc691dbadf3c1f1, 0xe1910ccaac1b8b25);
    RotlTo(0xe1910ccaac1b8b25, 31, 64, 0x10000000000000000, 0x80000000, 0x200000000, 0x70c88665, 0xac1b8b25, 0x560dc592f0c88665);
    MulTo(0x560dc592f0c88665, 0x4cf5ad432745937f, 64, 0x10000000000000000, 0x19deac13966e765f, 0x5e88441d34dfab1b);
    MulTo(0x1b1a19, 0x4cf5ad432745937f, 64, 0x10000000000000000, 0x825c1, 0xbdabe1e2752b4d67);
    RotlTo(0xbdabe1e2752b4d67, 33, 64, 0x10000000000000000, 0x200000000, 0x80000000, 0x17b57c3c4, 0x752b4d67, 0xea569acf7b57c3c4);
    MulTo(0xea569acf7b57c3c4, 0x87c37b91114253d5, 64, 0x10000000000000000, 0x7c469cb7bd521337, 0x40ffc24391066e14);
  }

  lemma Block64(x: X64.Hash, k1: nat, k2: nat, y: X64.Hash)
    requires x == X64.Hash(0x4b91209, 0x4b91209)
    requires k1 == 0x807060504030201
    requires k2 == 0x100f0e0d0c0b0a09
    requires y == X64.Hash(0x16f13aceaf30f09f, 0x5e04ab376b583768)
    ensures X64.Step(x, k1, k2) == y
  {
    hide Xor, Low, Shr, Rotl, Mul, Add, Pow2, X64.Mix1, X64.Mix2;
    Powers();
    assert Xor(0x4b91209, 0x84912ea0966db987) == 0x84912ea092d4ab8e by {
      Xor64To(Q(H0, H0, H0, H0), Q(H0, H0, H0, H0), Q(H0, H4, HB, H9), Q(H1, H2, H0, H9), Q(H8, H4, H9, H1),
        Q(H2, HE, HA, H0), Q(H9, H6, H6, HD), Q(HB, H9, H8, H7), 0x4b91209, 0x84912ea0966db987,
        0x84912ea092d4ab8e);
    }
    assert Xor(0x4b91209, 0x1c70dd70c03cdcd6) == 0x1c70dd70c485cedf by {
      Xor64To(Q(H0, H0, H0, H0), Q(H0, H0, H0, H0), Q(H0, H4, HB, H9), Q(H1, H2, H0, H9), Q(H1, HC, H7, H0),
        Q(HD, HD, H7, H0), Q(HC, H0, H3, HC), Q(HD, HC, HD, H6), 0x4b91209, 0x1c70dd70c03cdcd6,
        0x1c70dd70c485cedf);
    }
    BlockMix64();
    RotlTo(0x84912ea092d4ab8e, 27, 64, 0x10000000000000000, 0x8000000, 0x2000000000, 0x4248975, 0x92d4ab8e, 0x496a55c74248975);
    AddTo(0x496a55c74248975, 0x4b91209, 64, 0x10000000000000000, 0x496a55c78dd9b7e);
    MulTo(0x496a55c78dd9b7e, 0x5, 64, 0x10000000000000000, 0x0, 0x16f13ace5c540976);
    AddTo(0x16f13ace5c540976, 0x52dce729, 64, 0x10000000000000000, 0x16f13aceaf30f09f);
    RotlTo(0x1c70dd70c485cedf, 31, 64, 0x10000000000000000, 0x80000000, 0x200000000, 0xe386eb8, 0xc485cedf, 0x6242e76f8e386eb8);
    AddTo(0x6242e76f8e386eb8, 0x16f13aceaf30f09f, 64, 0x10000000000000000, 0x7934223e3d695f57);
    MulTo(0x7934223e3d695f57, 0x5, 64, 0x10000000000000000, 0x2, 0x5e04ab37330edcb3);
    AddTo(0x5e04ab37330edcb3, 0x38495ab5, 64, 0x10000000000000000, 0x5e04ab376b583768);
  }

  lemma CountingLen(n: nat)
    requires n < 256
    ensures |Counting(n)| == n
  {
  }

  lemma OneBlock64(key: seq<u8>, seed: nat)
    ensures X64.Body(key, seed, 1) == X64.Step(X64.Hash(seed, seed), Word(key, 0, 8), Word(key, 8, 8))
  {
    hide X64.Step, Word;
    assert X64.Body(key, seed, 0) == X64.Hash(seed, seed);
  }

  lemma Taken64Xor1()
    ensures Xor(0x16f13aceaf30f09f, 0x5e88441d34dfab1b) == 0x48797ed39bef5b84
  {
    hide Xor;
    Xor64To(Q(H1, H6, HF, H1), Q(H3, HA, HC, HE), Q(HA, HF, H3, H0), Q(HF, H0, H9, HF),
      Q(H5, HE, H8, H8), Q(H4, H4, H1, HD), Q(H3, H4, HD, HF), Q(HA, HB, H1, HB), 0x16f13aceaf30f09f, 0x5e88441d34dfab1b, 0x48797ed39bef5b84);
  }

  lemma Taken64Xor2()
    ensures Xor(0x5e04ab376b583768, 0x40ffc24391066e14) == 0x1efb6974fa5e597c
  {
    hide Xor;
    Xor64To(Q(H5, HE, H0, H4), Q(HA, HB, H3, H7), Q(H6, HB, H5, H8), Q(H3, H7, H6, H8),
      Q(H4, H0, HF, HF), Q(HC, H2, H4, H3), Q(H9, H1, H0, H6), Q(H6, HE, H1, H4), 0x5e04ab376b583768, 0x40ffc24391066e14, 0x1efb6974fa5e597c);
  }

  lemma Taken64()
    ensures X64.Taken(Counting(27), 0x4b91209) == X64.Hash(0x48797ed39bef5b84, 0x1efb6974fa5e597c)
  {
    hide Xor, Low, Shr, Rotl, Mul, Add, Pow2, X64.Mix1, X64.Mix2, X64.Step, X64.Body, Word, Counting;
    Taken64Xor1();
    Taken64Xor2();
    Words64();
    Block64(X64.Hash(0x4b91209, 0x4b91209), 0x807060504030201, 0x100f0e0d0c0b0a09, X64.Hash(0x16f13aceaf30f09f, 0x5e04ab376b583768));
    TailMix64();
    OneBlock64(Counting(27), 0x4b91209);
    assert |Counting(27)| == 27 by { CountingLen(27); }
  }

  lemma Counting64Sums()
    ensures X64.Cross(X64.Hash(Xor(0x48797ed39bef5b84, 27), Xor(0x1efb6974fa5e597c, 27))) == X64.Hash(0x6774e848964db506, 0x867051bd90ac0e6d)
  {
    hide Xor, Low, Shr, Rotl, Mul, Add, Pow2;
    Powers();
    assert Xor(0x48797ed39bef5b84, 0x1b) == 0x48797ed39bef5b9f by {
      Xor64To(Q(H4, H8, H7, H9), Q(H7, HE, HD, H3), Q(H9, HB, HE, HF), Q(H5, HB, H8, H4), Q(H0, H0, H0, H0),
        Q(H0, H0, H0, H0), Q(H0, H0, H0, H0), Q(H0, H0, H1, HB), 0x48797ed39bef5b84, 0x1b, 0x48797ed39bef5b9f);
    }
    assert Xor(0x1efb6974fa5e597c, 0x1b) == 0x1efb6974fa5e5967 by {
      Xor64To(Q(H1, HE, HF, HB), Q(H6, H9, H7, H4), Q(HF, HA, H5, HE), Q(H5, H9, H7, HC), Q(H0, H0, H0, H0),
        Q(H0, H0, H0, H0), Q(H0, H0, H0, H0), Q(H0, H0, H1, HB), 0x1efb6974fa5e597c, 0x1b, 0x1efb6974fa5e5967);
    }
    AddTo(0x48797ed39bef5b9f, 0x1efb6974fa5e5967, 64, 0x10000000000000000, 0x6774e848964db506);
    AddTo(0x1efb6974fa5e5967, 0x6774e848964db506, 64, 0x10000000000000000, 0x867051bd90ac0e6d);
  }

  lemma Counting64Fmix1()
    ensures Fmix64(0x6774e848964db506) == 0x66e117e2ec454145
  {
    hide Xor, Low, Shr, Rotl, Mul, Add, Pow2;
    Powers();
    assert Xor(0x6774e848964db506, 0x33ba7424) == 0x6774e848a5f7c122 by {
      Xor64To(Q(H6, H7, H7, H4), Q(HE, H8, H4, H8), Q(H9, H6, H4, HD), Q(HB, H5, H0, H6), Q(H0, H0, H0, H0),
        Q(H0, H0, H0, H0), Q(H3, H3, HB, HA), Q(H7, H4, H2, H4), 0x6774e848964db506, 0x33ba7424,
        0x6774e848a5f7c122);
    }
    assert Xor(0xe346a78dff4e403a, 0x71a353c6) == 0xe346a78d8eed13fc by {
      Xor64To(Q(HE, H3, H4, H6), Q(HA, H7, H8, HD), Q(HF, HF, H4, HE), Q(H4, H0, H3, HA), Q(H0, H0, H0, H0),
        Q(H0, H0, H0, H0), Q(H7, H1, HA, H3), Q(H5, H3, HC, H6), 0xe346a78dff4e403a, 0x71a353c6,
        0xe346a78d8eed13fc);
    }
    assert Xor(0x66e117e2df35cab4, 0x33708bf1) == 0x66e117e2ec454145 by {
      Xor64To(Q(H6, H6, HE, H1), Q(H1, H7, HE, H2), Q(HD, HF, H3, H5), Q(HC, HA, HB, H4), Q(H0, H0, H0, H0),
        Q(H0, H0, H0, H0), Q(H3, H3, H7, H0), Q(H8, HB, HF, H1), 0x66e117e2df35cab4, 0x33708bf1,
        0x66e117e2ec454145);
    }
    ShrTo(0x6774e848964db506, 33, 0x200000000, 0x33ba7424, 0x964db506);
    MulTo(0x6774e848a5f7c122, 0xff51afd7ed558ccd, 64, 0x10000000000000000, 0x672e766e0a30d8ff, 0xe346a78dff4e403a);
    ShrTo(0xe346a78dff4e403a, 33, 0x200000000, 0x71a353c6, 0x1ff4e403a);
    MulTo(0xe346a78d8eed13fc, 0xc4ceb9fe1a85ec53, 64, 0x10000000000000000, 0xaeb9a042dc122358, 0x66e117e2df35cab4);
    ShrTo(0x66e117e2df35cab4, 33, 0x200000000, 0x33708bf1, 0xdf35cab4);
  }

  lemma Counting64Fmix2Xor1()
    ensures Xor(0x867051bd90ac0e6d, 0x433828de) == 0x867051bdd39426b3
  {
    hide Xor;
    Xor64To(Q(H8, H6, H7, H0), Q(H5, H1, HB, HD), Q(H9, H0, HA, HC), Q(H0, HE, H6, HD),
      Q(H0, H0, H0, H0), Q(H0, H0, H0, H0), Q(H4, H3, H3, H8), Q(H2, H8, HD, HE), 0x867051bd90ac0e6d, 0x433828de, 0x867051bdd39426b3);
  }

  lemma Counting64Fmix2()
    ensures Fmix64(0x867051bd90ac0e6d) == 0x18abe994ee58181
  {
    hide Xor, Low, Shr, Rotl, Mul, Add, Pow2;
    Powers();
    Counting64Fmix2Xor1();
    assert Xor(0x79108a11033be157, 0x3c884508) == 0x79108a113fb3a45f by {
      Xor64To(Q(H7, H9, H1, H0), Q(H8, HA, H1, H1), Q(H0, H3, H3, HB), Q(HE, H1, H5, H7), Q(H0, H0, H0, H0),
        Q(H0, H0, H0, H0), Q(H3, HC, H8, H8), Q(H4, H5, H0, H8), 0x79108a11033be157, 0x3c884508,
        0x79108a113fb3a45f);
    }
    assert Xor(0x18abe994e20decd, 0xc55f4c) == 0x18abe994ee58181 by {
      Xor64To(Q(H0, H1, H8, HA), Q(HB, HE, H9, H9), Q(H4, HE, H2, H0), Q(HD, HE, HC, HD), Q(H0, H0, H0, H0),
        Q(H0, H0, H0, H0), Q(H0, H0, HC, H5), Q(H5, HF, H4, HC), 0x18abe994e20decd, 0xc55f4c,
        0x18abe994ee58181);
    }
    ShrTo(0x867051bd90ac0e6d, 33, 0x200000000, 0x433828de, 0x190ac0e6d);
    MulTo(0x867051bdd39426b3, 0xff51afd7ed558ccd, 64, 0x10000000000000000, 0x8614c74e1fa8d764, 0x79108a11033be157);
    ShrTo(0x79108a11033be157, 33, 0x200000000, 0x3c884508, 0x1033be157);
    MulTo(0x79108a113fb3a45f, 0xc4ceb9fe1a85ec53, 64, 0x10000000000000000, 0x5d126cf96d6143ed, 0x18abe994e20decd);
    ShrTo(0x18abe994e20decd, 33, 0x200000000, 0xc55f4c, 0x14e20decd);
  }

  lemma Counting64Finish()
    ensures X64.Finish(X64.Hash(0x48797ed39bef5b84, 0x1efb6974fa5e597c), 27) == X64.Hash(0x686bd67c3b2ac2c6, 0x69f695158a104447)
  {
    hide Xor, Low, Shr, Rotl, Mul, Add, Pow2, Fmix64;
    Powers();
    Counting64Sums();
    Counting64Fmix1();
    Counting64Fmix2();
    AddTo(0x66e117e2ec454145, 0x18abe994ee58181, 64, 0x10000000000000000, 0x686bd67c3b2ac2c6);
    AddTo(0x18abe994ee58181, 0x686bd67c3b2ac2c6, 64, 0x10000000000000000, 0x69f695158a104447);
  }

  /** A full block and a tail of eleven bytes. */
  lemma CountingX64()
    ensures X64.Murmur(Counting(27), 0x4b91209) == X64.Hash(0x686bd67c3b2ac2c6, 0x69f695158a104447)
  {
    hide X64.Finish, X64.Taken, Counting;
    CountingLen(27);
    Taken64();
    Counting64Finish();
  }

  // MurmurHash3_x86_128

  lemma Words128()
    ensures Word(Counting(31), 0, 4) == 0x4030201
    ensures Word(Counting(31), 4, 4) == 0x8070605
    ensures Word(Counting(31), 8, 4) == 0xc0b0a09
    ensures Word(Counting(31), 12, 4) == 0x100f0e0d
    ensures Word(Counting(31), 16, 4) == 0x14131211
    ensures Word(Counting(31), 20, 4) == 0x18171615
    ensures Word(Counting(31), 24, 4) == 0x1c1b1a19
    ensures Word(Counting(31), 28, 4) == 0x1f1e1d
  {
    hide Word, Counting;
    CountingWord(31, 0);
    CountingWord(31, 4);
    CountingWord(31, 8);
    CountingWord(31, 12);
    CountingWord(31, 16);
    CountingWord(31, 20);
    CountingWord(31, 24);
    CountingWord(31, 28);
  }

  lemma BlockMix128()
    ensures X128.Mix1(0x4030201) == 0xfff4c2ec
    ensures X128.Mix2(0x8070605) == 0xfd01be49
    ensures X128.Mix3(0xc0b0a09) == 0x42032719
    ensures X128.Mix4(0x100f0e0d) == 0xacfbc27c
  {
    hide Xor, Low, Shr, Rotl, Mul, Add, Pow2;
    Powers();
    MulTo(0x4030201, 0x239b961b, 32, 0x100000000, 0x8ed972, 0x8918cc1b);
    RotlTo(0x8918cc1b, 15, 32, 0x100000000, 0x8000, 0x20000, 0x448c, 0xcc1b, 0x660dc48c);
    MulTo(0x660dc48c, 0xab0e9789, 32, 0x100000000, 0x44310372, 0xfff4c2ec);
    MulTo(0x8070605, 0xab0e9789, 32, 0x100000000, 0x55d2628, 0x1b952bad);
    RotlTo(0x1b952bad, 16, 32, 0x100000000, 0x10000, 0x10000, 0x1b95, 0x2bad, 0x2bad1b95);
    MulTo(0x2bad1b95, 0x38b34ae5, 32, 0x100000000, 0x9ac74d9, 0xfd01be49);
    MulTo(0xc0b0a09, 0x38b34ae5, 32, 0x100000000, 0x2aad96f, 0xf311940d);
    RotlTo(0xf311940d, 17, 32, 0x100000000, 0x20000, 0x8000, 0x1e623, 0x140d, 0x281be623);
    MulTo(0x281be623, 0xa1e38b93, 32, 0x100000000, 0x195d3257, 0x42032719);
    MulTo(0x100f0e0d, 0xa1e38b93, 32, 0x100000000, 0xa27bdf1, 0x7cd2077);
    RotlTo(0x7cd2077, 18, 32, 0x100000000, 0x40000, 0x4000, 0x1f34, 0x2077, 0x81dc1f34);
    MulTo(0x81dc1f34, 0x239b961b, 32, 0x100000000, 0x121004af, 0xacfbc27c);
  }

  lemma TailMix128()
    ensures X128.Mix1(0x14131211) == 0x3d7d9df9
    ensures X128.Mix2(0x18171615) == 0x54b374c3
    ensures X128.Mix3(0x1c1b1a19) == 0x5e94f7ab
    ensures X128.Mix4(0x1f1e1d) == 0x54200d4
  {
    hide Xor, Low, Shr, Rotl, Mul, Add, Pow2;
    Powers();
    MulTo(0x14131211, 0x239b961b, 32, 0x100000000, 0x2cacec9, 0x8de3ddcb);
    RotlTo(0x8de3ddcb, 15, 32, 0x100000000, 0x8000, 0x20000, 0x46f1, 0x1ddcb, 0xeee5c6f1);
    MulTo(0xeee5c6f1, 0xab0e9789, 32, 0x100000000, 0x9fa119dd, 0x3d7d9df9);
    MulTo(0x18171615, 0xab0e9789, 32, 0x100000000, 0x1018cb45, 0xbe87343d);
    RotlTo(0xbe87343d, 16, 32, 0x100000000, 0x10000, 0x10000, 0xbe87, 0x343d, 0x343dbe87);
    MulTo(0x343dbe87, 0x38b34ae5, 32, 0x100000000, 0xb921822, 0x54b374c3);
    MulTo(0x1c1b1a19, 0x38b34ae5, 32, 0x100000000, 0x6399ce1, 0xb144925d);
    RotlTo(0xb144925d, 17, 32, 0x100000000, 0x20000, 0x8000, 0x16289, 0x125d, 0x24bb6289);
    MulTo(0x24bb6289, 0xa1e38b93, 32, 0x100000000, 0x173a7f27, 0x5e94f7ab);
    MulTo(0x1f1e1d, 0xa1e38b93, 32, 0x100000000, 0x13ad98, 0xe7ef09a7);
    RotlTo(0xe7ef09a7, 18, 32, 0x100000000, 0x40000, 0x4000, 0x39fbc, 0x9a7, 0x269f9fbc);
    MulTo(0x269f9fbc, 0x239b961b, 32, 0x100000000, 0x55f4c22, 0x54200d4);
  }

  lemma BlockTake128()
    ensures X128.Take(X128.Quad(0x4b91209, 0x4b91209, 0x4b91209, 0x4b91209), X128.Quad(0x4030201, 0x8070605, 0xc0b0a09, 0x100f0e0d)) == X128.Quad(0xfb4dd0e5, 0xf9b8ac40, 0x46ba3510, 0xa842d075)
  {
    hide Xor, Low, Shr, Rotl, Mul, Add, Pow2, X128.Mix1, X128.Mix2, X128.Mix3, X128.Mix4;
    assert Xor(0x4b91209, 0xfff4c2ec) == 0xfb4dd0e5 by {
      Xor32To(Q(H0, H4, HB, H9), Q(H1, H2, H0, H9), Q(HF, HF, HF, H4), Q(HC, H2, HE, HC), 0x4b91209,
        0xfff4c2ec, 0xfb4dd0e5);
    }
    assert Xor(0x4b91209, 0xfd01be49) == 0xf9b8ac40 by {
      Xor32To(Q(H0, H4, HB, H9), Q(H1, H2, H0, H9), Q(HF, HD, H0, H1), Q(HB, HE, H4, H9), 0x4b91209,
        0xfd01be49, 0xf9b8ac40);
    }
    assert Xor(0x4b91209, 0x42032719) == 0x46ba3510 by {
      Xor32To(Q(H0, H4, HB, H9), Q(H1, H2, H0, H9), Q(H4, H2, H0, H3), Q(H2, H7, H1, H9), 0x4b91209,
        0x42032719, 0x46ba3510);
    }
    assert Xor(0x4b91209, 0xacfbc27c) == 0xa842d075 by {
      Xor32To(Q(H0, H4, HB, H9), Q(H1, H2, H0, H9), Q(HA, HC, HF, HB), Q(HC, H2, H7, HC), 0x4b91209,
        0xacfbc27c, 0xa842d075);
    }
    BlockMix128();
  }

  lemma Block128(x: X128.Quad, k: X128.Quad, y: X128.Quad)
    requires x == X128.Quad(0x4b91209, 0x4b91209, 0x4b91209, 0x4b91209)
    requires k == X128.Quad(0x4030201, 0x8070605, 0xc0b0a09, 0x100f0e0d)
    requires y == X128.Quad(0x11a96b6e, 0xddf1c2a9, 0x33132733, 0x4d44dd65)
    ensures X128.Step(x, k) == y
  {
    hide Xor, Low, Shr, Rotl, Mul, Add, Pow2, X128.Take;
    Powers();
    BlockTake128();
    RotlTo(0xfb4dd0e5, 19, 32, 0x100000000, 0x80000, 0x2000, 0x7da6e, 0x10e5, 0x872fda6e);
    AddTo(0x872fda6e, 0x4b91209, 32, 0x100000000, 0x8be8ec77);
    MulTo(0x8be8ec77, 0x5, 32, 0x100000000, 0x2, 0xbb8c9e53);
    AddTo(0xbb8c9e53, 0x561ccd1b, 32, 0x100000000, 0x11a96b6e);
    RotlTo(0xf9b8ac40, 17, 32, 0x100000000, 0x20000, 0x8000, 0x1f371, 0x2c40, 0x5881f371);
    AddTo(0x5881f371, 0x4b91209, 32, 0x100000000, 0x5d3b057a);
    MulTo(0x5d3b057a, 0x5, 32, 0x100000000, 0x1, 0xd2271b62);
    AddTo(0xd2271b62, 0xbcaa747, 32, 0x100000000, 0xddf1c2a9);
    RotlTo(0x46ba3510, 15, 32, 0x100000000, 0x8000, 0x20000, 0x235d, 0x3510, 0x1a88235d);
    AddTo(0x1a88235d, 0x4b91209, 32, 0x100000000, 0x1f413566);
    MulTo(0x1f413566, 0x5, 32, 0x100000000, 0x0, 0x9c460afe);
    AddTo(0x9c460afe, 0x96cd1c35, 32, 0x100000000, 0x33132733);
    RotlTo(0xa842d075, 13, 32, 0x100000000, 0x2000, 0x80000, 0x1508, 0x2d075, 0x5a0eb508);
    AddTo(0x5a0eb508, 0x11a96b6e, 32, 0x100000000, 0x6bb82076);
    MulTo(0x6bb82076, 0x5, 32, 0x100000000, 0x2, 0x1a98a24e);
    AddTo(0x1a98a24e, 0x32ac3b17, 32, 0x100000000, 0x4d44dd65);
  }

  lemma TailTake128()
    ensures X128.Take(X128.Quad(0x11a96b6e, 0xddf1c2a9, 0x33132733, 0x4d44dd65), X128.Quad(0x14131211, 0x18171615, 0x1c1b1a19, 0x1f1e1d)) == X128.Quad(0x2cd4f697, 0x8942b66a, 0x6d87d098, 0x4806ddb1)
  {
    hide Xor, Low, Shr, Rotl, Mul, Add, Pow2, X128.Mix1, X128.Mix2, X128.Mix3, X128.Mix4;
    assert Xor(0x11a96b6e, 0x3d7d9df9) == 0x2cd4f697 by {
      Xor32To(Q(H1, H1, HA, H9), Q(H6, HB, H6, HE), Q(H3, HD, H7, HD), Q(H9, HD, HF, H9), 0x11a96b6e,
        0x3d7d9df9, 0x2cd4f697);
    }
    assert Xor(0xddf1c2a9, 0x54b374c3) == 0x8942b66a by {
      Xor32To(Q(HD, HD, HF, H1), Q(HC, H2, HA, H9), Q(H5, H4, HB, H3), Q(H7, H4, HC, H3), 0xddf1c2a9,
        0x54b374c3, 0x8942b66a);
    }
    assert Xor(0x33132733, 0x5e94f7ab) == 0x6d87d098 by {
      Xor32To(Q(H3, H3, H1, H3), Q(H2, H7, H3, H3), Q(H5, HE, H9, H4), Q(HF, H7, HA, HB), 0x33132733,
        0x5e94f7ab, 0x6d87d098);
    }
    assert Xor(0x4d44dd65, 0x54200d4) == 0x4806ddb1 by {
      Xor32To(Q(H4, HD, H4, H4), Q(HD, HD, H6, H5), Q(H0, H5, H4, H2), Q(H0, H0, HD, H4), 0x4d44dd65,
        0x54200d4, 0x4806ddb1);
    }
    TailMix128();
  }

  lemma Taken128()
    ensures X128.Taken(Counting(31), 0x4b91209) == X128.Quad(0x2cd4f697, 0x8942b66a, 0x6d87d098, 0x4806ddb1)
  {
    hide X128.Take, X128.Step, Word, Counting;
    CountingLen(31);
    Words128();
    Block128(X128.Quad(0x4b91209, 0x4b91209, 0x4b91209, 0x4b91209), X128.Quad(0x4030201, 0x8070605, 0xc0b0a09, 0x100f0e0d), X128.Quad(0x11a96b6e, 0xddf1c2a9, 0x33132733, 0x4d44dd65));
    TailTake128();
    assert X128.Body(Counting(31), 0x4b91209, 0) == X128.Quad(0x4b91209, 0x4b91209, 0x4b91209, 0x4b91209);
    assert X128.Body(Counting(31), 0x4b91209, 1) == X128.Quad(0x11a96b6e, 0xddf1c2a9, 0x33132733, 0x4d44dd65);
  }

  lemma Length128()
    ensures X128.MixLength(X128.Quad(0x2cd4f697, 0x8942b66a, 0x6d87d098, 0x4806ddb1), 31) == X128.Quad(0x2cd4f688, 0x8942b675, 0x6d87d087, 0x4806ddae)
  {
    hide Xor, Low, Shr, Rotl, Mul, Add, Pow2;
    assert Xor(0x2cd4f697, 0x1f) == 0x2cd4f688 by {
      Xor32To(Q(H2, HC, HD, H4), Q(HF, H6, H9, H7), Q(H0, H0, H0, H0), Q(H0, H0, H1, HF), 0x2cd4f697, 0x1f,
        0x2cd4f688);
    }
    assert Xor(0x8942b66a, 0x1f) == 0x8942b675 by {
      Xor32To(Q(H8, H9, H4, H2), Q(HB, H6, H6, HA), Q(H0, H0, H0, H0), Q(H0, H0, H1, HF), 0x8942b66a, 0x1f,
        0x8942b675);
    }
    assert Xor(0x6d87d098, 0x1f) == 0x6d87d087 by {
      Xor32To(Q(H6, HD, H8, H7), Q(HD, H0, H9, H8), Q(H0, H0, H0, H0), Q(H0, H0, H1, HF), 0x6d87d098, 0x1f,
        0x6d87d087);
    }
    assert Xor(0x4806ddb1, 0x1f) == 0x4806ddae by {
      Xor32To(Q(H4, H8, H0, H6), Q(HD, HD, HB, H1), Q(H0, H0, H0, H0), Q(H0, H0, H1, HF), 0x4806ddb1, 0x1f,
        0x4806ddae);
    }
  }

  lemma Cross128()
    ensures X128.Cross(X128.Quad(0x2cd4f688, 0x8942b675, 0x6d87d087, 0x4806ddae)) == X128.Quad(0x6ba65b32, 0xf4e911a7, 0xd92e2bb9, 0xb3ad38e0)
  {
    hide Xor, Low, Shr, Rotl, Mul, Add, Pow2;
    Powers();
    AddTo(0x2cd4f688, 0x8942b675, 32, 0x100000000, 0xb617acfd);
    AddTo(0xb617acfd, 0x6d87d087, 32, 0x100000000, 0x239f7d84);
    AddTo(0x239f7d84, 0x4806ddae, 32, 0x100000000, 0x6ba65b32);
    AddTo(0x8942b675, 0x6ba65b32, 32, 0x100000000, 0xf4e911a7);
    AddTo(0x6d87d087, 0x6ba65b32, 32, 0x100000000, 0xd92e2bb9);
    AddTo(0x4806ddae, 0x6ba65b32, 32, 0x100000000, 0xb3ad38e0);
  }

  lemma Fmix128At1()
    ensures Fmix32(0x6ba65b32) == 0x2233f507
  {
    hide Xor, Low, Shr, Rotl, Mul, Add, Pow2;
    Powers();
    assert Xor(0x6ba65b32, 0x6ba6) == 0x6ba63094 by {
      Xor32To(Q(H6, HB, HA, H6), Q(H5, HB, H3, H2), Q(H0, H0, H0, H0), Q(H6, HB, HA, H6), 0x6ba65b32, 0x6ba6,
        0x6ba63094);
    }
    assert Xor(0x9ca715dc, 0x4e538) == 0x9ca3f0e4 by {
      Xor32To(Q(H9, HC, HA, H7), Q(H1, H5, HD, HC), Q(H0, H0, H0, H4), Q(HE, H5, H3, H8), 0x9ca715dc, 0x4e538,
        0x9ca3f0e4);
    }
    assert Xor(0x2233d734, 0x2233) == 0x2233f507 by {
      Xor32To(Q(H2, H2, H3, H3), Q(HD, H7, H3, H4), Q(H0, H0, H0, H0), Q(H2, H2, H3, H3), 0x2233d734, 0x2233,
        0x2233f507);
    }
    ShrTo(0x6ba65b32, 16, 0x10000, 0x6ba6, 0x5b32);
    MulTo(0x6ba63094, 0x85ebca6b, 32, 0x100000000, 0x38507de9, 0x9ca715dc);
    ShrTo(0x9ca715dc, 13, 0x2000, 0x4e538, 0x15dc);
    MulTo(0x9ca3f0e4, 0xc2b2ae35, 32, 0x100000000, 0x77219122, 0x2233d734);
    ShrTo(0x2233d734, 16, 0x10000, 0x2233, 0xd734);
  }

  lemma Fmix128At2()
    ensures Fmix32(0xf4e911a7) == 0xeee0406d
  {
    hide Xor, Low, Shr, Rotl, Mul, Add, Pow2;
    Powers();
    assert Xor(0xf4e911a7, 0xf4e9) == 0xf4e9e54e by {
      Xor32To(Q(HF, H4, HE, H9), Q(H1, H1, HA, H7), Q(H0, H0, H0, H0), Q(HF, H4, HE, H9), 0xf4e911a7, 0xf4e9,
        0xf4e9e54e);
    }
    assert Xor(0xf14c639a, 0x78a63) == 0xf14be9f9 by {
      Xor32To(Q(HF, H1, H4, HC), Q(H6, H3, H9, HA), Q(H0, H0, H0, H7), Q(H8, HA, H6, H3), 0xf14c639a, 0x78a63,
        0xf14be9f9);
    }
    assert Xor(0xeee0ae8d, 0xeee0) == 0xeee0406d by {
      Xor32To(Q(HE, HE, HE, H0), Q(HA, HE, H8, HD), Q(H0, H0, H0, H0), Q(HE, HE, HE, H0), 0xeee0ae8d, 0xeee0,
        0xeee0406d);
    }
    ShrTo(0xf4e911a7, 16, 0x10000, 0xf4e9, 0x11a7);
    MulTo(0xf4e9e54e, 0x85ebca6b, 32, 0x100000000, 0x801f187d, 0xf14c639a);
    ShrTo(0xf14c639a, 13, 0x2000, 0x78a63, 0x39a);
    MulTo(0xf14be9f9, 0xc2b2ae35, 32, 0x100000000, 0xb783f24a, 0xeee0ae8d);
    ShrTo(0xeee0ae8d, 16, 0x10000, 0xeee0, 0xae8d);
  }

  lemma Fmix128At3()
    ensures Fmix32(0xd92e2bb9) == 0x39046bd1
  {
    hide Xor, Low, Shr, Rotl, Mul, Add, Pow2;
    Powers();
    assert Xor(0xd92e2bb9, 0xd92e) == 0xd92ef297 by {
      Xor32To(Q(HD, H9, H2, HE), Q(H2, HB, HB, H9), Q(H0, H0, H0, H0), Q(HD, H9, H2, HE), 0xd92e2bb9, 0xd92e,
        0xd92ef297);
    }
    assert Xor(0xf5a78b1d, 0x7ad3c) == 0xf5a02621 by {
      Xor32To(Q(HF, H5, HA, H7), Q(H8, HB, H1, HD), Q(H0, H0, H0, H7), Q(HA, HD, H3, HC), 0xf5a78b1d, 0x7ad3c,
        0xf5a02621);
    }
    assert Xor(0x390452d5, 0x3904) == 0x39046bd1 by {
      Xor32To(Q(H3, H9, H0, H4), Q(H5, H2, HD, H5), Q(H0, H0, H0, H0), Q(H3, H9, H0, H4), 0x390452d5, 0x3904,
        0x39046bd1);
    }
    ShrTo(0xd92e2bb9, 16, 0x10000, 0xd92e, 0x2bb9);
    MulTo(0xd92ef297, 0x85ebca6b, 32, 0x100000000, 0x719d6dda, 0xf5a78b1d);
    ShrTo(0xf5a78b1d, 13, 0x2000, 0x7ad3c, 0xb1d);
    MulTo(0xf5a02621, 0xc2b2ae35, 32, 0x100000000, 0xbacecd65, 0x390452d5);
    ShrTo(0x390452d5, 16, 0x10000, 0x3904, 0x52d5);
  }

  lemma Fmix128At4()
    ensures Fmix32(0xb3ad38e0) == 0xde6e93f6
  {
    hide Xor, Low, Shr, Rotl, Mul, Add, Pow2;
    Powers();
    assert Xor(0xb3ad38e0, 0xb3ad) == 0xb3ad8b4d by {
      Xor32To(Q(HB, H3, HA, HD), Q(H3, H8, HE, H0), Q(H0, H0, H0, H0), Q(HB, H3, HA, HD), 0xb3ad38e0, 0xb3ad,
        0xb3ad8b4d);
    }
    assert Xor(0xea22fb2f, 0x75117) == 0xea25aa38 by {
      Xor32To(Q(HE, HA, H2, H2), Q(HF, HB, H2, HF), Q(H0, H0, H0, H7), Q(H5, H1, H1, H7), 0xea22fb2f, 0x75117,
        0xea25aa38);
    }
    assert Xor(0xde6e4d98, 0xde6e) == 0xde6e93f6 by {
      Xor32To(Q(HD, HE, H6, HE), Q(H4, HD, H9, H8), Q(H0, H0, H0, H0), Q(HD, HE, H6, HE), 0xde6e4d98, 0xde6e,
        0xde6e93f6);
    }
    ShrTo(0xb3ad38e0, 16, 0x10000, 0xb3ad, 0x38e0);
    MulTo(0xb3ad8b4d, 0x85ebca6b, 32, 0x100000000, 0x5dfea7bf, 0xea22fb2f);
    ShrTo(0xea22fb2f, 13, 0x2000, 0x75117, 0x1b2f);
    MulTo(0xea25aa38, 0xc2b2ae35, 32, 0x100000000, 0xb213f884, 0xde6e4d98);
    ShrTo(0xde6e4d98, 16, 0x10000, 0xde6e, 0x4d98);
  }

  lemma Last128()
    ensures X128.Cross(X128.Quad(0x2233f507, 0xeee0406d, 0x39046bd1, 0xde6e93f6)) == X128.Quad(0x2887353b, 0x176775a8, 0x618ba10c, 0x6f5c931)
  {
    hide Xor, Low, Shr, Rotl, Mul, Add, Pow2;
    Powers();
    AddTo(0x2233f507, 0xeee0406d, 32, 0x100000000, 0x11143574);
    AddTo(0x11143574, 0x39046bd1, 32, 0x100000000, 0x4a18a145);
    AddTo(0x4a18a145, 0xde6e93f6, 32, 0x100000000, 0x2887353b);
    AddTo(0xeee0406d, 0x2887353b, 32, 0x100000000, 0x176775a8);
    AddTo(0x39046bd1, 0x2887353b, 32, 0x100000000, 0x618ba10c);
    AddTo(0xde6e93f6, 0x2887353b, 32, 0x100000000, 0x6f5c931);
  }

  /** A full block and a tail of fifteen bytes. */
  lemma CountingX86x128(key: seq<u8>, seed: nat)
    requires key == Counting(31) && seed == 0x4b91209
    ensures X128.Murmur(key, seed) == X128.Quad(0x2887353b, 0x176775a8, 0x618ba10c, 0x6f5c931)
  {
    hide X128.Taken, X128.MixLength, X128.Cross, Fmix32, Counting;
    CountingLen(31);
    Taken128();
    Length128();
    Cross128();
    Fmix128At1();
    Fmix128At2();
    Fmix128At3();
    Fmix128At4();
    Last128();
  }

  // MurmurHash3_x86_32

  lemma Words32()
    ensures Word(Counting(7), 0, 4) == 0x4030201
    ensures Word(Counting(7), 4, 4) == 0x70605
  {
    hide Word, Counting;
    CountingWord(7, 0);
    CountingWord(7, 4);
  }

  lemma Block32()
    ensures X32.Step(0x4b91209, 0x4030201) == 0xa36cc9d4
  {
    hide Xor, Low, Shr, Rotl, Mul, Add, Pow2;
    Powers();
    assert Xor(0x4b91209, 0xf93bda2f) == 0xfd82c826 by {
      Xor32To(Q(H0, H4, HB, H9), Q(H1, H2, H0, H9), Q(HF, H9, H3, HB), Q(HD, HA, H2, HF), 0x4b91209,
        0xf93bda2f, 0xfd82c826);
    }
    MulTo(0x4030201, 0xcc9e2d51, 32, 0x100000000, 0x334e029, 0xd4ebcf51);
    RotlTo(0xd4ebcf51, 15, 32, 0x100000000, 0x8000, 0x20000, 0x6a75, 0x1cf51, 0xe7a8ea75);
    MulTo(0xe7a8ea75, 0x1b873593, 32, 0x100000000, 0x18e92b48, 0xf93bda2f);
    RotlTo(0xfd82c826, 13, 32, 0x100000000, 0x2000, 0x80000, 0x1fb0, 0x2c826, 0x5904dfb0);
    MulTo(0x5904dfb0, 0x5, 32, 0x100000000, 0x1, 0xbd185e70);
    AddTo(0xbd185e70, 0xe6546b64, 32, 0x100000000, 0xa36cc9d4);
  }

  lemma Tail32()
    ensures Xor(X32.Take(0xa36cc9d4, 0x70605), 7) == 0xb9261839
  {
    hide Xor, Low, Shr, Rotl, Mul, Add, Pow2;
    Powers();
    assert Xor(0xa36cc9d4, 0x1a4ad1ea) == 0xb926183e by {
      Xor32To(Q(HA, H3, H6, HC), Q(HC, H9, HD, H4), Q(H1, HA, H4, HA), Q(HD, H1, HE, HA), 0xa36cc9d4,
        0x1a4ad1ea, 0xb926183e);
    }
    assert Xor(0xb926183e, 0x7) == 0xb9261839 by {
      Xor32To(Q(HB, H9, H2, H6), Q(H1, H8, H3, HE), Q(H0, H0, H0, H0), Q(H0, H0, H0, H7), 0xb926183e, 0x7,
        0xb9261839);
    }
    MulTo(0x70605, 0xcc9e2d51, 32, 0x100000000, 0x59d22, 0xf15dc895);
    RotlTo(0xf15dc895, 15, 32, 0x100000000, 0x8000, 0x20000, 0x78ae, 0x1c895, 0xe44af8ae);
    MulTo(0xe44af8ae, 0x1b873593, 32, 0x100000000, 0x188c7b8a, 0x1a4ad1ea);
  }

  lemma Fmix32At()
    ensures Fmix32(0xb9261839) == 0xac13f9fc
  {
    hide Xor, Low, Shr, Rotl, Mul, Add, Pow2;
    Powers();
    assert Xor(0xb9261839, 0xb926) == 0xb926a11f by {
      Xor32To(Q(HB, H9, H2, H6), Q(H1, H8, H3, H9), Q(H0, H0, H0, H0), Q(HB, H9, H2, H6), 0xb9261839, 0xb926,
        0xb926a11f);
    }
    assert Xor(0xe0bccdf5, 0x705e6) == 0xe0bbc813 by {
      Xor32To(Q(HE, H0, HB, HC), Q(HC, HD, HF, H5), Q(H0, H0, H0, H7), Q(H0, H5, HE, H6), 0xe0bccdf5, 0x705e6,
        0xe0bbc813);
    }
    assert Xor(0xac1355ef, 0xac13) == 0xac13f9fc by {
      Xor32To(Q(HA, HC, H1, H3), Q(H5, H5, HE, HF), Q(H0, H0, H0, H0), Q(HA, HC, H1, H3), 0xac1355ef, 0xac13,
        0xac13f9fc);
    }
    ShrTo(0xb9261839, 16, 0x10000, 0xb926, 0x1839);
    MulTo(0xb926a11f, 0x85ebca6b, 32, 0x100000000, 0x60db9a90, 0xe0bccdf5);
    ShrTo(0xe0bccdf5, 13, 0x2000, 0x705e6, 0xdf5);
    MulTo(0xe0bbc813, 0xc2b2ae35, 32, 0x100000000, 0xaaeb291d, 0xac1355ef);
    ShrTo(0xac1355ef, 16, 0x10000, 0xac13, 0x55ef);
  }

  /** A full block and a tail of three bytes. */
  lemma CountingX86x32()
    ensures X32.Murmur(Counting(7), 0x4b91209) == 0xac13f9fc
  {
    hide X32.Step, X32.Take, Xor, Fmix32, Word, Counting;
    CountingLen(7);
    Words32();
    Block32();
    Tail32();
    Fmix32At();
    assert X32.Body(Counting(7), 0x4b91209, 0) == 0x4b91209;
    assert X32.Body(Counting(7), 0x4b91209, 1) == 0xa36cc9d4;
  }
}

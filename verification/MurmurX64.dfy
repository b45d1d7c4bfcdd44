/** MurmurHash3_x64_128. */
module MurmurX64 {
  import opened Words
  import opened Mixing

  const C1: nat := 0x87c37b91114253d5
  const C2: nat := 0x4cf5ad432745937f

  datatype Hash = Hash(h1: nat, h2: nat) {
    predicate Ok() { Fits(h1, 64) && Fits(h2, 64) }
  }

  function Mix1(k: nat): nat { Mix(k, C1, 31, C2, 64) }

  function Mix2(k: nat): nat { Mix(k, C2, 33, C1, 64) }

  /** One block of the body. */
  function Step(h: Hash, k1: nat, k2: nat): Hash {
    var h1 := Lane(Xor(h.h1, Mix1(k1)), h.h2, 27, 0x52dce729, 64);
    Hash(h1, Lane(Xor(h.h2, Mix2(k2)), h1, 31, 0x38495ab5, 64))
  }

  /** The state after i blocks. */
  function Body(key: seq<u8>, seed: nat, i: nat): Hash
    decreases i
  {
    if i == 0 then Hash(seed, seed)
    else BlockStep(Body(key, seed, i - 1), key, i - 1)
  }

  /** Taking in the i-th block. */
  function BlockStep(h: Hash, key: seq<u8>, i: nat): Hash {
    Step(h, Word(key, 16 * i, 8), Word(key, 16 * i + 8, 8))
  }

  /** Taking in the bytes from p on, padded with zeros to sixteen. */
  function Tail(h: Hash, key: seq<u8>, p: nat): Hash {
    Hash(Xor(h.h1, Mix1(Word(key, p, 8))), Xor(h.h2, Mix2(Word(key, p + 8, 8))))
  }

  function Cross(h: Hash): Hash {
    var h1 := Add(h.h1, h.h2, 64);
    Hash(h1, Add(h.h2, h1, 64))
  }

  function Finish(h: Hash, len: nat): Hash {
    var x := Cross(Hash(Xor(h.h1, len), Xor(h.h2, len)));
    Cross(Hash(Fmix64(x.h1), Fmix64(x.h2)))
  }

  function Murmur(key: seq<u8>, seed: nat): Hash {
    Finish(Taken(key, seed), |key|)
  }

  // The algorithm.

  /** The body of the loop over the blocks. */
  method Block(h: Hash, k: nat, l: nat) returns (r: Hash)
    ensures r == Step(h, k, l)
  {
    var h1, h2, k1, k2 := h.h1, h.h2, k, l;
    k1 := Mul(k1, C1, 64);
    k1 := Rotl(k1, 31, 64);
    k1 := Mul(k1, C2, 64);
    h1 := Xor(h1, k1);

    h1 := Rotl(h1, 27, 64);
    h1 := Add(h1, h2, 64);
    h1 := Add(Mul(h1, 5, 64), 0x52dce729, 64);

    k2 := Mul(k2, C2, 64);
    k2 := Rotl(k2, 33, 64);
    k2 := Mul(k2, C1, 64);
    h2 := Xor(h2, k2);

    h2 := Rotl(h2, 31, 64);
    h2 := Add(h2, h1, 64);
    h2 := Add(Mul(h2, 5, 64), 0x38495ab5, 64);
    return Hash(h1, h2);
  }

  /** The tail switch: each case falls through to the next. */
  method TailSwitch(key: seq<u8>, p: nat, h: Hash) returns (r: Hash)
    requires p <= |key| < p + 16
    ensures r == Tail(h, key, p)
  {
    hide Xor, Shl, Mul, Rotl, Upper, Word;
    var k1, k2, h1, h2 := 0, 0, h.h1, h.h2;
    var t := |key| - p;
    UpperEnds(key, p + 8, 8);
    UpperEnds(key, p, 8);
    TailByte(key, p + 8, 8, 7, 64);
    TailByte(key, p + 8, 8, 6, 64);
    TailByte(key, p + 8, 8, 5, 64);
    TailByte(key, p + 8, 8, 4, 64);
    TailByte(key, p + 8, 8, 3, 64);
    TailByte(key, p + 8, 8, 2, 64);
    TailByte(key, p + 8, 8, 1, 64);
    TailByte(key, p + 8, 8, 0, 64);
    if t >= 15 { k2 := Xor(k2, Shl(key[p + 14], 48, 64)); }
    if t >= 14 { k2 := Xor(k2, Shl(key[p + 13], 40, 64)); }
    if t >= 13 { k2 := Xor(k2, Shl(key[p + 12], 32, 64)); }
    if t >= 12 { k2 := Xor(k2, Shl(key[p + 11], 24, 64)); }
    if t >= 11 { k2 := Xor(k2, Shl(key[p + 10], 16, 64)); }
    if t >= 10 { k2 := Xor(k2, Shl(key[p + 9], 8, 64)); }
    if t >= 9 {
      k2 := Xor(k2, Shl(key[p + 8], 0, 64));
      assert k2 == Word(key, p + 8, 8);
      k2 := Mul(k2, C2, 64);
      k2 := Rotl(k2, 33, 64);
      k2 := Mul(k2, C1, 64);
      h2 := Xor(h2, k2);
    } else {
      MixZero(C2, 33, C1, 64);
      XorZero(h2);
    }
    assert h2 == Xor(h.h2, Mix2(Word(key, p + 8, 8)));
    TailByte(key, p, 8, 7, 64);
    TailByte(key, p, 8, 6, 64);
    TailByte(key, p, 8, 5, 64);
    TailByte(key, p, 8, 4, 64);
    TailByte(key, p, 8, 3, 64);
    TailByte(key, p, 8, 2, 64);
    TailByte(key, p, 8, 1, 64);
    TailByte(key, p, 8, 0, 64);
    if t >= 8 { k1 := Xor(k1, Shl(key[p + 7], 56, 64)); }
    if t >= 7 { k1 := Xor(k1, Shl(key[p + 6], 48, 64)); }
    if t >= 6 { k1 := Xor(k1, Shl(key[p + 5], 40, 64)); }
    if t >= 5 { k1 := Xor(k1, Shl(key[p + 4], 32, 64)); }
    if t >= 4 { k1 := Xor(k1, Shl(key[p + 3], 24, 64)); }
    if t >= 3 { k1 := Xor(k1, Shl(key[p + 2], 16, 64)); }
    if t >= 2 { k1 := Xor(k1, Shl(key[p + 1], 8, 64)); }
    if t >= 1 {
      k1 := Xor(k1, Shl(key[p], 0, 64));
      assert k1 == Word(key, p, 8);
      k1 := Mul(k1, C1, 64);
      k1 := Rotl(k1, 31, 64);
      k1 := Mul(k1, C2, 64);
      h1 := Xor(h1, k1);
    } else {
      MixZero(C1, 31, C2, 64);
      XorZero(h1);
    }
    return Hash(h1, h2);
  }

  method Finalize(h: Hash, len: nat) returns (r: Hash)
    ensures r == Finish(h, len)
  {
    var h1, h2 := Xor(h.h1, len), Xor(h.h2, len);
    h1 := Add(h1, h2, 64);
    h2 := Add(h2, h1, 64);
    h1 := FinalMix64(h1);
    h2 := FinalMix64(h2);
    h1 := Add(h1, h2, 64);
    h2 := Add(h2, h1, 64);
    return Hash(h1, h2);
  }

  /** MurmurHash3_x64_128 */
  method Murmur3(key: seq<u8>, seed: nat, out: array<nat>)
    requires |key| < 0x8000_0000 && Fits(seed, 32) && 2 <= out.Length
    modifies out
    ensures Hash(out[0], out[1]) == Murmur(key, seed)
    ensures forall i :: 2 <= i < out.Length ==> out[i] == old(out[i])
  {
    hide Step, Tail, Finish, Fits, Pow2, Word;
    var nblocks := |key| / 16;
    var h := Hash(seed, seed);
    var i := 0;
    while i < nblocks
      invariant 0 <= i <= nblocks && h == Body(key, seed, i)
      modifies {}
    {
      h := Block(h, GetBlock(key, 0, i * 2 + 0, 8), GetBlock(key, 0, i * 2 + 1, 8));
      i := i + 1;
    }
    h := TailSwitch(key, nblocks * 16, h);
    h := Finalize(h, |key|);
    out[0] := h.h1;
    out[1] := h.h2;
  }

  // What the hash keeps apart.

  lemma Units()
    ensures Unit(C1, 64) && Unit(C2, 64) && Unit(5, 64)
  {
    hide Low, Pow2;
    Pow2Values();
    UnitIs(C1, 0xa98409e882ce4d7d, 0x59e6129fa91071c3, 0x1_0000_0000_0000_0000, 64);
    UnitIs(C2, 0xa81e14edd9de2c7f, 0x328a44c9121df37a, 0x1_0000_0000_0000_0000, 64);
    UnitIs(5, 0xcccccccccccccccd, 4, 0x1_0000_0000_0000_0000, 64);
  }

  lemma MixOk(k: nat, l: nat)
    requires Fits(k, 64) && Fits(l, 64)
    ensures Fits(Mix1(k), 64) && Fits(Mix2(k), 64)
    ensures Mix1(k) == Mix1(l) ==> k == l
    ensures Mix2(k) == Mix2(l) ==> k == l
  {
    hide Mix, Unit, Fits;
    Units();
    MixInjective(k, l, C1, 31, C2, 64);
    MixInjective(k, l, C2, 33, C1, 64);
  }

  lemma StepOk(h: Hash, k1: nat, k2: nat)
    requires h.Ok() && Fits(k1, 64) && Fits(k2, 64)
    ensures Step(h, k1, k2).Ok() && Fits(Xor(h.h1, Mix1(k1)), 64) && Fits(Xor(h.h2, Mix2(k2)), 64)
  {
    hide Lane, Mix1, Mix2, Unit, Fits, Xor;
    Units();
    MixOk(k1, k1);
    MixOk(k2, k2);
    var x, y := Xor(h.h1, Mix1(k1)), Xor(h.h2, Mix2(k2));
    XorFits(h.h1, Mix1(k1), 64);
    XorFits(h.h2, Mix2(k2), 64);
    LaneInjective(x, x, h.h2, 27, 0x52dce729, 64);
    LaneInjective(y, y, Step(h, k1, k2).h1, 31, 0x38495ab5, 64);
  }

  /** A block step can be undone: from its result and the block, the state before; from its result
      and the state before, the block. */
  lemma StepInjective(h: Hash, k1: nat, k2: nat, g: Hash, l1: nat, l2: nat)
    requires h.Ok() && g.Ok() && Fits(k1, 64) && Fits(k2, 64) && Fits(l1, 64) && Fits(l2, 64)
    requires Step(h, k1, k2) == Step(g, l1, l2)
    requires h == g || (k1 == l1 && k2 == l2)
    ensures h == g && k1 == l1 && k2 == l2
  {
    hide Lane, Mix1, Mix2, Unit, Fits, Xor;
    Units();
    StepOk(h, k1, k2);
    StepOk(g, l1, l2);
    LaneInjective(Xor(h.h2, Mix2(k2)), Xor(g.h2, Mix2(l2)), Step(h, k1, k2).h1, 31, 0x38495ab5, 64);
    XorInjective(h.h2, g.h2, Mix2(k2));
    XorInjective(Mix2(k2), Mix2(l2), h.h2);
    MixOk(k2, l2);
    LaneInjective(Xor(h.h1, Mix1(k1)), Xor(g.h1, Mix1(l1)), h.h2, 27, 0x52dce729, 64);
    XorInjective(h.h1, g.h1, Mix1(k1));
    XorInjective(Mix1(k1), Mix1(l1), h.h1);
    MixOk(k1, l1);
  }

  lemma CrossInjective(h: Hash, g: Hash)
    requires h.Ok() && g.Ok()
    ensures Cross(h).Ok() && (Cross(h) == Cross(g) ==> h == g)
  {
    hide Add, Fits;
    MulFits(h.h1, h.h2, 64);
    MulFits(h.h2, Cross(h).h1, 64);
    if Cross(h) == Cross(g) {
      AddInjective(h.h2, g.h2, Cross(h).h1, 64);
      AddInjective(h.h1, g.h1, h.h2, 64);
    }
  }

  lemma FinishInjective(h: Hash, g: Hash, len: nat)
    requires h.Ok() && g.Ok() && Fits(len, 64) && Finish(h, len) == Finish(g, len)
    ensures h == g
  {
    hide Cross, Fmix64, Fits, Xor;
    var x, y := Hash(Xor(h.h1, len), Xor(h.h2, len)), Hash(Xor(g.h1, len), Xor(g.h2, len));
    XorFits(h.h1, len, 64);
    XorFits(h.h2, len, 64);
    XorFits(g.h1, len, 64);
    XorFits(g.h2, len, 64);
    CrossInjective(x, y);
    CrossInjective(y, x);
    var u, v := Cross(x), Cross(y);
    Fmix64Back(u.h1);
    Fmix64Back(u.h2);
    Fmix64Back(v.h1);
    Fmix64Back(v.h2);
    CrossInjective(Hash(Fmix64(u.h1), Fmix64(u.h2)), Hash(Fmix64(v.h1), Fmix64(v.h2)));
    XorInjective(h.h1, g.h1, len);
    XorInjective(h.h2, g.h2, len);
  }

  lemma BlockStepOk(h: Hash, key: seq<u8>, i: nat)
    requires h.Ok()
    ensures BlockStep(h, key, i).Ok()
  {
    hide Step, Fits, Word;
    WordFits(key, 16 * i, 8);
    WordFits(key, 16 * i + 8, 8);
    StepOk(h, Word(key, 16 * i, 8), Word(key, 16 * i + 8, 8));
  }

  lemma {:induction false} BodyOk(key: seq<u8>, seed: nat, i: nat)
    requires Fits(seed, 64)
    ensures Body(key, seed, i).Ok()
    decreases i
  {
    hide BlockStep, Fits;
    if i > 0 {
      BodyOk(key, seed, i - 1);
      BlockStepOk(Body(key, seed, i - 1), key, i - 1);
    }
  }

  ghost predicate SameBlock(a: seq<u8>, b: seq<u8>, i: nat) {
    Word(a, 16 * i, 8) == Word(b, 16 * i, 8) && Word(a, 16 * i + 8, 8) == Word(b, 16 * i + 8, 8)
  }

  /** Blocks are the same exactly when their bytes are. */
  lemma SameBlockIs(a: seq<u8>, b: seq<u8>, i: nat)
    ensures SameBlock(a, b, i) <==> SameBytes(a, b, 16 * i, 16)
  {
    hide Word;
    WordInjective(a, b, 16 * i, 8);
    WordInjective(a, b, 16 * i + 8, 8);
  }

  lemma OtherBlocks(a: seq<u8>, b: seq<u8>, j: nat, i: nat)
    requires OnlyBlock(a, b, 16, j)
    ensures i != j ==> SameBlock(a, b, i)
    ensures SameBlock(a, b, j) ==> a == b
    ensures |a| == |b|
  {
    hide SameBlock, SameBytes;
    OtherBytes(a, b, 16, j, i);
    SameBlockIs(a, b, i);
    SameBlockIs(a, b, j);
  }

  lemma BlockStepInjective(h: Hash, g: Hash, a: seq<u8>, b: seq<u8>, i: nat)
    requires h.Ok() && g.Ok() && (h == g || SameBlock(a, b, i))
    ensures BlockStep(h, a, i) == BlockStep(g, b, i) <==> h == g && SameBlock(a, b, i)
  {
    hide Step, Fits, Word;
    WordFits(a, 16 * i, 8);
    WordFits(a, 16 * i + 8, 8);
    WordFits(b, 16 * i, 8);
    WordFits(b, 16 * i + 8, 8);
    if BlockStep(h, a, i) == BlockStep(g, b, i) {
      StepInjective(h, Word(a, 16 * i, 8), Word(a, 16 * i + 8, 8), g, Word(b, 16 * i, 8), Word(b, 16 * i + 8, 8));
    }
  }

  /** Through the blocks a difference appears in block j and never goes away. */
  lemma {:induction false} BodyDiffers(a: seq<u8>, b: seq<u8>, seed: nat, j: nat, i: nat)
    requires OnlyBlock(a, b, 16, j) && a != b && Fits(seed, 64)
    ensures Body(a, seed, i) == Body(b, seed, i) <==> i <= j
    decreases i
  {
    hide BlockStep, SameBlock, Fits, OnlyBlock;
    if i > 0 {
      BodyDiffers(a, b, seed, j, i - 1);
      OtherBlocks(a, b, j, i - 1);
      BodyOk(a, seed, i - 1);
      BodyOk(b, seed, i - 1);
      BlockStepInjective(Body(a, seed, i - 1), Body(b, seed, i - 1), a, b, i - 1);
    }
  }

  lemma TailDiffers(a: seq<u8>, b: seq<u8>, h: Hash, g: Hash, i: nat)
    requires h.Ok() && g.Ok() && (h == g || SameBlock(a, b, i)) && Tail(h, a, 16 * i) == Tail(g, b, 16 * i)
    ensures h == g && SameBlock(a, b, i)
  {
    hide Mix1, Mix2, Xor, Fits, Word;
    var p := 16 * i;
    WordFits(a, p, 8);
    WordFits(b, p, 8);
    WordFits(a, p + 8, 8);
    WordFits(b, p + 8, 8);
    MixOk(Word(a, p, 8), Word(b, p, 8));
    MixOk(Word(a, p + 8, 8), Word(b, p + 8, 8));
    XorInjective(h.h1, g.h1, Mix1(Word(a, p, 8)));
    XorInjective(h.h2, g.h2, Mix2(Word(a, p + 8, 8)));
    XorInjective(Mix1(Word(a, p, 8)), Mix1(Word(b, p, 8)), h.h1);
    XorInjective(Mix2(Word(a, p + 8, 8)), Mix2(Word(b, p + 8, 8)), h.h2);
  }

  lemma TailOk(key: seq<u8>, h: Hash, p: nat)
    requires h.Ok()
    ensures Tail(h, key, p).Ok()
  {
    hide Mix1, Mix2, Xor, Fits, Word;
    WordFits(key, p, 8);
    WordFits(key, p + 8, 8);
    MixOk(Word(key, p, 8), Word(key, p + 8, 8));
    MixOk(Word(key, p + 8, 8), Word(key, p, 8));
    XorFits(h.h1, Mix1(Word(key, p, 8)), 64);
    XorFits(h.h2, Mix2(Word(key, p + 8, 8)), 64);
  }

  /** What goes into the finalization: everything but the mixing of the length. */
  function Taken(key: seq<u8>, seed: nat): Hash {
    Tail(Body(key, seed, |key| / 16), key, 16 * (|key| / 16))
  }

  lemma TakenOk(key: seq<u8>, seed: nat)
    requires Fits(seed, 64)
    ensures Taken(key, seed).Ok()
  {
    hide Body, Tail, Fits;
    BodyOk(key, seed, |key| / 16);
    TailOk(key, Body(key, seed, |key| / 16), 16 * (|key| / 16));
  }

  lemma TakenDiffers(a: seq<u8>, b: seq<u8>, seed: nat, j: nat)
    requires OnlyBlock(a, b, 16, j) && j <= |a| / 16 && Fits(seed, 64)
    ensures Taken(a, seed) == Taken(b, seed) ==> a == b
  {
    hide Body, Tail, SameBlock, Fits, OnlyBlock;
    var i := |a| / 16;
    OtherBlocks(a, b, j, i);
    if Taken(a, seed) == Taken(b, seed) && a != b {
      BodyOk(a, seed, i);
      BodyOk(b, seed, i);
      BodyDiffers(a, b, seed, j, i);
      TailDiffers(a, b, Body(a, seed, i), Body(b, seed, i), i);
    }
  }

  /** Two keys of one length that differ inside one 16-byte block, or inside the tail, never have the
      same 128-bit hash. */
  lemma OneBlockNoCollision(a: seq<u8>, b: seq<u8>, seed: nat, j: nat)
    requires OnlyBlock(a, b, 16, j) && j <= |a| / 16 && |a| < 0x8000_0000 && Fits(seed, 32)
    ensures Murmur(a, seed) == Murmur(b, seed) <==> a == b
  {
    hide Taken, Finish, Fits, OnlyBlock, Pow2, SameBlock;
    OtherBlocks(a, b, j, j);
    Widths(|a|);
    Widths(seed);
    TakenOk(a, seed);
    TakenOk(b, seed);
    if Murmur(a, seed) == Murmur(b, seed) {
      FinishInjective(Taken(a, seed), Taken(b, seed), |a|);
      TakenDiffers(a, b, seed, j);
    }
  }
}

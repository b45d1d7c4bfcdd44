/** MurmurHash3_x86_32. */
module MurmurX86x32 {
  import opened Words
  import opened Mixing

  const C1: nat := 0xcc9e2d51
  const C2: nat := 0x1b873593

  /** Exclusive or with the mixed word. */
  function Take(h: nat, k: nat): nat { Xor(h, Mix(k, C1, 15, C2, 32)) }

  /** One block of the body. */
  function Step(h: nat, k: nat): nat {
    Add(Mul(Rotl(Take(h, k), 13, 32), 5, 32), 0xe6546b64, 32)
  }

  /** The state after i blocks. */
  function Body(key: seq<u8>, seed: nat, i: nat): nat
    decreases i
  {
    if i == 0 then seed else Step(Body(key, seed, i - 1), Word(key, 4 * (i - 1), 4))
  }

  /** What goes into the finalization: the blocks and the padded tail. */
  function Taken(key: seq<u8>, seed: nat): nat {
    Take(Body(key, seed, |key| / 4), Word(key, 4 * (|key| / 4), 4))
  }

  function Murmur(key: seq<u8>, seed: nat): nat {
    Fmix32(Xor(Taken(key, seed), |key|))
  }

  /** The body of the loop over the blocks. */
  method Block(h: nat, k: nat) returns (h1: nat)
    ensures h1 == Step(h, k)
  {
    hide Xor, Low;
    var k1 := k;
    h1 := h;
    k1 := Mul(k1, C1, 32);
    k1 := Rotl(k1, 15, 32);
    k1 := Mul(k1, C2, 32);

    h1 := Xor(h1, k1);
    h1 := Rotl(h1, 13, 32);
    h1 := Add(Mul(h1, 5, 32), 0xe6546b64, 32);
  }

  /** The tail switch: each case falls through to the next. */
  method TailSwitch(key: seq<u8>, p: nat, h: nat) returns (h1: nat)
    requires p <= |key| < p + 4
    ensures h1 == Take(h, Word(key, p, 4))
  {
    hide Xor, Shl, Mul, Rotl, Upper, Word;
    var k1, t := 0, |key| - p;
    h1 := h;
    UpperEnds(key, p, 4);
    TailByte(key, p, 4, 3, 32);
    TailByte(key, p, 4, 2, 32);
    TailByte(key, p, 4, 1, 32);
    TailByte(key, p, 4, 0, 32);
    if t >= 3 { k1 := Xor(k1, Shl(key[p + 2], 16, 32)); }
    if t >= 2 { k1 := Xor(k1, Shl(key[p + 1], 8, 32)); }
    if t >= 1 {
      k1 := Xor(k1, Shl(key[p], 0, 32));
      assert k1 == Word(key, p, 4);
      k1 := Mul(k1, C1, 32);
      k1 := Rotl(k1, 15, 32);
      k1 := Mul(k1, C2, 32);
      h1 := Xor(h1, k1);
    } else {
      MixZero(C1, 15, C2, 32);
      XorZero(h1);
    }
  }

  /** MurmurHash3_x86_32. The blocks are addressed backwards from their end. */
  method Murmur3(key: seq<u8>, seed: nat, out: array<nat>)
    requires |key| < 0x8000_0000 && Fits(seed, 32) && 1 <= out.Length
    modifies out
    ensures out[0] == Murmur(key, seed)
    ensures forall i :: 1 <= i < out.Length ==> out[i] == old(out[i])
  {
    hide Step, Take, Fits, Pow2, Word, Fmix32, Xor;
    var nblocks := |key| / 4;
    var h1 := seed;
    var blocks := nblocks * 4;
    var i := -nblocks;
    while i != 0
      invariant -nblocks <= i <= 0 && h1 == Body(key, seed, nblocks + i)
      decreases -i
      modifies {}
    {
      h1 := Block(h1, GetBlock(key, blocks, i, 4));
      i := i + 1;
    }
    h1 := TailSwitch(key, blocks, h1);
    h1 := Xor(h1, |key|);
    h1 := FinalMix32(h1);
    out[0] := h1;
  }

  lemma Units()
    ensures Unit(C1, 32) && Unit(C2, 32) && Unit(5, 32)
  {
    hide Low, Pow2;
    Pow2Values();
    UnitIs(C1, 0xdee13bb1, 0xb2253208, 0x1_0000_0000, 32);
    UnitIs(C2, 0x56ed309b, 0x958ed66, 0x1_0000_0000, 32);
    UnitIs(5, 0xcccccccd, 4, 0x1_0000_0000, 32);
  }

  lemma TakeInjective(h: nat, k: nat, g: nat, l: nat)
    requires Fits(h, 32) && Fits(k, 32) && Fits(l, 32) && (h == g || k == l)
    ensures Take(h, k) == Take(g, l) <==> h == g && k == l
    ensures Fits(Take(h, k), 32)
  {
    hide Mix, Unit, Fits, Xor;
    Units();
    MixInjective(k, l, C1, 15, C2, 32);
    var x, y := Mix(k, C1, 15, C2, 32), Mix(l, C1, 15, C2, 32);
    XorFits(h, x, 32);
    XorInjective(h, g, x);
    XorInjective(x, y, h);
  }

  /** A block step can be undone: from its result and the block, the state before; from its result
      and the state before, the block. */
  lemma StepInjective(h: nat, k: nat, g: nat, l: nat)
    requires Fits(h, 32) && Fits(g, 32) && Fits(k, 32) && Fits(l, 32) && (h == g || k == l)
    ensures Step(h, k) == Step(g, l) <==> h == g && k == l
    ensures Fits(Step(h, k), 32)
  {
    hide Take, Unit, Fits, Mul, Rotl, Add;
    Units();
    TakeInjective(h, k, g, l);
    TakeInjective(g, l, h, k);
    var x, y := Rotl(Take(h, k), 13, 32), Rotl(Take(g, l), 13, 32);
    RotlBack(Take(h, k), 13, 32);
    RotlBack(Take(g, l), 13, 32);
    MulFits(x, 5, 32);
    MulFits(y, 5, 32);
    MulFits(Mul(x, 5, 32), 0xe6546b64, 32);
    if Step(h, k) == Step(g, l) {
      AddInjective(Mul(x, 5, 32), Mul(y, 5, 32), 0xe6546b64, 32);
      MulInjective(x, y, 5, 32);
    }
  }

  lemma {:induction false} BodyOk(key: seq<u8>, seed: nat, i: nat)
    requires Fits(seed, 32)
    ensures Fits(Body(key, seed, i), 32)
    decreases i
  {
    hide Fits, Step, Word;
    if i > 0 {
      BodyOk(key, seed, i - 1);
      var h, k := Body(key, seed, i - 1), Word(key, 4 * (i - 1), 4);
      WordFits(key, 4 * (i - 1), 4);
      StepInjective(h, k, h, k);
    }
  }

  lemma OtherBlocks(a: seq<u8>, b: seq<u8>, j: nat, i: nat)
    requires OnlyBlock(a, b, 4, j)
    ensures i != j ==> Word(a, 4 * i, 4) == Word(b, 4 * i, 4)
    ensures Word(a, 4 * j, 4) == Word(b, 4 * j, 4) ==> a == b
    ensures |a| == |b|
  {
    hide Word;
    OtherBytes(a, b, 4, j, i);
    WordInjective(a, b, 4 * i, 4);
    WordInjective(a, b, 4 * j, 4);
  }

  /** Through the blocks a difference appears in block j and never goes away. */
  lemma {:induction false} BodyDiffers(a: seq<u8>, b: seq<u8>, seed: nat, j: nat, i: nat)
    requires OnlyBlock(a, b, 4, j) && a != b && Fits(seed, 32)
    ensures Body(a, seed, i) == Body(b, seed, i) <==> i <= j
    decreases i
  {
    hide Step, Word, Fits, OnlyBlock;
    if i > 0 {
      BodyDiffers(a, b, seed, j, i - 1);
      OtherBlocks(a, b, j, i - 1);
      BodyOk(a, seed, i - 1);
      BodyOk(b, seed, i - 1);
      WordFits(a, 4 * (i - 1), 4);
      WordFits(b, 4 * (i - 1), 4);
      StepInjective(Body(a, seed, i - 1), Word(a, 4 * (i - 1), 4), Body(b, seed, i - 1), Word(b, 4 * (i - 1), 4));
    }
  }

  /** Two keys of one length that differ inside one 4-byte block, or inside the tail, never have the
      same 32-bit hash. */
  lemma OneBlockNoCollision(a: seq<u8>, b: seq<u8>, seed: nat, j: nat)
    requires OnlyBlock(a, b, 4, j) && j <= |a| / 4 && |a| < 0x8000_0000 && Fits(seed, 32)
    ensures Murmur(a, seed) == Murmur(b, seed) <==> a == b
  {
    hide Body, Take, Word, Fits, OnlyBlock, Pow2, Fmix32, Unfmix32, Xor;
    OtherBlocks(a, b, j, |a| / 4);
    var i := |a| / 4;
    var h, k, g, l := Body(a, seed, i), Word(a, 4 * i, 4), Body(b, seed, i), Word(b, 4 * i, 4);
    if a != b {
      BodyDiffers(a, b, seed, j, i);
      BodyOk(a, seed, i);
      BodyOk(b, seed, i);
      WordFits(a, 4 * i, 4);
      WordFits(b, 4 * i, 4);
      TakeInjective(h, k, g, l);
      TakeInjective(g, l, h, k);
      Widths(|a|);
      XorFits(Take(h, k), |a|, 32);
      XorFits(Take(g, l), |a|, 32);
      Fmix32Back(Xor(Take(h, k), |a|));
      Fmix32Back(Xor(Take(g, l), |a|));
      XorInjective(Take(h, k), Take(g, l), |a|);
    }
  }
}

/** MurmurHash3_x86_128: four lanes, each of which takes in its neighbour, the last one the first lane
    as already updated. */
module MurmurX86x128 {
  import opened Words
  import opened Mixing

  const C1: nat := 0x239b961b
  const C2: nat := 0xab0e9789
  const C3: nat := 0x38b34ae5
  const C4: nat := 0xa1e38b93

  datatype Quad = Quad(h1: nat, h2: nat, h3: nat, h4: nat) {
    predicate Ok() { Fits(h1, 32) && Fits(h2, 32) && Fits(h3, 32) && Fits(h4, 32) }
  }

  function Mix1(k: nat): nat { Mix(k, C1, 15, C2, 32) }

  function Mix2(k: nat): nat { Mix(k, C2, 16, C3, 32) }

  function Mix3(k: nat): nat { Mix(k, C3, 17, C4, 32) }

  function Mix4(k: nat): nat { Mix(k, C4, 18, C1, 32) }

  /** Exclusive or with the four mixed words of a block. */
  function Take(h: Quad, k: Quad): Quad {
    Quad(Xor(h.h1, Mix1(k.h1)), Xor(h.h2, Mix2(k.h2)), Xor(h.h3, Mix3(k.h3)), Xor(h.h4, Mix4(k.h4)))
  }

  /** One block of the body. */
  function Step(h: Quad, k: Quad): Quad {
    var x := Take(h, k);
    var h1 := Lane(x.h1, h.h2, 19, 0x561ccd1b, 32);
    Quad(h1, Lane(x.h2, h.h3, 17, 0x0bcaa747, 32), Lane(x.h3, h.h4, 15, 0x96cd1c35, 32),
         Lane(x.h4, h1, 13, 0x32ac3b17, 32))
  }

  /** The four words from p on, padded with zeros behind the key. */
  function Words4(key: seq<u8>, p: nat): Quad {
    Quad(Word(key, p, 4), Word(key, p + 4, 4), Word(key, p + 8, 4), Word(key, p + 12, 4))
  }

  /** The state after i blocks. */
  function Body(key: seq<u8>, seed: nat, i: nat): Quad
    decreases i
  {
    if i == 0 then Quad(seed, seed, seed, seed)
    else Step(Body(key, seed, i - 1), Words4(key, 16 * (i - 1)))
  }

  /** What goes into the finalization: the blocks and the padded tail. */
  function Taken(key: seq<u8>, seed: nat): Quad {
    Take(Body(key, seed, |key| / 16), Words4(key, 16 * (|key| / 16)))
  }

  /** h1 += h2, h3, h4; then each of the others += h1. */
  function Cross(h: Quad): Quad {
    var h1 := Add(Add(Add(h.h1, h.h2, 32), h.h3, 32), h.h4, 32);
    Quad(h1, Add(h.h2, h1, 32), Add(h.h3, h1, 32), Add(h.h4, h1, 32))
  }

  function MixLength(h: Quad, len: nat): Quad {
    Quad(Xor(h.h1, len), Xor(h.h2, len), Xor(h.h3, len), Xor(h.h4, len))
  }

  function MixFinal(h: Quad): Quad {
    Quad(Fmix32(h.h1), Fmix32(h.h2), Fmix32(h.h3), Fmix32(h.h4))
  }

  function Finish(h: Quad, len: nat): Quad {
    Cross(MixFinal(Cross(MixLength(h, len))))
  }

  function Murmur(key: seq<u8>, seed: nat): Quad {
    Finish(Taken(key, seed), |key|)
  }

  // The algorithm.

  /** The body of the loop over the blocks. */
  method Block(h: Quad, k: Quad) returns (r: Quad)
    ensures r == Step(h, k)
  {
    hide Xor, Low;
    var h1, h2, h3, h4 := h.h1, h.h2, h.h3, h.h4;
    var k1, k2, k3, k4 := k.h1, k.h2, k.h3, k.h4;
    k1 := Mul(k1, C1, 32);
    k1 := Rotl(k1, 15, 32);
    k1 := Mul(k1, C2, 32);
    h1 := Xor(h1, k1);

    h1 := Rotl(h1, 19, 32);
    h1 := Add(h1, h2, 32);
    h1 := Add(Mul(h1, 5, 32), 0x561ccd1b, 32);

    k2 := Mul(k2, C2, 32);
    k2 := Rotl(k2, 16, 32);
    k2 := Mul(k2, C3, 32);
    h2 := Xor(h2, k2);

    h2 := Rotl(h2, 17, 32);
    h2 := Add(h2, h3, 32);
    h2 := Add(Mul(h2, 5, 32), 0x0bcaa747, 32);

    k3 := Mul(k3, C3, 32);
    k3 := Rotl(k3, 17, 32);
    k3 := Mul(k3, C4, 32);
    h3 := Xor(h3, k3);

    h3 := Rotl(h3, 15, 32);
    h3 := Add(h3, h4, 32);
    h3 := Add(Mul(h3, 5, 32), 0x96cd1c35, 32);

    k4 := Mul(k4, C4, 32);
    k4 := Rotl(k4, 18, 32);
    k4 := Mul(k4, C1, 32);
    h4 := Xor(h4, k4);

    h4 := Rotl(h4, 13, 32);
    h4 := Add(h4, h1, 32);
    h4 := Add(Mul(h4, 5, 32), 0x32ac3b17, 32);
    return Quad(h1, h2, h3, h4);
  }

  /** The tail switch: each case falls through to the next. */
  method TailSwitch(key: seq<u8>, p: nat, h: Quad) returns (r: Quad)
    requires p <= |key| < p + 16
    ensures r == Take(h, Words4(key, p))
  {
    hide Xor, Shl, Mul, Rotl, Upper, Word;
    var h1, h2, h3, h4 := h.h1, h.h2, h.h3, h.h4;
    var k1, k2, k3, k4 := 0, 0, 0, 0;
    var t := |key| - p;
    UpperEnds(key, p + 12, 4);
    TailByte(key, p + 12, 4, 3, 32);
    TailByte(key, p + 12, 4, 2, 32);
    TailByte(key, p + 12, 4, 1, 32);
    TailByte(key, p + 12, 4, 0, 32);
    if t >= 15 { k4 := Xor(k4, Shl(key[p + 14], 16, 32)); }
    if t >= 14 { k4 := Xor(k4, Shl(key[p + 13], 8, 32)); }
    if t >= 13 {
      k4 := Xor(k4, Shl(key[p + 12], 0, 32));
      assert k4 == Word(key, p + 12, 4);
      k4 := Mul(k4, C4, 32);
      k4 := Rotl(k4, 18, 32);
      k4 := Mul(k4, C1, 32);
      h4 := Xor(h4, k4);
    } else {
      MixZero(C4, 18, C1, 32);
      XorZero(h4);
    }
    assert h4 == Xor(h.h4, Mix4(Word(key, p + 12, 4)));
    UpperEnds(key, p + 8, 4);
    TailByte(key, p + 8, 4, 3, 32);
    TailByte(key, p + 8, 4, 2, 32);
    TailByte(key, p + 8, 4, 1, 32);
    TailByte(key, p + 8, 4, 0, 32);
    if t >= 12 { k3 := Xor(k3, Shl(key[p + 11], 24, 32)); }
    if t >= 11 { k3 := Xor(k3, Shl(key[p + 10], 16, 32)); }
    if t >= 10 { k3 := Xor(k3, Shl(key[p + 9], 8, 32)); }
    if t >= 9 {
      k3 := Xor(k3, Shl(key[p + 8], 0, 32));
      assert k3 == Word(key, p + 8, 4);
      k3 := Mul(k3, C3, 32);
      k3 := Rotl(k3, 17, 32);
      k3 := Mul(k3, C4, 32);
      h3 := Xor(h3, k3);
    } else {
      MixZero(C3, 17, C4, 32);
      XorZero(h3);
    }
    assert h3 == Xor(h.h3, Mix3(Word(key, p + 8, 4)));
    UpperEnds(key, p + 4, 4);
    TailByte(key, p + 4, 4, 3, 32);
    TailByte(key, p + 4, 4, 2, 32);
    TailByte(key, p + 4, 4, 1, 32);
    TailByte(key, p + 4, 4, 0, 32);
    if t >= 8 { k2 := Xor(k2, Shl(key[p + 7], 24, 32)); }
    if t >= 7 { k2 := Xor(k2, Shl(key[p + 6], 16, 32)); }
    if t >= 6 { k2 := Xor(k2, Shl(key[p + 5], 8, 32)); }
    if t >= 5 {
      k2 := Xor(k2, Shl(key[p + 4], 0, 32));
      assert k2 == Word(key, p + 4, 4);
      k2 := Mul(k2, C2, 32);
      k2 := Rotl(k2, 16, 32);
      k2 := Mul(k2, C3, 32);
      h2 := Xor(h2, k2);
    } else {
      MixZero(C2, 16, C3, 32);
      XorZero(h2);
    }
    assert h2 == Xor(h.h2, Mix2(Word(key, p + 4, 4)));
    UpperEnds(key, p, 4);
    TailByte(key, p, 4, 3, 32);
    TailByte(key, p, 4, 2, 32);
    TailByte(key, p, 4, 1, 32);
    TailByte(key, p, 4, 0, 32);
    if t >= 4 { k1 := Xor(k1, Shl(key[p + 3], 24, 32)); }
    if t >= 3 { k1 := Xor(k1, Shl(key[p + 2], 16, 32)); }
    if t >= 2 { k1 := Xor(k1, Shl(key[p + 1], 8, 32)); }
    if t >= 1 {
      k1 := Xor(k1, Shl(key[p], 0, 32));
      assert k1 == Word(key, p, 4);
      k1 := Mul(k1, C1, 32);
      k1 := Rotl(k1, 15, 32);
      k1 := Mul(k1, C2, 32);
      h1 := Xor(h1, k1);
    } else {
      MixZero(C1, 15, C2, 32);
      XorZero(h1);
    }
    assert h1 == Xor(h.h1, Mix1(Word(key, p, 4)));
    return Quad(h1, h2, h3, h4);
  }

  method Finalize(h: Quad, len: nat) returns (r: Quad)
    ensures r == Finish(h, len)
  {
    hide Xor, Low, Fmix32;
    var h1, h2, h3, h4 := Xor(h.h1, len), Xor(h.h2, len), Xor(h.h3, len), Xor(h.h4, len);

    h1 := Add(h1, h2, 32);
    h1 := Add(h1, h3, 32);
    h1 := Add(h1, h4, 32);
    h2 := Add(h2, h1, 32);
    h3 := Add(h3, h1, 32);
    h4 := Add(h4, h1, 32);

    h1 := FinalMix32(h1);
    h2 := FinalMix32(h2);
    h3 := FinalMix32(h3);
    h4 := FinalMix32(h4);

    h1 := Add(h1, h2, 32);
    h1 := Add(h1, h3, 32);
    h1 := Add(h1, h4, 32);
    h2 := Add(h2, h1, 32);
    h3 := Add(h3, h1, 32);
    h4 := Add(h4, h1, 32);
    return Quad(h1, h2, h3, h4);
  }

  /** MurmurHash3_x86_128. The blocks are addressed backwards from their end. */
  method Murmur3(key: seq<u8>, seed: nat, out: array<nat>)
    requires |key| < 0x8000_0000 && Fits(seed, 32) && 4 <= out.Length
    modifies out
    ensures Quad(out[0], out[1], out[2], out[3]) == Murmur(key, seed)
    ensures forall i :: 4 <= i < out.Length ==> out[i] == old(out[i])
  {
    hide Step, Take, Finish, Fits, Pow2, Word;
    var nblocks := |key| / 16;
    var h := Quad(seed, seed, seed, seed);
    var blocks := nblocks * 16;
    var i := -nblocks;
    while i != 0
      invariant -nblocks <= i <= 0 && h == Body(key, seed, nblocks + i)
      decreases -i
      modifies {}
    {
      var k1 := GetBlock(key, blocks, i * 4 + 0, 4);
      var k2 := GetBlock(key, blocks, i * 4 + 1, 4);
      var k3 := GetBlock(key, blocks, i * 4 + 2, 4);
      var k4 := GetBlock(key, blocks, i * 4 + 3, 4);
      h := Block(h, Quad(k1, k2, k3, k4));
      i := i + 1;
    }
    h := TailSwitch(key, blocks, h);
    h := Finalize(h, |key|);
    out[0] := h.h1;
    out[1] := h.h2;
    out[2] := h.h3;
    out[3] := h.h4;
  }

  // What the hash keeps apart.

  lemma Units()
    ensures Unit(C1, 32) && Unit(C2, 32) && Unit(C3, 32) && Unit(C4, 32) && Unit(5, 32)
  {
    hide Low, Pow2;
    Pow2Values();
    UnitIs(C1, 0x89c95413, 0x132a442f, 0x1_0000_0000, 32);
    UnitIs(C2, 0xdf130eb9, 0x950e71ec, 0x1_0000_0000, 32);
    UnitIs(C3, 0x747862ed, 0x19cbe7e4, 0x1_0000_0000, 32);
    UnitIs(C4, 0x58d64a9b, 0x382dbb5f, 0x1_0000_0000, 32);
    UnitIs(5, 0xcccccccd, 4, 0x1_0000_0000, 32);
  }

  lemma MixOk(k: nat, l: nat)
    requires Fits(k, 32) && Fits(l, 32)
    ensures Fits(Mix1(k), 32) && Fits(Mix2(k), 32) && Fits(Mix3(k), 32) && Fits(Mix4(k), 32)
    ensures Mix1(k) == Mix1(l) ==> k == l
    ensures Mix2(k) == Mix2(l) ==> k == l
    ensures Mix3(k) == Mix3(l) ==> k == l
    ensures Mix4(k) == Mix4(l) ==> k == l
  {
    hide Mix, Unit, Fits;
    Units();
    MixInjective(k, l, C1, 15, C2, 32);
    MixInjective(k, l, C2, 16, C3, 32);
    MixInjective(k, l, C3, 17, C4, 32);
    MixInjective(k, l, C4, 18, C1, 32);
  }

  lemma TakeOk(h: Quad, k: Quad)
    requires h.Ok() && k.Ok()
    ensures Take(h, k).Ok()
  {
    hide Mix1, Mix2, Mix3, Mix4, Fits, Xor;
    MixOk(k.h1, k.h1);
    MixOk(k.h2, k.h2);
    MixOk(k.h3, k.h3);
    MixOk(k.h4, k.h4);
    XorFits(h.h1, Mix1(k.h1), 32);
    XorFits(h.h2, Mix2(k.h2), 32);
    XorFits(h.h3, Mix3(k.h3), 32);
    XorFits(h.h4, Mix4(k.h4), 32);
  }

  /** In each lane: with equal results, the blocks are equal if the states are, and the other way
      round. */
  lemma TakeInjective(h: Quad, k: Quad, g: Quad, l: Quad)
    requires k.Ok() && l.Ok()
    ensures Take(h, k).h1 == Take(g, l).h1 && (h.h1 == g.h1 || k.h1 == l.h1) ==> h.h1 == g.h1 && k.h1 == l.h1
    ensures Take(h, k).h2 == Take(g, l).h2 && (h.h2 == g.h2 || k.h2 == l.h2) ==> h.h2 == g.h2 && k.h2 == l.h2
    ensures Take(h, k).h3 == Take(g, l).h3 && (h.h3 == g.h3 || k.h3 == l.h3) ==> h.h3 == g.h3 && k.h3 == l.h3
    ensures Take(h, k).h4 == Take(g, l).h4 && (h.h4 == g.h4 || k.h4 == l.h4) ==> h.h4 == g.h4 && k.h4 == l.h4
  {
    hide Mix1, Mix2, Mix3, Mix4, Fits, Xor;
    MixOk(k.h1, l.h1);
    MixOk(k.h2, l.h2);
    MixOk(k.h3, l.h3);
    MixOk(k.h4, l.h4);
    XorInjective(h.h1, g.h1, Mix1(k.h1));
    XorInjective(h.h2, g.h2, Mix2(k.h2));
    XorInjective(h.h3, g.h3, Mix3(k.h3));
    XorInjective(h.h4, g.h4, Mix4(k.h4));
    XorInjective(Mix1(k.h1), Mix1(l.h1), h.h1);
    XorInjective(Mix2(k.h2), Mix2(l.h2), h.h2);
    XorInjective(Mix3(k.h3), Mix3(l.h3), h.h3);
    XorInjective(Mix4(k.h4), Mix4(l.h4), h.h4);
  }

  lemma StepOk(h: Quad, k: Quad)
    requires h.Ok() && k.Ok()
    ensures Step(h, k).Ok()
  {
    hide Lane, Take, Unit, Fits;
    Units();
    TakeOk(h, k);
    var x := Take(h, k);
    LaneInjective(x.h1, x.h1, h.h2, 19, 0x561ccd1b, 32);
    LaneInjective(x.h2, x.h2, h.h3, 17, 0x0bcaa747, 32);
    LaneInjective(x.h3, x.h3, h.h4, 15, 0x96cd1c35, 32);
    LaneInjective(x.h4, x.h4, Step(h, k).h1, 13, 0x32ac3b17, 32);
  }

  /** A block step can be undone, from the last lane to the first: from its result and the block, the
      state before; from its result and the state before, the block. */
  lemma StepInjective(h: Quad, k: Quad, g: Quad, l: Quad)
    requires h.Ok() && g.Ok() && k.Ok() && l.Ok() && (h == g || k == l)
    ensures Step(h, k) == Step(g, l) <==> h == g && k == l
  {
    hide Lane, Take, Unit, Fits;
    if Step(h, k) == Step(g, l) {
      Units();
      TakeOk(h, k);
      TakeOk(g, l);
      TakeInjective(h, k, g, l);
      var x, y := Take(h, k), Take(g, l);
      LaneInjective(x.h4, y.h4, Step(h, k).h1, 13, 0x32ac3b17, 32);
      LaneInjective(x.h3, y.h3, h.h4, 15, 0x96cd1c35, 32);
      LaneInjective(x.h2, y.h2, h.h3, 17, 0x0bcaa747, 32);
      LaneInjective(x.h1, y.h1, h.h2, 19, 0x561ccd1b, 32);
    }
  }

  lemma CrossInjective(h: Quad, g: Quad)
    requires h.Ok() && g.Ok()
    ensures Cross(h).Ok() && (Cross(h) == Cross(g) ==> h == g)
  {
    hide Add, Fits;
    var h12, g12 := Add(h.h1, h.h2, 32), Add(g.h1, g.h2, 32);
    var h13, g13 := Add(h12, h.h3, 32), Add(g12, g.h3, 32);
    MulFits(h.h1, h.h2, 32);
    MulFits(g.h1, g.h2, 32);
    MulFits(h12, h.h3, 32);
    MulFits(g12, g.h3, 32);
    MulFits(h13, h.h4, 32);
    MulFits(h.h2, Cross(h).h1, 32);
    MulFits(h.h3, Cross(h).h1, 32);
    MulFits(h.h4, Cross(h).h1, 32);
    if Cross(h) == Cross(g) {
      AddInjective(h.h2, g.h2, Cross(h).h1, 32);
      AddInjective(h.h3, g.h3, Cross(h).h1, 32);
      AddInjective(h.h4, g.h4, Cross(h).h1, 32);
      AddInjective(h13, g13, h.h4, 32);
      AddInjective(h12, g12, h.h3, 32);
      AddInjective(h.h1, g.h1, h.h2, 32);
    }
  }

  lemma MixLengthInjective(h: Quad, g: Quad, len: nat)
    requires h.Ok() && Fits(len, 32)
    ensures MixLength(h, len).Ok() && (MixLength(h, len) == MixLength(g, len) ==> h == g)
  {
    hide Fits, Xor;
    XorFits(h.h1, len, 32);
    XorFits(h.h2, len, 32);
    XorFits(h.h3, len, 32);
    XorFits(h.h4, len, 32);
    XorInjective(h.h1, g.h1, len);
    XorInjective(h.h2, g.h2, len);
    XorInjective(h.h3, g.h3, len);
    XorInjective(h.h4, g.h4, len);
  }

  lemma MixFinalInjective(h: Quad, g: Quad)
    requires h.Ok() && g.Ok()
    ensures MixFinal(h).Ok() && (MixFinal(h) == MixFinal(g) ==> h == g)
  {
    hide Fits, Fmix32, Unfmix32;
    Fmix32Back(h.h1);
    Fmix32Back(h.h2);
    Fmix32Back(h.h3);
    Fmix32Back(h.h4);
    Fmix32Back(g.h1);
    Fmix32Back(g.h2);
    Fmix32Back(g.h3);
    Fmix32Back(g.h4);
  }

  lemma FinishInjective(h: Quad, g: Quad, len: nat)
    requires h.Ok() && g.Ok() && Fits(len, 32)
    ensures Finish(h, len) == Finish(g, len) ==> h == g
  {
    hide Cross, MixFinal, MixLength, Fits;
    MixLengthInjective(h, g, len);
    MixLengthInjective(g, h, len);
    var x, y := MixLength(h, len), MixLength(g, len);
    CrossInjective(x, y);
    CrossInjective(y, x);
    MixFinalInjective(Cross(x), Cross(y));
    MixFinalInjective(Cross(y), Cross(x));
    CrossInjective(MixFinal(Cross(x)), MixFinal(Cross(y)));
  }

  lemma Words4Ok(key: seq<u8>, p: nat)
    ensures Words4(key, p).Ok()
  {
    hide Fits, Word;
    WordFits(key, p, 4);
    WordFits(key, p + 4, 4);
    WordFits(key, p + 8, 4);
    WordFits(key, p + 12, 4);
  }

  lemma {:induction false} BodyOk(key: seq<u8>, seed: nat, i: nat)
    requires Fits(seed, 32)
    ensures Body(key, seed, i).Ok()
    decreases i
  {
    hide Fits, Step, Words4;
    if i > 0 {
      BodyOk(key, seed, i - 1);
      Words4Ok(key, 16 * (i - 1));
      StepOk(Body(key, seed, i - 1), Words4(key, 16 * (i - 1)));
    }
  }

  /** Blocks are the same exactly when their bytes are. */
  lemma SameBlock(a: seq<u8>, b: seq<u8>, p: nat)
    ensures Words4(a, p) == Words4(b, p) <==> SameBytes(a, b, p, 16)
  {
    hide Word;
    WordInjective(a, b, p, 4);
    WordInjective(a, b, p + 4, 4);
    WordInjective(a, b, p + 8, 4);
    WordInjective(a, b, p + 12, 4);
  }

  lemma OtherBlocks(a: seq<u8>, b: seq<u8>, j: nat, i: nat)
    requires OnlyBlock(a, b, 16, j)
    ensures i != j ==> Words4(a, 16 * i) == Words4(b, 16 * i)
    ensures Words4(a, 16 * j) == Words4(b, 16 * j) ==> a == b
    ensures |a| == |b|
  {
    hide SameBytes, Words4;
    OtherBytes(a, b, 16, j, i);
    SameBlock(a, b, 16 * i);
    SameBlock(a, b, 16 * j);
  }

  /** Through the blocks a difference appears in block j and never goes away. */
  lemma {:induction false} BodyDiffers(a: seq<u8>, b: seq<u8>, seed: nat, j: nat, i: nat)
    requires OnlyBlock(a, b, 16, j) && a != b && Fits(seed, 32)
    ensures Body(a, seed, i) == Body(b, seed, i) <==> i <= j
    decreases i
  {
    hide Step, Words4, Fits, OnlyBlock;
    if i > 0 {
      BodyDiffers(a, b, seed, j, i - 1);
      OtherBlocks(a, b, j, i - 1);
      BodyOk(a, seed, i - 1);
      BodyOk(b, seed, i - 1);
      Words4Ok(a, 16 * (i - 1));
      Words4Ok(b, 16 * (i - 1));
      StepInjective(Body(a, seed, i - 1), Words4(a, 16 * (i - 1)), Body(b, seed, i - 1), Words4(b, 16 * (i - 1)));
    }
  }

  lemma TakenOk(key: seq<u8>, seed: nat)
    requires Fits(seed, 32)
    ensures Taken(key, seed).Ok()
  {
    hide Body, Take, Words4, Fits;
    BodyOk(key, seed, |key| / 16);
    Words4Ok(key, 16 * (|key| / 16));
    TakeOk(Body(key, seed, |key| / 16), Words4(key, 16 * (|key| / 16)));
  }

  lemma TakenDiffers(a: seq<u8>, b: seq<u8>, seed: nat, j: nat)
    requires OnlyBlock(a, b, 16, j) && j <= |a| / 16 && Fits(seed, 32)
    ensures Taken(a, seed) == Taken(b, seed) ==> a == b
  {
    hide Body, Take, Words4, Fits, OnlyBlock;
    var i := |a| / 16;
    OtherBlocks(a, b, j, i);
    if Taken(a, seed) == Taken(b, seed) && a != b {
      Words4Ok(a, 16 * i);
      Words4Ok(b, 16 * i);
      BodyDiffers(a, b, seed, j, i);
      TakeInjective(Body(a, seed, i), Words4(a, 16 * i), Body(b, seed, i), Words4(b, 16 * i));
    }
  }

  /** Two keys of one length that differ inside one 16-byte block, or inside the tail, never have the
      same 128-bit hash. */
  lemma OneBlockNoCollision(a: seq<u8>, b: seq<u8>, seed: nat, j: nat)
    requires OnlyBlock(a, b, 16, j) && j <= |a| / 16 && |a| < 0x8000_0000 && Fits(seed, 32)
    ensures Murmur(a, seed) == Murmur(b, seed) <==> a == b
  {
    hide Taken, Finish, Fits, OnlyBlock, Pow2, Words4;
    OtherBlocks(a, b, j, j);
    Widths(|a|);
    TakenOk(a, seed);
    TakenOk(b, seed);
    FinishInjective(Taken(a, seed), Taken(b, seed), |a|);
    TakenDiffers(a, b, seed, j);
  }
}

/** The pieces the three hashes share: little-endian reads, block mixing, lanes and final mixing, and
    that each of them loses nothing. */
module Mixing {
  import opened Words

  type u8 = x: int | 0 <= x < 256

  /** The i-th byte of the key; zeros follow the key. */
  function At(key: seq<u8>, i: nat): u8 {
    if i < |key| then key[i] else 0
  }

  /** The n bytes at p as a little-endian number. */
  function Word(key: seq<u8>, p: nat, n: nat): nat
    decreases n
  {
    if n == 0 then 0 else At(key, p) + 256 * Word(key, p + 1, n - 1)
  }

  /** getblock32, getblock64: the i-th word of n bytes from base on. */
  function GetBlock(key: seq<u8>, base: int, i: int, n: nat): nat
    requires 0 <= base + n * i && base + n * i + n <= |key|
  {
    Word(key, base + n * i, n)
  }

  lemma {:induction false} WordFits(key: seq<u8>, p: nat, n: nat)
    ensures Fits(Word(key, p, n), 8 * n)
    decreases n
  {
    if n > 0 {
      WordFits(key, p + 1, n - 1);
      Pow2Values();
      Pow2Add(8, 8 * (n - 1));
    }
  }

  /** Equal words, and only those, have equal bytes. */
  lemma {:induction false} WordInjective(a: seq<u8>, b: seq<u8>, p: nat, n: nat)
    ensures Word(a, p, n) == Word(b, p, n) <==> forall i :: p <= i < p + n ==> At(a, i) == At(b, i)
    decreases n
  {
    if n > 0 {
      WordInjective(a, b, p + 1, n - 1);
      var x, y := Word(a, p + 1, n - 1), Word(b, p + 1, n - 1);
      assert Word(a, p, n) == At(a, p) + 256 * x && Word(b, p, n) == At(b, p) + 256 * y;
      assert Word(a, p, n) == Word(b, p, n) <==> At(a, p) == At(b, p) && x == y;
    }
  }

  /** The n-byte word at p with its lowest j bytes cleared. */
  function Upper(key: seq<u8>, p: nat, n: nat, j: nat): nat
    requires j <= n
  {
    Word(key, p + j, n - j) * Pow2(8 * j)
  }

  lemma UpperEnds(key: seq<u8>, p: nat, n: nat)
    ensures Upper(key, p, n, n) == 0 && Upper(key, p, n, 0) == Word(key, p, n)
  {
    assert Pow2(0) == 1;
  }

  /** One case of a tail switch: the byte at p + j joins the bytes above it; a byte behind the key
      changes nothing. */
  lemma TailByte(key: seq<u8>, p: nat, n: nat, j: nat, w: nat)
    requires j < n && 8 * n <= w
    ensures Upper(key, p, n, j) == Xor(Upper(key, p, n, j + 1), Shl(At(key, p + j), 8 * j, w))
    ensures |key| <= p + j ==> Upper(key, p, n, j) == Upper(key, p, n, j + 1)
  {
    hide Low, Xor, Pow2;
    var x, m, more := At(key, p + j), Pow2(8 * j), Word(key, p + j + 1, n - j - 1);
    ByteUp(x, j);
    Pow2Grows(8 * (j + 1), w);
    HighLowUnique(x * m, w, 0, x * m);
    Disjoint(more, x * m, 8 * (j + 1));
    ByteBelow(x, more, m);
    XorZero(Upper(key, p, n, j + 1));
    if |key| <= p + j {
      WordBehind(key, p + j, n - j);
      WordBehind(key, p + j + 1, n - j - 1);
    }
  }

  lemma ByteUp(x: u8, j: nat)
    ensures Pow2(8 * (j + 1)) == 256 * Pow2(8 * j) && Fits(x * Pow2(8 * j), 8 * (j + 1))
  {
    Pow2Values();
    Pow2Add(8, 8 * j);
    assert 8 + 8 * j == 8 * (j + 1);
    ByteBelow(x, 0, Pow2(8 * j));
  }

  lemma ByteBelow(x: u8, more: nat, m: nat)
    requires 0 < m
    ensures x * m < 256 * m && more * (256 * m) + x * m == (x + 256 * more) * m
  {
  }

  lemma {:induction false} WordBehind(key: seq<u8>, p: nat, n: nat)
    requires |key| <= p
    ensures Word(key, p, n) == 0
    decreases n
  {
    if n > 0 {
      WordBehind(key, p + 1, n - 1);
    }
  }

  // Keys that differ in one place.

  /** a and b have the same bytes, but for those of the j-th block of n. */
  ghost predicate OnlyBlock(a: seq<u8>, b: seq<u8>, n: nat, j: nat)
    requires 0 < n
  {
    |a| == |b| && forall i :: 0 <= i < |a| && i / n != j ==> a[i] == b[i]
  }

  ghost predicate SameBytes(a: seq<u8>, b: seq<u8>, p: nat, n: nat) {
    forall i :: p <= i < p + n ==> At(a, i) == At(b, i)
  }

  lemma OtherBytes(a: seq<u8>, b: seq<u8>, n: nat, j: nat, i: nat)
    requires 0 < n && OnlyBlock(a, b, n, j)
    ensures i != j ==> SameBytes(a, b, n * i, n)
    ensures SameBytes(a, b, n * j, n) ==> a == b
  {
    if i != j {
      forall p | n * i <= p < n * i + n
        ensures At(a, p) == At(b, p)
      {
        InBlock(p, n, i);
      }
    }
    if SameBytes(a, b, n * j, n) {
      forall p | 0 <= p < |a|
        ensures a[p] == b[p]
      {
        if p / n == j {
          InBlock(p, n, j);
          assert At(a, p) == a[p] && At(b, p) == b[p];
        }
      }
    }
  }

  lemma InBlock(p: nat, n: nat, i: nat)
    requires 0 < n
    ensures p / n == i <==> n * i <= p < n * i + n
  {
    var q := p / n;
    assert p == q * n + p % n;
    assert (q - i) * n == q * n - i * n;
    MultipleGrows(q - i, n);
  }

  lemma Widths(x: nat)
    ensures x < 0x8000_0000 ==> Fits(x, 32)
    ensures Fits(x, 32) ==> Fits(x, 64)
  {
    hide Pow2;
    Pow2Values();
  }

  // Mixing one block.

  /** k *= c; k = ROTL(k, r); k *= d */
  function Mix(k: nat, c: nat, r: nat, d: nat, w: nat): nat
    requires r <= w
  {
    Mul(Rotl(Mul(k, c, w), r, w), d, w)
  }

  lemma MulFits(x: nat, c: nat, w: nat)
    ensures Fits(Mul(x, c, w), w) && Fits(Add(x, c, w), w)
  {
  }

  /** c has an inverse modulo 2^w. */
  ghost predicate Unit(c: nat, w: nat) {
    exists d: nat :: Inverse(c, d, w)
  }

  predicate Inverse(c: nat, d: nat, w: nat) { Low(c * d, w) == 1 }

  lemma MulInjective(x: nat, y: nat, c: nat, w: nat)
    requires Fits(x, w) && Fits(y, w) && Unit(c, w) && Mul(x, c, w) == Mul(y, c, w)
    ensures x == y
  {
    var d: nat :| Inverse(c, d, w);
    MulBack(x, c, d, w);
    MulBack(y, c, d, w);
  }

  lemma RotlInjective(x: nat, y: nat, r: nat, w: nat)
    requires Fits(x, w) && Fits(y, w) && r <= w && Rotl(x, r, w) == Rotl(y, r, w)
    ensures x == y
  {
    RotlBack(x, r, w);
    RotlBack(y, r, w);
  }

  lemma MixInjective(k: nat, l: nat, c: nat, r: nat, d: nat, w: nat)
    requires Fits(k, w) && Fits(l, w) && r <= w && Unit(c, w) && Unit(d, w)
    ensures Mix(k, c, r, d, w) == Mix(l, c, r, d, w) ==> k == l
    ensures Fits(Mix(k, c, r, d, w), w)
  {
    hide Mul, Rotl, Fits, Unit;
    var x, y := Mul(k, c, w), Mul(l, c, w);
    MulFits(k, c, w);
    MulFits(l, c, w);
    RotlBack(x, r, w);
    RotlBack(y, r, w);
    MulFits(Rotl(x, r, w), d, w);
    if Mix(k, c, r, d, w) == Mix(l, c, r, d, w) {
      MulInjective(Rotl(x, r, w), Rotl(y, r, w), d, w);
      RotlInjective(x, y, r, w);
      MulInjective(k, l, c, w);
    }
  }

  /** Mixing zero is a no-op. */
  lemma MixZero(c: nat, r: nat, d: nat, w: nat)
    requires r <= w
    ensures Mix(0, c, r, d, w) == 0
  {
    assert forall k :: Fits(0, k);
    HighLowUnique(0, w, 0, 0);
    RotlIs(0, r, w);
    HighLowUnique(0, w - r, 0, 0);
  }

  // One lane of a block step.

  /** h = ROTL(h, r); h += add; h = h * 5 + c, for h that already took the block in. */
  function Lane(h: nat, add: nat, r: nat, c: nat, w: nat): nat
    requires r <= w
  {
    Add(Mul(Add(Rotl(h, r, w), add, w), 5, w), c, w)
  }

  lemma LaneInjective(h: nat, g: nat, add: nat, r: nat, c: nat, w: nat)
    requires Fits(h, w) && Fits(g, w) && r <= w && Unit(5, w)
    ensures Lane(h, add, r, c, w) == Lane(g, add, r, c, w) ==> h == g
    ensures Fits(Lane(h, add, r, c, w), w)
  {
    hide Add, Mul, Rotl, Fits, Unit;
    RotlBack(h, r, w);
    RotlBack(g, r, w);
    var x, y := Add(Rotl(h, r, w), add, w), Add(Rotl(g, r, w), add, w);
    MulFits(Rotl(h, r, w), add, w);
    MulFits(Rotl(g, r, w), add, w);
    MulFits(x, 5, w);
    MulFits(y, 5, w);
    MulFits(Mul(x, 5, w), c, w);
    if Lane(h, add, r, c, w) == Lane(g, add, r, c, w) {
      AddInjective(Mul(x, 5, w), Mul(y, 5, w), c, w);
      MulInjective(x, y, 5, w);
      AddInjective(Rotl(h, r, w), Rotl(g, r, w), add, w);
      RotlInjective(h, g, r, w);
    }
  }

  // Final mixing.

  function XorShift(h: nat, r: nat): nat {
    Xor(h, Shr(h, r))
  }

  function Fmix32(h: nat): nat {
    XorShift(Mul(XorShift(Mul(XorShift(h, 16), 0x85ebca6b, 32), 13), 0xc2b2ae35, 32), 16)
  }

  function Unfmix32(h: nat): nat {
    var y := Mul(XorShift(h, 16), 0x7ed1b41d, 32);
    XorShift(Mul(Xor(XorShift(y, 13), Shr(y, 26)), 0xa5cb9243, 32), 16)
  }

  /** xor-shift, multiply, xor-shift, multiply, xor-shift. */
  function Rounds(k: nat, c: nat, d: nat): nat {
    XorShift(Mul(XorShift(Mul(XorShift(k, 33), c, 64), 33), d, 64), 33)
  }

  function Fmix64(k: nat): nat {
    Rounds(k, 0xff51afd7ed558ccd, 0xc4ceb9fe1a85ec53)
  }

  function Unfmix64(k: nat): nat {
    Rounds(k, 0x9cb4b2f8129337db, 0x4f74430c22a54005)
  }

  lemma XorShiftBack(x: nat, r: nat, w: nat)
    requires Fits(x, w) && w <= 2 * r
    ensures Fits(XorShift(x, r), w) && XorShift(XorShift(x, r), r) == x
  {
    ShrFits(x, r, w);
    XorFits(x, Shr(x, r), w);
    XorShrBack(x, r, w);
  }

  lemma XorShift3Back(x: nat, r: nat, w: nat)
    requires Fits(x, w) && w <= 3 * r
    ensures var y := XorShift(x, r); Fits(y, w) && Xor(XorShift(y, r), Shr(y, 2 * r)) == x
  {
    ShrFits(x, r, w);
    XorFits(x, Shr(x, r), w);
    XorShrBack3(x, r, w);
  }

  lemma UnitIs(c: nat, d: nat, k: nat, m: nat, w: nat)
    requires m == Pow2(w) && 1 < m && c * d == k * m + 1
    ensures Inverse(c, d, w) && Inverse(d, c, w) && Unit(c, w)
  {
    HighLowUnique(c * d, w, k, 1);
    assert d * c == c * d;
    assert Inverse(c, d, w);
  }

  lemma Fmix64Units()
    ensures Inverse(0xff51afd7ed558ccd, 0x4f74430c22a54005, 64) && Inverse(0x4f74430c22a54005, 0xff51afd7ed558ccd, 64)
    ensures Inverse(0xc4ceb9fe1a85ec53, 0x9cb4b2f8129337db, 64) && Inverse(0x9cb4b2f8129337db, 0xc4ceb9fe1a85ec53, 64)
  {
    hide Low, Pow2;
    Pow2Values();
    UnitIs(0xff51afd7ed558ccd, 0x4f74430c22a54005, 0x4f3e2925cb7c5b4e, 0x1_0000_0000_0000_0000, 64);
    UnitIs(0xc4ceb9fe1a85ec53, 0x9cb4b2f8129337db, 0x7878e44812b2d581, 0x1_0000_0000_0000_0000, 64);
  }

  lemma Fmix32Units()
    ensures Inverse(0x85ebca6b, 0xa5cb9243, 32) && Inverse(0xa5cb9243, 0x85ebca6b, 32)
    ensures Inverse(0xc2b2ae35, 0x7ed1b41d, 32) && Inverse(0x7ed1b41d, 0xc2b2ae35, 32)
  {
    hide Low, Pow2;
    Pow2Values();
    UnitIs(0x85ebca6b, 0xa5cb9243, 0x56bb77f4, 0x1_0000_0000, 32);
    UnitIs(0xc2b2ae35, 0x7ed1b41d, 0x60736e9a, 0x1_0000_0000, 32);
  }

  /** The rounds are undone by the rounds with the inverse factors in the other order. */
  lemma RoundsBack(k: nat, c: nat, d: nat, c': nat, d': nat)
    requires Fits(k, 64) && Inverse(c, c', 64) && Inverse(d, d', 64)
    ensures Fits(Rounds(k, c, d), 64) && Rounds(Rounds(k, c, d), d', c') == k
  {
    hide XorShift, Mul, Fits, Low;
    var a := XorShift(k, 33);
    XorShiftBack(k, 33, 64);
    var b := Mul(a, c, 64);
    MulFits(a, c, 64);
    MulBack(a, c, c', 64);
    var e := XorShift(b, 33);
    XorShiftBack(b, 33, 64);
    var f := Mul(e, d, 64);
    MulFits(e, d, 64);
    MulBack(e, d, d', 64);
    XorShiftBack(f, 33, 64);
  }

  /** fmix64 is a bijection on 64-bit words. */
  lemma Fmix64Back(k: nat)
    requires Fits(k, 64)
    ensures Fits(Fmix64(k), 64) && Unfmix64(Fmix64(k)) == k
    ensures Fits(Unfmix64(k), 64) && Fmix64(Unfmix64(k)) == k
  {
    hide Rounds, Fits, Low;
    Fmix64Units();
    RoundsBack(k, 0xff51afd7ed558ccd, 0xc4ceb9fe1a85ec53, 0x4f74430c22a54005, 0x9cb4b2f8129337db);
    RoundsBack(k, 0x9cb4b2f8129337db, 0x4f74430c22a54005, 0xc4ceb9fe1a85ec53, 0xff51afd7ed558ccd);
  }

  /** The other way round: the longer xor-shift first. */
  lemma XorShift3Forth(x: nat, r: nat, w: nat)
    requires Fits(x, w) && w <= 3 * r
    ensures var y := Xor(XorShift(x, r), Shr(x, 2 * r)); Fits(y, w) && XorShift(y, r) == x
  {
    hide Xor, Shr, Pow2;
    var s, s2 := Shr(x, r), Shr(x, 2 * r);
    var y := Xor(Xor(x, s), s2);
    ShrFits(x, r, w);
    ShrFits(x, 2 * r, w);
    XorFits(x, s, w);
    XorFits(Xor(x, s), s2, w);
    XorShr(Xor(x, s), s2, r);
    XorShr(x, s, r);
    ShrShr(x, r, r);
    ShrShr(x, 2 * r, r);
    ShrAway(x, 3 * r, w);
    XorZero(Xor(s, s2));
    XorAssoc(x, s, s2);
    XorBack(x, Xor(s, s2));
  }

  /** fmix32 is a bijection on 32-bit words. */
  lemma Fmix32Back(h: nat)
    requires Fits(h, 32)
    ensures Fits(Fmix32(h), 32) && Unfmix32(Fmix32(h)) == h
  {
    hide XorShift, Mul, Fits, Low, Xor, Shr;
    Fmix32Units();
    var a := XorShift(h, 16);
    XorShiftBack(h, 16, 32);
    var b := Mul(a, 0x85ebca6b, 32);
    MulFits(a, 0x85ebca6b, 32);
    MulBack(a, 0x85ebca6b, 0xa5cb9243, 32);
    var e := XorShift(b, 13);
    XorShift3Back(b, 13, 32);
    var f := Mul(e, 0xc2b2ae35, 32);
    MulFits(e, 0xc2b2ae35, 32);
    MulBack(e, 0xc2b2ae35, 0x7ed1b41d, 32);
    XorShiftBack(f, 16, 32);
  }

  lemma Fmix32Forth(h: nat)
    requires Fits(h, 32)
    ensures Fits(Unfmix32(h), 32) && Fmix32(Unfmix32(h)) == h
  {
    hide XorShift, Mul, Fits, Low, Xor, Shr;
    Fmix32Units();
    var a := XorShift(h, 16);
    XorShiftBack(h, 16, 32);
    var y := Mul(a, 0x7ed1b41d, 32);
    MulFits(a, 0x7ed1b41d, 32);
    MulBack(a, 0x7ed1b41d, 0xc2b2ae35, 32);
    var e := Xor(XorShift(y, 13), Shr(y, 26));
    XorShift3Forth(y, 13, 32);
    var f := Mul(e, 0xa5cb9243, 32);
    MulFits(e, 0xa5cb9243, 32);
    MulBack(e, 0xa5cb9243, 0x85ebca6b, 32);
    XorShiftBack(f, 16, 32);
  }

  // The two final mixers as the source writes them, one assignment after the other.

  method FinalMix32(x: nat) returns (h: nat)
    ensures h == Fmix32(x)
  {
    h := x;
    h := Xor(h, Shr(h, 16));
    h := Mul(h, 0x85ebca6b, 32);
    h := Xor(h, Shr(h, 13));
    h := Mul(h, 0xc2b2ae35, 32);
    h := Xor(h, Shr(h, 16));
  }

  method FinalMix64(x: nat) returns (k: nat)
    ensures k == Fmix64(x)
  {
    k := x;
    k := Xor(k, Shr(k, 33));
    k := Mul(k, 0xff51afd7ed558ccd, 64);
    k := Xor(k, Shr(k, 33));
    k := Mul(k, 0xc4ceb9fe1a85ec53, 64);
    k := Xor(k, Shr(k, 33));
  }
}

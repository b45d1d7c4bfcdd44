/** Words by their hexadecimal digits, and the word operators on given numbers: each lemma takes the
    result along and has it checked. */
module HexWords {
  import opened Words

  datatype Nibble = Nibble(b3: bool, b2: bool, b1: bool, b0: bool) {
    function V(): (r: nat)
      ensures r < 16
    {
      (if b3 then 8 else 0) + (if b2 then 4 else 0) + (if b1 then 2 else 0) + (if b0 then 1 else 0)
    }

    function X(n: Nibble): Nibble { Nibble(b3 != n.b3, b2 != n.b2, b1 != n.b1, b0 != n.b0) }
  }

  const H0: Nibble := Nibble(false, false, false, false)
  const H1: Nibble := Nibble(false, false, false, true)
  const H2: Nibble := Nibble(false, false, true, false)
  const H3: Nibble := Nibble(false, false, true, true)
  const H4: Nibble := Nibble(false, true, false, false)
  const H5: Nibble := Nibble(false, true, false, true)
  const H6: Nibble := Nibble(false, true, true, false)
  const H7: Nibble := Nibble(false, true, true, true)
  const H8: Nibble := Nibble(true, false, false, false)
  const H9: Nibble := Nibble(true, false, false, true)
  const HA: Nibble := Nibble(true, false, true, false)
  const HB: Nibble := Nibble(true, false, true, true)
  const HC: Nibble := Nibble(true, true, false, false)
  const HD: Nibble := Nibble(true, true, false, true)
  const HE: Nibble := Nibble(true, true, true, false)
  const HF: Nibble := Nibble(true, true, true, true)

  /** Four digits, highest first. */
  datatype Quad = Q(a: Nibble, b: Nibble, c: Nibble, d: Nibble) {
    function V(): (r: nat)
      ensures r < 0x1_0000
    {
      0x1000 * a.V() + 0x100 * b.V() + 0x10 * c.V() + d.V()
    }

    function X(q: Quad): Quad { Q(a.X(q.a), b.X(q.b), c.X(q.c), d.X(q.d)) }
  }

  lemma Powers()
    ensures Pow2(4) == 0x10 && Pow2(13) == 0x2000 && Pow2(14) == 0x4000 && Pow2(15) == 0x8000 && Pow2(16) == 0x1_0000
    ensures Pow2(17) == 0x2_0000 && Pow2(18) == 0x4_0000 && Pow2(19) == 0x8_0000 && Pow2(27) == 0x800_0000
    ensures Pow2(31) == 0x8000_0000 && Pow2(32) == 0x1_0000_0000 && Pow2(33) == 0x2_0000_0000
    ensures Pow2(37) == 0x20_0000_0000 && Pow2(64) == 0x1_0000_0000_0000_0000
  {
    Pow2Values();
    assert Pow2(4) == 16;
    assert Pow2(13) == 0x20 * Pow2(8) by { Pow2Add(5, 8); assert Pow2(5) == 0x20; }
    Pow2Add(13, 14);
    Pow2Add(8, 8);
    Pow2Add(16, 16);
    Pow2Add(18, 19);
  }

  /** Exclusive or goes through the digits. */
  lemma {:induction false} XorJoined(a: nat, c: nat, b: nat, d: nat, k: nat)
    requires Fits(c, k) && Fits(d, k)
    ensures Xor(a * Pow2(k) + c, b * Pow2(k) + d) == Xor(a, b) * Pow2(k) + Xor(c, d)
    decreases k
  {
    hide Xor, Pow2, Fits;
    HalfFits(c, k);
    HalfFits(d, k);
    if k > 0 {
      Doubled(a, k);
      Doubled(b, k);
      Doubled(Xor(a, b), k);
      XorJoined(a, c / 2, b, d / 2, k - 1);
      XorStep(c, d);
      XorStep(a * Pow2(k) + c, b * Pow2(k) + d);
    } else {
      XorZero(0);
      NoPower(a);
      NoPower(b);
      NoPower(Xor(a, b));
    }
  }

  lemma NoPower(a: nat)
    ensures a * Pow2(0) == a
  {
  }

  function Bit(b: bool): nat { if b then 1 else 0 }

  lemma BitXor(a: bool, x: nat, b: bool, y: nat)
    ensures Xor(2 * x + Bit(a), 2 * y + Bit(b)) == 2 * Xor(x, y) + Bit(a != b)
  {
    hide Xor;
    XorStep(2 * x + Bit(a), 2 * y + Bit(b));
    assert (2 * x + Bit(a)) / 2 == x && (2 * y + Bit(b)) / 2 == y;
  }

  lemma NibbleXor(n: Nibble, m: Nibble)
    ensures Xor(n.V(), m.V()) == n.X(m).V()
  {
    hide Xor;
    var x3, y3 := Bit(n.b3), Bit(m.b3);
    var x2, y2 := 2 * x3 + Bit(n.b2), 2 * y3 + Bit(m.b2);
    var x1, y1 := 2 * x2 + Bit(n.b1), 2 * y2 + Bit(m.b1);
    XorZero(0);
    BitXor(n.b3, 0, m.b3, 0);
    BitXor(n.b2, x3, m.b2, y3);
    BitXor(n.b1, x2, m.b1, y2);
    BitXor(n.b0, x1, m.b0, y1);
  }

  lemma DigitXor(a: nat, c: nat, b: nat, d: nat)
    requires c < 16 && d < 16
    ensures Xor(0x10 * a + c, 0x10 * b + d) == 0x10 * Xor(a, b) + Xor(c, d)
  {
    hide Xor, Pow2;
    Powers();
    XorJoined(a, c, b, d, 4);
  }

  lemma QuadXor(q: Quad, p: Quad)
    ensures Xor(q.V(), p.V()) == q.X(p).V()
  {
    hide Xor, Pow2, Nibble.V, Nibble.X;
    NibbleXor(q.a, p.a);
    NibbleXor(q.b, p.b);
    NibbleXor(q.c, p.c);
    NibbleXor(q.d, p.d);
    var x, y := 0x10 * q.a.V() + q.b.V(), 0x10 * p.a.V() + p.b.V();
    DigitXor(q.a.V(), q.b.V(), p.a.V(), p.b.V());
    DigitXor(x, q.c.V(), y, p.c.V());
    DigitXor(0x10 * x + q.c.V(), q.d.V(), 0x10 * y + p.c.V(), p.d.V());
  }

  /** 32-bit exclusive or. */
  lemma Xor32To(q1: Quad, q0: Quad, p1: Quad, p0: Quad, x: nat, y: nat, r: nat)
    requires x == 0x1_0000 * q1.V() + q0.V() && y == 0x1_0000 * p1.V() + p0.V()
    requires r == 0x1_0000 * q1.X(p1).V() + q0.X(p0).V()
    ensures Xor(x, y) == r
  {
    hide Xor, Pow2, Quad.V, Quad.X;
    Powers();
    QuadXor(q1, p1);
    QuadXor(q0, p0);
    XorJoined(q1.V(), q0.V(), p1.V(), p0.V(), 16);
  }

  /** 64-bit exclusive or. */
  lemma Xor64To(q3: Quad, q2: Quad, q1: Quad, q0: Quad, p3: Quad, p2: Quad, p1: Quad, p0: Quad, x: nat, y: nat, r: nat)
    requires x == 0x1_0000_0000_0000 * q3.V() + 0x1_0000_0000 * q2.V() + 0x1_0000 * q1.V() + q0.V()
    requires y == 0x1_0000_0000_0000 * p3.V() + 0x1_0000_0000 * p2.V() + 0x1_0000 * p1.V() + p0.V()
    requires r == 0x1_0000_0000_0000 * q3.X(p3).V() + 0x1_0000_0000 * q2.X(p2).V() + 0x1_0000 * q1.X(p1).V() + q0.X(p0).V()
    ensures Xor(x, y) == r
  {
    hide Xor, Pow2, Quad.V, Quad.X;
    Powers();
    QuadXor(q3, p3);
    QuadXor(q2, p2);
    QuadXor(q1, p1);
    QuadXor(q0, p0);
    var q, p := 0x1_0000 * q3.V() + q2.V(), 0x1_0000 * p3.V() + p2.V();
    XorJoined(q3.V(), q2.V(), p3.V(), p2.V(), 16);
    XorJoined(q, q1.V(), p, p1.V(), 16);
    XorJoined(0x1_0000 * q + q1.V(), q0.V(), 0x1_0000 * p + p1.V(), p0.V(), 16);
  }

  lemma MulTo(x: nat, y: nat, w: nat, m: nat, q: nat, r: nat)
    requires m == Pow2(w) && x * y == q * m + r && r < m
    ensures Mul(x, y, w) == r
  {
    HighLowUnique(x * y, w, q, r);
  }

  lemma AddTo(x: nat, y: nat, w: nat, m: nat, r: nat)
    requires m == Pow2(w) && (x + y == r || x + y == m + r) && r < m
    ensures Add(x, y, w) == r
  {
    HighLowUnique(x + y, w, if x + y == r then 0 else 1, r);
  }

  /** x is high * q + low; low moves up by p. */
  lemma RotlTo(x: nat, r: nat, w: nat, m: nat, p: nat, q: nat, high: nat, low: nat, y: nat)
    requires r <= w && m == Pow2(w) && x < m && p == Pow2(r) && q == Pow2(w - r)
    requires x == high * q + low && low < q && y == low * p + high
    ensures Rotl(x, r, w) == y
  {
    hide Pow2, Low, Shr, Rotl;
    RotlIs(x, r, w);
    HighLowUnique(x, w - r, high, low);
  }

  lemma ShrTo(x: nat, r: nat, p: nat, high: nat, low: nat)
    requires p == Pow2(r) && x == high * p + low && low < p
    ensures Shr(x, r) == high
  {
    HighLowUnique(x, r, high, low);
  }
}

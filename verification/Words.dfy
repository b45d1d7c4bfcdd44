/** Unsigned machine words of w bits as numbers below 2^w: every operator of the hash functions, with
    its wrap-around, and what undoes it. */
module Words {
  function Pow2(k: nat): (r: nat)
    ensures 0 < r
  {
    if k == 0 then 1 else 2 * Pow2(k - 1)
  }

  predicate Fits(x: nat, w: nat) { x < Pow2(w) }

  /** The low w bits: what a word of that width keeps of x. */
  function Low(x: nat, w: nat): (r: nat)
    ensures Fits(r, w)
    decreases w
  {
    if w == 0 then 0 else x % 2 + 2 * Low(x / 2, w - 1)
  }

  /** x >> k */
  function Shr(x: nat, k: nat): nat
    decreases k
  {
    if k == 0 then x else Shr(x / 2, k - 1)
  }

  /** Bitwise exclusive or. */
  function Xor(a: nat, b: nat): nat
    decreases a + b
  {
    if a == 0 then b else if b == 0 then a
    else (if a % 2 == b % 2 then 0 else 1) + 2 * Xor(a / 2, b / 2)
  }

  /** Bitwise or. */
  function Or(a: nat, b: nat): nat
    decreases a + b
  {
    if a == 0 then b else if b == 0 then a
    else (if a % 2 == 0 && b % 2 == 0 then 0 else 1) + 2 * Or(a / 2, b / 2)
  }

  function Add(x: nat, y: nat, w: nat): nat { Low(x + y, w) }

  function Mul(x: nat, y: nat, w: nat): nat { Low(x * y, w) }

  /** x << r */
  function Shl(x: nat, r: nat, w: nat): nat { Low(x * Pow2(r), w) }

  function Rotl(x: nat, r: nat, w: nat): nat
    requires r <= w
  {
    Or(Shl(x, r, w), Shr(x, w - r))
  }

  // Exclusive or.

  /** One unrolling of exclusive or that also holds when a side is zero. */
  lemma XorStep(a: nat, b: nat)
    ensures Xor(a, b) == (if a % 2 == b % 2 then 0 else 1) + 2 * Xor(a / 2, b / 2)
    ensures Xor(a, b) / 2 == Xor(a / 2, b / 2) && Xor(a, b) % 2 == if a % 2 == b % 2 then 0 else 1
  {
  }

  lemma XorZero(a: nat)
    ensures Xor(a, 0) == a && Xor(0, a) == a
  {
  }

  lemma {:induction false} XorSelf(a: nat)
    ensures Xor(a, a) == 0
  {
    if a > 0 {
      XorSelf(a / 2);
    }
  }

  lemma {:induction false} XorComm(a: nat, b: nat)
    ensures Xor(a, b) == Xor(b, a)
    decreases a + b
  {
    if a > 0 && b > 0 {
      XorComm(a / 2, b / 2);
    }
  }

  lemma {:induction false} XorAssoc(a: nat, b: nat, c: nat)
    ensures Xor(Xor(a, b), c) == Xor(a, Xor(b, c))
    decreases a + b + c
  {
    if a > 0 && b > 0 && c > 0 {
      hide Xor;
      XorAssoc(a / 2, b / 2, c / 2);
      XorStep(a, b);
      XorStep(b, c);
      XorStep(Xor(a, b), c);
      XorStep(a, Xor(b, c));
    }
  }

  /** Exclusive or undoes itself. */
  lemma XorBack(a: nat, b: nat)
    ensures Xor(Xor(a, b), b) == a
  {
    XorAssoc(a, b, b);
    XorSelf(b);
  }

  lemma XorInjective(a: nat, b: nat, c: nat)
    ensures Xor(a, c) == Xor(b, c) ==> a == b
    ensures Xor(c, a) == Xor(c, b) ==> a == b
  {
    XorBack(a, c);
    XorBack(b, c);
    XorComm(a, c);
    XorComm(b, c);
  }

  lemma {:induction false} XorFits(a: nat, b: nat, w: nat)
    requires Fits(a, w) && Fits(b, w)
    ensures Fits(Xor(a, b), w)
    decreases w
  {
    if w > 0 {
      XorStep(a, b);
      XorFits(a / 2, b / 2, w - 1);
    }
  }

  lemma {:induction false} XorShr(a: nat, b: nat, k: nat)
    ensures Shr(Xor(a, b), k) == Xor(Shr(a, k), Shr(b, k))
    decreases k
  {
    if k > 0 {
      XorStep(a, b);
      XorShr(a / 2, b / 2, k - 1);
    }
  }

  // Powers of two, low bits and high bits.

  lemma Unmoved(x: nat)
    ensures Shr(x, 0) == x && Low(x, 0) == 0 && Pow2(0) == 1
  {
  }

  lemma OneBit(x: nat, k: nat)
    requires 0 < k
    ensures Shr(x, k) == Shr(x / 2, k - 1) && Low(x, k) == x % 2 + 2 * Low(x / 2, k - 1) && Pow2(k) == 2 * Pow2(k - 1)
  {
  }

  lemma TwiceProduct(a: int, b: int)
    ensures 2 * (a * b) == a * (2 * b)
  {
  }

  lemma {:induction false} Pow2Add(a: nat, b: nat)
    ensures Pow2(a + b) == Pow2(a) * Pow2(b)
    decreases a
  {
    hide Pow2, Low, Shr;
    if a == 0 {
      Unmoved(0);
    } else {
      Pow2Add(a - 1, b);
      OneBit(0, a);
      OneBit(0, a + b);
      TwiceProduct(Pow2(b), Pow2(a - 1));
    }
  }

  lemma Pow2Values()
    ensures Pow2(8) == 0x100 && Pow2(32) == 0x1_0000_0000 && Pow2(64) == 0x1_0000_0000_0000_0000
  {
    assert Pow2(8) == 0x100;
    Pow2Add(8, 8);
    Pow2Add(16, 16);
    Pow2Add(32, 32);
  }

  lemma {:induction false} Pow2Grows(j: nat, k: nat)
    requires j <= k
    ensures Pow2(j) <= Pow2(k)
    decreases k
  {
    if j < k {
      Pow2Grows(j, k - 1);
    }
  }

  lemma MultipleGrows(d: int, m: int)
    requires 0 < m
    ensures 1 <= d ==> m <= d * m
    ensures d <= -1 ==> d * m <= -m
  {
  }

  lemma SplitUnique(a: int, b: int, m: nat, r: nat, s: nat)
    requires a * m + r == b * m + s && r < m && s < m
    ensures a == b
  {
    assert (a - b) * m == a * m - b * m;
    MultipleGrows(a - b, m);
  }

  /** A number is its high bits, moved up, and its low bits. */
  lemma {:induction false} HighLow(x: nat, k: nat)
    ensures x == Shr(x, k) * Pow2(k) + Low(x, k)
    decreases k
  {
    hide Shr, Low, Pow2;
    if k == 0 {
      Unmoved(x);
    } else {
      HighLow(x / 2, k - 1);
      OneBit(x, k);
      TwiceProduct(Shr(x, k), Pow2(k - 1));
    }
  }

  /** ... and there is only one way to split it so. */
  lemma HighLowUnique(x: nat, k: nat, high: int, low: nat)
    requires x == high * Pow2(k) + low && Fits(low, k)
    ensures Shr(x, k) == high && Low(x, k) == low
  {
    hide Low, Shr, Pow2;
    HighLow(x, k);
    SplitUnique(Shr(x, k), high, Pow2(k), Low(x, k), low);
  }

  /** Keeping the low bits is reducing modulo 2^w. */
  lemma LowIsMod(x: nat, w: nat)
    ensures Low(x, w) == x % Pow2(w) && Shr(x, w) == x / Pow2(w)
  {
    var m := Pow2(w);
    assert x == x / m * m + x % m;
    assert 0 <= x % m < m;
    HighLowUnique(x, w, x / m, x % m);
  }

  lemma {:induction false} ShrShr(a: nat, j: nat, k: nat)
    ensures Shr(Shr(a, j), k) == Shr(a, j + k)
    decreases j
  {
    if j > 0 {
      ShrShr(a / 2, j - 1, k);
    }
  }

  lemma {:induction false} ShrAway(a: nat, k: nat, w: nat)
    requires Fits(a, w) && w <= k
    ensures Shr(a, k) == 0
    decreases k
  {
    if k > 0 {
      ShrAway(a / 2, k - 1, if w > 0 then w - 1 else 0);
    }
  }

  lemma {:induction false} ShrFits(a: nat, k: nat, w: nat)
    requires Fits(a, w)
    ensures Fits(Shr(a, k), w)
    decreases k
  {
    if k > 0 {
      ShrFits(a / 2, k - 1, w);
    }
  }

  /** One unrolling of both operators for an even number. */
  lemma JoinStep(c: nat, half: nat, b: nat)
    requires c == 2 * half
    ensures Xor(c, b) == b % 2 + 2 * Xor(half, b / 2) && Or(c, b) == b % 2 + 2 * Or(half, b / 2)
  {
  }

  lemma JoinZero(c: nat)
    ensures Xor(c, 0) == c && Or(c, 0) == c
  {
  }

  lemma Doubled(a: nat, k: nat)
    requires 0 < k
    ensures a * Pow2(k) == 2 * (a * Pow2(k - 1))
  {
    TwiceProduct(a, Pow2(k - 1));
  }

  lemma HalfFits(b: nat, k: nat)
    ensures Fits(b, k) <==> if k == 0 then b == 0 else Fits(b / 2, k - 1)
  {
  }

  /** Numbers without a common bit are added by either operator. */
  lemma {:induction false} Disjoint(a: nat, b: nat, k: nat)
    requires Fits(b, k)
    ensures Xor(a * Pow2(k), b) == a * Pow2(k) + b
    ensures Or(a * Pow2(k), b) == a * Pow2(k) + b
    decreases k
  {
    hide Xor, Or, Pow2, Fits;
    HalfFits(b, k);
    if k > 0 {
      Doubled(a, k);
      Disjoint(a, b / 2, k - 1);
      JoinStep(a * Pow2(k), a * Pow2(k - 1), b);
    } else {
      JoinZero(a * Pow2(0));
    }
  }

  // What undoes the operators.

  /** x ^= x >> r is undone by doing it again, when r is at least half of the width. */
  lemma XorShrBack(x: nat, r: nat, w: nat)
    requires Fits(x, w) && w <= 2 * r
    ensures var y := Xor(x, Shr(x, r)); Xor(y, Shr(y, r)) == x
  {
    hide Xor, Shr, Pow2;
    XorShr(x, Shr(x, r), r);
    ShrShr(x, r, r);
    ShrAway(x, r + r, w);
    XorBack(x, Shr(x, r));
    XorZero(Shr(x, r));
  }

  /** When r is at least a third of the width, the next shift is needed too. */
  lemma XorShrBack3(x: nat, r: nat, w: nat)
    requires Fits(x, w) && w <= 3 * r
    ensures var y := Xor(x, Shr(x, r)); Xor(Xor(y, Shr(y, r)), Shr(y, 2 * r)) == x
  {
    hide Xor, Shr, Pow2;
    var s, s2 := Shr(x, r), Shr(x, 2 * r);
    XorShr(x, s, r);
    XorShr(x, s, 2 * r);
    ShrShr(x, r, r);
    ShrShr(x, r, 2 * r);
    ShrAway(x, r + 2 * r, w);
    XorZero(s2);
    XorAssoc(x, s, Xor(s, s2));
    XorAssoc(s, s, s2);
    XorSelf(s);
    XorBack(x, s2);
  }

  /** Multiplication by c is undone by its inverse modulo 2^w. */
  lemma MulBack(x: nat, c: nat, d: nat, w: nat)
    requires Fits(x, w) && Low(c * d, w) == 1
    ensures Mul(Mul(x, c, w), d, w) == x
  {
    hide Low, Shr, Pow2;
    var m, r, q, k := Pow2(w), Low(x * c, w), Shr(x * c, w), Shr(c * d, w);
    HighLow(x * c, w);
    HighLow(c * d, w);
    InverseModulo(x, c, d, m, q, r, k);
    HighLowUnique(r * d, w, x * k - q * d, x);
  }

  lemma InverseModulo(x: nat, c: nat, d: nat, m: nat, q: nat, r: nat, k: nat)
    requires x * c == q * m + r && c * d == k * m + 1
    ensures r * d == (x * k - q * d) * m + x
  {
    assert x * c * d == x * (k * m + 1) by {
      assert x * c * d == x * (c * d);
    }
    assert (q * m + r) * d == q * d * m + r * d;
    assert x * (k * m + 1) == x * k * m + x;
    assert (x * k - q * d) * m == x * k * m - q * d * m;
  }

  lemma SameRemainder(x: nat, y: nat, a: int, b: int, m: nat)
    requires x < m && y < m && x - a * m == y - b * m
    ensures x == y
  {
    SplitUnique(b, a, m, x, y);
  }

  lemma AddInjective(x: nat, y: nat, z: nat, w: nat)
    requires Fits(x, w) && Fits(y, w) && Add(x, z, w) == Add(y, z, w)
    ensures x == y
  {
    hide Low, Shr, Pow2;
    HighLow(x + z, w);
    HighLow(y + z, w);
    SameRemainder(x, y, Shr(x + z, w), Shr(y + z, w), Pow2(w));
  }

  /** Rotation moves the high r bits below the others. */
  lemma RotlIs(x: nat, r: nat, w: nat)
    requires Fits(x, w) && r <= w
    ensures Rotl(x, r, w) == Low(x, w - r) * Pow2(r) + Shr(x, w - r)
    ensures Fits(Shr(x, w - r), r) && Fits(Rotl(x, r, w), w)
  {
    hide Pow2, Or, Low, Shr;
    var p, q := Pow2(r), Pow2(w - r);
    var high, low := Shr(x, w - r), Low(x, w - r);
    Pow2Add(r, w - r);
    HighLow(x, w - r);
    HighBelow(x, p, q, high, low);
    MovedUp(x, p, q, high, low);
    HighLowUnique(x * p, w, high, low * p);
    Disjoint(low, high, r);
  }

  lemma HighBelow(x: nat, p: nat, q: nat, high: nat, low: nat)
    requires x == high * q + low && low < q && x < p * q
    ensures high < p
  {
    assert (high - p) * q == high * q - p * q;
    MultipleGrows(high - p, q);
  }

  lemma Distribute(high: nat, low: nat, p: nat, q: nat)
    ensures (high * q + low) * p == high * (p * q) + low * p
  {
    assert high * q * p == high * (p * q);
  }

  lemma MovedUp(x: nat, p: nat, q: nat, high: nat, low: nat)
    requires x == high * q + low && low < q && high < p
    ensures x * p == high * (p * q) + low * p && low * p + high < p * q
  {
    Distribute(high, low, p, q);
    var gap := q - 1 - low;
    assert 0 <= gap * p;
    assert gap * p == (q - 1) * p - low * p;
    assert (q - 1) * p == p * q - p;
  }

  /** Rotating on by what is left of the width undoes a rotation. */
  lemma RotlBack(x: nat, r: nat, w: nat)
    requires Fits(x, w) && r <= w
    ensures Fits(Rotl(x, r, w), w) && Rotl(Rotl(x, r, w), w - r, w) == x
  {
    hide Rotl, Pow2, Low, Shr;
    RotlIs(x, r, w);
    var y := Rotl(x, r, w);
    RotlIs(y, w - r, w);
    HighLowUnique(y, r, Low(x, w - r), Shr(x, w - r));
    HighLow(x, w - r);
  }
}

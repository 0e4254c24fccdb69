/** Machine words as natural numbers: the bitwise operations of the kernels' uint64 arithmetic, with the
    wrap-around written out, and the bit-level facts the kernels rely on. */
module Words {

  function Pow2(k: nat): (r: nat)
    ensures r > 0
  {
    if k == 0 then 1 else 2 * Pow2(k - 1)
  }

  const WORD_BITS: nat := 64

  predicate IsWord(w: nat) {
    w < Pow2(WORD_BITS)
  }

  /** Bit i of w. */
  predicate Bit(w: nat, i: nat) {
    if i == 0 then w % 2 == 1 else Bit(w / 2, i - 1)
  }

  function And(x: nat, y: nat): nat
    decreases x
  {
    if x == 0 then 0
    else 2 * And(x / 2, y / 2) + (if x % 2 == 1 && y % 2 == 1 then 1 else 0)
  }

  function Or(x: nat, y: nat): nat
    decreases x + y
  {
    if x == 0 && y == 0 then 0
    else 2 * Or(x / 2, y / 2) + (if x % 2 == 1 || y % 2 == 1 then 1 else 0)
  }

  /** The complement of a 64-bit word. */
  function Not(w: nat): nat
    requires IsWord(w)
  {
    Pow2(WORD_BITS) - 1 - w
  }

  /** x << k and x >> k on 64-bit words. */
  function Shl(x: nat, k: nat): nat {
    (x * Pow2(k)) % Pow2(WORD_BITS)
  }

  function Shr(x: nat, k: nat): nat {
    if k == 0 then x else Shr(x / 2, k - 1)
  }

  /** The number of set bits. */
  function Popcount(w: nat): nat {
    if w == 0 then 0 else w % 2 + Popcount(w / 2)
  }

  lemma {:induction false} Pow2Add(a: nat, b: nat)
    ensures Pow2(a + b) == Pow2(a) * Pow2(b)
  {
    if a > 0 {
      Pow2Add(a - 1, b);
      assert Pow2(a + b) == 2 * Pow2(a - 1 + b);
    }
  }

  lemma {:induction false} Pow2Mono(a: nat, b: nat)
    requires a <= b
    ensures Pow2(a) <= Pow2(b)
  {
    if a < b { Pow2Mono(a, b - 1); }
  }

  lemma {:induction false} BitAnd(x: nat, y: nat, i: nat)
    ensures Bit(And(x, y), i) <==> Bit(x, i) && Bit(y, i)
    decreases i
  {
    if x == 0 {
      BitZero(i);
    } else if i > 0 {
      BitAnd(x / 2, y / 2, i - 1);
    }
  }

  lemma {:induction false} BitOr(x: nat, y: nat, i: nat)
    ensures Bit(Or(x, y), i) <==> Bit(x, i) || Bit(y, i)
    decreases i
  {
    if x == 0 && y == 0 {
      BitZero(i);
    } else if i > 0 {
      BitOr(x / 2, y / 2, i - 1);
    }
  }

  lemma {:induction false} BitZero(i: nat)
    ensures !Bit(0, i)
  {
    if i > 0 { BitZero(i - 1); }
  }

  /** Words with the same bits are equal. */
  lemma {:induction false} BitsEqual(x: nat, y: nat)
    requires forall i: nat :: Bit(x, i) <==> Bit(y, i)
    ensures x == y
    decreases x + y
  {
    assert Bit(x, 0) <==> Bit(y, 0);
    if x != 0 || y != 0 {
      forall i: nat ensures Bit(x / 2, i) <==> Bit(y / 2, i) {
        assert Bit(x, i + 1) <==> Bit(y, i + 1);
      }
      BitsEqual(x / 2, y / 2);
    }
  }

  lemma {:induction false} BitHigh(w: nat, n: nat, i: nat)
    requires w < Pow2(n) && n <= i
    ensures !Bit(w, i)
  {
    if n == 0 {
      BitZero(i);
    } else {
      BitHigh(w / 2, n - 1, i - 1);
    }
  }

  /** The low n bits of w are w modulo 2^n. */
  lemma {:induction false} BitMod(w: nat, n: nat, i: nat)
    ensures w % Pow2(n) < Pow2(n)
    ensures Bit(w % Pow2(n), i) <==> i < n && Bit(w, i)
    decreases n
  {
    if n == 0 {
      BitZero(i);
    } else {
      HalfMod(w, Pow2(n - 1));
      if i > 0 { BitMod(w / 2, n - 1, i - 1); }
    }
  }

  lemma HalfMod(w: nat, p: nat)
    requires p > 0
    ensures (w % (2 * p)) / 2 == (w / 2) % p
    ensures (w % (2 * p)) % 2 == w % 2
  {
    var q, r := w / (2 * p), w % (2 * p);
    assert w == 2 * (p * q) + r by { assert w == (2 * p) * q + r; }
    assert w / 2 == p * q + r / 2;
    ModOfSum(q, p, r / 2);
  }

  lemma ModOfSum(q: nat, p: nat, r: nat)
    requires r < p
    ensures (p * q + r) / p == q && (p * q + r) % p == r
  {
    var n := p * q + r;
    var d, m := n / p, n % p;
    assert p * d + m == p * q + r;
    MulDistinct(p, q, d, r, m);
  }

  lemma MulDistinct(p: nat, q: int, d: int, r: nat, m: nat)
    requires p * d + m == p * q + r && r < p && m < p
    ensures d == q && r == m
  {
    assert p * (q - d) == m - r && p * (d - q) == r - m;
    if q > d { MulGrows(p, q - d); }
    if d > q { MulGrows(p, d - q); }
  }

  lemma MulGrows(p: nat, t: int)
    requires t >= 1
    ensures p * t >= p
  {
    assert p * t == p * (t - 1) + p;
  }

  lemma {:induction false} BitMulPow2(x: nat, k: nat, i: nat)
    ensures Bit(x * Pow2(k), i) <==> k <= i && Bit(x, i - k)
    decreases k
  {
    if k > 0 {
      var y := x * Pow2(k - 1);
      assert x * Pow2(k) == 2 * y;
      if i > 0 { BitMulPow2(x, k - 1, i - 1); }
    }
  }

  lemma BitShl(x: nat, k: nat, i: nat)
    ensures Shl(x, k) < Pow2(WORD_BITS)
    ensures Bit(Shl(x, k), i) <==> k <= i < WORD_BITS && Bit(x, i - k)
  {
    BitMod(x * Pow2(k), WORD_BITS, i);
    BitMulPow2(x, k, i);
  }

  lemma {:induction false} BitShr(x: nat, k: nat, i: nat)
    ensures Bit(Shr(x, k), i) <==> Bit(x, i + k)
    decreases k
  {
    if k > 0 { BitShr(x / 2, k - 1, i); }
  }

  /** A right shift is a floored division by a power of two. */
  lemma {:induction false} ShrDiv(x: nat, k: nat)
    ensures Shr(x, k) == x / Pow2(k)
    decreases k
  {
    if k > 0 {
      ShrDiv(x / 2, k - 1);
      DivDiv(x, Pow2(k - 1));
    }
  }

  lemma DivDiv(x: nat, p: nat)
    requires p > 0
    ensures (x / 2) / p == x / (2 * p)
  {
    var q, r := x / (2 * p), x % (2 * p);
    assert x == 2 * (p * q) + r by { assert x == (2 * p) * q + r; }
    assert x / 2 == p * q + r / 2;
    ModOfSum(q, p, r / 2);
  }

  lemma {:induction false} BitNot(w: nat, i: nat)
    requires IsWord(w)
    ensures IsWord(Not(w))
    ensures Bit(Not(w), i) <==> i < WORD_BITS && !Bit(w, i)
  {
    BitComplement(w, WORD_BITS, i);
  }

  lemma {:induction false} BitComplement(w: nat, n: nat, i: nat)
    requires w < Pow2(n)
    ensures Bit(Pow2(n) - 1 - w, i) <==> i < n && !Bit(w, i)
    decreases n
  {
    if n == 0 {
      BitZero(i);
    } else {
      assert (Pow2(n) - 1 - w) / 2 == Pow2(n - 1) - 1 - w / 2;
      if i > 0 { BitComplement(w / 2, n - 1, i - 1); }
    }
  }

  /** Every bit of x below n: x < 2^n. */
  lemma {:induction false} BoundFromBits(x: nat, n: nat)
    requires forall i: nat :: Bit(x, i) ==> i < n
    ensures x < Pow2(n)
    decreases n
  {
    if n == 0 {
      forall i: nat ensures Bit(x, i) <==> Bit(0, i) { BitZero(i); }
      BitsEqual(x, 0);
    } else {
      forall i: nat | Bit(x / 2, i) ensures i < n - 1 {
        assert Bit(x, i + 1);
      }
      BoundFromBits(x / 2, n - 1);
    }
  }

  lemma OrWord(x: nat, y: nat, n: nat)
    requires x < Pow2(n) && y < Pow2(n)
    ensures Or(x, y) < Pow2(n)
  {
    forall i: nat | Bit(Or(x, y), i) ensures i < n {
      BitOr(x, y, i);
      if i >= n { BitHigh(x, n, i); BitHigh(y, n, i); }
    }
    BoundFromBits(Or(x, y), n);
  }

  /** A mask of n low ones keeps the value modulo 2^n. */
  lemma AndLowMask(x: nat, n: nat)
    ensures And(x, Pow2(n) - 1) == x % Pow2(n)
  {
    forall i: nat ensures Bit(And(x, Pow2(n) - 1), i) <==> Bit(x % Pow2(n), i) {
      BitAnd(x, Pow2(n) - 1, i);
      BitMod(x, n, i);
      BitComplement(0, n, i);
      BitZero(i);
    }
    BitsEqual(And(x, Pow2(n) - 1), x % Pow2(n));
  }

  /** Or-ing a high part with a disjoint low part adds them. */
  lemma {:induction false} OrDisjoint(high: nat, low: nat, n: nat)
    requires low < Pow2(n)
    ensures Or(high * Pow2(n), low) == high * Pow2(n) + low
    decreases n
  {
    if n == 0 {
      OrZero(high);
    } else {
      var h := high * Pow2(n - 1);
      assert high * Pow2(n) == 2 * h;
      OrDisjoint(high, low / 2, n - 1);
      if h != 0 || low != 0 {
        assert Or(2 * h, low) == 2 * Or(h, low / 2) + low % 2;
      }
    }
  }

  lemma {:induction false} OrZero(x: nat)
    ensures Or(x, 0) == x && Or(0, x) == x
  {
    if x != 0 { OrZero(x / 2); }
  }

  lemma BitOne(k: nat, i: nat)
    ensures Bit(Pow2(k), i) <==> i == k
  {
    BitMulPow2(1, k, i);
    if i >= k {
      assert Bit(1, i - k) <==> i == k by {
        if i > k { BitZero(i - k - 1); }
      }
    }
  }

  /** The position of the highest set bit (63 - leading zeros of a 64-bit word). */
  function HighestBit(w: nat): nat
    requires w > 0
  {
    if w == 1 then 0 else 1 + HighestBit(w / 2)
  }

  lemma {:induction false} HighestBitIs(w: nat)
    requires w > 0
    ensures Bit(w, HighestBit(w))
    ensures forall i: nat :: Bit(w, i) ==> i <= HighestBit(w)
  {
    if w == 1 {
      forall i: nat | Bit(w, i) ensures i == 0 {
        if i > 0 { BitZero(i - 1); }
      }
    } else {
      HighestBitIs(w / 2);
      forall i: nat | Bit(w, i) ensures i <= HighestBit(w) {
        if i > 0 { assert Bit(w / 2, i - 1); }
      }
    }
  }

  lemma ZeroHasNoBit()
    ensures forall i: nat :: !Bit(0, i)
  {
    forall i: nat ensures !Bit(0, i) { BitZero(i); }
  }

  /** Every bit of `small` is one of `big`. */
  ghost predicate Within(small: nat, big: nat) {
    forall b: nat :: Bit(small, b) ==> Bit(big, b)
  }

  /** small & ~big tells. */
  lemma MissingBits(small: nat, big: nat)
    requires IsWord(small) && IsWord(big)
    ensures And(small, Not(big)) == 0 <==> Within(small, big)
  {
    var m := And(small, Not(big));
    forall b: nat ensures Bit(m, b) <==> Bit(small, b) && !Bit(big, b) {
      BitAnd(small, Not(big), b);
      BitNot(big, b);
      if b >= WORD_BITS { BitHigh(small, WORD_BITS, b); }
    }
    if m == 0 {
      forall b: nat | Bit(small, b) ensures Bit(big, b) {
        BitZero(b);
        assert !Bit(m, b);
      }
    } else {
      HighestBitIs(m);
      assert Bit(m, HighestBit(m));
      assert Bit(small, HighestBit(m)) && !Bit(big, HighestBit(m));
    }
  }

  lemma WordBits(w: nat)
    requires IsWord(w)
    ensures forall b: nat :: Bit(w, b) ==> b < WORD_BITS
  {
    forall b: nat | Bit(w, b) ensures b < WORD_BITS {
      if b >= WORD_BITS { BitHigh(w, WORD_BITS, b); }
    }
  }

  lemma {:induction false} OrComm(x: nat, y: nat)
    ensures Or(x, y) == Or(y, x)
    decreases x + y
  {
    if x != 0 || y != 0 { OrComm(x / 2, y / 2); }
  }

  lemma {:induction false} HighestBitBounds(w: nat)
    requires w > 0
    ensures Pow2(HighestBit(w)) <= w < Pow2(HighestBit(w) + 1)
  {
    if w > 1 { HighestBitBounds(w / 2); }
  }
}

/** The stat box of the lossless cone filters (gear_optimizer/frontier/producer_kernels.py): 16 corners decide a
    multilinear gap over the whole box, and the pair's margin bounds what the game's floors can move it. */
module ConeBox {
  import opened Arithmetic

  const E_LOW := 0.0
  const E_HIGH := 7600.0
  const B_LOW := 200.0
  const B_HIGH := 485.0
  const C_LOW := 1.95
  const C_HIGH := 2.72
  const F_LOW := 2.95
  const F_HIGH := 5.48

  /** Body counts: fever notes, Greats outside fever, Greats in fever. */
  datatype Body = Body(fever: int, normal: int, feverGreat: int)

  /** A stat line of the box: twice the primary element plus the secondary, the Perfect Points bonus, the multipliers. */
  datatype Cell = Cell(e: real, b: real, c: real, f: real)

  predicate InBox(x: Cell) {
    E_LOW <= x.e <= E_HIGH && B_LOW <= x.b <= B_HIGH && C_LOW <= x.c <= C_HIGH && F_LOW <= x.f <= F_HIGH
  }

  /** The Great base before its floors. */
  function GreatBase(e: real): real { e * 2.0 / 3.0 + 150.0 }

  /** What body counts are worth without floors. */
  function Weighted(fever: real, normal: real, feverGreat: real, s: Cell): real {
    var v, loss := s.e + s.b, GreatBase(s.e) - (s.e + s.b);
    fever * (v * s.c * (s.f - 1.0)) + normal * (s.c * loss) + feverGreat * (s.c * s.f * loss)
  }

  // ---- Corners.

  lemma Affine(p: real, q: real, lo: real, hi: real, x: real, m: real)
    requires lo <= x <= hi && p * lo + q >= m && p * hi + q >= m
    ensures p * x + q >= m
  {
    if p >= 0.0 { ScaleMono(lo, x, p); } else { ScaleMono(x, hi, -p); }
  }

  lemma AffineInB(df: real, dn: real, dg: real, s: Cell, m: real)
    requires B_LOW <= s.b <= B_HIGH
    requires Weighted(df, dn, dg, s.(b := B_LOW)) >= m && Weighted(df, dn, dg, s.(b := B_HIGH)) >= m
    ensures Weighted(df, dn, dg, s) >= m
  {
    hide Weighted;
    WeightedInB(df, dn, dg, s, B_LOW);
    WeightedInB(df, dn, dg, s, B_HIGH);
    WeightedInB(df, dn, dg, s, s.b);
    assert s.(b := s.b) == s;
    Affine(df * (s.c * (s.f - 1.0)) - dn * s.c - dg * (s.c * s.f), RestInB(df, dn, dg, s), B_LOW, B_HIGH, s.b, m);
  }

  function RestInB(df: real, dn: real, dg: real, s: Cell): real {
    df * (s.e * s.c * (s.f - 1.0)) + dn * (s.c * (GreatBase(s.e) - s.e)) + dg * (s.c * s.f * (GreatBase(s.e) - s.e))
  }

  lemma WeightedInB(df: real, dn: real, dg: real, s: Cell, b: real)
    ensures Weighted(df, dn, dg, s.(b := b)) == (df * (s.c * (s.f - 1.0)) - dn * s.c - dg * (s.c * s.f)) * b + RestInB(df, dn, dg, s)
  {
    var x, y, z, w := s.c * (s.f - 1.0), s.c, s.c * s.f, GreatBase(s.e) - s.e;
    assert (s.e + b) * s.c * (s.f - 1.0) == s.e * s.c * (s.f - 1.0) + x * b;
    assert s.c * (w - b) == s.c * w - y * b;
    assert s.c * s.f * (w - b) == s.c * s.f * w - z * b;
    Distribute(df, s.e * s.c * (s.f - 1.0), x, b);
    Distribute(dn, s.c * w, -y, b);
    Distribute(dg, s.c * s.f * w, -z, b);
  }

  lemma Distribute(k: real, rest: real, x: real, b: real)
    ensures k * (rest + x * b) == k * rest + (k * x) * b
  {
  }

  lemma AffineInF(df: real, dn: real, dg: real, s: Cell, m: real)
    requires F_LOW <= s.f <= F_HIGH
    requires Weighted(df, dn, dg, s.(f := F_LOW)) >= m && Weighted(df, dn, dg, s.(f := F_HIGH)) >= m
    ensures Weighted(df, dn, dg, s) >= m
  {
    hide Weighted;
    WeightedInF(df, dn, dg, s, F_LOW);
    WeightedInF(df, dn, dg, s, F_HIGH);
    WeightedInF(df, dn, dg, s, s.f);
    assert s.(f := s.f) == s;
    var v, loss := s.e + s.b, GreatBase(s.e) - (s.e + s.b);
    Affine(df * (v * s.c) + dg * (s.c * loss), dn * (s.c * loss) - df * (v * s.c), F_LOW, F_HIGH, s.f, m);
  }

  lemma WeightedInF(df: real, dn: real, dg: real, s: Cell, f: real)
    ensures var v, loss := s.e + s.b, GreatBase(s.e) - (s.e + s.b);
            Weighted(df, dn, dg, s.(f := f)) == (df * (v * s.c) + dg * (s.c * loss)) * f + (dn * (s.c * loss) - df * (v * s.c))
  {
    var v, loss := s.e + s.b, GreatBase(s.e) - (s.e + s.b);
    assert v * s.c * (f - 1.0) == -(v * s.c) + (v * s.c) * f;
    assert s.c * f * loss == (s.c * loss) * f;
    Distribute(df, -(v * s.c), v * s.c, f);
    Distribute(dg, 0.0, s.c * loss, f);
  }

  lemma AffineInC(df: real, dn: real, dg: real, s: Cell, m: real)
    requires C_LOW <= s.c <= C_HIGH
    requires Weighted(df, dn, dg, s.(c := C_LOW)) >= m && Weighted(df, dn, dg, s.(c := C_HIGH)) >= m
    ensures Weighted(df, dn, dg, s) >= m
  {
    hide Weighted;
    WeightedInC(df, dn, dg, s, C_LOW);
    WeightedInC(df, dn, dg, s, C_HIGH);
    WeightedInC(df, dn, dg, s, s.c);
    assert s.(c := s.c) == s;
    var v, loss := s.e + s.b, GreatBase(s.e) - (s.e + s.b);
    Affine(df * (v * (s.f - 1.0)) + dn * loss + dg * (s.f * loss), 0.0, C_LOW, C_HIGH, s.c, m);
  }

  lemma WeightedInC(df: real, dn: real, dg: real, s: Cell, c: real)
    ensures var v, loss := s.e + s.b, GreatBase(s.e) - (s.e + s.b);
            Weighted(df, dn, dg, s.(c := c)) == (df * (v * (s.f - 1.0)) + dn * loss + dg * (s.f * loss)) * c + 0.0
  {
    var v, loss := s.e + s.b, GreatBase(s.e) - (s.e + s.b);
    assert v * c * (s.f - 1.0) == (v * (s.f - 1.0)) * c;
    assert c * s.f * loss == (s.f * loss) * c;
    Distribute(df, 0.0, v * (s.f - 1.0), c);
    Distribute(dn, 0.0, loss, c);
    Distribute(dg, 0.0, s.f * loss, c);
  }

  lemma AffineInE(df: real, dn: real, dg: real, s: Cell, m: real)
    requires E_LOW <= s.e <= E_HIGH
    requires Weighted(df, dn, dg, s.(e := E_LOW)) >= m && Weighted(df, dn, dg, s.(e := E_HIGH)) >= m
    ensures Weighted(df, dn, dg, s) >= m
  {
    hide Weighted;
    WeightedInE(df, dn, dg, s, E_LOW);
    WeightedInE(df, dn, dg, s, E_HIGH);
    WeightedInE(df, dn, dg, s, s.e);
    assert s.(e := s.e) == s;
    var x, y, z := s.c * (s.f - 1.0), s.c, s.c * s.f;
    Affine(df * x + dn * (-y / 3.0) + dg * (-z / 3.0), df * (x * s.b) + dn * (y * (150.0 - s.b)) + dg * (z * (150.0 - s.b)), E_LOW, E_HIGH, s.e, m);
  }

  lemma WeightedInE(df: real, dn: real, dg: real, s: Cell, e: real)
    ensures var x, y, z := s.c * (s.f - 1.0), s.c, s.c * s.f;
            Weighted(df, dn, dg, s.(e := e))
            == (df * x + dn * (-y / 3.0) + dg * (-z / 3.0)) * e + (df * (x * s.b) + dn * (y * (150.0 - s.b)) + dg * (z * (150.0 - s.b)))
  {
    var x, y, z := s.c * (s.f - 1.0), s.c, s.c * s.f;
    var loss := GreatBase(e) - (e + s.b);
    assert loss == (150.0 - s.b) - e / 3.0;
    assert (e + s.b) * s.c * (s.f - 1.0) == x * s.b + x * e;
    Distribute(y, 150.0 - s.b, -1.0 / 3.0, e);
    Distribute(z, 150.0 - s.b, -1.0 / 3.0, e);
    assert y * (-1.0 / 3.0) == -y / 3.0 && z * (-1.0 / 3.0) == -z / 3.0;
    Distribute(df, x * s.b, x, e);
    Distribute(dn, y * (150.0 - s.b), -y / 3.0, e);
    Distribute(dg, z * (150.0 - s.b), -z / 3.0, e);
  }

  /** Corner k of the box, in the kernel's order. */
  function Corner(k: nat): Cell
    requires k < 16
  {
    Cell(if k / 8 == 0 then E_LOW else E_HIGH, if k % 2 == 0 then B_LOW else B_HIGH,
         if k / 4 % 2 == 0 then C_LOW else C_HIGH, if k / 2 % 2 == 0 then F_LOW else F_HIGH)
  }

  ghost predicate AtCorners(df: real, dn: real, dg: real, m: real) {
    forall k :: 0 <= k < 16 ==> Weighted(df, dn, dg, Corner(k)) >= m
  }

  lemma BetweenFourCorners(df: real, dn: real, dg: real, s: Cell, m: real, k: nat)
    requires k < 16 && k % 4 == 0 && Corner(k).e == s.e && Corner(k).c == s.c && B_LOW <= s.b <= B_HIGH && F_LOW <= s.f <= F_HIGH
    requires AtCorners(df, dn, dg, m)
    ensures Weighted(df, dn, dg, s) >= m
  {
    hide Weighted;
    assert s.(b := B_LOW, f := F_LOW) == Corner(k) && s.(b := B_HIGH, f := F_LOW) == Corner(k + 1);
    assert s.(b := B_LOW, f := F_HIGH) == Corner(k + 2) && s.(b := B_HIGH, f := F_HIGH) == Corner(k + 3);
    AffineInB(df, dn, dg, s.(f := F_LOW), m);
    AffineInB(df, dn, dg, s.(f := F_HIGH), m);
    AffineInF(df, dn, dg, s, m);
  }

  /** A gap of at least m at the 16 corners is at least m over the whole box. */
  lemma BoxFromCorners(df: real, dn: real, dg: real, s: Cell, m: real)
    requires AtCorners(df, dn, dg, m) && InBox(s)
    ensures Weighted(df, dn, dg, s) >= m
  {
    hide Weighted, AtCorners;
    BetweenFourCorners(df, dn, dg, s.(e := E_LOW, c := C_LOW), m, 0);
    BetweenFourCorners(df, dn, dg, s.(e := E_LOW, c := C_HIGH), m, 4);
    BetweenFourCorners(df, dn, dg, s.(e := E_HIGH, c := C_LOW), m, 8);
    BetweenFourCorners(df, dn, dg, s.(e := E_HIGH, c := C_HIGH), m, 12);
    AffineInC(df, dn, dg, s.(e := E_LOW), m);
    AffineInC(df, dn, dg, s.(e := E_HIGH), m);
    AffineInE(df, dn, dg, s, m);
  }
}

/** The 16-bit arithmetic of one butterfly of fix_fft() and how far it is from
    the exact butterfly. */
module FixedPoint {
  import opened Complex
  import opened Dft
  import opened Words

  /** FIX_MPY: shifts to the right round down. */
  function FixMpy(a: int16, b: int16): int16 {
    var c := (a * b) / 16384;
    ToInt16(c / 2 + c % 2)
  }

  /** FIX_MPY rounds a * b / 32768 to the nearest integer, unless both factors
      are -32768. */
  lemma FixMpyRounds(a: int16, b: int16)
    requires -16384 <= a <= 16384
    ensures -16384 <= 32768 * FixMpy(a, b) - a * b <= 16384
  {
    var p := a * b;
    assert -16384 * 32768 <= p <= 16384 * 32768 by { ProductBound(a, b); }
    var c := p / 16384;
    assert 16384 * c <= p < 16384 * c + 16384;
  }

  lemma ProductBound(a: int, b: int)
    requires -16384 <= a <= 16384 && -32768 <= b <= 32768
    ensures -16384 * 32768 <= a * b <= 16384 * 32768
  {
    var n := if a >= 0 then a else -a;
    NonNegativeProduct(n, 32768 - b);
    NonNegativeProduct(n, 32768 + b);
    assert n * (32768 - b) == n * 32768 - n * b;
    assert n * (32768 + b) == n * 32768 + n * b;
    assert a * b == n * b || a * b == -(n * b);
  }

  lemma NonNegativeProduct(a: int, b: int)
    requires a >= 0 && b >= 0
    ensures a * b >= 0
  {
  }

  function Complexify(re: int, im: int): C { C(re as real, im as real) }

  /** A sample or a table entry: real and imaginary part. */
  datatype Z = Z(re: int16, im: int16)

  function Value(z: Z): C { Complexify(z.re, z.im) }

  /** Both parts shifted to the right by one. */
  function Halved(z: Z): Z { Z(z.re / 2, z.im / 2) }

  /** The products of the butterfly, with the already halved table entry. */
  function ProductRe(w: Z, y: Z): int { FixMpy(w.re, y.re) - FixMpy(w.im, y.im) }

  function ProductIm(w: Z, y: Z): int { FixMpy(w.re, y.im) + FixMpy(w.im, y.re) }

  function Product(w: Z, y: Z): C { Complexify(ProductRe(w, y), ProductIm(w, y)) }

  /** a is within r of b */
  predicate Close(a: C, b: C, r: real) { InDisc(Sub(a, b), r) }

  lemma CloseSum(a: C, b: C, r: real, c: C, d: C, s: real)
    requires Close(a, b, r) && Close(c, d, s)
    ensures Close(Add(a, c), Add(b, d), r + s) && Close(Sub(a, c), Sub(b, d), r + s)
  {
    AddInDisc(Sub(a, b), Sub(c, d), r, s);
    assert InDisc(Neg(Sub(c, d)), s);
    AddInDisc(Sub(a, b), Neg(Sub(c, d)), r, s);
    assert Sub(Add(a, c), Add(b, d)) == Add(Sub(a, b), Sub(c, d));
    assert Sub(Sub(a, c), Sub(b, d)) == Add(Sub(a, b), Neg(Sub(c, d)));
  }

  lemma CloseChain(a: C, b: C, c: C, r: real, s: real)
    requires Close(a, b, r) && Close(b, c, s)
    ensures Close(a, c, r + s)
  {
    AddInDisc(Sub(a, b), Sub(b, c), r, s);
    assert Sub(a, c) == Add(Sub(a, b), Sub(b, c));
  }

  lemma CloseMul(t: C, a: C, b: C, k: real, r: real)
    requires InDisc(t, k) && Close(a, b, r)
    ensures Close(Mul(t, a), Mul(t, b), k * r)
  {
    MulInDisc(t, Sub(a, b), k, r);
    assert Sub(Mul(t, a), Mul(t, b)) == Mul(t, Sub(a, b));
  }

  lemma CloseScale(k: real, a: C, b: C, r: real)
    requires k >= 0.0 && Close(a, b, r)
    ensures Close(Scale(k, a), Scale(k, b), k * r)
  {
    ScaleInDisc(k, Sub(a, b), r);
    assert Sub(Scale(k, a), Scale(k, b)) == Scale(k, Sub(a, b));
  }

  lemma CloseInDisc(a: C, b: C, r: real, s: real)
    requires Close(a, b, r) && InDisc(b, s)
    ensures InDisc(a, r + s)
  {
    AddInDisc(Sub(a, b), b, r, s);
    assert a == Add(Sub(a, b), b);
  }

  /** Both parts of a rounded halving are at most one half too small. */
  lemma HalvingError(re: int, im: int)
    ensures Close(Complexify(re / 2, im / 2), Half(Complexify(re, im)), 0.7072)
  {
    var dr, di := (re / 2) as real - 0.5 * (re as real), (im / 2) as real - 0.5 * (im as real);
    assert -0.5 <= dr <= 0.0 && -0.5 <= di <= 0.0;
    SmallDisc(dr, di, 0.5, 0.7072);
  }

  lemma SmallDisc(x: real, y: real, b: real, r: real)
    requires -b <= x <= b && -b <= y <= b && r >= 0.0 && b * b + b * b <= r * r
    ensures InDisc(C(x, y), r)
  {
    SquareBound(x, b);
    SquareBound(y, b);
  }

  lemma SquareBound(x: real, b: real)
    requires -b <= x <= b
    ensures x * x <= b * b
  {
    assert (b - x) * (b + x) >= 0.0;
    assert (b - x) * (b + x) == b * b - x * x;
  }

  lemma RoundingError(f: int, p: int)
    requires -32768 <= 32768 * f - p <= 32768
    ensures -1.0 <= f as real - 1.0 / 32768.0 * (p as real) <= 1.0
  {
  }

  lemma RealProduct(a: int, b: int)
    ensures (a as real) * (b as real) == (a * b) as real
  {
  }

  lemma ProductError(w: Z, y: Z)
    requires -16384 <= w.re <= 16384 && -16384 <= w.im <= 16384
    ensures Close(Product(w, y), Scale(1.0 / 32768.0, Mul(Value(w), Value(y))), 1.4143)
  {
    var rr, ii, ri, ir := w.re * y.re, w.im * y.im, w.re * y.im, w.im * y.re;
    FixMpyRounds(w.re, y.re);
    FixMpyRounds(w.im, y.im);
    FixMpyRounds(w.re, y.im);
    FixMpyRounds(w.im, y.re);
    RoundingError(ProductRe(w, y), rr - ii);
    RoundingError(ProductIm(w, y), ri + ir);
    ProductParts(w.re, w.im, y.re, y.im);
    var d := Sub(Product(w, y), Scale(1.0 / 32768.0, Complexify(rr - ii, ri + ir)));
    SmallDisc(d.re, d.im, 1.0, 1.4143);
  }

  lemma ProductParts(wr: int, wi: int, yr: int, yi: int)
    ensures Mul(Complexify(wr, wi), Complexify(yr, yi)) == Complexify(wr * yr - wi * yi, wr * yi + wi * yr)
  {
    RealProduct(wr, yr);
    RealProduct(wi, yi);
    RealProduct(wr, yi);
    RealProduct(wi, yr);
  }

  /** The product of a table entry, scaled by 32768, and a sample. */
  function Scaled(t: C, y: C): C { Scale(1.0 / 32768.0, Mul(t, y)) }

  /** The products are close to half the twiddle factor times the sample. */
  lemma TermError(t: Z, y: Z)
    requires InDisc(Value(y), 32768.0)
    ensures Close(Product(Halved(t), y), Half(Scaled(Value(t), Value(y))), 2.1215)
  {
    var h := Halved(t);
    ProductError(h, y);
    HalvingError(t.re, t.im);
    TermAlgebra(Value(t), Value(h), Value(y));
    CloseChain(Product(h, y), Scaled(Value(h), Value(y)), Half(Scaled(Value(t), Value(y))), 1.4143, 0.7072);
  }

  lemma TermAlgebra(t: C, h: C, y: C)
    requires InDisc(y, 32768.0) && Close(h, Half(t), 0.7072)
    ensures Close(Scaled(h, y), Half(Scaled(t, y)), 0.7072)
  {
    MulComm(y, h);
    MulComm(y, Half(t));
    CloseMul(y, h, Half(t), 32768.0, 0.7072);
    CloseScale(1.0 / 32768.0, Mul(h, y), Mul(Half(t), y), 32768.0 * 0.7072);
    MulScale(0.5, t, y);
    assert Scale(1.0 / 32768.0, Scale(0.5, Mul(t, y))) == Half(Scale(1.0 / 32768.0, Mul(t, y)));
  }

  // ----- one butterfly -----

  /** The two samples after the butterfly of x and y with table entry t. */
  function Lower(t: Z, x: Z, y: Z): C { Add(Value(Halved(x)), Product(Halved(t), y)) }

  function Upper(t: Z, x: Z, y: Z): C { Sub(Value(Halved(x)), Product(Halved(t), y)) }

  lemma HalfOfSums(x: C, y: C)
    ensures Add(Half(x), Half(y)) == Half(Add(x, y)) && Sub(Half(x), Half(y)) == Half(Sub(x, y))
  {
  }

  /** The rounding errors of one butterfly add up to less than 3. */
  lemma ButterflyError(t: Z, x: Z, y: Z)
    requires InDisc(Value(y), 32768.0)
    ensures var v := Scaled(Value(t), Value(y));
            && Close(Lower(t, x, y), Half(Add(Value(x), v)), 2.83)
            && Close(Upper(t, x, y), Half(Sub(Value(x), v)), 2.83)
  {
    var v := Scaled(Value(t), Value(y));
    HalvingError(x.re, x.im);
    TermError(t, y);
    CloseSum(Value(Halved(x)), Half(Value(x)), 0.7072, Product(Halved(t), y), Half(v), 2.1215);
    HalfOfSums(Value(x), v);
    WiderDisc(Sub(Lower(t, x, y), Half(Add(Value(x), v))), 0.7072 + 2.1215, 2.83);
    WiderDisc(Sub(Upper(t, x, y), Half(Sub(Value(x), v))), 0.7072 + 2.1215, 2.83);
  }

  lemma NegInDisc(a: C, r: real)
    requires InDisc(a, r)
    ensures InDisc(Neg(a), r)
  {
  }

  lemma MeanInDisc(x: C, v: C, r: real)
    requires InDisc(x, r) && InDisc(v, r)
    ensures InDisc(Half(Add(x, v)), r) && InDisc(Half(Sub(x, v)), r)
  {
    AddInDisc(x, v, r, r);
    ScaleInDisc(0.5, Add(x, v), r + r);
    NegInDisc(v, r);
    AddInDisc(x, Neg(v), r, r);
    ScaleInDisc(0.5, Sub(x, v), r + r);
    assert Sub(x, v) == Add(x, Neg(v));
  }

  lemma ScaledInDisc(t: C, y: C, r: real)
    requires InDisc(t, 32768.0) && InDisc(y, r)
    ensures InDisc(Scaled(t, y), r)
  {
    MulInDisc(t, y, 32768.0, r);
    ScaleInDisc(1.0 / 32768.0, Mul(t, y), 32768.0 * r);
  }

  lemma NearDisc(z: C, m: C, r: real)
    requires InDisc(m, r) && Close(z, m, 2.83)
    ensures InDisc(z, r + 3.0)
  {
    CloseInDisc(z, m, 2.83, r);
    WiderDisc(z, 2.83 + r, r + 3.0);
  }

  lemma ProductGrowth(t: Z, y: Z, r: real)
    requires InDisc(Value(t), 32768.0) && InDisc(Value(y), r) && r <= 32768.0
    ensures InDisc(Product(Halved(t), y), r + 3.0)
  {
    var v := Scaled(Value(t), Value(y));
    WiderDisc(Value(y), r, 32768.0);
    ScaledInDisc(Value(t), Value(y), r);
    TermError(t, y);
    ScaleInDisc(0.5, v, r);
    CloseInDisc(Product(Halved(t), y), Half(v), 2.1215, 0.5 * r);
    WiderDisc(Product(Halved(t), y), 2.1215 + 0.5 * r, r + 3.0);
  }

  /** A butterfly lets the samples grow by less than 3. */
  lemma ButterflyGrowth(t: Z, x: Z, y: Z, r: real)
    requires InDisc(Value(t), 32768.0) && r <= 32768.0
    requires InDisc(Value(x), r) && InDisc(Value(y), r)
    ensures InDisc(Lower(t, x, y), r + 3.0) && InDisc(Upper(t, x, y), r + 3.0)
    ensures InDisc(Product(Halved(t), y), r + 3.0)
  {
    var v := Scaled(Value(t), Value(y));
    WiderDisc(Value(y), r, 32768.0);
    ScaledInDisc(Value(t), Value(y), r);
    MeanInDisc(Value(x), v, r);
    ButterflyError(t, x, y);
    NearDisc(Lower(t, x, y), Half(Add(Value(x), v)), r);
    NearDisc(Upper(t, x, y), Half(Sub(Value(x), v)), r);
    ProductGrowth(t, y, r);
  }

  /** f is 32768 times the twiddle factor w to within two units. */
  predicate IsEntry(f: C, w: C) { Close(f, Scale(32768.0, w), 2.0) }

  /** With such a table entry the distance from the exact butterfly, with twiddle
      factor w, of the exact samples x' and y' grows by less than 4. */
  lemma ButterflyDrift(t: Z, x: Z, y: Z, w: C, x': C, y': C, e: real)
    requires InDisc(Value(y), 32768.0) && InDisc(w, 1.0) && IsEntry(Value(t), w)
    requires Close(Value(x), x', e) && Close(Value(y), y', e)
    ensures Close(Lower(t, x, y), Half(Add(x', Mul(w, y'))), e + 4.0)
    ensures Close(Upper(t, x, y), Half(Sub(x', Mul(w, y'))), e + 4.0)
  {
    var v, v' := Scaled(Value(t), Value(y)), Mul(w, y');
    ProductDrift(Value(t), w, Value(y), y', e);
    CloseSum(Value(x), x', e, v, v', e + 2.0);
    CloseScale(0.5, Add(Value(x), v), Add(x', v'), e + (e + 2.0));
    CloseScale(0.5, Sub(Value(x), v), Sub(x', v'), e + (e + 2.0));
    ButterflyError(t, x, y);
    var d := 0.5 * (e + (e + 2.0));
    CloseChain(Lower(t, x, y), Half(Add(Value(x), v)), Half(Add(x', v')), 2.83, d);
    CloseChain(Upper(t, x, y), Half(Sub(Value(x), v)), Half(Sub(x', v')), 2.83, d);
    WiderDisc(Sub(Lower(t, x, y), Half(Add(x', v'))), 2.83 + d, e + 4.0);
    WiderDisc(Sub(Upper(t, x, y), Half(Sub(x', v'))), 2.83 + d, e + 4.0);
  }

  lemma ProductDrift(t: C, w: C, y: C, y': C, e: real)
    requires InDisc(y, 32768.0) && InDisc(w, 1.0) && IsEntry(t, w) && Close(y, y', e)
    ensures Close(Scaled(t, y), Mul(w, y'), e + 2.0)
  {
    CloseMul(y, t, Scale(32768.0, w), 32768.0, 2.0);
    MulComm(y, t);
    MulComm(y, Scale(32768.0, w));
    MulScale(32768.0, w, y);
    CloseScale(1.0 / 32768.0, Mul(t, y), Scale(32768.0, Mul(w, y)), 32768.0 * 2.0);
    assert Scale(1.0 / 32768.0, Scale(32768.0, Mul(w, y))) == Mul(w, y);
    CloseMul(w, y, y', 1.0, e);
    CloseChain(Scaled(t, y), Mul(w, y), Mul(w, y'), 2.0, e);
  }
}

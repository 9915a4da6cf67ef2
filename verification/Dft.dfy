/** The discrete Fourier transform, and the values that the butterfly loops of
    fix_fft() hold after each stage. */
module Dft {
  import opened Complex
  import opened BitReversal

  // ----- the reference: the sum that defines the transform -----

  /** The sum of b[t] * z^t. */
  ghost function PowerSum(b: seq<C>, z: C): C {
    if b == [] then ZERO else Add(b[0], Mul(z, PowerSum(b[1..], z)))
  }

  /** Coefficient k of the transform of a: the sum over j of a[j] * w^(j * k). */
  ghost function Coefficient(a: seq<C>, w: C, k: nat): C {
    PowerSum(a, Pow(w, k))
  }

  /** w is a primitive 2^m-th root of unity. */
  ghost predicate IsRoot(w: C, m: nat) {
    m > 0 ==> Pow(w, Pow2(m - 1)) == Neg(ONE)
  }

  function Even(b: seq<C>): seq<C> {
    if b == [] then [] else [b[0]] + Odd(b[1..])
  }

  function Odd(b: seq<C>): seq<C> {
    if b == [] then [] else Even(b[1..])
  }

  lemma {:induction false} EvenOddAt(b: seq<C>, t: nat)
    ensures |Even(b)| == (|b| + 1) / 2 && |Odd(b)| == |b| / 2
    ensures 2 * t < |b| ==> Even(b)[t] == b[2 * t]
    ensures 2 * t + 1 < |b| ==> Odd(b)[t] == b[2 * t + 1]
  {
    if b != [] {
      EvenOddAt(b[1..], t);
      if t > 0 {
        EvenOddAt(b[1..], t - 1);
      }
    }
  }

  lemma PowerSumStep(b: seq<C>, z: C, rest: seq<C>)
    requires b != [] && rest == b[1..]
    ensures PowerSum(b, z) == Add(b[0], Mul(z, PowerSum(rest, z)))
  {
  }

  lemma SplitSum(b: seq<C>, z: C)
    ensures PowerSum(b, z) == Add(PowerSum(Even(b), Mul(z, z)), Mul(z, PowerSum(Odd(b), Mul(z, z))))
  {
    SplitSumAt(b, z, Mul(z, z));
  }

  lemma {:induction false} SplitSumAt(b: seq<C>, z: C, zz: C)
    requires zz == Mul(z, z)
    ensures PowerSum(b, z) == Add(PowerSum(Even(b), zz), Mul(z, PowerSum(Odd(b), zz)))
  {
    if b == [] {
      assert Mul(z, ZERO) == ZERO && Add(ZERO, ZERO) == ZERO;
    } else {
      var rest, even := b[1..], Even(b);
      SplitSumAt(rest, z, zz);
      PowerSumStep(b, z, rest);
      assert even[1..] == Odd(rest) && even[0] == b[0];
      PowerSumStep(even, zz, Odd(rest));
      SplitStep(b[0], z, PowerSum(Odd(rest), zz), PowerSum(Even(rest), zz));
    }
  }

  lemma SplitStep(x: C, z: C, e: C, o: C)
    ensures Add(x, Mul(z, Add(o, Mul(z, e)))) == Add(Add(x, Mul(Mul(z, z), e)), Mul(z, o))
  {
    MulAdd(z, o, Mul(z, e));
    MulAssoc(z, z, e);
  }

  // ----- the fast transform -----

  function Half(a: C): C { Scale(0.5, a) }

  /** Sample k of a block of 2^m samples after m stages, each of which halves:
      b holds the input samples of the block in their original order. */
  ghost function Transformed(m: nat, b: seq<C>, w: C, k: nat): C
    requires |b| == Pow2(m) && k < Pow2(m)
  {
    if m == 0 then b[0]
    else
      EvenOddAt(b, 0);
      var h := Pow2(m - 1);
      var r := if k < h then k else k - h;
      Half(Add(Transformed(m - 1, Even(b), Mul(w, w), r),
               Mul(Pow(w, k), Transformed(m - 1, Odd(b), Mul(w, w), r))))
  }

  lemma PowTwo(w: C)
    ensures Pow(w, 2) == Mul(w, w)
  {
    assert Pow(w, 1) == Mul(w, Pow(w, 0));
    MulOne(w);
  }

  lemma PowSquare(w: C, k: nat)
    ensures Pow(Mul(w, w), k) == Mul(Pow(w, k), Pow(w, k)) == Pow(w, 2 * k)
  {
    PowAdd(w, k, k);
    PowMul(w, 2, k);
    PowTwo(w);
  }

  lemma SquareIsRoot(w: C, m: nat)
    requires m > 0 && IsRoot(w, m)
    ensures IsRoot(Mul(w, w), m - 1)
  {
    if m > 1 {
      PowSquare(w, Pow2(m - 2));
    }
  }

  lemma HalfTurn(w: C, m: nat, k: nat)
    requires m > 0 && IsRoot(w, m)
    ensures Pow(w, k + Pow2(m - 1)) == Neg(Pow(w, k))
  {
    PowAdd(w, k, Pow2(m - 1));
    assert forall a: C :: Mul(a, Neg(ONE)) == Neg(a);
  }

  /** The fast transform computes the sum that defines the transform, divided
      by the number of samples. */
  lemma {:induction false} TransformedIsCoefficient(m: nat, b: seq<C>, w: C, k: nat)
    requires |b| == Pow2(m) && k < Pow2(m) && IsRoot(w, m)
    ensures Scale(Pow2(m) as real, Transformed(m, b, w, k)) == Coefficient(b, w, k)
  {
    if m == 0 {
      SingleTerm(b, Pow(w, k));
    } else {
      EvenOddAt(b, 0);
      var h := Pow2(m - 1);
      var r := if k < h then k else k - h;
      SquareIsRoot(w, m);
      TransformedIsCoefficient(m - 1, Even(b), Mul(w, w), r);
      TransformedIsCoefficient(m - 1, Odd(b), Mul(w, w), r);
      SquaredPower(w, m, k);
      SplitSum(b, Pow(w, k));
      var e, o := Transformed(m - 1, Even(b), Mul(w, w), r), Transformed(m - 1, Odd(b), Mul(w, w), r);
      ScaleButterfly(h as real, Pow2(m) as real, e, Pow(w, k), o);
    }
  }

  /** Coefficient k divided by the number of samples. */
  ghost function MeanCoefficient(m: nat, a: seq<C>, w: C, k: nat): C {
    Scale(1.0 / (Pow2(m) as real), Coefficient(a, w, k))
  }

  lemma TransformedIsMean(m: nat, b: seq<C>, w: C, k: nat)
    requires |b| == Pow2(m) && k < Pow2(m) && IsRoot(w, m)
    ensures Transformed(m, b, w, k) == MeanCoefficient(m, b, w, k)
  {
    TransformedIsCoefficient(m, b, w, k);
    Unscale(Pow2(m) as real, Transformed(m, b, w, k));
  }

  lemma Unscale(n: real, x: C)
    requires n >= 1.0
    ensures Scale(1.0 / n, Scale(n, x)) == x
  {
    assert 1.0 / n * (n * x.re) == x.re;
    assert 1.0 / n * (n * x.im) == x.im;
  }

  lemma SingleTerm(b: seq<C>, z: C)
    requires |b| == 1
    ensures PowerSum(b, z) == b[0] == Scale(1.0, b[0])
  {
    assert PowerSum(b[1..], z) == ZERO;
    assert Mul(z, ZERO) == ZERO;
  }

  lemma SquaredPower(w: C, m: nat, k: nat)
    requires m > 0 && IsRoot(w, m)
    ensures var h := Pow2(m - 1);
            Pow(Mul(w, w), if k < h then k else k - h) == Mul(Pow(w, k), Pow(w, k))
  {
    var h := Pow2(m - 1);
    PowSquare(w, k);
    if k >= h {
      PowSquare(w, k - h);
      HalfTurn(w, m, k - h);
      NegSquare(Pow(w, k - h));
    }
  }

  lemma NegSquare(a: C)
    ensures Mul(Neg(a), Neg(a)) == Mul(a, a)
  {
  }

  lemma ScaleButterfly(h: real, n: real, e: C, z: C, o: C)
    requires n == 2.0 * h
    ensures Scale(n, Half(Add(e, Mul(z, o)))) == Add(Scale(h, e), Mul(z, Scale(h, o)))
  {
    MulScale(h, z, o);
  }

  // ----- the array between two stages -----

  /** Sample q after s of m stages: the array consists of blocks of 2^s samples,
      each transformed by itself.  In the upper half of the array are the blocks
      of the odd input samples. */
  ghost function AfterStages(m: nat, s: nat, b: seq<C>, w: C, q: nat): C
    requires s <= m && |b| == Pow2(m) && q < Pow2(m)
    decreases m
  {
    if s == m then Transformed(m, b, w, q)
    else
      EvenOddAt(b, 0);
      var h := Pow2(m - 1);
      if q < h then AfterStages(m - 1, s, Even(b), Mul(w, w), q)
      else AfterStages(m - 1, s, Odd(b), Mul(w, w), q - h)
  }

  /** Before the first stage the samples are in bit-reversed order. */
  lemma {:induction false} StartsReversed(m: nat, b: seq<C>, w: C, q: nat)
    requires |b| == Pow2(m) && q < Pow2(m)
    ensures AfterStages(m, 0, b, w, q) == b[Rev(m, q)]
  {
    if m > 0 {
      EvenOddAt(b, 0);
      var h := Pow2(m - 1);
      if q < h {
        StartsReversed(m - 1, Even(b), Mul(w, w), q);
        LowerStart(m, b, q, Rev(m - 1, q));
      } else {
        StartsReversed(m - 1, Odd(b), Mul(w, w), q - h);
        UpperStart(m, b, q, Rev(m - 1, q - h));
      }
    }
  }

  lemma LowerStart(m: nat, b: seq<C>, q: nat, r: nat)
    requires m > 0 && |b| == Pow2(m) && q < Pow2(m - 1) && r == Rev(m - 1, q)
    ensures r < |Even(b)| && Even(b)[r] == b[Rev(m, q)]
  {
    RevHigh(m, q);
    EvenOddAt(b, r);
  }

  lemma UpperStart(m: nat, b: seq<C>, q: nat, r: nat)
    requires m > 0 && |b| == Pow2(m) && Pow2(m - 1) <= q < Pow2(m) && r == Rev(m - 1, q - Pow2(m - 1))
    ensures r < |Odd(b)| && Odd(b)[r] == b[Rev(m, q)]
  {
    RevHigh(m, q);
    EvenOddAt(b, r);
  }

  /** The twiddle factor of offset j in a block of 2^(s+1) samples. */
  ghost function Twiddle(m: nat, s: nat, w: C, j: nat): C
    requires s < m
  {
    Pow(w, Pow2(m - 1 - s) * j)
  }

  /** One butterfly combines sample i, at offset j of the block number c, with
      the sample 2^s further on. */
  lemma Butterfly(m: nat, s: nat, b: seq<C>, w: C, c: nat, j: nat, i: nat)
    requires s < m && |b| == Pow2(m) && IsRoot(w, m)
    requires j < Pow2(s) && i == c * Pow2(s + 1) + j && i + Pow2(s) < Pow2(m)
    ensures var e, o := AfterStages(m, s, b, w, i), AfterStages(m, s, b, w, i + Pow2(s));
            var t := Mul(Twiddle(m, s, w, j), o);
            && AfterStages(m, s + 1, b, w, i) == Half(Add(e, t))
            && AfterStages(m, s + 1, b, w, i + Pow2(s)) == Half(Sub(e, t))
  {
    ButterflyAt(m, s, b, w, c, j, i, i + Pow2(s));
  }

  /** The samples i and k are one butterfly of stage s, as far as the values go. */
  ghost predicate IsButterfly(m: nat, s: nat, b: seq<C>, w: C, i: nat, k: nat, t: C)
    requires s < m && |b| == Pow2(m) && i < Pow2(m) && k < Pow2(m)
  {
    var e, o := AfterStages(m, s, b, w, i), AfterStages(m, s, b, w, k);
    && AfterStages(m, s + 1, b, w, i) == Half(Add(e, Mul(t, o)))
    && AfterStages(m, s + 1, b, w, k) == Half(Sub(e, Mul(t, o)))
  }

  /** The last stage */
  lemma LastButterfly(m: nat, b: seq<C>, w: C, j: nat, k: nat)
    requires m > 0 && |b| == Pow2(m) && IsRoot(w, m) && j < Pow2(m - 1) && k == j + Pow2(m - 1)
    ensures IsButterfly(m, m - 1, b, w, j, k, Pow(w, j))
  {
    EvenOddAt(b, 0);
    HalfTurn(w, m, j);
    MulNeg(Pow(w, j), Transformed(m - 1, Odd(b), Mul(w, w), j));
  }

  /** A butterfly of one half is one of the whole. */
  lemma LowerButterfly(m: nat, s: nat, b: seq<C>, w: C, i: nat, k: nat, t: C)
    requires s + 1 < m && |b| == Pow2(m) && i < Pow2(m - 1) && k < Pow2(m - 1) && |Even(b)| == Pow2(m - 1)
    requires IsButterfly(m - 1, s, Even(b), Mul(w, w), i, k, t)
    ensures IsButterfly(m, s, b, w, i, k, t)
  {
  }

  lemma UpperButterfly(m: nat, s: nat, b: seq<C>, w: C, i: nat, k: nat, i': nat, k': nat, t: C)
    requires s + 1 < m && |b| == Pow2(m) && i < Pow2(m) && k < Pow2(m) && |Odd(b)| == Pow2(m - 1)
    requires i' == i - Pow2(m - 1) && k' == k - Pow2(m - 1)
    requires IsButterfly(m - 1, s, Odd(b), Mul(w, w), i', k', t)
    ensures IsButterfly(m, s, b, w, i, k, t)
  {
  }

  lemma {:induction false} ButterflyAt(m: nat, s: nat, b: seq<C>, w: C, c: nat, j: nat, i: nat, k: nat)
    requires s < m && |b| == Pow2(m) && IsRoot(w, m)
    requires j < Pow2(s) && i == c * Pow2(s + 1) + j && k == i + Pow2(s) < Pow2(m)
    ensures IsButterfly(m, s, b, w, i, k, Twiddle(m, s, w, j))
    decreases m
  {
    EvenOddAt(b, 0);
    if s + 1 == m {
      FirstBlock(Pow2(m), c, i, j);
      LastButterfly(m, b, w, j, k);
      LastTwiddle(m, w, j);
    } else {
      var l2, blocks, t := Pow2(s + 1), Pow2(m - 2 - s), Twiddle(m, s, w, j);
      Pow2Add(s + 1, m - 2 - s);
      SquareIsRoot(w, m);
      TwiddleOfSquare(m, s, w, j);
      LowerOrUpper(l2, blocks, c, j, i);
      if c < blocks {
        ButterflyAt(m - 1, s, Even(b), Mul(w, w), c, j, i, k);
        LowerButterfly(m, s, b, w, i, k, t);
      } else {
        var i', k' := i - Pow2(m - 1), k - Pow2(m - 1);
        ButterflyAt(m - 1, s, Odd(b), Mul(w, w), c - blocks, j, i', k');
        UpperButterfly(m, s, b, w, i, k, i', k', t);
      }
    }
  }

  lemma LastTwiddle(m: nat, w: C, j: nat)
    requires m > 0
    ensures Twiddle(m, m - 1, w, j) == Pow(w, j)
  {
    assert Pow2(0) * j == j;
  }

  lemma FirstBlock(l2: nat, c: nat, i: nat, j: nat)
    requires i == c * l2 + j && i < l2
    ensures c == 0 && i == j
  {
    if c > 0 {
      MulAtLeast(l2, c);
    }
  }

  lemma MulNeg(a: C, b: C)
    ensures Mul(Neg(a), b) == Neg(Mul(a, b))
  {
  }

  lemma TwiddleOfSquare(m: nat, s: nat, w: C, j: nat)
    requires s + 1 < m
    ensures Twiddle(m - 1, s, Mul(w, w), j) == Twiddle(m, s, w, j)
  {
    var p := Pow2(m - 2 - s);
    PowSquare(w, p * j);
    assert 2 * (p * j) == (2 * p) * j;
  }

  /** Block c of l2 samples lies in the lower or in the upper half. */
  lemma LowerOrUpper(l2: nat, blocks: nat, c: nat, j: nat, i: nat)
    requires i == c * l2 + j && j < l2
    ensures c < blocks ==> i - j + l2 <= l2 * blocks
    ensures c >= blocks ==> i - l2 * blocks == (c - blocks) * l2 + j && i >= l2 * blocks
  {
    MulSub(l2, blocks, c);
    MulSub(l2, c, blocks);
    if c < blocks {
      MulAtLeast(l2, blocks - c);
    } else {
      assert l2 * (c - blocks) >= 0;
    }
  }
}

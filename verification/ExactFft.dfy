/** fix_fft() in exact arithmetic: FIX_MPY multiplies, a shift by one halves. */
module ExactFft {
  import opened Complex
  import opened BitReversal
  import opened Dft
  import opened FftLoops

  /** Interleaved real and imaginary parts as complex samples. */
  ghost function Samples(iq: seq<real>): (z: seq<C>)
    ensures |z| == |iq| / 2
  {
    seq(|iq| / 2, q requires 0 <= q < |iq| / 2 => C(iq[2 * q], iq[2 * q + 1]))
  }

  /** The twiddle factor that fix_fft() takes from entry j of the sine table. */
  function TableFactor(sinewave: seq<real>, quarter: nat, j: nat): C
    requires j + quarter < |sinewave|
  {
    C(sinewave[j + quarter], -sinewave[j])
  }

  /** Three quarters of a period of the sine: entry j and the one a quarter
      further on are the j-th power of a 2^logN-th root of unity. */
  ghost predicate ExactTable(sinewave: seq<real>, logN: nat, root: C) {
    && logN >= 2 && |sinewave| == Pow2(logN) * 3 / 4 && IsRoot(root, logN)
    && forall j: nat | j < Pow2(logN - 1) ::
         j + Pow2(logN) / 4 < |sinewave| && TableFactor(sinewave, Pow2(logN) / 4, j) == Pow(root, j)
  }

  ghost predicate Exact(m: nat, a: seq<C>, w: C, s: nat, q: nat, c: C) {
    |a| == Pow2(m) && s <= m && q < Pow2(m) && c == AfterStages(m, s, a, w, q)
  }

  ghost function ExactProperty(m: nat, a: seq<C>, w: C): Property {
    (s: nat, q: nat, c: C) => Exact(m, a, w, s, q, c)
  }

  /** The 2^m-th root that belongs to a shorter transform. */
  lemma ShorterRoot(root: C, logN: nat, m: nat)
    requires m <= logN && IsRoot(root, logN)
    ensures IsRoot(Pow(root, Pow2(logN - m)), m)
  {
    if m > 0 {
      PowMul(root, Pow2(logN - m), Pow2(m - 1));
      Pow2Add(logN - m, m - 1);
    }
  }

  /** The table index m << k of fix_fft() stays in the first half of the period. */
  lemma TableIndexInRange(logN: nat, s: nat, j: nat)
    requires s < logN && j < Pow2(s)
    ensures j * Pow2(logN - 1 - s) < Pow2(logN - 1)
  {
    Pow2Add(s, logN - 1 - s);
    ProductBelow(j, Pow2(s), Pow2(logN - 1 - s));
  }

  lemma ProductBelow(j: nat, n: nat, k: nat)
    requires j < n && k > 0
    ensures j * k < n * k
  {
    MulSub(k, n, j);
    MulAtLeast(k, n - j);
  }

  lemma Regroup(a: nat, b: nat, j: nat)
    ensures a * (b * j) == j * (a * b)
  {
  }

  /** It selects the twiddle factor of stage s. */
  lemma TableIndex(root: C, logN: nat, m: nat, s: nat, j: nat)
    requires s < m <= logN
    ensures Pow(root, j * Pow2(logN - 1 - s)) == Twiddle(m, s, Pow(root, Pow2(logN - m)), j)
  {
    var a, b := Pow2(logN - m), Pow2(m - 1 - s);
    Pow2Add(logN - m, m - 1 - s);
    PowMul(root, a, b * j);
    Regroup(a, b, j);
  }

  /** One exact butterfly takes a pair to the next stage. */
  lemma ExactButterfly(m: nat, a: seq<C>, w: C, s: nat, c: nat, j: nat, i: nat, x: C, y: C)
    requires s < m && IsRoot(w, m) && j < Pow2(s) && i == c * Pow2(s + 1) + j && i + Pow2(s) < Pow2(m)
    requires Exact(m, a, w, s, i, x) && Exact(m, a, w, s, i + Pow2(s), y)
    ensures var t := Mul(Twiddle(m, s, w, j), y);
            Exact(m, a, w, s + 1, i, Half(Add(x, t))) && Exact(m, a, w, s + 1, i + Pow2(s), Half(Sub(x, t)))
  {
    Butterfly(m, s, a, w, c, j, i);
  }

  lemma HalvedProduct(t: C, y: C)
    ensures C(t.re / 2.0 * y.re - t.im / 2.0 * y.im, t.re / 2.0 * y.im + t.im / 2.0 * y.re) == Half(Mul(t, y))
  {
  }

  lemma SamplesUpdated(iq: seq<real>, i: nat, j: nat, x: C, y: C)
    requires i < j && 2 * j + 1 < |iq|
    ensures Samples(iq[2 * j := y.re][2 * j + 1 := y.im][2 * i := x.re][2 * i + 1 := x.im])
            == Samples(iq)[i := x][j := y]
  {
  }

  /** One butterfly with twiddle factor t. */
  ghost function Combined(z: seq<C>, i: nat, j: nat, t: C): seq<C>
    requires i < j < |z|
  {
    z[i := Half(Add(z[i], Mul(t, z[j])))][j := Half(Sub(z[i], Mul(t, z[j])))]
  }

  /** The body of the innermost loop: t is the twiddle factor, wr and wi its
      halved parts. */
  method CombinePair(iq: array<real>, i: nat, j: nat, wr: real, wi: real, ghost t: C)
    requires i < j && 2 * j + 1 < iq.Length && t == C(2.0 * wr, 2.0 * wi)
    modifies iq
    ensures Samples(iq[..]) == Combined(Samples(old(iq[..])), i, j, t)
  {
    ghost var z := Samples(iq[..]);
    ghost var x, y := Half(z[i]), Half(Mul(t, z[j]));
    HalvedProduct(t, z[j]);
    SamplesUpdated(iq[..], i, j, Add(x, y), Sub(x, y));
    var tr := wr * iq[2 * j] - wi * iq[2 * j + 1];
    var ti := wr * iq[2 * j + 1] + wi * iq[2 * j];
    assert y == C(tr, ti);
    HalfOfSum(z[i], Mul(t, z[j]));
    var qr, qi := iq[2 * i] / 2.0, iq[2 * i + 1] / 2.0;
    iq[2 * j] := qr - tr;
    iq[2 * j + 1] := qi - ti;
    iq[2 * i] := qr + tr;
    iq[2 * i + 1] := qi + ti;
    assert iq[..] == old(iq[..])[2 * j := Sub(x, y).re][2 * j + 1 := Sub(x, y).im]
                                [2 * i := Add(x, y).re][2 * i + 1 := Add(x, y).im];
  }

  lemma HalfOfSum(x: C, y: C)
    ensures Half(Add(x, y)) == Add(Half(x), Half(y)) && Half(Sub(x, y)) == Sub(Half(x), Half(y))
  {
  }

  // ----- the loops, for any property that the butterflies carry on -----

  /** The butterfly of x and y, at sample i of stage s, takes both to the next stage. */
  ghost predicate PairCarried(p: Property, s: nat, i: nat, t: C, x: C, y: C) {
    p(s + 1, i, Half(Add(x, Mul(t, y)))) && p(s + 1, i + Pow2(s), Half(Sub(x, Mul(t, y))))
  }

  /** So do all butterflies of stage s that use the twiddle factor t of offset j0. */
  ghost predicate Carries(p: Property, m: nat, s: nat, j0: nat, t: C) {
    forall i: nat, x: C, y: C
      | AtOffset(s, j0, i) && i + Pow2(s) < Pow2(m) && p(s, i, x) && p(s, i + Pow2(s), y) ::
      PairCarried(p, s, i, t, x, y)
  }

  lemma SweepStep(z: seq<C>, p: Property, m: nat, s: nat, j0: nat, i: nat, k: nat, next: nat, t: C)
    requires Progress(z, p, m, s, j0, i) && Carries(p, m, s, j0, t)
    requires j0 < Pow2(s) && AtOffset(s, j0, i) && i < Pow2(m) && k == i + Pow2(s) && next == i + 2 * Pow2(s)
    ensures k < Pow2(m) && AtOffset(s, j0, next)
    ensures Progress(Combined(z, i, k, t), p, m, s, j0, next)
  {
    PairReady(z, p, m, s, j0, i);
    var x, y := z[i], z[k];
    assert PairCarried(p, s, i, t, x, y);
    PairDone(z, p, m, s, j0, i, k, next, Half(Add(x, Mul(t, y))), Half(Sub(x, Mul(t, y))));
  }

  /** One turn of the innermost loop */
  method SweepTurn(iq: array<real>, ghost p: Property, ghost m: nat, ghost s: nat, ghost j0: nat,
                   i: nat, k: nat, ghost next: nat, wr: real, wi: real, ghost t: C)
    requires iq.Length == 2 * Pow2(m) && j0 < Pow2(s) && Progress(Samples(iq[..]), p, m, s, j0, i)
    requires AtOffset(s, j0, i) && i < Pow2(m) && k == i + Pow2(s) && next == i + 2 * Pow2(s)
    requires t == C(2.0 * wr, 2.0 * wi) && Carries(p, m, s, j0, t)
    modifies iq
    ensures AtOffset(s, j0, next) && Progress(Samples(iq[..]), p, m, s, j0, next)
  {
    SweepStep(Samples(iq[..]), p, m, s, j0, i, k, next, t);
    CombinePair(iq, i, k, wr, wi, t);
  }

  /** The innermost loop: all butterflies of stage s with the same twiddle factor. */
  method Sweep(iq: array<real>, ghost p: Property, m: nat, s: nat, j0: nat, wr: real, wi: real, ghost t: C)
    requires iq.Length == 2 * Pow2(m) && j0 < Pow2(s) && Progress(Samples(iq[..]), p, m, s, j0, j0)
    requires t == C(2.0 * wr, 2.0 * wi) && Carries(p, m, s, j0, t)
    modifies iq
    ensures Progress(Samples(iq[..]), p, m, s, j0 + 1, j0 + 1)
  {
    var n: int, l: int := Pow2(m), Pow2(s);
    var istep := 2 * l;
    var i := j0;
    assert j0 == BlockStart(s, 0) + j0;
    while i < n
      invariant AtOffset(s, j0, i) && Progress(Samples(iq[..]), p, m, s, j0, i)
      decreases n - i
    {
      SweepTurn(iq, p, m, s, j0, i, i + l, i + istep, wr, wi, t);
      i := i + istep;
    }
    InnerLoopEnds(Samples(iq[..]), p, s, l, j0, i);
  }

  /** Entry m << k of the table exists and serves the butterflies at offset j0. */
  ghost predicate Served(p: Property, sinewave: seq<real>, logN: nat, m: nat, s: nat, j0: nat)
    requires s < logN
  {
    var e, quarter := j0 * Pow2(logN - 1 - s), Pow2(logN) / 4;
    e + quarter < |sinewave| && Carries(p, m, s, j0, TableFactor(sinewave, quarter, e))
  }

  /** One turn of the loop over the stage's table entries */
  method StageTurn(iq: array<real>, ghost p: Property, sinewave: seq<real>, ghost logN: nat, m: nat, s: nat,
                   j0: nat, step: nat, quarter: nat)
    requires iq.Length == 2 * Pow2(m) && s < logN && j0 < Pow2(s) && Served(p, sinewave, logN, m, s, j0)
    requires step == Pow2(logN - 1 - s) && quarter == Pow2(logN) / 4
    requires Progress(Samples(iq[..]), p, m, s, j0, j0)
    modifies iq
    ensures Progress(Samples(iq[..]), p, m, s, j0 + 1, j0 + 1)
  {
    var j := j0 * step;
    var wr, wi := sinewave[j + quarter] / 2.0, -sinewave[j] / 2.0;
    Sweep(iq, p, m, s, j0, wr, wi, TableFactor(sinewave, quarter, j));
  }

  /** The loop over the twiddle factors of stage s. */
  method Stage(iq: array<real>, ghost p: Property, sinewave: seq<real>, logN: nat, m: nat, s: nat)
    requires m <= logN && iq.Length == 2 * Pow2(m) && Progress(Samples(iq[..]), p, m, s, 0, 0)
    requires forall j0: nat | j0 < Pow2(s) :: Served(p, sinewave, logN, m, s, j0)
    modifies iq
    ensures Progress(Samples(iq[..]), p, m, s, Pow2(s), Pow2(s))
  {
    var l, step, quarter := Pow2(s), Pow2(logN - 1 - s), Pow2(logN) / 4;
    var j0 := 0;
    while j0 < l
      invariant 0 <= j0 <= l && Progress(Samples(iq[..]), p, m, s, j0, j0)
    {
      StageTurn(iq, p, sinewave, logN, m, s, j0, step, quarter);
      j0 := j0 + 1;
    }
  }

  /** The loop over the stages. */
  method Stages(iq: array<real>, ghost p: Property, sinewave: seq<real>, logN: nat, m: nat)
    requires m <= logN && iq.Length == 2 * Pow2(m)
    requires forall q: nat | q < Pow2(m) :: p(0, q, Samples(iq[..])[q])
    requires forall s: nat, j0: nat | s < m && j0 < Pow2(s) :: Served(p, sinewave, logN, m, s, j0)
    modifies iq
    ensures forall q: nat | q < Pow2(m) :: p(m, q, Samples(iq[..])[q])
  {
    var n := Pow2(m);
    var l, s := 1, 0;
    if m > 0 { Pow2Mono(0, m); }
    while l < n
      invariant s <= m && l == Pow2(s)
      invariant forall q: nat | q < n :: p(s, q, Samples(iq[..])[q])
      decreases n - l
    {
      assert s < m;
      StageBegins(Samples(iq[..]), p, s, l);
      Stage(iq, p, sinewave, logN, m, s);
      StageEnds(Samples(iq[..]), p, s, l);
      l, s := 2 * l, s + 1;
      Pow2Mono(s, m);
    }
    if s < m { Pow2Mono(s, m); }
  }

  // ----- the property: every sample is exact -----

  lemma ExactCarries(m: nat, a: seq<C>, w: C, s: nat, j0: nat, t: C)
    requires s < m && j0 < Pow2(s) && IsRoot(w, m) && t == Twiddle(m, s, w, j0)
    ensures Carries(ExactProperty(m, a, w), m, s, j0, t)
  {
    var p := ExactProperty(m, a, w);
    forall i: nat, x: C, y: C
      | AtOffset(s, j0, i) && i + Pow2(s) < Pow2(m) && p(s, i, x) && p(s, i + Pow2(s), y)
      ensures PairCarried(p, s, i, t, x, y)
    {
      var c := NextBlock(m, s, j0, i);
      ExactButterfly(m, a, w, s, c, j0, i, x, y);
    }
  }

  lemma TableServes(sinewave: seq<real>, root: C, logN: nat, m: nat, a: seq<C>, s: nat, j0: nat)
    requires s < m <= logN && j0 < Pow2(s) && ExactTable(sinewave, logN, root)
    ensures Served(ExactProperty(m, a, Pow(root, Pow2(logN - m))), sinewave, logN, m, s, j0)
  {
    var e, quarter, w := j0 * Pow2(logN - 1 - s), Pow2(logN) / 4, Pow(root, Pow2(logN - m));
    TableIndexInRange(logN, s, j0);
    TableIndex(root, logN, m, s, j0);
    EntryIs(sinewave, logN, root, quarter, e);
    ShorterRoot(root, logN, m);
    ExactCarries(m, a, w, s, j0, TableFactor(sinewave, quarter, e));
  }

  lemma EntryIs(sinewave: seq<real>, logN: nat, root: C, quarter: nat, e: nat)
    requires ExactTable(sinewave, logN, root) && e < Pow2(logN - 1) && quarter == Pow2(logN) / 4
    ensures e + quarter < |sinewave| && TableFactor(sinewave, quarter, e) == Pow(root, e)
  {
  }

  /** After the reordering all samples are as they should be before the first stage. */
  lemma Reordered(iq: seq<real>, before: seq<real>, m: nat, w: C)
    requires |iq| == |before| == 2 * Pow2(m)
    requires forall q: nat | q < Pow2(m) :: SampleEquals(iq, q, before, Rev(m, q))
    ensures forall q: nat | q < Pow2(m) :: ExactProperty(m, Samples(before), w)(0, q, Samples(iq)[q])
  {
    forall q: nat | q < Pow2(m) ensures ExactProperty(m, Samples(before), w)(0, q, Samples(iq)[q]) {
      StartsReversed(m, Samples(before), w, q);
      assert SampleEquals(iq, q, before, Rev(m, q));
    }
  }

  /** After the last stage they are the coefficients, divided by their number. */
  lemma Finished(iq: seq<real>, m: nat, a: seq<C>, w: C)
    requires |iq| == 2 * Pow2(m) && |a| == Pow2(m) && IsRoot(w, m)
    requires forall q: nat | q < Pow2(m) :: ExactProperty(m, a, w)(m, q, Samples(iq)[q])
    ensures forall q: nat | q < Pow2(m) :: Scale(Pow2(m) as real, Samples(iq)[q]) == Coefficient(a, w, q)
  {
    forall q: nat | q < Pow2(m) ensures Scale(Pow2(m) as real, Samples(iq)[q]) == Coefficient(a, w, q) {
      assert ExactProperty(m, a, w)(m, q, Samples(iq)[q]);
      TransformedIsCoefficient(m, a, w, q);
    }
  }

  /** The loops leave in place the transform of the original samples, divided by
      their number. */
  method FixFft(iq: array<real>, sinewave: seq<real>, logN: nat, m: nat, ghost root: C) returns (r: int)
    requires iq.Length == 2 * Pow2(m) && ExactTable(sinewave, logN, root)
    modifies iq
    ensures m > logN ==> r == -1 && iq[..] == old(iq[..])
    ensures m <= logN ==> r == 0 && forall k: nat | k < Pow2(m) ::
              Scale(Pow2(m) as real, Samples(iq[..])[k])
              == Coefficient(Samples(old(iq[..])), Pow(root, Pow2(logN - m)), k)
  {
    var n := Pow2(m);
    if m > logN { Pow2Mono(logN, m); } else { Pow2Mono(m, logN); }
    if n > Pow2(logN) {
      return -1;
    }
    ghost var a, w := Samples(iq[..]), Pow(root, Pow2(logN - m));
    ghost var p := ExactProperty(m, a, w);
    Reorder(iq, m);
    Reordered(iq[..], old(iq[..]), m, w);
    forall s: nat, j0: nat | s < m && j0 < Pow2(s) ensures Served(p, sinewave, logN, m, s, j0) {
      TableServes(sinewave, root, logN, m, a, s, j0);
    }
    Stages(iq, p, sinewave, logN, m);
    ShorterRoot(root, logN, m);
    Finished(iq[..], m, a, w);
    r := 0;
  }

  lemma PairSum(x: C, y: C, z: C)
    ensures PowerSum([x, y], z) == Add(x, Mul(z, y))
  {
    assert [x, y][1..] == [y];
    SingleTerm([y], z);
  }

  lemma PowZeroOne(w: C)
    ensures Pow(w, 0) == ONE && Pow(w, 1) == w
  {
    assert Pow(w, 1) == Mul(w, Pow(w, 0));
    MulOne(w);
  }

  lemma TwoPointTransform(x: C, y: C, w: C)
    requires w == Neg(ONE)
    ensures Coefficient([x, y], w, 0) == Add(x, y) && Coefficient([x, y], w, 1) == Sub(x, y)
  {
    PowZeroOne(w);
    PairSum(x, y, ONE);
    PairSum(x, y, w);
    MulOne(y);
    MulNeg(ONE, y);
  }

  lemma ZeroTwiddle(x: C, y: C)
    ensures Combined([x, y], 0, 1, C(0.0, -0.0)) == [Half(x), Half(x)]
  {
    assert Mul(C(0.0, -0.0), y) == ZERO;
  }

  /** A table for LOG2_N_WAVE == 1 has the single entry sin(0) == 0, which then
      serves as cosine as well: the transform of two samples x and y comes out
      right exactly if y is zero. */
  lemma OneBitTable(x: C, y: C)
    ensures var z, w := Combined([x, y], 0, 1, TableFactor([0.0], 0, 0)), Neg(ONE);
            && (Scale(2.0, z[0]) == Coefficient([x, y], w, 0) <==> y == ZERO)
            && (Scale(2.0, z[1]) == Coefficient([x, y], w, 1) <==> y == ZERO)
  {
    ZeroTwiddle(x, y);
    TwoPointTransform(x, y, Neg(ONE));
    WholeFromHalf(x);
    SameIfZero(x, y);
  }

  lemma SameIfZero(x: C, y: C)
    ensures x == Add(x, y) <==> y == ZERO
    ensures x == Sub(x, y) <==> y == ZERO
  {
  }

  lemma WholeFromHalf(x: C)
    ensures Scale(2.0, Half(x)) == x
  {
  }
}

/** fix_fft() on 16-bit samples: nothing overflows, and the result is the
    discrete Fourier transform up to a few units. */
module FixFft {
  import opened Complex
  import opened BitReversal
  import opened Dft
  import opened FftLoops
  import opened FixedPoint
  import opened Words
  import Exact = ExactFft

  /** Sample i of the interleaved real and imaginary parts. */
  function Element(iq: seq<int16>, i: nat): Z
    requires 2 * i + 1 < |iq|
  {
    Z(iq[2 * i], iq[2 * i + 1])
  }

  ghost function Samples(iq: seq<int16>): (z: seq<C>)
    ensures |z| == |iq| / 2
  {
    seq(|iq| / 2, q requires 0 <= q < |iq| / 2 => Value(Element(iq, q)))
  }

  // ----- one butterfly in place -----

  predicate IsInt16(x: int) { -32768 <= x < 32768 }

  /** Nothing is cut off when the butterfly stores its products and results. */
  predicate Fits(t: Z, x: Z, y: Z) {
    var pr, pi := ProductRe(Halved(t), y), ProductIm(Halved(t), y);
    && IsInt16(pr) && IsInt16(pi)
    && IsInt16(x.re / 2 + pr) && IsInt16(x.im / 2 + pi) && IsInt16(x.re / 2 - pr) && IsInt16(x.im / 2 - pi)
  }

  /** The samples after the butterfly of i and j with table entry t. */
  ghost function AfterPair(iq: seq<int16>, i: nat, j: nat, t: Z): seq<C>
    requires i < j && 2 * j + 1 < |iq|
  {
    Samples(iq)[i := Lower(t, Element(iq, i), Element(iq, j))][j := Upper(t, Element(iq, i), Element(iq, j))]
  }

  lemma SamplesUpdated(iq: seq<int16>, i: nat, j: nat, x: Z, y: Z)
    requires i < j && 2 * j + 1 < |iq|
    ensures Samples(iq[2 * j := y.re][2 * j + 1 := y.im][2 * i := x.re][2 * i + 1 := x.im])
            == Samples(iq)[i := Value(x)][j := Value(y)]
  {
  }

  /** The assignments to the array at the end of a butterfly */
  method StorePair(iq: array<int16>, i: nat, j: nat, x: Z, y: Z)
    requires i < j && 2 * j + 1 < iq.Length
    modifies iq
    ensures Samples(iq[..]) == Samples(old(iq[..]))[i := Value(x)][j := Value(y)]
  {
    ghost var s: seq<int16> := iq[..];
    iq[2 * j] := y.re;
    assert iq[..] == s[2 * j := y.re];
    iq[2 * j + 1] := y.im;
    assert iq[..] == s[2 * j := y.re][2 * j + 1 := y.im];
    ghost var half: seq<int16> := iq[..];
    iq[2 * i] := x.re;
    assert iq[..] == half[2 * i := x.re];
    iq[2 * i + 1] := x.im;
    assert iq[..] == half[2 * i := x.re][2 * i + 1 := x.im];
    SamplesUpdated(s, i, j, x, y);
  }

  /** The body of the innermost loop.  Every assignment to an int16 variable or
      element is an obligation that nothing is cut off. */
  method CombinePair(iq: array<int16>, i: nat, j: nat, wr: int16, wi: int16, ghost t: Z)
    requires i < j && 2 * j + 1 < iq.Length && Z(wr, wi) == Halved(t)
    requires Fits(t, Element(iq[..], i), Element(iq[..], j))
    modifies iq
    ensures Samples(iq[..]) == AfterPair(old(iq[..]), i, j, t)
  {
    ghost var x, y := Element(iq[..], i), Element(iq[..], j);
    var tr: int16 := FixMpy(wr, iq[2 * j]) - FixMpy(wi, iq[2 * j + 1]);
    var ti: int16 := FixMpy(wr, iq[2 * j + 1]) + FixMpy(wi, iq[2 * j]);
    assert tr == ProductRe(Halved(t), y) && ti == ProductIm(Halved(t), y);
    var qr, qi := iq[2 * i] / 2, iq[2 * i + 1] / 2;
    var lower, upper := Z(qr + tr, qi + ti), Z(qr - tr, qi - ti);
    StoredValues(t, x, y, lower, upper);
    StorePair(iq, i, j, lower, upper);
  }

  lemma StoredValues(t: Z, x: Z, y: Z, lower: Z, upper: Z)
    requires lower.re == x.re / 2 + ProductRe(Halved(t), y) && lower.im == x.im / 2 + ProductIm(Halved(t), y)
    requires upper.re == x.re / 2 - ProductRe(Halved(t), y) && upper.im == x.im / 2 - ProductIm(Halved(t), y)
    ensures Value(lower) == Lower(t, x, y) && Value(upper) == Upper(t, x, y)
  {
  }

  // ----- the loops, for any property that the butterflies carry on -----

  /** The butterfly of x and y, at sample i of stage s, fits and takes both
      samples to the next stage. */
  ghost predicate PairCarried(p: Property, s: nat, i: nat, t: Z, x: Z, y: Z) {
    p(s + 1, i, Lower(t, x, y)) && p(s + 1, i + Pow2(s), Upper(t, x, y)) && Fits(t, x, y)
  }

  /** So do all butterflies of stage s that use the table entry t of offset j0. */
  ghost predicate Carries(p: Property, m: nat, s: nat, j0: nat, t: Z) {
    forall i: nat, x: Z, y: Z
      | AtOffset(s, j0, i) && i + Pow2(s) < Pow2(m) && p(s, i, Value(x)) && p(s, i + Pow2(s), Value(y)) ::
      PairCarried(p, s, i, t, x, y)
  }

  lemma SweepStep(q: seq<int16>, p: Property, m: nat, s: nat, j0: nat, i: nat, k: nat, next: nat, t: Z)
    requires |q| == 2 * Pow2(m) && Progress(Samples(q), p, m, s, j0, i) && Carries(p, m, s, j0, t)
    requires j0 < Pow2(s) && AtOffset(s, j0, i) && i < Pow2(m) && k == i + Pow2(s) && next == i + 2 * Pow2(s)
    ensures k < Pow2(m) && AtOffset(s, j0, next)
    ensures Fits(t, Element(q, i), Element(q, k))
    ensures Progress(AfterPair(q, i, k, t), p, m, s, j0, next)
  {
    PairReady(Samples(q), p, m, s, j0, i);
    var x, y := Element(q, i), Element(q, k);
    assert Samples(q)[i] == Value(x) && Samples(q)[k] == Value(y);
    PairTaken(p, m, s, j0, i, k, t, x, y);
    PairDone(Samples(q), p, m, s, j0, i, k, next, Lower(t, x, y), Upper(t, x, y));
    PairFits(p, m, s, j0, i, k, t, x, y);
  }

  lemma PairTaken(p: Property, m: nat, s: nat, j0: nat, i: nat, k: nat, t: Z, x: Z, y: Z)
    requires Carries(p, m, s, j0, t) && AtOffset(s, j0, i) && k == i + Pow2(s) < Pow2(m)
    requires p(s, i, Value(x)) && p(s, k, Value(y))
    ensures p(s + 1, i, Lower(t, x, y)) && p(s + 1, k, Upper(t, x, y))
  {
    var _ := PairCarried(p, s, i, t, x, y);
  }

  lemma PairFits(p: Property, m: nat, s: nat, j0: nat, i: nat, k: nat, t: Z, x: Z, y: Z)
    requires Carries(p, m, s, j0, t) && AtOffset(s, j0, i) && k == i + Pow2(s) < Pow2(m)
    requires p(s, i, Value(x)) && p(s, k, Value(y))
    ensures Fits(t, x, y)
  {
    var _ := PairCarried(p, s, i, t, x, y);
  }

  /** One turn of the innermost loop */
  method SweepTurn(iq: array<int16>, ghost p: Property, ghost m: nat, ghost s: nat, ghost j0: nat,
                   i: nat, k: nat, ghost next: nat, wr: int16, wi: int16, ghost t: Z)
    requires iq.Length == 2 * Pow2(m) && j0 < Pow2(s) && Progress(Samples(iq[..]), p, m, s, j0, i)
    requires AtOffset(s, j0, i) && i < Pow2(m) && k == i + Pow2(s) && next == i + 2 * Pow2(s)
    requires Z(wr, wi) == Halved(t) && Carries(p, m, s, j0, t)
    modifies iq
    ensures AtOffset(s, j0, next) && Progress(Samples(iq[..]), p, m, s, j0, next)
  {
    SweepStep(iq[..], p, m, s, j0, i, k, next, t);
    CombinePair(iq, i, k, wr, wi, t);
  }

  /** The innermost loop: all butterflies of stage s with the same table entry. */
  method Sweep(iq: array<int16>, ghost p: Property, m: nat, s: nat, j0: nat, wr: int16, wi: int16, ghost t: Z)
    requires iq.Length == 2 * Pow2(m) && j0 < Pow2(s) && Progress(Samples(iq[..]), p, m, s, j0, j0)
    requires Z(wr, wi) == Halved(t) && Carries(p, m, s, j0, t)
    modifies iq
    ensures Progress(Samples(iq[..]), p, m, s, j0 + 1, j0 + 1)
  {
    var n: int, l: int := Pow2(m), Pow2(s);
    var istep := 2 * l;
    var i := j0;
    assert j0 == BlockStart(s, 0) + j0;
    while i < n
      invariant AtOffset(s, j0, i) && Progress(Samples(iq[..]), p, m, s, j0, i)
      decreases n - i
    {
      SweepTurn(iq, p, m, s, j0, i, i + l, i + istep, wr, wi, t);
      i := i + istep;
    }
    InnerLoopEnds(Samples(iq[..]), p, s, l, j0, i);
  }

  /** The cosine and the negated sine that fix_fft() takes from entry j. */
  function TableFactor(sinewave: seq<int16>, quarter: nat, j: nat): Z
    requires j + quarter < |sinewave| && sinewave[j] > -32768
  {
    Z(sinewave[j + quarter], -(sinewave[j] as int))
  }

  /** Entry m << k of the table exists and serves the butterflies at offset j0. */
  ghost predicate Served(p: Property, sinewave: seq<int16>, logN: nat, m: nat, s: nat, j0: nat)
    requires s < logN
  {
    var e, quarter := j0 * Pow2(logN - 1 - s), Pow2(logN) / 4;
    && e + quarter < |sinewave| && sinewave[e] > -32768
    && Carries(p, m, s, j0, TableFactor(sinewave, quarter, e))
  }

  /** One turn of the loop over the stage's table entries */
  method StageTurn(iq: array<int16>, ghost p: Property, sinewave: seq<int16>, ghost logN: nat, m: nat, s: nat,
                   j0: nat, step: nat, quarter: nat)
    requires iq.Length == 2 * Pow2(m) && s < logN && j0 < Pow2(s) && Served(p, sinewave, logN, m, s, j0)
    requires step == Pow2(logN - 1 - s) && quarter == Pow2(logN) / 4
    requires Progress(Samples(iq[..]), p, m, s, j0, j0)
    modifies iq
    ensures Progress(Samples(iq[..]), p, m, s, j0 + 1, j0 + 1)
  {
    var j := j0 * step;
    var wr: int16, wi: int16 := sinewave[j + quarter], -(sinewave[j] as int);
    wr, wi := wr / 2, wi / 2;
    Sweep(iq, p, m, s, j0, wr, wi, TableFactor(sinewave, quarter, j));
  }

  /** The loop over the table entries of stage s. */
  method Stage(iq: array<int16>, ghost p: Property, sinewave: seq<int16>, logN: nat, m: nat, s: nat)
    requires m <= logN && iq.Length == 2 * Pow2(m) && Progress(Samples(iq[..]), p, m, s, 0, 0)
    requires forall j0: nat | j0 < Pow2(s) :: Served(p, sinewave, logN, m, s, j0)
    modifies iq
    ensures Progress(Samples(iq[..]), p, m, s, Pow2(s), Pow2(s))
  {
    var l, step, quarter := Pow2(s), Pow2(logN - 1 - s), Pow2(logN) / 4;
    var j0 := 0;
    while j0 < l
      invariant 0 <= j0 <= l && Progress(Samples(iq[..]), p, m, s, j0, j0)
    {
      StageTurn(iq, p, sinewave, logN, m, s, j0, step, quarter);
      j0 := j0 + 1;
    }
  }

  /** The loop over the stages. */
  method Stages(iq: array<int16>, ghost p: Property, sinewave: seq<int16>, logN: nat, m: nat)
    requires m <= logN && iq.Length == 2 * Pow2(m)
    requires forall q: nat | q < Pow2(m) :: p(0, q, Samples(iq[..])[q])
    requires forall s: nat, j0: nat | s < m && j0 < Pow2(s) :: Served(p, sinewave, logN, m, s, j0)
    modifies iq
    ensures forall q: nat | q < Pow2(m) :: p(m, q, Samples(iq[..])[q])
  {
    var n := Pow2(m);
    var l, s := 1, 0;
    if m > 0 { Pow2Mono(0, m); }
    while l < n
      invariant s <= m && l == Pow2(s)
      invariant forall q: nat | q < n :: p(s, q, Samples(iq[..])[q])
      decreases n - l
    {
      assert s < m;
      StageBegins(Samples(iq[..]), p, s, l);
      Stage(iq, p, sinewave, logN, m, s);
      StageEnds(Samples(iq[..]), p, s, l);
      l, s := 2 * l, s + 1;
      Pow2Mono(s, m);
    }
    if s < m { Pow2Mono(s, m); }
  }

  // ----- the property: samples stay in their disc and track the exact values -----

  /** A sample has grown by at most 3 per stage, ... */
  ghost predicate InRadius(m: nat, s: nat, c: C) {
    s <= m && InDisc(c, 32767.0 - 3.0 * ((m - s) as real))
  }

  /** ... and is within 4 units per stage of the exact value. */
  ghost predicate Tracks(m: nat, a: seq<C>, w: C, s: nat, q: nat, c: C) {
    |a| == Pow2(m) && s <= m && q < Pow2(m) && Close(c, AfterStages(m, s, a, w, q), 4.0 * (s as real))
  }

  ghost predicate Bounded(m: nat, a: seq<C>, w: C, precise: bool, s: nat, q: nat, c: C) {
    InRadius(m, s, c) && (precise ==> Tracks(m, a, w, s, q, c))
  }

  ghost function BoundedProperty(m: nat, a: seq<C>, w: C, precise: bool): Property {
    (s: nat, q: nat, c: C) => Bounded(m, a, w, precise, s, q, c)
  }

  lemma FitsFromDiscs(t: Z, x: Z, y: Z)
    requires InDisc(Lower(t, x, y), 32767.0) && InDisc(Upper(t, x, y), 32767.0)
    requires InDisc(Product(Halved(t), y), 32767.0)
    ensures Fits(t, x, y)
  {
    var pr, pi := ProductRe(Halved(t), y), ProductIm(Halved(t), y);
    ComponentsInDisc(Product(Halved(t), y), 32767.0);
    ComponentsInDisc(Lower(t, x, y), 32767.0);
    ComponentsInDisc(Upper(t, x, y), 32767.0);
    assert Lower(t, x, y) == Complexify(x.re / 2 + pr, x.im / 2 + pi);
    assert Upper(t, x, y) == Complexify(x.re / 2 - pr, x.im / 2 - pi);
  }

  lemma GrowingButterfly(m: nat, s: nat, t: Z, x: Z, y: Z)
    requires s < m && InDisc(Value(t), 32768.0) && InRadius(m, s, Value(x)) && InRadius(m, s, Value(y))
    ensures InRadius(m, s + 1, Lower(t, x, y)) && InRadius(m, s + 1, Upper(t, x, y)) && Fits(t, x, y)
  {
    var r := 32767.0 - 3.0 * ((m - s) as real);
    assert r + 3.0 == 32767.0 - 3.0 * ((m - (s + 1)) as real);
    ButterflyGrowth(t, x, y, r);
    WiderDisc(Product(Halved(t), y), r + 3.0, 32767.0);
    WiderDisc(Lower(t, x, y), r + 3.0, 32767.0);
    WiderDisc(Upper(t, x, y), r + 3.0, 32767.0);
    FitsFromDiscs(t, x, y);
  }

  lemma {:induction false} RootOnCircle(w: C, m: nat)
    requires m > 0 && IsRoot(w, m)
    ensures InDisc(w, 1.0)
    decreases m
  {
    if m == 1 {
      assert Pow2(0) == 1;
      Exact.PowZeroOne(w);
      MinusOneOnCircle();
    } else {
      SquareIsRoot(w, m);
      RootOnCircle(Mul(w, w), m - 1);
      DiscOfSquare(w);
    }
  }

  lemma MinusOneOnCircle()
    ensures InDisc(Neg(ONE), 1.0)
  {
  }

  lemma DiscOfSquare(w: C)
    requires InDisc(Mul(w, w), 1.0)
    ensures InDisc(w, 1.0)
  {
    var v := w.re * w.re + w.im * w.im;
    SquareNorm(w);
    SquareMono(v, 1.0);
  }

  lemma SquareNorm(w: C)
    ensures var u, v := Mul(w, w), w.re * w.re + w.im * w.im;
            u.re * u.re + u.im * u.im == v * v
  {
  }

  lemma {:induction false} PowInDisc(w: C, n: nat)
    requires InDisc(w, 1.0)
    ensures InDisc(Pow(w, n), 1.0)
  {
    if n > 0 {
      PowInDisc(w, n - 1);
      MulInDisc(w, Pow(w, n - 1), 1.0, 1.0);
    }
  }

  /** lower and upper are the exact butterfly of x and y with twiddle factor t. */
  ghost predicate ExactButterfly(t: C, x: C, y: C, lower: C, upper: C) {
    InDisc(t, 1.0) && lower == Half(Add(x, Mul(t, y))) && upper == Half(Sub(x, Mul(t, y)))
  }

  lemma ExactPair(m: nat, a: seq<C>, w: C, s: nat, j0: nat, i: nat)
    requires s < m && j0 < Pow2(s) && AtOffset(s, j0, i) && i + Pow2(s) < Pow2(m)
    requires IsRoot(w, m) && |a| == Pow2(m)
    ensures ExactButterfly(Twiddle(m, s, w, j0),
                           AfterStages(m, s, a, w, i), AfterStages(m, s, a, w, i + Pow2(s)),
                           AfterStages(m, s + 1, a, w, i), AfterStages(m, s + 1, a, w, i + Pow2(s)))
  {
    var c := NextBlock(m, s, j0, i);
    Butterfly(m, s, a, w, c, j0, i);
    RootOnCircle(w, m);
    PowInDisc(w, Pow2(m - 1 - s) * j0);
  }

  lemma ButterflyTracks(t: Z, x: Z, y: Z, w: C, x': C, y': C, lower: C, upper: C, s: nat)
    requires InDisc(Value(y), 32768.0) && IsEntry(Value(t), w) && ExactButterfly(w, x', y', lower, upper)
    requires Close(Value(x), x', 4.0 * (s as real)) && Close(Value(y), y', 4.0 * (s as real))
    ensures Close(Lower(t, x, y), lower, 4.0 * ((s + 1) as real))
    ensures Close(Upper(t, x, y), upper, 4.0 * ((s + 1) as real))
  {
    ButterflyDrift(t, x, y, w, x', y', 4.0 * (s as real));
    assert 4.0 * ((s + 1) as real) == 4.0 * (s as real) + 4.0;
  }

  lemma TrackingButterfly(m: nat, a: seq<C>, w: C, s: nat, j0: nat, i: nat, t: Z, x: Z, y: Z)
    requires s < m && j0 < Pow2(s) && AtOffset(s, j0, i) && i + Pow2(s) < Pow2(m)
    requires IsRoot(w, m) && IsEntry(Value(t), Twiddle(m, s, w, j0)) && InDisc(Value(y), 32768.0)
    requires Tracks(m, a, w, s, i, Value(x)) && Tracks(m, a, w, s, i + Pow2(s), Value(y))
    ensures Tracks(m, a, w, s + 1, i, Lower(t, x, y)) && Tracks(m, a, w, s + 1, i + Pow2(s), Upper(t, x, y))
  {
    ExactPair(m, a, w, s, j0, i);
    ButterflyTracks(t, x, y, Twiddle(m, s, w, j0),
                    AfterStages(m, s, a, w, i), AfterStages(m, s, a, w, i + Pow2(s)),
                    AfterStages(m, s + 1, a, w, i), AfterStages(m, s + 1, a, w, i + Pow2(s)), s);
  }

  lemma InRadiusIsInDisc(m: nat, s: nat, c: C)
    requires InRadius(m, s, c)
    ensures InDisc(c, 32768.0)
  {
    WiderDisc(c, 32767.0 - 3.0 * ((m - s) as real), 32768.0);
  }

  lemma BoundedButterfly(m: nat, a: seq<C>, w: C, precise: bool, s: nat, j0: nat, i: nat, t: Z, x: Z, y: Z)
    requires s < m && j0 < Pow2(s) && AtOffset(s, j0, i) && i + Pow2(s) < Pow2(m)
    requires InDisc(Value(t), 32768.0)
    requires precise ==> IsRoot(w, m) && IsEntry(Value(t), Twiddle(m, s, w, j0))
    requires Bounded(m, a, w, precise, s, i, Value(x)) && Bounded(m, a, w, precise, s, i + Pow2(s), Value(y))
    ensures Bounded(m, a, w, precise, s + 1, i, Lower(t, x, y))
    ensures Bounded(m, a, w, precise, s + 1, i + Pow2(s), Upper(t, x, y))
    ensures Fits(t, x, y)
  {
    GrowingButterfly(m, s, t, x, y);
    if precise {
      InRadiusIsInDisc(m, s, Value(y));
      TrackingButterfly(m, a, w, s, j0, i, t, x, y);
    }
  }

  lemma BoundedCarries(m: nat, a: seq<C>, w: C, precise: bool, s: nat, j0: nat, t: Z)
    requires s < m && j0 < Pow2(s) && InDisc(Value(t), 32768.0)
    requires precise ==> IsRoot(w, m) && IsEntry(Value(t), Twiddle(m, s, w, j0))
    ensures Carries(BoundedProperty(m, a, w, precise), m, s, j0, t)
  {
    var p := BoundedProperty(m, a, w, precise);
    forall i: nat, x: Z, y: Z
      | AtOffset(s, j0, i) && i + Pow2(s) < Pow2(m) && p(s, i, Value(x)) && p(s, i + Pow2(s), Value(y))
      ensures PairCarried(p, s, i, t, x, y)
    {
      BoundedPair(p, m, a, w, precise, s, j0, i, t, x, y);
    }
  }

  ghost predicate IsBounded(p: Property, m: nat, a: seq<C>, w: C, precise: bool) {
    forall s: nat, q: nat, c: C {:trigger p(s, q, c)} :: p(s, q, c) <==> Bounded(m, a, w, precise, s, q, c)
  }

  lemma BoundedPair(
    p: Property, m: nat, a: seq<C>, w: C, precise: bool, s: nat, j0: nat, i: nat, t: Z, x: Z, y: Z)
    requires IsBounded(p, m, a, w, precise)
    requires s < m && j0 < Pow2(s) && AtOffset(s, j0, i) && i + Pow2(s) < Pow2(m) && InDisc(Value(t), 32768.0)
    requires precise ==> IsRoot(w, m) && IsEntry(Value(t), Twiddle(m, s, w, j0))
    requires p(s, i, Value(x)) && p(s, i + Pow2(s), Value(y))
    ensures PairCarried(p, s, i, t, x, y)
  {
    BoundedButterfly(m, a, w, precise, s, j0, i, t, x, y);
  }

  // ----- the sine table -----

  /** Entry j and the one a quarter of a period further on lie on or within the
      circle of radius 32768. */
  ghost predicate OnCircle(sinewave: seq<int16>, quarter: nat, j: nat) {
    && j + quarter < |sinewave| && sinewave[j] > -32768
    && InDisc(Value(TableFactor(sinewave, quarter, j)), 32768.0)
  }

  /** Three quarters of a period, without a bound on its precision. */
  ghost predicate Table(sinewave: seq<int16>, logN: nat) {
    && logN >= 2 && |sinewave| == Pow2(logN) * 3 / 4
    && forall j: nat | j < Pow2(logN - 1) :: OnCircle(sinewave, Pow2(logN) / 4, j)
  }

  ghost predicate PreciseAt(sinewave: seq<int16>, quarter: nat, j: nat, w: C) {
    OnCircle(sinewave, quarter, j) && IsEntry(Value(TableFactor(sinewave, quarter, j)), w)
  }

  /** Its entries are sines, scaled by about 32768, to within two units. */
  ghost predicate Precise(sinewave: seq<int16>, logN: nat, root: C) {
    && logN >= 2 && IsRoot(root, logN)
    && forall j: nat | j < Pow2(logN - 1) :: PreciseAt(sinewave, Pow2(logN) / 4, j, Pow(root, j))
  }

  lemma OnAxis(c: C, r: real)
    requires (c.re == 0.0 && -r <= c.im <= r) || (c.im == 0.0 && -r <= c.re <= r)
    ensures InDisc(c, r)
  {
    if c.re == 0.0 { SquareBound(c.im, r); } else { SquareBound(c.re, r); }
  }

  lemma EntryAt(sinewave: seq<int16>, j: nat, t: Z, w: C, d: C)
    requires j + 1 < |sinewave| && t.re == sinewave[j + 1] && t.im == -(sinewave[j] as int)
    requires t.re == 0 || t.im == 0
    requires d == Sub(Value(t), Scale(32768.0, w)) && (d.re == 0.0 || d.im == 0.0)
    requires -2.0 <= d.re <= 2.0 && -2.0 <= d.im <= 2.0
    ensures PreciseAt(sinewave, 1, j, w)
  {
    assert TableFactor(sinewave, 1, j) == t;
    OnAxis(Value(t), 32768.0);
    OnAxis(d, 2.0);
  }

  lemma CosineEntry(sinewave: seq<int16>)
    requires sinewave == [0, 32767, 0]
    ensures PreciseAt(sinewave, 1, 0, C(1.0, 0.0))
  {
    EntryAt(sinewave, 0, Z(32767, 0), C(1.0, 0.0), C(-1.0, 0.0));
  }

  lemma SineEntry(sinewave: seq<int16>)
    requires sinewave == [0, 32767, 0]
    ensures PreciseAt(sinewave, 1, 1, C(0.0, -1.0))
  {
    EntryAt(sinewave, 1, Z(0, -32767), C(0.0, -1.0), C(0.0, 1.0));
  }

  lemma QuarterTurn(root: C)
    requires root == C(0.0, -1.0)
    ensures Pow(root, 0) == ONE && Pow(root, 1) == root && IsRoot(root, 2)
  {
    assert Pow2(0) == 1 && Pow2(1) == 2;
    Exact.PowZeroOne(root);
    PowTwo(root);
  }

  lemma FromTwoEntries(sinewave: seq<int16>, root: C)
    requires |sinewave| == 3 && IsRoot(root, 2)
    requires PreciseAt(sinewave, 1, 0, Pow(root, 0)) && PreciseAt(sinewave, 1, 1, Pow(root, 1))
    ensures Table(sinewave, 2) && Precise(sinewave, 2, root)
  {
    assert Pow2(0) == 1 && Pow2(1) == 2 && Pow2(2) == 4;
    forall j: nat | j < 2 ensures PreciseAt(sinewave, 1, j, Pow(root, j)) {
      if j != 0 { assert j == 1; }
    }
  }

  /** The table that sine_table() makes for four points is such a table. */
  lemma FourPointTable(sinewave: seq<int16>, root: C)
    requires sinewave == [0, 32767, 0] && root == C(0.0, -1.0)
    ensures Table(sinewave, 2) && Precise(sinewave, 2, root)
  {
    QuarterTurn(root);
    CosineEntry(sinewave);
    SineEntry(sinewave);
    FromTwoEntries(sinewave, root);
  }

  lemma TableServes(sinewave: seq<int16>, logN: nat, root: C, m: nat, a: seq<C>, precise: bool, s: nat, j0: nat)
    requires s < m <= logN && j0 < Pow2(s) && Table(sinewave, logN)
    requires precise ==> Precise(sinewave, logN, root)
    ensures Served(BoundedProperty(m, a, Pow(root, Pow2(logN - m)), precise), sinewave, logN, m, s, j0)
  {
    var e, quarter, w := j0 * Pow2(logN - 1 - s), Pow2(logN) / 4, Pow(root, Pow2(logN - m));
    Exact.TableIndexInRange(logN, s, j0);
    assert OnCircle(sinewave, quarter, e);
    if precise {
      assert PreciseAt(sinewave, quarter, e, Pow(root, e));
      Exact.ShorterRoot(root, logN, m);
      Exact.TableIndex(root, logN, m, s, j0);
    }
    BoundedCarries(m, a, w, precise, s, j0, TableFactor(sinewave, quarter, e));
  }

  // ----- the whole transform -----

  lemma StartBounded(m: nat, a: seq<C>, w: C, precise: bool, q: nat, c: C)
    requires |a| == Pow2(m) && q < Pow2(m) && c == a[Rev(m, q)]
    requires forall q: nat | q < Pow2(m) :: InDisc(a[q], 32767.0 - 3.0 * (m as real))
    ensures Bounded(m, a, w, precise, 0, q, c)
  {
    StartsReversed(m, a, w, q);
    assert Sub(c, c) == ZERO;
  }

  /** In range, and within 4m of the coefficient divided by the number of samples. */
  ghost predicate EndBounded(m: nat, a: seq<C>, w: C, precise: bool, q: nat, c: C) {
    InDisc(c, 32767.0) && (precise ==> Close(c, MeanCoefficient(m, a, w, q), 4.0 * (m as real)))
  }

  lemma BoundedAtEnd(m: nat, a: seq<C>, w: C, precise: bool, q: nat, c: C)
    requires Bounded(m, a, w, precise, m, q, c) && (precise ==> IsRoot(w, m))
    ensures EndBounded(m, a, w, precise, q, c)
  {
    if precise { TransformedIsMean(m, a, w, q); }
  }

  /** fix_fft(): for samples within the disc of radius 32767 - 3m the transform
      stays within 16 bits.  With a precise table every coefficient, divided by
      the number of samples, is exact to within 4m. */
  method FixFft(iq: array<int16>, sinewave: seq<int16>, logN: nat, m: nat, ghost root: C) returns (r: int)
    requires iq.Length == 2 * Pow2(m) && Table(sinewave, logN)
    requires forall q: nat | q < Pow2(m) :: InDisc(Samples(iq[..])[q], 32767.0 - 3.0 * (m as real))
    modifies iq
    ensures m > logN ==> r == -1 && iq[..] == old(iq[..])
    ensures m <= logN ==> r == 0 && forall k: nat | k < Pow2(m) ::
              EndBounded(m, Samples(old(iq[..])), Pow(root, Pow2(logN - m)), Precise(sinewave, logN, root), k,
                         Samples(iq[..])[k])
  {
    var n := Pow2(m);
    if m > logN { Pow2Mono(logN, m); } else { Pow2Mono(m, logN); }
    if n > Pow2(logN) {
      return -1;
    }
    ghost var a, w, precise := Samples(iq[..]), Pow(root, Pow2(logN - m)), Precise(sinewave, logN, root);
    ghost var p := BoundedProperty(m, a, w, precise);
    Reorder(iq, m);
    forall q: nat | q < n ensures p(0, q, Samples(iq[..])[q]) {
      assert SampleEquals(iq[..], q, old(iq[..]), Rev(m, q));
      StartBounded(m, a, w, precise, q, Samples(iq[..])[q]);
    }
    forall s: nat, j0: nat | s < m && j0 < Pow2(s) ensures Served(p, sinewave, logN, m, s, j0) {
      TableServes(sinewave, logN, root, m, a, precise, s, j0);
    }
    Stages(iq, p, sinewave, logN, m);
    if precise { Exact.ShorterRoot(root, logN, m); }
    forall k: nat | k < n ensures EndBounded(m, a, w, precise, k, Samples(iq[..])[k]) {
      assert p(m, k, Samples(iq[..])[k]);
      BoundedAtEnd(m, a, w, precise, k, Samples(iq[..])[k]);
    }
    r := 0;
  }
}

/** The decimating filters and the droop filter of rtl_fm, which work in place on
    one block and carry their state to the next. */
module RtlFm {
  import opened Words
  import opened Streams
  import BitReversal

  // ----- the filters as steps -----

  type Sample = (int16, int16)

  datatype Window = Window(r: int, j: int, index: int)

  /** low_pass(): downsample complex samples are added up. */
  function LowPassStep(downsample: int): (Window, Sample) -> (Window, seq<Sample>) {
    (w: Window, x: Sample) =>
      if w.index + 1 < downsample then (AddedTo(w, x), []) else (EMPTY, [Cut(AddedTo(w, x))])
  }

  datatype RealWindow = RealWindow(sum: int, index: int)

  /** A quotient as C computes it, cut to int16_t */
  function Quotient16(total: int, divisor: int): (y: int16)
    requires divisor > 0
    ensures (TruncatedDiv(total, divisor) - y) % 65536 == 0
  {
    ToInt16(TruncatedDiv(total, divisor))
  }

  /** low_pass_real(): a fractional number of samples is added up and divided by
      divisor, which is fast / slow. */
  function LowPassRealStep(fast: int, slow: int, divisor: int): (RealWindow, int16) -> (RealWindow, seq<int16>)
    requires divisor > 0
  {
    (w: RealWindow, x: int16) =>
      if w.index + slow < fast then (RealWindow(w.sum + x, w.index + slow), [])
      else (RealWindow(0, w.index + slow - fast), [Quotient16(w.sum + x, divisor)])
  }

  /** generic_fir(): the weighted sum of the last nine samples before this one */
  function Fir(h: seq<int16>, fir: seq<int>): int16
    requires |h| == 9 && |fir| >= 6
  {
    ToInt16(((h[0] + h[8]) * fir[1] + (h[1] + h[7]) * fir[2] + (h[2] + h[6]) * fir[3] + (h[3] + h[5]) * fir[4]
             + h[4] * fir[5]) / 32768)
  }

  type History = h: seq<int16> | |h| == 9 witness [0, 0, 0, 0, 0, 0, 0, 0, 0]

  function FirOutcome(output: seq<int16>, h: History): Outcome<History, int16> { Outcome(output, h) }

  function FirStep(fir: seq<int>): (History, int16) -> (History, seq<int16>)
    requires |fir| >= 6
  {
    (h: History, x: int16) => (h[1..] + [x], [Fir(h, fir)])
  }

  // ----- what the filters compute on a whole stream -----

  function SumOf(xs: seq<int16>): int {
    if xs == [] then 0 else SumOf(xs[..|xs| - 1]) + xs[|xs| - 1]
  }

  function First(xs: seq<Sample>): (s: seq<int16>)
    ensures |s| == |xs|
  {
    seq(|xs|, i requires 0 <= i < |xs| => xs[i].0)
  }

  function Second(xs: seq<Sample>): (s: seq<int16>)
    ensures |s| == |xs|
  {
    seq(|xs|, i requires 0 <= i < |xs| => xs[i].1)
  }

  function Sum(xs: seq<Sample>): (int, int) { (SumOf(First(xs)), SumOf(Second(xs))) }

  lemma SumStep(xs: seq<Sample>, n: nat)
    requires n < |xs|
    ensures Sum(xs[..n + 1]) == (Sum(xs[..n]).0 + xs[n].0, Sum(xs[..n]).1 + xs[n].1)
  {
    var ys := xs[..n + 1];
    assert First(ys)[..n] == First(xs[..n]) && Second(ys)[..n] == Second(xs[..n]);
  }

  const EMPTY := Window(0, 0, 0)

  /** Sums over the samples of an unfinished window */
  lemma {:induction false} WithinWindow(d: int, xs: seq<Sample>, n: nat)
    requires n < d && n <= |xs|
    ensures Run(LowPassStep(d), EMPTY, xs[..n]) == Outcome([], Window(Sum(xs[..n]).0, Sum(xs[..n]).1, n))
  {
    if n > 0 {
      WithinWindow(d, xs, n - 1);
      RunStep(LowPassStep(d), EMPTY, xs, n - 1);
      SumStep(xs, n - 1);
    }
  }

  function CutSum(xs: seq<Sample>): Sample { (ToInt16(Sum(xs).0), ToInt16(Sum(xs).1)) }

  /** A whole window gives one sample: the sum, cut to 16 bits. */
  lemma WholeWindow(d: nat, xs: seq<Sample>)
    requires 0 < d <= |xs|
    ensures Run(LowPassStep(d), EMPTY, xs[..d]) == Outcome([CutSum(xs[..d])], EMPTY)
  {
    WithinWindow(d, xs, d - 1);
    RunStep(LowPassStep(d), EMPTY, xs, d - 1);
    SumStep(xs, d - 1);
  }

  /** The sums of the whole windows of d samples, one after the other. */
  function WindowSums(d: nat, xs: seq<Sample>): (sums: seq<Sample>)
    requires d > 0
    decreases |xs|
  {
    if |xs| < d then [] else [CutSum(xs[..d])] + WindowSums(d, xs[d..])
  }

  lemma {:induction false} WindowSumFrom(d: nat, xs: seq<Sample>, k: nat, p: nat)
    requires d > 0 && p == k * d && p + d <= |xs|
    ensures k < |WindowSums(d, xs)| && WindowSums(d, xs)[k] == CutSum(xs[p..p + d])
    decreases k
  {
    if k == 0 {
      assert xs[0..d] == xs[..d];
    } else {
      var before, rest := p - d, xs[d..];
      OneMore(k - 1, d);
      assert rest[before..before + d] == xs[p..p + d];
      WindowSumFrom(d, rest, k - 1, before);
    }
  }

  /** Window k is the one that begins at sample k * d. */
  lemma WindowSumAt(d: nat, xs: seq<Sample>, k: nat)
    requires d > 0 && k * d + d <= |xs|
    ensures k < |WindowSums(d, xs)| && WindowSums(d, xs)[k] == CutSum(xs[k * d..k * d + d])
  {
    WindowSumFrom(d, xs, k, k * d);
  }

  /** low_pass() cuts the stream into windows of d samples and adds them up. */
  lemma {:induction false} LowPassSums(d: nat, xs: seq<Sample>)
    requires d > 0
    ensures Run(LowPassStep(d), EMPTY, xs).output == WindowSums(d, xs)
    decreases |xs|
  {
    if |xs| < d {
      WithinWindow(d, xs, |xs|);
      assert xs[..|xs|] == xs;
    } else {
      assert xs == xs[..d] + xs[d..];
      WholeWindow(d, xs);
      RunAppend(LowPassStep(d), EMPTY, xs[..d], xs[d..]);
      LowPassSums(d, xs[d..]);
    }
  }

  lemma OneMore(n: int, d: int)
    ensures (n + 1) * d == n * d + d
  {
  }

  /** Every sample adds slow units, every output takes fast units away. */
  lemma {:induction false} LowPassRealBalance(fast: int, slow: int, divisor: int, w: RealWindow, xs: seq<int16>)
    requires divisor > 0 && 0 < slow <= fast && 0 <= w.index < fast
    ensures var o := Run(LowPassRealStep(fast, slow, divisor), w, xs);
            o.state.index + |o.output| * fast == w.index + |xs| * slow && 0 <= o.state.index < fast
    decreases |xs|
  {
    if xs != [] {
      var n, step := |xs| - 1, LowPassRealStep(fast, slow, divisor);
      LowPassRealBalance(fast, slow, divisor, w, xs[..n]);
      RunStep(step, w, xs, n);
      assert xs[..n + 1] == xs;
      OneMore(n, slow);
      OneMore(|Run(step, w, xs[..n]).output|, fast);
    }
  }

  lemma CountIsQuotient(x: int, fast: int, q: int, r: int)
    requires r + q * fast == x && 0 <= r < fast
    ensures q == x / fast
  {
    BitReversal.DivModUnique(x, fast, q, r);
  }

  /** low_pass_real() puts out as many samples as fit in what was carried over and
      what comes in. */
  lemma LowPassRealCount(fast: int, slow: int, divisor: int, w: RealWindow, xs: seq<int16>)
    requires divisor > 0 && 0 < slow <= fast && 0 <= w.index < fast
    ensures |Run(LowPassRealStep(fast, slow, divisor), w, xs).output| == (w.index + |xs| * slow) / fast
  {
    var o := Run(LowPassRealStep(fast, slow, divisor), w, xs);
    LowPassRealBalance(fast, slow, divisor, w, xs);
    CountIsQuotient(w.index + |xs| * slow, fast, |o.output|, o.state.index);
  }

  // ----- which samples low_pass_real() adds up -----

  /** Output k begins with sample p: p is the first number of samples whose units,
      with those carried over, make k outputs. */
  predicate Begins(index: int, fast: int, slow: int, k: nat, p: nat) {
    if k == 0 then p == 0 else p > 0 && index + (p - 1) * slow < k * fast <= index + p * slow
  }

  /** What is added up for output k; the first one has a share from before. */
  function Share(w: RealWindow, k: nat, xs: seq<int16>): int {
    SumOf(xs) + if k == 0 then w.sum else 0
  }

  lemma SumNext(xs: seq<int16>, p: nat, n: nat)
    requires p <= n < |xs|
    ensures SumOf(xs[p..n + 1]) == SumOf(xs[p..n]) + xs[n]
  {
    var s := xs[p..n + 1];
    assert s[..|s| - 1] == xs[p..n] && s[|s| - 1] == xs[n];
  }

  lemma Cancels(a: int, b: int, s: int)
    requires s > 0
    ensures a * s < b * s <==> a < b
  {
    BitReversal.MulSub(s, b, a);
    BitReversal.MulSub(s, a, b);
    if a < b {
      BitReversal.MulAtLeast(s, b - a);
    } else if a > b {
      BitReversal.MulAtLeast(s, a - b);
    }
  }

  /** After n samples the sum holds those since output |output| began. */
  lemma {:induction false} SumsUpTo(fast: int, slow: int, divisor: int, w: RealWindow, xs: seq<int16>, n: nat)
    returns (p: nat)
    requires divisor > 0 && 0 < slow <= fast && 0 <= w.index < fast && n <= |xs|
    ensures var o := Run(LowPassRealStep(fast, slow, divisor), w, xs[..n]);
            p <= n && Begins(w.index, fast, slow, |o.output|, p) && o.state.sum == Share(w, |o.output|, xs[p..n])
  {
    var step := LowPassRealStep(fast, slow, divisor);
    if n == 0 {
      p := 0;
      assert xs[0..0] == [] == xs[..0];
    } else {
      var m := n - 1;
      var o, o' := Run(step, w, xs[..m]), Run(step, w, xs[..n]);
      p := SumsUpTo(fast, slow, divisor, w, xs, m);
      RunStep(step, w, xs, m);
      LowPassRealBalance(fast, slow, divisor, w, xs[..m]);
      LowPassRealBalance(fast, slow, divisor, w, xs[..n]);
      SumNext(xs, p, m);
      if o.state.index + slow >= fast {
        p := n;
        NextBegins(w.index, fast, slow, |o.output|, n, o.state.index);
        assert xs[n..n] == [];
      }
    }
  }

  lemma NextBegins(index: int, fast: int, slow: int, k: nat, n: nat, rest: int)
    requires n > 0 && rest + k * fast == index + (n - 1) * slow && rest < fast <= rest + slow
    ensures Begins(index, fast, slow, k + 1, n)
  {
    OneMore(k, fast);
    OneMore(n - 1, slow);
  }

  lemma BeginsOnce(index: int, fast: int, slow: int, k: nat, p: nat, q: nat)
    requires 0 < slow && Begins(index, fast, slow, k, p) && Begins(index, fast, slow, k, q)
    ensures p == q
  {
    if k > 0 {
      Cancels(p - 1, q, slow);
      Cancels(q - 1, p, slow);
    }
  }

  /** An output has at least one sample. */
  lemma BeginsLater(index: int, fast: int, slow: int, k: nat, p: nat, q: nat)
    requires 0 < slow <= fast && 0 <= index < fast
    requires Begins(index, fast, slow, k, p) && Begins(index, fast, slow, k + 1, q)
    ensures p < q && k * fast <= index + (q - 1) * slow
  {
    OneMore(k, fast);
    OneMore(q - 1, slow);
    if k == 0 {
      Cancels(-1, q - 1, slow);
    } else {
      OneMore(p - 1, slow);
      Cancels(p, q, slow);
      Cancels(q - 1, p, slow);
    }
  }

  /** Before the last sample of output k exactly k outputs are complete. */
  lemma CompleteBefore(index: int, fast: int, slow: int, k: nat, p: nat, q: nat, done: nat, rest: int)
    requires 0 < slow <= fast && 0 <= index < fast
    requires Begins(index, fast, slow, k, p) && Begins(index, fast, slow, k + 1, q)
    requires rest + done * fast == index + (q - 1) * slow && 0 <= rest < fast
    ensures p < q && done == k && rest + slow >= fast
  {
    BeginsLater(index, fast, slow, k, p, q);
    OneMore(k, fast);
    OneMore(q - 1, slow);
    SameQuotient(index + (q - 1) * slow, fast, done, k, rest);
  }

  lemma SameQuotient(x: int, fast: int, done: nat, k: nat, rest: int)
    requires fast > 0 && rest + done * fast == x && 0 <= rest < fast
    requires k * fast <= x < k * fast + fast
    ensures done == k
  {
    BitReversal.DivModUnique(x, fast, done, rest);
    BitReversal.DivModUnique(x, fast, k, x - k * fast);
  }

  /** A sample that brings the units up to fast ends the sum. */
  lemma CompletesWith(fast: int, slow: int, divisor: int, w: RealWindow, xs: seq<int16>, m: nat,
                      o: Outcome<RealWindow, int16>)
    requires divisor > 0 && m < |xs| && o == Run(LowPassRealStep(fast, slow, divisor), w, xs[..m])
    requires o.state.index + slow >= fast
    ensures Run(LowPassRealStep(fast, slow, divisor), w, xs[..m + 1]).output
            == o.output + [Quotient16(o.state.sum + xs[m], divisor)]
  {
    RunStep(LowPassRealStep(fast, slow, divisor), w, xs, m);
  }

  /** The samples of output k up to the last but one, number m */
  lemma BeforeTheLast(fast: int, slow: int, divisor: int, w: RealWindow, xs: seq<int16>, k: nat, p: nat, m: nat)
    returns (o: Outcome<RealWindow, int16>)
    requires divisor > 0 && 0 < slow <= fast && 0 <= w.index < fast && m < |xs|
    requires Begins(w.index, fast, slow, k, p) && Begins(w.index, fast, slow, k + 1, m + 1)
    ensures o == Run(LowPassRealStep(fast, slow, divisor), w, xs[..m]) && p <= m && |o.output| == k
    ensures o.state.index + slow >= fast && o.state.sum == Share(w, k, xs[p..m])
  {
    o := Run(LowPassRealStep(fast, slow, divisor), w, xs[..m]);
    LowPassRealBalance(fast, slow, divisor, w, xs[..m]);
    CompleteBefore(w.index, fast, slow, k, p, m + 1, |o.output|, o.state.index);
    var p' := SumsUpTo(fast, slow, divisor, w, xs, m);
    BeginsOnce(w.index, fast, slow, k, p, p');
  }

  lemma ShareNext(w: RealWindow, k: nat, xs: seq<int16>, p: nat, m: nat)
    requires p <= m < |xs|
    ensures Share(w, k, xs[p..m + 1]) == Share(w, k, xs[p..m]) + xs[m]
  {
    SumNext(xs, p, m);
  }

  /** The last sample before output k + 1 begins completes output k. */
  lemma OutputComplete(fast: int, slow: int, divisor: int, w: RealWindow, xs: seq<int16>, k: nat, p: nat, m: nat,
                       total: int)
    requires divisor > 0 && 0 < slow <= fast && 0 <= w.index < fast && p <= m < |xs|
    requires Begins(w.index, fast, slow, k, p) && Begins(w.index, fast, slow, k + 1, m + 1)
    requires total == Share(w, k, xs[p..m]) + xs[m]
    ensures var out := Run(LowPassRealStep(fast, slow, divisor), w, xs[..m + 1]).output;
            |out| == k + 1 && out[k] == Quotient16(total, divisor)
  {
    var o := BeforeTheLast(fast, slow, divisor, w, xs, k, p, m);
    CompletesWith(fast, slow, divisor, w, xs, m, o);
  }

  /** low_pass_real() adds up, for output k, the samples from where it begins to where
      the next one begins, divides by divisor and cuts to 16 bits. */
  lemma LowPassRealSums(fast: int, slow: int, divisor: int, w: RealWindow, xs: seq<int16>, k: nat, p: nat, q: nat)
    requires divisor > 0 && 0 < slow <= fast && 0 <= w.index < fast && q <= |xs|
    requires Begins(w.index, fast, slow, k, p) && Begins(w.index, fast, slow, k + 1, q)
    ensures var o := Run(LowPassRealStep(fast, slow, divisor), w, xs);
            p < q && k < |o.output| && o.output[k] == Quotient16(Share(w, k, xs[p..q]), divisor)
  {
    BeginsLater(w.index, fast, slow, k, p, q);
    ShareNext(w, k, xs, p, q - 1);
    OutputComplete(fast, slow, divisor, w, xs, k, p, q - 1, Share(w, k, xs[p..q]));
    assert xs == xs[..q] + xs[q..];
    RunAppend(LowPassRealStep(fast, slow, divisor), w, xs[..q], xs[q..]);
  }

  // ----- generic_fir() -----

  /** The weights of nine samples in a row, the oldest first: the same from both ends */
  function Taps(fir: seq<int>): (k: seq<int>)
    requires |fir| >= 6
    ensures |k| == 9
  {
    [fir[1], fir[2], fir[3], fir[4], fir[5], fir[4], fir[3], fir[2], fir[1]]
  }

  /** The sum of k[j] * xs[n + j] */
  function Weighted(k: seq<int>, xs: seq<int16>, n: nat): int
    requires n + |k| <= |xs|
  {
    if k == [] then 0 else k[0] * xs[n] + Weighted(k[1..], xs, n + 1)
  }

  /** Output n is the weighted sum of the nine samples before sample n, divided by
      32768, rounded down and cut to 16 bits; and the last nine are kept. */
  ghost predicate Convolved(k: seq<int>, h: History, xs: seq<int16>, o: Outcome<History, int16>)
    requires |k| == 9
  {
    && |o.output| == |xs| && o.state == (h + xs)[|xs|..]
    && forall n | 0 <= n < |xs| :: OutputIs(k, h + xs, n, o.output[n])
  }

  predicate OutputIs(k: seq<int>, s: seq<int16>, n: nat, y: int16)
    requires n + |k| <= |s|
  {
    y == (Weighted(k, s, n) / 32768 + 32768) % 65536 - 32768
  }

  lemma {:induction false} WeightedWithin(k: seq<int>, xs: seq<int16>, n: nat, ys: seq<int16>, m: nat)
    requires n + |k| <= |xs| && m + |k| <= |ys| && xs[n..n + |k|] == ys[m..m + |k|]
    ensures Weighted(k, xs, n) == Weighted(k, ys, m)
  {
    if k != [] {
      var x, y := xs[n..n + |k|], ys[m..m + |k|];
      assert x[0] == xs[n] && y[0] == ys[m];
      assert xs[n + 1..n + 1 + |k[1..]|] == x[1..] == y[1..] == ys[m + 1..m + 1 + |k[1..]|];
      WeightedWithin(k[1..], xs, n + 1, ys, m + 1);
    }
  }

  lemma WeightedOfNine(k: seq<int>, h: History)
    requires |k| == 9
    ensures Weighted(k, h, 0) == k[0] * h[0] + k[1] * h[1] + k[2] * h[2] + k[3] * h[3] + k[4] * h[4]
                                 + k[5] * h[5] + k[6] * h[6] + k[7] * h[7] + k[8] * h[8]
  {
    assert k[0..] == k;
    assert Weighted(k[9..], h, 9) == 0;
    WeightedThree(k, h, 0);
    WeightedThree(k, h, 3);
    WeightedThree(k, h, 6);
  }

  lemma WeightedThree(k: seq<int>, h: History, n: nat)
    requires |k| == 9 && n + 3 <= 9
    ensures Weighted(k[n..], h, n)
            == k[n] * h[n] + (k[n + 1] * h[n + 1] + (k[n + 2] * h[n + 2] + Weighted(k[n + 3..], h, n + 3)))
  {
    WeightedHead(k, h, n);
    WeightedHead(k, h, n + 1);
    WeightedHead(k, h, n + 2);
  }

  lemma WeightedHead(k: seq<int>, h: History, n: nat)
    requires |k| == 9 && n < 9
    ensures Weighted(k[n..], h, n) == k[n] * h[n] + Weighted(k[n + 1..], h, n + 1)
  {
    assert k[n..][1..] == k[n + 1..];
  }

  /** The folded sum is that of the taps. */
  lemma FirIsWeighted(fir: seq<int>, h: History)
    requires |fir| >= 6
    ensures OutputIs(Taps(fir), h, 0, Fir(h, fir))
  {
    var sum := (h[0] + h[8]) * fir[1] + (h[1] + h[7]) * fir[2] + (h[2] + h[6]) * fir[3] + (h[3] + h[5]) * fir[4]
               + h[4] * fir[5];
    WeightedOfNine(Taps(fir), h);
    FoldedSum(h[0], h[1], h[2], h[3], h[4], h[5], h[6], h[7], h[8], fir[1], fir[2], fir[3], fir[4], fir[5], sum);
    assert Fir(h, fir) == ToInt16(sum / 32768);
  }

  lemma FoldedSum(a: int, b: int, c: int, d: int, e: int, f: int, g: int, h: int, i: int,
                  v: int, w: int, x: int, y: int, z: int, sum: int)
    requires sum == (a + i) * v + (b + h) * w + (c + g) * x + (d + f) * y + e * z
    ensures sum == v * a + w * b + x * c + y * d + z * e + y * f + x * g + w * h + v * i
  {
    Folded(a, i, v);
    Folded(b, h, w);
    Folded(c, g, x);
    Folded(d, f, y);
  }

  lemma Folded(a: int, b: int, w: int)
    ensures (a + b) * w == w * a + w * b
  {
  }

  lemma ConvolvedNext(k: seq<int>, h: History, xs: seq<int16>, x: int16, o: Outcome<History, int16>, y: int16)
    requires |k| == 9 && Convolved(k, h, xs, o) && OutputIs(k, o.state, 0, y)
    ensures Convolved(k, h, xs + [x], FirOutcome(o.output + [y], o.state[1..] + [x]))
  {
    var n, s, s' := |xs|, h + xs, h + (xs + [x]);
    assert s'[..|s|] == s && s'[n..n + 9] == o.state[0..9] && o.state[1..] + [x] == s'[n + 1..];
    WeightedWithin(k, s', n, o.state, 0);
    forall i: nat | i < n ensures OutputIs(k, s', i, o.output[i]) {
      assert s'[i..i + 9] == s[i..i + 9];
      WeightedWithin(k, s', i, s, i);
      assert OutputIs(k, s, i, o.output[i]);
    }
  }

  /** generic_fir() convolves the stream with its taps. */
  lemma {:induction false} FirIsConvolution(fir: seq<int>, h: History, xs: seq<int16>)
    requires |fir| >= 6
    ensures Convolved(Taps(fir), h, xs, Run<History, int16, int16>(FirStep(fir), h, xs))
    decreases |xs|
  {
    if xs != [] {
      var ys, x := xs[..|xs| - 1], xs[|xs| - 1];
      var o := Run<History, int16, int16>(FirStep(fir), h, ys);
      FirIsConvolution(fir, h, ys);
      FirIsWeighted(fir, o.state);
      ConvolvedNext(Taps(fir), h, ys, x, o, Fir(o.state, fir));
      assert xs == ys + [x];
      RunOneMore(fir, h, ys, x);
    }
  }

  /** The filters against the droop of the first decimator, scaled by 32768: length and
      coefficients, by the number of its stages */
  const CIC_9_TABLES: seq<seq<int>> := [
    [0],
    [9, -156, -97, 2798, -15489, 61019, -15489, 2798, -97, -156],
    [9, -128, -568, 5593, -24125, 74126, -24125, 5593, -568, -128],
    [9, -129, -639, 6187, -26281, 77511, -26281, 6187, -639, -129],
    [9, -122, -612, 6082, -26353, 77818, -26353, 6082, -612, -122],
    [9, -120, -602, 6015, -26269, 77757, -26269, 6015, -602, -120],
    [9, -120, -582, 5951, -26128, 77542, -26128, 5951, -582, -120],
    [9, -119, -580, 5931, -26094, 77505, -26094, 5931, -580, -119],
    [9, -119, -578, 5921, -26077, 77484, -26077, 5921, -578, -119],
    [9, -119, -577, 5917, -26067, 77473, -26067, 5917, -577, -119],
    [9, -199, -362, 5303, -25505, 77489, -25505, 5303, -362, -199]]

  /** Only one half of a row is read.  As the other half mirrors it in all of them, the
      stream is convolved with the row as it stands. */
  lemma RowsAreTaps(stages: nat)
    requires 1 <= stages <= 10
    ensures var row := CIC_9_TABLES[stages]; |row| == 10 && row[0] == 9 && Taps(row) == row[1..]
  {
  }

  lemma RunOneMore(fir: seq<int>, h: History, ys: seq<int16>, x: int16)
    requires |fir| >= 6
    ensures var o := Run<History, int16, int16>(FirStep(fir), h, ys);
            Run<History, int16, int16>(FirStep(fir), h, ys + [x])
            == FirOutcome(o.output + [Fir(o.state, fir)], o.state[1..] + [x])
  {
    var xs := ys + [x];
    assert xs[..|ys|] == ys && xs[..|ys| + 1] == xs;
    RunStep<History, int16, int16>(FirStep(fir), h, xs, |ys|);
  }

  // ----- the filters in place -----

  /** Interleaved samples */
  function Pairs(s: seq<int16>): (p: seq<Sample>)
    ensures |p| == |s| / 2
  {
    seq(|s| / 2, i requires 0 <= i < |s| / 2 => (s[2 * i], s[2 * i + 1]))
  }

  /** Where low_pass() stands after n complex samples. */
  ghost predicate LowPassReached(d: int, s: Window, xs: seq<Sample>, n: nat, out: seq<Sample>, w: Window) {
    n <= |xs| && Run(LowPassStep(d), s, xs[..n]) == Outcome(out, w)
  }

  /** One more complex sample goes through low_pass(). */
  lemma LowPassNext(d: int, s: Window, xs: seq<Sample>, n: nat, out: seq<Sample>, w: Window)
    requires n < |xs| && LowPassReached(d, s, xs, n, out, w)
    ensures if w.index + 1 < d then LowPassReached(d, s, xs, n + 1, out, AddedTo(w, xs[n]))
            else LowPassReached(d, s, xs, n + 1, out + [Cut(AddedTo(w, xs[n]))], EMPTY)
  {
    RunStep(LowPassStep(d), s, xs, n);
    assert out + [] == out;
  }

  function AddedTo(w: Window, x: Sample): Window { Window(w.r + x.0, w.j + x.1, w.index + 1) }

  function Cut(w: Window): Sample { (ToInt16(w.r), ToInt16(w.j)) }

  /** One more sample goes through low_pass_real(). */
  lemma LowPassRealNext(fast: int, slow: int, divisor: int, s: RealWindow, xs: seq<int16>, n: nat,
                        out: seq<int16>, w: RealWindow)
    requires n < |xs| && divisor > 0 && LowPassRealReached(fast, slow, divisor, s, xs, n, out, w)
    ensures var sum, index, y := w.sum + xs[n], w.index + slow, ToInt16(TruncatedDiv(w.sum + xs[n], divisor));
            if index < fast then LowPassRealReached(fast, slow, divisor, s, xs, n + 1, out, RealWindow(sum, index))
            else LowPassRealReached(fast, slow, divisor, s, xs, n + 1, out + [y], RealWindow(0, index - fast))
  {
    RunStep(LowPassRealStep(fast, slow, divisor), s, xs, n);
    assert out + [] == out;
  }

  /** What low_pass_real() has reached with the first n samples */
  ghost predicate LowPassRealReached(fast: int, slow: int, divisor: int, s: RealWindow, xs: seq<int16>, n: nat,
                                     out: seq<int16>, w: RealWindow)
    requires divisor > 0
  {
    n <= |xs| && Run(LowPassRealStep(fast, slow, divisor), s, xs[..n]) == Outcome(out, w)
  }

  /** What generic_fir() has reached with the first n samples */
  ghost predicate FirReached(fir: seq<int>, s: History, xs: seq<int16>, n: nat, out: seq<int16>, h: History)
    requires |fir| >= 6
  {
    n <= |xs| && Run<History, int16, int16>(FirStep(fir), s, xs[..n]) == FirOutcome(out, h)
  }

  /** One more sample goes through generic_fir(). */
  lemma FirNext(fir: seq<int>, s: History, xs: seq<int16>, n: nat, out: seq<int16>, h: History)
    requires |fir| >= 6 && n < |xs| && FirReached(fir, s, xs, n, out, h)
    ensures FirReached(fir, s, xs, n + 1, out + [Fir(h, fir)], h[1..] + [xs[n]])
  {
    RunStep<History, int16, int16>(FirStep(fir), s, xs, n);
  }

  class DemodState {
    const lowpassed: array<int16>
    var lpLen: nat
    const result: array<int16>
    var resultLen: nat
    var nowR: int
    var nowJ: int
    var prevIndex: int
    const downsample: int
    var nowLpr: int
    var prevLprIndex: int
    const rateOut: int
    const rateOut2: int

    constructor (length: nat, downsample: int, rateOut: int, rateOut2: int)
      ensures fresh(lowpassed) && fresh(result) && lowpassed.Length == result.Length == length
      ensures this.downsample == downsample && this.rateOut == rateOut && this.rateOut2 == rateOut2
      ensures lpLen == resultLen == 0 && LowPassState() == EMPTY && LowPassRealState() == RealWindow(0, 0)
    {
      lowpassed, result := new int16[length], new int16[length];
      this.downsample, this.rateOut, this.rateOut2 := downsample, rateOut, rateOut2;
      lpLen, resultLen, nowR, nowJ, prevIndex, nowLpr, prevLprIndex := 0, 0, 0, 0, 0, 0, 0;
    }

    function LowPassState(): Window
      reads this
    {
      Window(nowR, nowJ, prevIndex)
    }

    function LowPassRealState(): RealWindow
      reads this
    {
      RealWindow(nowLpr, prevLprIndex)
    }

    /** One turn of the loop of low_pass(): did it put out a sample? */
    method LowPassTurn(i: nat, i2: nat, ghost s: Window, ghost before: seq<int16>, ghost n: nat, ghost out: seq<Sample>)
      returns (stored: bool, ghost out': seq<Sample>)
      requires i == 2 * n && i2 == 2 * |out| <= i && i + 2 <= |before| <= lowpassed.Length
      requires LowPassReached(downsample, s, Pairs(before), n, out, LowPassState())
      requires HoldsPairs(lowpassed[..], out) && Unread(lowpassed[..], before, i)
      modifies `nowR, `nowJ, `prevIndex, lowpassed
      ensures LowPassReached(downsample, s, Pairs(before), n + 1, out', LowPassState())
      ensures HoldsPairs(lowpassed[..], out') && Unread(lowpassed[..], before, i + 2)
      ensures |out'| == |out| + if stored then 1 else 0
    {
      LowPassNext(downsample, s, Pairs(before), n, out, LowPassState());
      NextPairUnread(lowpassed[..], before, n);
      AddSample(i);
      if prevIndex < downsample {
        return false, out;
      }
      out' := out + [Cut(LowPassState())];
      StorePair(lowpassed[..], out, Cut(LowPassState()), before, i + 2);
      StoreSample(i2);
      stored := true;
    }

    /** low_pass() */
    method LowPass()
      requires lpLen <= lowpassed.Length && lpLen % 2 == 0
      modifies `lpLen, `nowR, `nowJ, `prevIndex, lowpassed
      ensures lpLen <= old(lpLen) && lpLen % 2 == 0
      ensures Outcome(Pairs(lowpassed[..lpLen]), LowPassState())
              == Run(LowPassStep(downsample), old(LowPassState()), Pairs(old(lowpassed[..lpLen])))
    {
      ghost var s, before := LowPassState(), lowpassed[..lpLen];
      ghost var n, out: seq<Sample> := 0, [];
      var i, i2 := 0, 0;
      while i < lpLen
        invariant i == 2 * n <= lpLen == |before| && i2 == 2 * |out| <= i
        invariant LowPassReached(downsample, s, Pairs(before), n, out, LowPassState())
        invariant HoldsPairs(lowpassed[..], out) && Unread(lowpassed[..], before, i)
        decreases lpLen - i
      {
        var stored;
        stored, out := LowPassTurn(i, i2, s, before, n, out);
        i := i + 2;
        n := n + 1;
        if stored {
          i2 := i2 + 2;
        }
      }
      assert Pairs(before)[..n] == Pairs(before);
      lpLen := i2;
      PairsHeld(lowpassed[..], out);
      assert lowpassed[..lpLen] == lowpassed[..][..lpLen];
    }

    /** A complex sample joins the window. */
    method AddSample(i: nat)
      requires i + 2 <= lowpassed.Length
      modifies `nowR, `nowJ, `prevIndex
      ensures LowPassState() == AddedTo(old(LowPassState()), (lowpassed[i], lowpassed[i + 1]))
    {
      nowR := nowR + lowpassed[i];
      nowJ := nowJ + lowpassed[i + 1];
      prevIndex := prevIndex + 1;
    }

    /** The sum is put out, and the next window begins. */
    method StoreSample(i2: nat)
      requires i2 + 2 <= lowpassed.Length
      modifies `nowR, `nowJ, `prevIndex, lowpassed
      ensures lowpassed[..] == var x := Cut(old(LowPassState())); old(lowpassed[..])[i2 := x.0][i2 + 1 := x.1]
      ensures LowPassState() == EMPTY
    {
      lowpassed[i2] := ToInt16(nowR);
      lowpassed[i2 + 1] := ToInt16(nowJ);
      prevIndex := 0;
      nowR := 0;
      nowJ := 0;
    }

    /** One turn of the loop of low_pass_real(): did it put out a sample? */
    method LowPassRealTurn(i: nat, i2: nat, fast: int, slow: int, divisor: int,
                           ghost s: RealWindow, ghost xs: seq<int16>, ghost out: seq<int16>)
      returns (stored: bool, ghost out': seq<int16>)
      requires divisor > 0 && i2 == |out| <= i < |xs| <= result.Length
      requires LowPassRealReached(fast, slow, divisor, s, xs, i, out, LowPassRealState())
      requires HoldsReals(result[..], out, xs, i)
      modifies `nowLpr, `prevLprIndex, result
      ensures LowPassRealReached(fast, slow, divisor, s, xs, i + 1, out', LowPassRealState())
      ensures HoldsReals(result[..], out', xs, i + 1)
      ensures |out'| == |out| + if stored then 1 else 0
    {
      LowPassRealNext(fast, slow, divisor, s, xs, i, out, LowPassRealState());
      nowLpr := nowLpr + result[i];
      prevLprIndex := prevLprIndex + slow;
      if prevLprIndex < fast {
        return false, out;
      }
      var y := ToInt16(TruncatedDiv(nowLpr, divisor));
      StoreReal(result[..], out, xs, i, y);
      result[i2] := y;
      out' := out + [y];
      prevLprIndex := prevLprIndex - fast;
      nowLpr := 0;
      stored := true;
    }

    /** low_pass_real() */
    method LowPassReal()
      requires resultLen <= result.Length && 0 < rateOut2 <= rateOut
      modifies `resultLen, `nowLpr, `prevLprIndex, result
      ensures resultLen <= old(resultLen)
      ensures Outcome(result[..resultLen], LowPassRealState())
              == Run(LowPassRealStep(rateOut, rateOut2, Divided(rateOut, rateOut2)), old(LowPassRealState()),
                     old(result[..resultLen]))
    {
      var fast, slow := rateOut, rateOut2;
      var divisor := Divided(fast, slow);
      ghost var s, xs, out: seq<int16> := LowPassRealState(), result[..resultLen], [];
      var i, i2 := 0, 0;
      while i < resultLen
        invariant 0 <= i2 == |out| <= i <= resultLen == old(resultLen)
        invariant LowPassRealReached(fast, slow, divisor, s, xs, i, out, LowPassRealState())
        invariant HoldsReals(result[..], out, xs, i)
      {
        var stored;
        stored, out := LowPassRealTurn(i, i2, fast, slow, divisor, s, xs, out);
        i := i + 1;
        if stored {
          i2 := i2 + 1;
        }
      }
      assert xs[..i] == xs;
      resultLen := i2;
      assert result[..resultLen] == out;
    }
  }

  /** fast / slow, at least 1 */
  function Divided(fast: int, slow: int): (d: int)
    requires 0 < slow <= fast
    ensures d >= 1 && 0 <= fast - d * slow < slow
  {
    fast / slow
  }

  ghost predicate HoldsPairs(s: seq<int16>, out: seq<Sample>) {
    2 * |out| <= |s| && forall k: nat | k < |out| :: out[k] == (s[2 * k], s[2 * k + 1])
  }

  /** From position i on, s still holds the samples that came in. */
  ghost predicate Unread(s: seq<int16>, before: seq<int16>, i: nat) {
    |before| <= |s| && forall k | i <= k < |before| :: s[k] == before[k]
  }

  lemma StorePair(s: seq<int16>, out: seq<Sample>, x: Sample, before: seq<int16>, i: nat)
    requires HoldsPairs(s, out) && Unread(s, before, i) && 2 * |out| + 2 <= i <= |s|
    ensures HoldsPairs(s[2 * |out| := x.0][2 * |out| + 1 := x.1], out + [x])
    ensures Unread(s[2 * |out| := x.0][2 * |out| + 1 := x.1], before, i)
  {
  }

  lemma NextPairUnread(s: seq<int16>, before: seq<int16>, n: nat)
    requires Unread(s, before, 2 * n) && 2 * n + 1 < |before|
    ensures Pairs(before)[n] == (s[2 * n], s[2 * n + 1]) && Unread(s, before, 2 * n + 2)
  {
  }

  /** s begins with the output and still holds the samples from position i on. */
  ghost predicate HoldsReals(s: seq<int16>, out: seq<int16>, before: seq<int16>, i: nat) {
    |out| <= i && out <= s && Unread(s, before, i)
  }

  lemma StoreReal(s: seq<int16>, out: seq<int16>, before: seq<int16>, i: nat, y: int16)
    requires HoldsReals(s, out, before, i) && i < |s|
    ensures HoldsReals(s[|out| := y], out + [y], before, i + 1)
  {
  }

  lemma PairsHeld(s: seq<int16>, out: seq<Sample>)
    requires HoldsPairs(s, out)
    ensures Pairs(s[..2 * |out|]) == out
  {
  }

  /** Every other element, from the first on */
  function Evens(s: seq<int16>): (e: seq<int16>)
    ensures |e| == (|s| + 1) / 2
  {
    seq((|s| + 1) / 2, i requires 0 <= i < (|s| + 1) / 2 => s[2 * i])
  }

  /** Is k one of the positions that generic_fir() works on? */
  predicate Treated(k: int, from: nat, length: nat) { from <= k < from + length && (k - from) % 2 == 0 }

  lemma NineEqual(s: seq<int16>, t: seq<int16>)
    requires |s| == 9 == |t|
    requires s[0] == t[0] && s[1] == t[1] && s[2] == t[2] && s[3] == t[3] && s[4] == t[4]
    requires s[5] == t[5] && s[6] == t[6] && s[7] == t[7] && s[8] == t[8]
    ensures s == t
  {
  }

  /** One turn of the loop of generic_fir() */
  method FirAt(data: array<int16>, at: nat, fir: seq<int>, hist: array<int16>)
    requires at < data.Length && |fir| >= 6 && hist.Length == 9 && hist != data
    modifies data, hist
    ensures data[..] == old(data[..])[at := Fir(old(hist[..]), fir)]
    ensures hist[..] == old(hist[..])[1..] + [old(data[at])]
  {
    var temp := data[at];
    data[at] := Fir(hist[..], fir);
    hist[0] := hist[1];
    hist[1] := hist[2];
    hist[2] := hist[3];
    hist[3] := hist[4];
    hist[4] := hist[5];
    hist[5] := hist[6];
    hist[6] := hist[7];
    hist[7] := hist[8];
    hist[8] := temp;
    NineEqual(hist[..], old(hist[..])[1..] + [temp]);
  }

  /** s is before with out in every other place from position from on. */
  ghost predicate Written(s: seq<int16>, before: seq<int16>, from: nat, out: seq<int16>) {
    |s| == |before| && forall k | 0 <= k < |s| ::
      s[k] == if Treated(k, from, 2 * |out|) then out[(k - from) / 2] else before[k]
  }

  lemma WriteNext(s: seq<int16>, before: seq<int16>, from: nat, out: seq<int16>, y: int16)
    requires Written(s, before, from, out) && from + 2 * |out| < |s|
    ensures Written(s[from + 2 * |out| := y], before, from, out + [y])
    ensures s[from + 2 * |out|] == before[from + 2 * |out|]
  {
  }

  lemma WrittenEvens(s: seq<int16>, before: seq<int16>, from: nat, length: nat, out: seq<int16>)
    requires Written(s, before, from, out) && from + length <= |s| && |out| == (length + 1) / 2
    ensures Evens(s[from..from + length]) == out
    ensures forall k | 0 <= k < |s| && !Treated(k, from, length) :: s[k] == before[k]
  {
    var e := Evens(s[from..from + length]);
    forall i | 0 <= i < |e| ensures e[i] == out[i] {
      assert Treated(from + 2 * i, from, 2 * |out|);
    }
  }

  /** It writes the next element. */
  method FirTurn(data: array<int16>, at: nat, fir: seq<int>, hist: array<int16>, ghost h: History,
                 ghost xs: seq<int16>, ghost before: seq<int16>, ghost from: nat, ghost out: seq<int16>)
    returns (ghost out': seq<int16>)
    requires at == from + 2 * |out| < data.Length && |fir| >= 6 && hist.Length == 9 && hist != data
    requires |before| == data.Length && Written(data[..], before, from, out)
    requires |out| < |xs| && xs[|out|] == before[at] && FirReached(fir, h, xs, |out|, out, hist[..])
    modifies data, hist
    ensures |out'| == |out| + 1 && Written(data[..], before, from, out')
    ensures FirReached(fir, h, xs, |out'|, out', hist[..])
  {
    FirNext(fir, h, xs, |out|, out, hist[..]);
    out' := out + [Fir(hist[..], fir)];
    WriteNext(data[..], before, from, out, Fir(hist[..], fir));
    FirAt(data, at, fir, hist);
  }

  /** generic_fir(), on the elements of data that begin at position from; hist holds
      the last nine samples. */
  method GenericFir(data: array<int16>, from: nat, length: nat, fir: seq<int>, hist: array<int16>)
    requires from + length <= data.Length && |fir| >= 6 && hist.Length == 9 && hist != data
    modifies data, hist
    ensures hist.Length == 9 && FirOutcome(Evens(data[..][from..from + length]), hist[..])
            == Run<History, int16, int16>(FirStep(fir), old(hist[..]), Evens(old(data[..])[from..from + length]))
    ensures forall k | 0 <= k < data.Length && !Treated(k, from, length) :: data[k] == old(data[k])
  {
    ghost var h: History, before := hist[..], data[..];
    ghost var xs, out: seq<int16> := Evens(before[from..from + length]), [];
    var d := 0;
    while d < length
      invariant 0 <= d == 2 * |out| <= length + 1
      invariant FirReached(fir, h, xs, |out|, out, hist[..]) && Written(data[..], before, from, out)
    {
      assert xs[|out|] == before[from + d];
      out := FirTurn(data, from + d, fir, hist, h, xs, before, from, out);
      d := d + 2;
    }
    assert xs[..|out|] == xs;
    WrittenEvens(data[..], before, from, length, out);
  }

  // ----- cutting the interleaved stream into blocks -----

  ghost predicate EvenBlocks(blocks: seq<seq<int16>>) {
    forall k | 0 <= k < |blocks| :: |blocks[k]| % 2 == 0
  }

  /** Every other element from c on: what generic_fir() works on when it is called
      for the first and for the second of two interleaved channels */
  function Channel(s: seq<int16>, c: nat): (e: seq<int16>)
    requires c < 2
    ensures |e| == |s| / 2
  {
    seq(|s| / 2, i requires 0 <= i < |s| / 2 => s[2 * i + c])
  }

  lemma ChannelIsEvens(s: seq<int16>)
    requires |s| % 2 == 0 && s != []
    ensures Channel(s, 0) == Evens(s[0..]) && Channel(s, 1) == Evens(s[1..])
  {
  }

  lemma AppendToEven(a: seq<int16>, b: seq<int16>, c: nat)
    requires |a| % 2 == 0 && c < 2
    ensures Pairs(a + b) == Pairs(a) + Pairs(b) && Channel(a + b, c) == Channel(a, c) + Channel(b, c)
  {
  }

  // ----- the methods, block by block or at once -----

  lemma {:induction false} FlattenAppend<X>(a: seq<seq<X>>, b: seq<seq<X>>)
    ensures Flatten(a + b) == Flatten(a) + Flatten(b)
  {
    if a == [] {
      assert a + b == b;
    } else {
      assert (a + b)[1..] == a[1..] + b;
      FlattenAppend(a[1..], b);
    }
  }

  lemma OneBlockMore<X>(blocks: seq<seq<X>>, k: nat)
    requires k < |blocks|
    ensures Flatten(blocks[..k + 1]) == Flatten(blocks[..k]) + blocks[k]
    ensures Flatten(blocks[..0]) == [] && Flatten(blocks[..|blocks|]) == Flatten(blocks)
  {
    assert blocks[..k + 1] == blocks[..k] + [blocks[k]] && blocks[..|blocks|] == blocks;
    FlattenAppend(blocks[..k], [blocks[k]]);
    assert Flatten([blocks[k]]) == blocks[k] + Flatten([]);
  }

  lemma {:induction false} FlattenEven(blocks: seq<seq<int16>>)
    requires EvenBlocks(blocks)
    ensures |Flatten(blocks)| % 2 == 0
  {
    if blocks != [] {
      FlattenEven(blocks[1..]);
    }
  }

  /** Where a filter stands after the blocks up to k: out and w are the output and
      the state of one run over all of them. */
  ghost predicate RanOver<S, X, Y>(step: (S, X) -> (S, seq<Y>), s: S, xs: seq<X>, out: seq<Y>, w: S) {
    Run(step, s, xs) == Outcome(out, w)
  }

  lemma RanFurther<S, X, Y>(step: (S, X) -> (S, seq<Y>), s: S, xs: seq<X>, out: seq<Y>, w: S,
                            more: seq<X>, out': seq<Y>, w': S)
    requires RanOver(step, s, xs, out, w) && RanOver(step, w, more, out', w')
    ensures RanOver(step, s, xs + more, out + out', w')
  {
    RunAppend(step, s, xs, more);
  }

  lemma SamplesDetermine(s: seq<int16>, t: seq<int16>)
    requires |s| % 2 == 0 == |t| % 2
    requires Pairs(s) == Pairs(t) || (Channel(s, 0) == Channel(t, 0) && Channel(s, 1) == Channel(t, 1))
    ensures s == t
  {
    forall i | 0 <= i < |s| ensures |s| == |t| && s[i] == t[i] {
      assert i == 2 * (i / 2) + i % 2;
      assert Pairs(s) == Pairs(t) ==> Pairs(s)[i / 2] == Pairs(t)[i / 2];
      assert Channel(s, 0) == Channel(t, 0) ==> Channel(s, 0)[i / 2] == Channel(t, 0)[i / 2];
      assert Channel(s, 1) == Channel(t, 1) ==> Channel(s, 1)[i / 2] == Channel(t, 1)[i / 2];
    }
    assert |Pairs(s)| == |Channel(s, 0)| && |Pairs(t)| == |Channel(t, 0)|;
  }

  method Copy(block: seq<int16>, to': array<int16>)
    requires |block| <= to'.Length
    modifies to'
    ensures to'[..|block|] == block
  {
    forall i | 0 <= i < |block| {
      to'[i] := block[i];
    }
  }

  /** low_pass() on one block after the other, and what it puts out in all */
  method LowPassBlocks(d: DemodState, blocks: seq<seq<int16>>) returns (out: seq<int16>)
    requires EvenBlocks(blocks) && forall k | 0 <= k < |blocks| :: |blocks[k]| <= d.lowpassed.Length
    modifies d`lpLen, d`nowR, d`nowJ, d`prevIndex, d.lowpassed
    ensures |out| % 2 == 0
    ensures RanOver(LowPassStep(d.downsample), old(d.LowPassState()), Pairs(Flatten(blocks)), Pairs(out),
                    d.LowPassState())
  {
    ghost var s, stream: seq<int16> := d.LowPassState(), [];
    out := [];
    var k := 0;
    assert blocks[..0] == [] && Pairs([]) == [];
    while k < |blocks|
      invariant k <= |blocks| && stream == Flatten(blocks[..k]) && |stream| % 2 == 0 && |out| % 2 == 0
      invariant RanOver(LowPassStep(d.downsample), s, Pairs(stream), Pairs(out), d.LowPassState())
    {
      ghost var w := d.LowPassState();
      OneBlockMore(blocks, k);
      var more := LowPassBlock(d, blocks[k]);
      LowPassOneMore(d.downsample, s, stream, out, w, blocks[k], more, d.LowPassState());
      out, stream := out + more, stream + blocks[k];
      k := k + 1;
    }
    assert blocks[..k] == blocks;
  }

  method LowPassBlock(d: DemodState, block: seq<int16>) returns (out: seq<int16>)
    requires |block| % 2 == 0 && |block| <= d.lowpassed.Length
    modifies d`lpLen, d`nowR, d`nowJ, d`prevIndex, d.lowpassed
    ensures |out| % 2 == 0
    ensures RanOver(LowPassStep(d.downsample), old(d.LowPassState()), Pairs(block), Pairs(out), d.LowPassState())
  {
    Copy(block, d.lowpassed);
    d.lpLen := |block|;
    d.LowPass();
    out := d.lowpassed[..d.lpLen];
  }

  lemma LowPassOneMore(d: int, s: Window, stream: seq<int16>, out: seq<int16>, w: Window,
                       block: seq<int16>, more: seq<int16>, w': Window)
    requires |stream| % 2 == 0 && |out| % 2 == 0
    requires RanOver(LowPassStep(d), s, Pairs(stream), Pairs(out), w)
    requires RanOver(LowPassStep(d), w, Pairs(block), Pairs(more), w')
    ensures RanOver(LowPassStep(d), s, Pairs(stream + block), Pairs(out + more), w')
  {
    AppendToEven(stream, block, 0);
    AppendToEven(out, more, 0);
    RanFurther(LowPassStep(d), s, Pairs(stream), Pairs(out), w, Pairs(block), Pairs(more), w');
  }

  /** However the stream is cut into blocks of even length, low_pass() on a puts out
      what one call on b does for the whole stream, and leaves the same state. */
  method LowPassInBlocksOrAtOnce(a: DemodState, b: DemodState, blocks: seq<seq<int16>>) returns (out: seq<int16>)
    requires a != b && a.lowpassed != b.lowpassed
    requires a.downsample == b.downsample && a.LowPassState() == b.LowPassState()
    requires EvenBlocks(blocks) && forall k | 0 <= k < |blocks| :: |blocks[k]| <= a.lowpassed.Length
    requires |Flatten(blocks)| <= b.lowpassed.Length
    modifies a, a.lowpassed, b, b.lowpassed
    ensures b.lpLen <= b.lowpassed.Length && out == b.lowpassed[..b.lpLen] && a.LowPassState() == b.LowPassState()
  {
    FlattenEven(blocks);
    out := LowPassBlocks(a, blocks);
    Copy(Flatten(blocks), b.lowpassed);
    b.lpLen := |Flatten(blocks)|;
    b.LowPass();
    SamplesDetermine(out, b.lowpassed[..b.lpLen]);
  }

  /** low_pass_real() on one block after the other */
  method LowPassRealBlocks(d: DemodState, blocks: seq<seq<int16>>) returns (out: seq<int16>)
    requires 0 < d.rateOut2 <= d.rateOut && forall k | 0 <= k < |blocks| :: |blocks[k]| <= d.result.Length
    modifies d`resultLen, d`nowLpr, d`prevLprIndex, d.result
    ensures RanOver(LowPassRealStep(d.rateOut, d.rateOut2, Divided(d.rateOut, d.rateOut2)), old(d.LowPassRealState()),
                    Flatten(blocks), out, d.LowPassRealState())
  {
    ghost var s, step := d.LowPassRealState(), LowPassRealStep(d.rateOut, d.rateOut2, Divided(d.rateOut, d.rateOut2));
    out := [];
    var k := 0;
    assert blocks[..0] == [];
    while k < |blocks|
      invariant k <= |blocks| && RanOver(step, s, Flatten(blocks[..k]), out, d.LowPassRealState())
    {
      ghost var w, before := d.LowPassRealState(), out;
      Copy(blocks[k], d.result);
      d.resultLen := |blocks[k]|;
      d.LowPassReal();
      out := out + d.result[..d.resultLen];
      OneBlockMore(blocks, k);
      RanFurther(step, s, Flatten(blocks[..k]), before, w, blocks[k], d.result[..d.resultLen], d.LowPassRealState());
      k := k + 1;
    }
    assert blocks[..k] == blocks;
  }

  /** However the stream is cut, low_pass_real() on a puts out what one call on b
      does for the whole stream, as many samples as fit, and leaves the same state. */
  method LowPassRealInBlocksOrAtOnce(a: DemodState, b: DemodState, blocks: seq<seq<int16>>) returns (out: seq<int16>)
    requires a != b && a.result != b.result
    requires a.rateOut == b.rateOut && a.rateOut2 == b.rateOut2 && a.LowPassRealState() == b.LowPassRealState()
    requires 0 < a.rateOut2 <= a.rateOut && 0 <= a.prevLprIndex < a.rateOut
    requires forall k | 0 <= k < |blocks| :: |blocks[k]| <= a.result.Length
    requires |Flatten(blocks)| <= b.result.Length
    modifies a, a.result, b, b.result
    ensures b.resultLen <= b.result.Length && out == b.result[..b.resultLen]
    ensures a.LowPassRealState() == b.LowPassRealState()
    ensures |out| == (old(a.prevLprIndex) + |Flatten(blocks)| * a.rateOut2) / a.rateOut
  {
    LowPassRealCount(a.rateOut, a.rateOut2, Divided(a.rateOut, a.rateOut2), a.LowPassRealState(), Flatten(blocks));
    out := LowPassRealBlocks(a, blocks);
    Copy(Flatten(blocks), b.result);
    b.resultLen := |Flatten(blocks)|;
    b.LowPassReal();
  }

  /** One run of the droop filter over one channel */
  ghost predicate FirRan(fir: seq<int>, h: History, xs: seq<int16>, out: seq<int16>, h': History)
    requires |fir| >= 6
  {
    RanOver<History, int16, int16>(FirStep(fir), h, xs, out, h')
  }

  lemma ChannelOfArray(s: seq<int16>, length: nat, c: nat)
    requires length <= |s| && length % 2 == 0 < length && c < 2
    ensures Channel(s[..length], c) == Evens(s[c..c + (length - c)])
  {
    ChannelIsEvens(s[..length]);
    assert s[..length][c..] == s[c..length];
  }

  method DroopChannel(data: array<int16>, length: nat, fir: seq<int>, hist: array<int16>, c: nat)
    requires length <= data.Length && length % 2 == 0 < length && |fir| >= 6 && c < 2
    requires hist.Length == 9 && data != hist
    modifies data, hist
    ensures FirRan(fir, old(hist[..]), Channel(old(data[..length]), c), Channel(data[..length], c), hist[..])
    ensures Channel(data[..length], 1 - c) == Channel(old(data[..length]), 1 - c)
  {
    ghost var before := data[..];
    ChannelOfArray(before, length, c);
    GenericFir(data, c, length - c, fir, hist);
    ChannelOfArray(data[..], length, c);
    assert data[..][..length] == data[..length] && before[..length] == old(data[..length]);
    OtherChannel(before[..length], data[..length], c);
  }

  /** The two calls of generic_fir() in full_demod(), one for each channel */
  method Droop(data: array<int16>, length: nat, fir: seq<int>, histI: array<int16>, histQ: array<int16>)
    requires length <= data.Length && length % 2 == 0 && |fir| >= 6
    requires histI.Length == 9 == histQ.Length && data !in {histI, histQ} && histI != histQ
    modifies data, histI, histQ
    ensures FirRan(fir, old(histI[..]), Channel(old(data[..length]), 0), Channel(data[..length], 0), histI[..])
    ensures FirRan(fir, old(histQ[..]), Channel(old(data[..length]), 1), Channel(data[..length], 1), histQ[..])
  {
    if length == 0 {
      return;
    }
    DroopChannel(data, length, fir, histI, 0);
    DroopChannel(data, length, fir, histQ, 1);
  }

  /** The filter on one channel leaves the other alone. */
  lemma OtherChannel(s: seq<int16>, t: seq<int16>, c: nat)
    requires |s| == |t| && |s| % 2 == 0 < |s| && c < 2
    requires forall k | 0 <= k < |s| && !Treated(k, c, |s| - c) :: t[k] == s[k]
    ensures Channel(t, 1 - c) == Channel(s, 1 - c)
  {
    forall i | 0 <= i < |s| / 2 ensures t[2 * i + (1 - c)] == s[2 * i + (1 - c)] {
      assert !Treated(2 * i + (1 - c), c, |s| - c);
    }
  }

  method DroopBlock(block: seq<int16>, fir: seq<int>, histI: array<int16>, histQ: array<int16>)
    returns (out: seq<int16>)
    requires |block| % 2 == 0 && |fir| >= 6 && histI.Length == 9 == histQ.Length && histI != histQ
    modifies histI, histQ
    ensures |out| == |block|
    ensures FirRan(fir, old(histI[..]), Channel(block, 0), Channel(out, 0), histI[..])
    ensures FirRan(fir, old(histQ[..]), Channel(block, 1), Channel(out, 1), histQ[..])
  {
    var data := new int16[|block|];
    Copy(block, data);
    Droop(data, |block|, fir, histI, histQ);
    out := data[..|block|];
  }

  /** FirRan() as a value, whose definition proofs do not unfold */
  type FirRuns = (History, seq<int16>, seq<int16>, History) -> bool

  ghost predicate IsFirRan(ran: FirRuns, fir: seq<int>)
    requires |fir| >= 6
  {
    forall h: History, xs: seq<int16>, out: seq<int16>, h': History {:trigger FirRan(fir, h, xs, out, h')} ::
      ran(h, xs, out, h') == FirRan(fir, h, xs, out, h')
  }

  /** The filter has run over channel c of the stream so far. */
  ghost predicate DroopedTo(ran: FirRuns, h: History, stream: seq<int16>, c: nat, out: seq<int16>, h': History)
    requires c < 2
  {
    ran(h, Channel(stream, c), Channel(out, c), h')
  }

  /** One more block */
  method DroopNext(block: seq<int16>, fir: seq<int>, histI: array<int16>, histQ: array<int16>,
                   ghost ran: FirRuns, ghost hI: History, ghost hQ: History,
                   ghost stream: seq<int16>, ghost out: seq<int16>)
    returns (more: seq<int16>)
    requires |block| % 2 == 0 && |stream| % 2 == 0 && |out| % 2 == 0
    requires |fir| >= 6 && IsFirRan(ran, fir) && histI.Length == 9 == histQ.Length && histI != histQ
    requires DroopedTo(ran, hI, stream, 0, out, histI[..]) && DroopedTo(ran, hQ, stream, 1, out, histQ[..])
    modifies histI, histQ
    ensures |more| == |block|
    ensures DroopedTo(ran, hI, stream + block, 0, out + more, histI[..])
    ensures DroopedTo(ran, hQ, stream + block, 1, out + more, histQ[..])
  {
    ghost var wI: History, wQ: History := histI[..], histQ[..];
    more := DroopBlock(block, fir, histI, histQ);
    DroopOneMore(fir, ran, hI, stream, 0, out, wI, block, more, histI[..]);
    DroopOneMore(fir, ran, hQ, stream, 1, out, wQ, block, more, histQ[..]);
  }

  lemma DroopOneMore(fir: seq<int>, ran: FirRuns, h: History, stream: seq<int16>, c: nat, out: seq<int16>, w: History,
                     block: seq<int16>, more: seq<int16>, w': History)
    requires |fir| >= 6 && IsFirRan(ran, fir) && |stream| % 2 == 0 && |out| % 2 == 0 && c < 2
    requires DroopedTo(ran, h, stream, c, out, w) && FirRan(fir, w, Channel(block, c), Channel(more, c), w')
    ensures DroopedTo(ran, h, stream + block, c, out + more, w')
  {
    AppendToEven(stream, block, c);
    AppendToEven(out, more, c);
    FirRanFurther(fir, ran, h, Channel(stream, c), Channel(out, c), w, Channel(block, c), Channel(more, c), w');
  }

  lemma NothingDrooped(fir: seq<int>, ran: FirRuns, h: History, c: nat)
    requires |fir| >= 6 && IsFirRan(ran, fir) && c < 2
    ensures DroopedTo(ran, h, [], c, [], h)
  {
    assert FirRan(fir, h, Channel([], c), Channel([], c), h);
  }

  /** The droop filter on one block after the other */
  method DroopBlocks(
    blocks: seq<seq<int16>>, fir: seq<int>, histI: array<int16>, histQ: array<int16>, ghost ran: FirRuns)
    returns (out: seq<int16>)
    requires EvenBlocks(blocks) && |fir| >= 6 && histI.Length == 9 == histQ.Length && histI != histQ
    requires IsFirRan(ran, fir)
    modifies histI, histQ
    ensures |out| == |Flatten(blocks)|
    ensures DroopedTo(ran, old(histI[..]), Flatten(blocks), 0, out, histI[..])
    ensures DroopedTo(ran, old(histQ[..]), Flatten(blocks), 1, out, histQ[..])
  {
    ghost var hI: History, hQ: History, stream: seq<int16> := histI[..], histQ[..], [];
    out := [];
    var k := 0;
    NothingDrooped(fir, ran, hI, 0);
    NothingDrooped(fir, ran, hQ, 1);
    assert blocks[..0] == [];
    while k < |blocks|
      invariant k <= |blocks| && stream == Flatten(blocks[..k]) && |out| == |stream| && |stream| % 2 == 0
      invariant DroopedTo(ran, hI, stream, 0, out, histI[..]) && DroopedTo(ran, hQ, stream, 1, out, histQ[..])
    {
      OneBlockMore(blocks, k);
      var more := DroopNext(blocks[k], fir, histI, histQ, ran, hI, hQ, stream, out);
      out, stream := out + more, stream + blocks[k];
      k := k + 1;
    }
    assert blocks[..k] == blocks;
  }

  lemma FirRanFurther(fir: seq<int>, ran: FirRuns, h: History, xs: seq<int16>, out: seq<int16>, w: History,
                      more: seq<int16>, out': seq<int16>, w': History)
    requires |fir| >= 6 && IsFirRan(ran, fir) && ran(h, xs, out, w) && FirRan(fir, w, more, out', w')
    ensures ran(h, xs + more, out + out', w')
  {
    assert ran(h, xs, out, w) == FirRan(fir, h, xs, out, w);
    RanFurther<History, int16, int16>(FirStep(fir), h, xs, out, w, more, out', w');
    assert ran(h, xs + more, out + out', w') == FirRan(fir, h, xs + more, out + out', w');
  }

  /** However the stream is cut into blocks of even length, the droop filter puts out
      what one call for each channel does for the whole stream, data, and leaves
      the same histories. */
  method DroopInBlocksOrAtOnce(blocks: seq<seq<int16>>, fir: seq<int>, histI: array<int16>, histQ: array<int16>,
                               data: array<int16>, histI': array<int16>, histQ': array<int16>)
    returns (out: seq<int16>)
    requires EvenBlocks(blocks) && |fir| >= 6 && data[..] == Flatten(blocks)
    requires histI.Length == 9 == histQ.Length && histI'.Length == 9 == histQ'.Length
    requires histI != histQ && data !in {histI', histQ'} && histI' != histQ'
    requires {histI, histQ} !! {histI', histQ', data}
    requires histI[..] == histI'[..] && histQ[..] == histQ'[..]
    modifies histI, histQ, data, histI', histQ'
    ensures out == data[..] && histI[..] == histI'[..] && histQ[..] == histQ'[..]
  {
    FlattenEven(blocks);
    ghost var ran: FirRuns := (h: History, xs: seq<int16>, out: seq<int16>, h': History) => FirRan(fir, h, xs, out, h');
    out := DroopBlocks(blocks, fir, histI, histQ, ran);
    assert data[..data.Length] == data[..] == Flatten(blocks);
    Droop(data, data.Length, fir, histI', histQ');
    assert data[..data.Length] == data[..];
    SamplesDetermine(out, data[..]);
  }
}

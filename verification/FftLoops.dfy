/** The index structure of the three nested butterfly loops of fix_fft(), for
    any property of samples that one butterfly carries to the next stage. */
module FftLoops {
  import opened Complex
  import opened BitReversal

  /** A property of a sample: the number of stages it went through, its index
      and its value. */
  type Property = (nat, nat, C) -> bool

  /** Has the stage with butterflies of span l already treated sample q, when the
      outer loop is at offset j and the inner one at index i? */
  predicate Done(q: nat, l: nat, j: nat, i: nat)
    requires l > 0
  {
    q % l < j || (q % l == j && q < i)
  }

  /** Every sample has gone through s stages, those that are done through one more. */
  ghost predicate InStage(z: seq<C>, p: Property, s: nat, l: nat, j: nat, i: nat)
    requires l > 0
  {
    forall q: nat | q < |z| :: p(if Done(q, l, j, i) then s + 1 else s, q, z[q])
  }

  lemma BlockIndex(q: nat, l: nat, c: nat, j: nat)
    requires q == c * l + j && j < l
    ensures q % l == j && q / l == c
  {
    DivModUnique(q, l, c, j);
  }

  lemma PairIndices(l: nat, c: nat, j: nat, i: nat)
    requires i == c * (2 * l) + j && j < l
    ensures i == (2 * c) * l + j && i % l == j && (i + l) % l == j
  {
    assert c * (2 * l) == (2 * c) * l;
    assert (2 * c + 1) * l == (2 * c) * l + l;
    BlockIndex(i, l, 2 * c, j);
    BlockIndex(i + l, l, 2 * c + 1, j);
  }

  lemma SameOffset(q: nat, l: nat, e: nat, j: nat, i: nat)
    requires l > 0 && q % l == j && i == e * l + j && i <= q < i + 2 * l
    ensures q == i || q == i + l
  {
    var d := q / l;
    assert q == d * l + j;
    assert (e + 2) * l == e * l + 2 * l;
    Bracket(l, d, e);
    assert (e + 1) * l == e * l + l;
  }

  /** The inner loop treats the samples i and i + l next, and no others. */
  lemma NextPair(q: nat, l: nat, c: nat, j: nat, i: nat)
    requires i == c * (2 * l) + j && j < l
    ensures i % l == j && (i + l) % l == j && !Done(i, l, j, i) && !Done(i + l, l, j, i)
    ensures Done(q, l, j, i + 2 * l) <==> Done(q, l, j, i) || q == i || q == i + l
  {
    PairIndices(l, c, j, i);
    if q % l == j && i <= q < i + 2 * l {
      SameOffset(q, l, 2 * c, j, i);
    }
  }

  lemma Bracket(l: nat, d: nat, e: nat)
    requires l > 0 && e * l <= d * l < (e + 2) * l
    ensures d == e || d == e + 1
  {
    MulSub(l, e, d);
    MulSub(l, d, e + 2);
    if d < e {
      MulAtLeast(l, e - d);
    } else if d > e + 1 {
      MulNonNegative(l, d - (e + 2));
    }
  }

  lemma MulNonNegative(l: int, k: int)
    requires l >= 0 && k >= 0
    ensures l * k >= 0
  {
  }

  /** The second sample of a pair is inside the array, too. */
  lemma PairInRange(n: nat, blocks: nat, l: nat, c: nat, j: nat, i: nat)
    requires n == (2 * l) * blocks && i == c * (2 * l) + j && j < l && i < n
    ensures i + l < n
  {
    MulSub(2 * l, blocks, c);
    MulSub(2 * l, c, blocks);
    if c >= blocks {
      MulNonNegative(2 * l, c - blocks);
    } else {
      MulAtLeast(2 * l, blocks - c);
    }
  }

  /** One turn of the inner loop. */
  lemma PairStep(z: seq<C>, p: Property, s: nat, l: nat, c: nat, j: nat, i: nat, x: C, y: C)
    requires i == c * (2 * l) + j && j < l && i + l < |z|
    requires InStage(z, p, s, l, j, i) && p(s + 1, i, x) && p(s + 1, i + l, y)
    ensures InStage(z[i := x][i + l := y], p, s, l, j, i + 2 * l)
  {
    var z' := z[i := x][i + l := y];
    forall q: nat | q < |z'| ensures p(if Done(q, l, j, i + 2 * l) then s + 1 else s, q, z'[q]) {
      NextPair(q, l, c, j, i);
      assert p(if Done(q, l, j, i) then s + 1 else s, q, z[q]);
    }
  }

  /** What the pair holds before its butterfly. */
  lemma PairBefore(z: seq<C>, p: Property, s: nat, l: nat, c: nat, j: nat, i: nat)
    requires i == c * (2 * l) + j && j < l && i + l < |z| && InStage(z, p, s, l, j, i)
    ensures p(s, i, z[i]) && p(s, i + l, z[i + l])
  {
    NextPair(i, l, c, j, i);
  }

  lemma InnerLoopEnds(z: seq<C>, p: Property, s: nat, l: nat, j: nat, i: nat)
    requires l > 0 && i >= |z| && InStage(z, p, s, l, j, i)
    ensures InStage(z, p, s, l, j + 1, j + 1)
  {
    forall q: nat | q < |z| ensures p(if Done(q, l, j + 1, j + 1) then s + 1 else s, q, z[q]) {
      DoneAtEnd(q, l, j, i);
      assert p(if Done(q, l, j, i) then s + 1 else s, q, z[q]);
    }
  }

  lemma DoneAtEnd(q: nat, l: nat, j: nat, i: nat)
    requires l > 0 && q < i
    ensures Done(q, l, j, i) <==> Done(q, l, j + 1, j + 1)
  {
    assert q % l <= q;
  }

  lemma StageEnds(z: seq<C>, p: Property, s: nat, l: nat)
    requires l > 0 && InStage(z, p, s, l, l, l)
    ensures InStage(z, p, s + 1, 2 * l, 0, 0)
    ensures forall q: nat | q < |z| :: p(s + 1, q, z[q])
  {
    forall q: nat | q < |z| ensures p(s + 1, q, z[q]) {
      assert p(if Done(q, l, l, l) then s + 1 else s, q, z[q]);
    }
  }

  lemma StageBegins(z: seq<C>, p: Property, s: nat, l: nat)
    requires l > 0 && forall q: nat | q < |z| :: p(s, q, z[q])
    ensures InStage(z, p, s, l, 0, 0)
  {
  }

  ghost function BlockStart(s: nat, c: nat): nat { c * Pow2(s + 1) }

  /** Is i at offset j0 of some block of stage s? */
  ghost predicate AtOffset(s: nat, j0: nat, i: nat) {
    exists c: nat :: i == BlockStart(s, c) + j0
  }

  lemma NextBlock(m: nat, s: nat, j0: nat, i: nat) returns (c: nat)
    requires s < m && j0 < Pow2(s) && AtOffset(s, j0, i) && i < Pow2(m)
    ensures i + Pow2(s) < Pow2(m) && i == c * Pow2(s + 1) + j0 == c * (2 * Pow2(s)) + j0
    ensures AtOffset(s, j0, i + 2 * Pow2(s))
  {
    c :| i == BlockStart(s, c) + j0;
    StageBlocks(m, s);
    BlockNext(s, c);
    PairInRange(Pow2(m), Pow2(m - s - 1), Pow2(s), c, j0, i);
    InBlock(s, j0, i + 2 * Pow2(s), c + 1);
  }

  lemma InBlock(s: nat, j0: nat, i: nat, c: nat)
    requires i == BlockStart(s, c) + j0
    ensures AtOffset(s, j0, i)
  {
  }

  lemma StageBlocks(m: nat, s: nat)
    requires s < m
    ensures Pow2(m) == (2 * Pow2(s)) * Pow2(m - s - 1)
  {
    Pow2Add(s + 1, m - s - 1);
  }

  lemma BlockNext(s: nat, c: nat)
    ensures BlockStart(s, c) == c * (2 * Pow2(s)) && BlockStart(s, c + 1) == BlockStart(s, c) + 2 * Pow2(s)
  {
    var d := Pow2(s + 1);
    assert (c + 1) * d == c * d + d;
  }

  /** All samples by the time the loops reach offset j0, index i of stage s. */
  ghost predicate Progress(z: seq<C>, p: Property, m: nat, s: nat, j0: nat, i: nat) {
    |z| == Pow2(m) && s < m && InStage(z, p, s, Pow2(s), j0, i)
  }

  /** The next pair has not been treated in this stage. */
  lemma PairReady(z: seq<C>, p: Property, m: nat, s: nat, j0: nat, i: nat)
    requires Progress(z, p, m, s, j0, i) && j0 < Pow2(s) && AtOffset(s, j0, i) && i < Pow2(m)
    ensures i + Pow2(s) < Pow2(m) && AtOffset(s, j0, i + 2 * Pow2(s))
    ensures p(s, i, z[i]) && p(s, i + Pow2(s), z[i + Pow2(s)])
  {
    var c := NextBlock(m, s, j0, i);
    PairBefore(z, p, s, Pow2(s), c, j0, i);
  }

  /** With the pair carried to the next stage the inner loop has made a turn. */
  lemma PairDone(z: seq<C>, p: Property, m: nat, s: nat, j0: nat, i: nat, k: nat, next: nat, x: C, y: C)
    requires Progress(z, p, m, s, j0, i) && j0 < Pow2(s) && AtOffset(s, j0, i)
    requires k == i + Pow2(s) < Pow2(m) && next == i + 2 * Pow2(s)
    requires p(s + 1, i, x) && p(s + 1, k, y)
    ensures Progress(z[i := x][k := y], p, m, s, j0, next)
  {
    var c := NextBlock(m, s, j0, i);
    ProgressOn(z, p, m, s, Pow2(s), c, j0, i, k, next, x, y);
  }

  lemma ProgressOn(
    z: seq<C>, p: Property, m: nat, s: nat, l: nat, c: nat, j0: nat, i: nat, k: nat, next: nat, x: C, y: C)
    requires |z| == Pow2(m) && s < m && l == Pow2(s) && InStage(z, p, s, l, j0, i)
    requires i == c * (2 * l) + j0 && j0 < l && k == i + l < |z| && next == i + 2 * l
    requires p(s + 1, i, x) && p(s + 1, k, y)
    ensures Progress(z[i := x][k := y], p, m, s, j0, next)
  {
    PairStep(z, p, s, l, c, j0, i, x, y);
  }
}

/** Powers of two, bit reversal, and the in-place reordering with which
    fix_fft() starts. */
module BitReversal {

  function Pow2(e: nat): (p: nat)
    ensures p >= 1
  {
    if e == 0 then 1 else 2 * Pow2(e - 1)
  }

  lemma {:induction false} Pow2Add(a: nat, b: nat)
    ensures Pow2(a + b) == Pow2(a) * Pow2(b)
  {
    if a > 0 {
      Pow2Add(a - 1, b);
    }
  }

  lemma {:induction false} Pow2Mono(a: nat, b: nat)
    requires a <= b
    ensures Pow2(a) <= Pow2(b)
    ensures a < b ==> Pow2(a) < Pow2(b)
  {
    if a < b {
      Pow2Mono(a, b - 1);
    }
  }

  /** The m low bits of i in reverse order. */
  function Rev(m: nat, i: nat): (r: nat)
    requires i < Pow2(m)
    ensures r < Pow2(m)
  {
    if m == 0 then 0 else (if i % 2 == 1 then Pow2(m - 1) else 0) + Rev(m - 1, i / 2)
  }

  lemma RevStep(m: nat, i: nat, k: nat)
    requires m > 0 && i < Pow2(m) && k == i / 2
    ensures Rev(m, i) == (if i % 2 == 1 then Pow2(m - 1) else 0) + Rev(m - 1, k)
  {
  }

  /** Rev unfolded at the other end: the highest bit is clear ... */
  lemma {:induction false} RevLower(m: nat, i: nat)
    requires m > 0 && i < Pow2(m - 1)
    ensures Rev(m, i) == 2 * Rev(m - 1, i)
  {
    if m > 1 {
      var k := i / 2;
      RevStep(m, i, k);
      RevStep(m - 1, i, k);
      RevLower(m - 1, k);
    }
  }

  /** ... or set. */
  lemma {:induction false} RevUpper(m: nat, i: nat, r: nat)
    requires m > 0 && r < Pow2(m - 1) && i == r + Pow2(m - 1)
    ensures Rev(m, i) == 2 * Rev(m - 1, r) + 1
  {
    if m > 1 {
      var k, l := i / 2, r / 2;
      assert i % 2 == r % 2 && k == l + Pow2(m - 2);
      RevStep(m, i, k);
      RevStep(m - 1, r, l);
      RevUpper(m - 1, k, l);
    }
  }

  lemma RevHigh(m: nat, i: nat)
    requires m > 0 && i < Pow2(m)
    ensures i < Pow2(m - 1) ==> Rev(m, i) == 2 * Rev(m - 1, i)
    ensures i >= Pow2(m - 1) ==> Rev(m, i) == 2 * Rev(m - 1, i - Pow2(m - 1)) + 1
  {
    if i < Pow2(m - 1) {
      RevLower(m, i);
    } else {
      RevUpper(m, i, i - Pow2(m - 1));
    }
  }

  lemma {:induction false} RevInvolution(m: nat, i: nat)
    requires i < Pow2(m)
    ensures Rev(m, Rev(m, i)) == i
  {
    if m > 0 {
      RevHigh(m, Rev(m, i));
      RevInvolution(m - 1, i / 2);
    }
  }

  // ----- counting in reverse -----

  /** Add one to a number of e bits written in reverse: set the highest clear
      bit and clear those above it. */
  function RevIncrement(e: nat, r: nat): nat
    requires r + 1 < Pow2(e)
  {
    if r < Pow2(e - 1) then r + Pow2(e - 1) else RevIncrement(e - 1, r - Pow2(e - 1))
  }

  lemma {:induction false} RevIncrementIsNext(e: nat, i: nat)
    requires i + 1 < Pow2(e)
    ensures Rev(e, i) + 1 < Pow2(e) && RevIncrement(e, Rev(e, i)) == Rev(e, i + 1)
  {
    if i % 2 == 0 {
      assert (i + 1) / 2 == i / 2;
    } else {
      RevIncrementIsNext(e - 1, i / 2);
      assert (i + 1) / 2 == i / 2 + 1;
    }
  }

  /** The inner do-while of fix_fft() and the statement after it.  The mask
      mr & (l-1) with a power of two l is the remainder modulo l. */
  method NextReversed(m: nat, n: nat, mr: nat) returns (next: nat)
    requires n == Pow2(m) && mr + 1 < n
    ensures next == RevIncrement(m, mr)
  {
    var nn := n - 1;
    var l := n / 2;
    ghost var e := m - 1;
    while mr + l > nn
      invariant 0 <= e < m && l == Pow2(e) && n - 2 * l <= mr
      invariant RevIncrement(m, mr) == RevIncrement(e + 1, mr - (n - 2 * l))
      decreases e
    {
      l := l / 2;
      e := e - 1;
    }
    next := mr % l + l;
    MaskHighBits(m, e, mr);
  }

  lemma MaskHighBits(m: nat, e: nat, mr: nat)
    requires e < m && Pow2(m) - 2 * Pow2(e) <= mr < Pow2(m) - Pow2(e)
    ensures mr % Pow2(e) == mr - (Pow2(m) - 2 * Pow2(e))
  {
    Pow2Add(e, m - e);
    LastBlock(Pow2(e), Pow2(m - e), Pow2(m), mr, mr - (Pow2(m) - 2 * Pow2(e)));
  }

  /** x is in the last but one of k blocks of l numbers. */
  lemma LastBlock(l: nat, k: nat, n: nat, x: nat, r: int)
    requires n == l * k && r == x - (n - 2 * l) && 0 <= r < l
    ensures x % l == r
  {
    MulSub(l, k, 2);
    var q := k - 2;
    assert l * q == n - 2 * l;
    DivModUnique(x, l, q, r);
  }

  lemma MulSub(l: int, x: int, y: int)
    ensures l * (x - y) == l * x - l * y
  {
  }

  lemma MulAtLeast(l: int, k: int)
    requires l >= 0 && k >= 1
    ensures l * k >= l
  {
    MulSub(l, k, 1);
    assert l * (k - 1) >= 0;
  }

  lemma DivModUnique(x: int, l: int, q: int, r: int)
    requires x == l * q + r && 0 <= r < l
    ensures x / l == q && x % l == r
  {
    var q', r' := x / l, x % l;
    assert x == l * q' + r';
    MulSub(l, q, q');
    MulSub(l, q', q);
    if q > q' {
      MulAtLeast(l, q - q');
    } else if q < q' {
      MulAtLeast(l, q' - q);
    }
  }

  lemma {:induction false} RevZero(m: nat)
    ensures Rev(m, 0) == 0
  {
    if m > 0 {
      RevZero(m - 1);
    }
  }

  // ----- exchanging the pairs of an involution one by one -----

  ghost predicate Involution(p: seq<nat>) {
    forall q | 0 <= q < |p| :: p[q] < |p| && p[p[q]] == q
  }

  /** Where sample q comes from once all indices below c have been dealt with. */
  function Source(p: seq<nat>, q: nat, c: nat): nat
    requires q < |p|
  {
    if q < c || p[q] < c then p[q] else q
  }

  /** A sample is a pair of adjacent elements. */
  ghost predicate SampleEquals<T>(s: seq<T>, q: nat, before: seq<T>, r: nat) {
    2 * q + 1 < |s| && 2 * r + 1 < |before| && s[2 * q] == before[2 * r] && s[2 * q + 1] == before[2 * r + 1]
  }

  ghost predicate ReorderedBelow<T>(s: seq<T>, before: seq<T>, p: seq<nat>, c: nat) {
    forall q: nat | q < |p| :: SampleEquals(s, q, before, Source(p, q, c))
  }

  function ExchangeSamples<T>(s: seq<T>, c: nat, d: nat): seq<T>
    requires 2 * c + 1 < |s| && 2 * d + 1 < |s|
  {
    s[2 * c := s[2 * d]][2 * c + 1 := s[2 * d + 1]][2 * d := s[2 * c]][2 * d + 1 := s[2 * c + 1]]
  }

  lemma ReorderStep<T>(s: seq<T>, before: seq<T>, p: seq<nat>, c: nat)
    requires Involution(p) && |s| == |before| == 2 * |p| && c < |p| && ReorderedBelow(s, before, p, c)
    ensures ReorderedBelow(if p[c] > c then ExchangeSamples(s, c, p[c]) else s, before, p, c + 1)
  {
    var d := p[c];
    var next, s' := c + 1, if d > c then ExchangeSamples(s, c, d) else s;
    forall q: nat | q < |p| ensures SampleEquals(s', q, before, Source(p, q, next)) {
      assert SampleEquals(s, q, before, Source(p, q, c));
      assert SampleEquals(s, c, before, Source(p, c, c)) && SampleEquals(s, d, before, Source(p, d, c));
    }
  }

  ghost function RevTable(m: nat): (p: seq<nat>)
    ensures |p| == Pow2(m) && Involution(p)
    ensures forall i: nat | i < Pow2(m) :: p[i] == Rev(m, i)
  {
    var p := seq(Pow2(m), i requires 0 <= i < Pow2(m) => Rev(m, i));
    assert Involution(p) by {
      forall q: nat | q < |p| ensures p[q] < |p| && p[p[q]] == q { RevInvolution(m, q); }
    }
    p
  }

  /** The exchange of two samples in the first loop of fix_fft() */
  method Exchange<T>(iq: array<T>, c: nat, mr: nat)
    requires c < mr && 2 * mr + 1 < iq.Length
    modifies iq
    ensures iq[..] == ExchangeSamples(old(iq[..]), c, mr)
  {
    var tr := iq[2 * c];
    iq[2 * c] := iq[2 * mr];
    assert iq[..] == old(iq[..])[2 * c := old(iq[2 * mr])];
    iq[2 * mr] := tr;
    assert iq[..] == old(iq[..])[2 * c := old(iq[2 * mr])][2 * mr := tr];
    ghost var half := iq[..];
    var ti := iq[2 * c + 1];
    iq[2 * c + 1] := iq[2 * mr + 1];
    assert iq[..] == half[2 * c + 1 := half[2 * mr + 1]];
    iq[2 * mr + 1] := ti;
    assert iq[..] == half[2 * c + 1 := half[2 * mr + 1]][2 * mr + 1 := ti];
    ExchangeInHalves(old(iq[..]), c, mr);
  }

  lemma ExchangeInHalves<T>(s: seq<T>, c: nat, d: nat)
    requires c < d && 2 * d + 1 < |s|
    ensures var half := s[2 * c := s[2 * d]][2 * d := s[2 * c]];
            ExchangeSamples(s, c, d) == half[2 * c + 1 := half[2 * d + 1]][2 * d + 1 := half[2 * c + 1]]
  {
  }

  /** ... which is done once for each pair */
  method ExchangeIfLater<T>(iq: array<T>, c: nat, mr: nat, ghost before: seq<T>, ghost p: seq<nat>)
    requires Involution(p) && iq.Length == |before| == 2 * |p| && c < |p| && mr == p[c]
    requires ReorderedBelow(iq[..], before, p, c)
    modifies iq
    ensures ReorderedBelow(iq[..], before, p, c + 1)
  {
    ReorderStep(iq[..], before, p, c);
    if mr > c {
      Exchange(iq, c, mr);
    }
  }

  /** The first loop of fix_fft(): afterwards sample q is the one that was at
      Rev(m, q). */
  method Reorder<T>(iq: array<T>, m: nat)
    requires iq.Length == 2 * Pow2(m)
    modifies iq
    ensures forall q: nat | q < Pow2(m) :: SampleEquals(iq[..], q, old(iq[..]), Rev(m, q))
  {
    var n := Pow2(m);
    var mr, nn := 0, n - 1;
    var c := 1;
    RevZero(m);
    ghost var p, before := RevTable(m), iq[..];
    assert ReorderedBelow(iq[..], before, p, 1);
    while c <= nn
      invariant 1 <= c <= n && mr == Rev(m, c - 1)
      invariant ReorderedBelow(iq[..], before, p, c)
    {
      RevIncrementIsNext(m, c - 1);
      mr := NextReversed(m, n, mr);
      ExchangeIfLater(iq, c, mr, before, p);
      c := c + 1;
    }
    forall q: nat | q < n ensures SampleEquals(iq[..], q, before, Rev(m, q)) {
      assert SampleEquals(iq[..], q, before, Source(p, q, n));
    }
  }
}

/** Complex numbers over the reals, and discs around the origin. */
module Complex {

  datatype C = C(re: real, im: real)

  const ZERO := C(0.0, 0.0)
  const ONE := C(1.0, 0.0)

  function Add(a: C, b: C): C { C(a.re + b.re, a.im + b.im) }

  function Sub(a: C, b: C): C { C(a.re - b.re, a.im - b.im) }

  function Mul(a: C, b: C): C { C(a.re * b.re - a.im * b.im, a.re * b.im + a.im * b.re) }

  function Scale(r: real, a: C): C { C(r * a.re, r * a.im) }

  function Neg(a: C): C { C(-a.re, -a.im) }

  function Pow(w: C, n: nat): C {
    if n == 0 then ONE else Mul(w, Pow(w, n - 1))
  }

  /** |a| <= r */
  predicate InDisc(a: C, r: real) {
    r >= 0.0 && a.re * a.re + a.im * a.im <= r * r
  }

  lemma MulAssoc(a: C, b: C, c: C)
    ensures Mul(a, Mul(b, c)) == Mul(Mul(a, b), c)
  {
  }

  lemma MulComm(a: C, b: C)
    ensures Mul(a, b) == Mul(b, a)
  {
  }

  lemma MulAdd(a: C, b: C, c: C)
    ensures Mul(a, Add(b, c)) == Add(Mul(a, b), Mul(a, c))
  {
  }

  lemma MulScale(r: real, a: C, b: C)
    ensures Mul(a, Scale(r, b)) == Scale(r, Mul(a, b)) == Mul(Scale(r, a), b)
  {
  }

  lemma MulOne(a: C)
    ensures Mul(ONE, a) == a == Mul(a, ONE)
  {
  }

  lemma {:induction false} PowAdd(w: C, m: nat, n: nat)
    ensures Pow(w, m + n) == Mul(Pow(w, m), Pow(w, n))
  {
    if m == 0 {
    } else {
      PowAdd(w, m - 1, n);
      MulAssoc(w, Pow(w, m - 1), Pow(w, n));
    }
  }

  lemma {:induction false} PowMul(w: C, m: nat, n: nat)
    ensures Pow(w, m * n) == Pow(Pow(w, m), n)
  {
    if n == 0 {
      assert m * n == 0;
    } else {
      var k := OneTimeMore(m, n);
      PowMul(w, m, n - 1);
      PowAdd(w, m, k);
      PowNext(Pow(w, m), n);
    }
  }

  lemma OneTimeMore(m: nat, n: nat) returns (k: nat)
    requires n > 0
    ensures k == m * (n - 1) && m * n == m + k
  {
    k := m * (n - 1);
  }

  lemma PowNext(w: C, n: nat)
    requires n > 0
    ensures Pow(w, n) == Mul(w, Pow(w, n - 1))
  {
  }

  // ----- the triangle inequality -----

  lemma PositiveProduct(x: real, y: real)
    requires x > 0.0 && y > 0.0
    ensures x * y > 0.0
  {
  }

  lemma SquareMono(x: real, y: real)
    requires y >= 0.0 && x * x <= y * y
    ensures -y <= x <= y
  {
    assert (x - y) * (x + y) == x * x - y * y;
    if x > y {
      PositiveProduct(x - y, x + y);
    } else if x < -y {
      PositiveProduct(y - x, -(x + y));
    }
  }

  lemma ComponentsInDisc(a: C, r: real)
    requires InDisc(a, r)
    ensures -r <= a.re <= r && -r <= a.im <= r
  {
    SquareMono(a.re, r);
    SquareMono(a.im, r);
  }

  lemma CauchySchwarz(a: C, b: C, r: real, s: real)
    requires InDisc(a, r) && InDisc(b, s)
    ensures a.re * b.re + a.im * b.im <= r * s
  {
    var dot, cross := a.re * b.re + a.im * b.im, a.re * b.im - a.im * b.re;
    var p, q := a.re * a.re + a.im * a.im, b.re * b.re + b.im * b.im;
    assert dot * dot + cross * cross == p * q;
    assert p * q <= (r * r) * (s * s) by {
      assert p * q <= (r * r) * q;
      assert (r * r) * q <= (r * r) * (s * s);
    }
    assert cross * cross >= 0.0;
    assert (r * r) * (s * s) == (r * s) * (r * s);
    SquareMono(dot, r * s);
  }

  lemma AddInDisc(a: C, b: C, r: real, s: real)
    requires InDisc(a, r) && InDisc(b, s)
    ensures InDisc(Add(a, b), r + s)
  {
    CauchySchwarz(a, b, r, s);
    var t := Add(a, b);
    assert t.re * t.re + t.im * t.im
        == (a.re * a.re + a.im * a.im) + 2.0 * (a.re * b.re + a.im * b.im) + (b.re * b.re + b.im * b.im);
    assert (r + s) * (r + s) == r * r + 2.0 * (r * s) + s * s;
  }

  lemma MulInDisc(a: C, b: C, r: real, s: real)
    requires InDisc(a, r) && InDisc(b, s)
    ensures InDisc(Mul(a, b), r * s)
  {
    var p, q, t := a.re * a.re + a.im * a.im, b.re * b.re + b.im * b.im, Mul(a, b);
    assert t.re * t.re + t.im * t.im == p * q;
    assert p * q <= (r * r) * q <= (r * r) * (s * s);
    assert (r * r) * (s * s) == (r * s) * (r * s);
  }

  lemma ScaleInDisc(k: real, a: C, r: real)
    requires InDisc(a, r) && k >= 0.0
    ensures InDisc(Scale(k, a), k * r)
  {
    var t := Scale(k, a);
    assert t.re * t.re + t.im * t.im == (k * k) * (a.re * a.re + a.im * a.im);
    assert (k * k) * (a.re * a.re + a.im * a.im) <= (k * k) * (r * r);
    assert (k * k) * (r * r) == (k * r) * (k * r);
  }

  lemma WiderDisc(a: C, r: real, s: real)
    requires InDisc(a, r) && r <= s
    ensures InDisc(a, s)
  {
    assert r * r <= s * s;
  }
}

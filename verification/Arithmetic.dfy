/** The arithmetic that several components share. */
module Arithmetic {
  function MaxReal(a: real, b: real): real {
    if a >= b then a else b
  }

  function MinReal(a: real, b: real): real {
    if a <= b then a else b
  }

  function AbsReal(a: real): real {
    if a >= 0.0 then a else -a
  }

  function One(b: bool): nat {
    if b then 1 else 0
  }

  // ----- Real products -----

  lemma Distribute(a: real, b: real, r: real)
    ensures (a + b) * r == a * r + b * r
  {
  }

  lemma Reassociate(d: real, p: real)
    ensures d * (2.0 * p) == 2.0 * (d * p)
  {
  }

  lemma ScaleLeq(a: real, b: real, r: real)
    requires a <= b && r > 0.0
    ensures a * r <= b * r
  {
    assert (b - a) * r >= 0.0;
  }

  lemma ScaleLess(a: real, b: real, r: real)
    requires a < b && r > 0.0
    ensures a * r < b * r
  {
    assert (b - a) * r > 0.0;
  }

  lemma DivideLeq(a: real, b: real, r: real)
    requires r > 0.0 && a <= b
    ensures a / r <= b / r
  {
  }

  lemma ZeroFactor(d: real, r: real)
    requires r > 0.0 && d * r == 0.0
    ensures d == 0.0
  {
    assert (d * r) / r == d;
  }

  lemma OneFewer(b: real, r: real)
    requires r > 0.0
    ensures (b - r) / r == b / r - 1.0
  {
    var x, y := (b - r) / r, b / r;
    assert x * r == b - r;
    assert y * r == b;
    Distribute(x, 1.0, r);
    Distribute(x + 1.0 - y, y, r);
    ZeroFactor(x + 1.0 - y, r);
  }

  lemma {:induction false} ProductAsReal(q: int, w: nat)
    ensures (q * w) as real == q as real * w as real
  {
    if w > 0 {
      ProductAsReal(q, w - 1);
      assert q * w == q * (w - 1) + q;
      assert w as real == (w - 1) as real + 1.0;
      assert q as real * w as real == q as real * (w - 1) as real + q as real;
    }
  }

  // ----- Integer products -----

  lemma ProductLeq(a: int, b: int, w: int)
    requires w > 0
    ensures a <= b ==> a * w <= b * w
  {
    if a <= b {
      assert (b - a) * w >= 0;
    }
  }

  lemma CancelLess(a: int, b: int, w: int)
    requires w > 0 && a * w < b * w
    ensures a < b
  {
    ProductLeq(b, a, w);
  }

  lemma Multiples(a: nat, b: nat, n: nat)
    requires a <= b
    ensures a * n + n <= (b + 1) * n
  {
    assert (b - a) * n >= 0;
  }

  lemma NonzeroMultiple(a: int, period: int)
    requires period > 0
    ensures a >= 1 ==> a * period >= period
    ensures a <= -1 ==> a * period <= -period
  {
    if a >= 1 {
      assert (a - 1) * period >= 0;
    } else if a <= -1 {
      assert (-1 - a) * period >= 0;
    }
  }

  lemma Remainder(k: int, q: int, r: nat, period: nat)
    requires period > 0 && r < period && k == q * period + r
    ensures k % period == r && k / period == q
  {
    var a := k / period - q;
    assert a * period == r - k % period;
    NonzeroMultiple(a, period);
  }

  // ----- Sizes -----

  /** A subset is no larger than the set around it. */
  lemma {:induction false} SubsetSize<T>(a: set<T>, b: set<T>)
    requires a <= b
    ensures |a| <= |b|
  {
    if a != {} {
      var x :| x in a;
      SubsetSize(a - {x}, b - {x});
      assert |a| == |a - {x}| + 1;
      assert |b| == |b - {x}| + 1;
    }
  }

  /** A union is no larger than its two parts together. */
  lemma UnionSize<T>(a: set<T>, b: set<T>)
    ensures |a + b| <= |a| + |b|
  {
    assert a + b == a + (b - a);
    assert |a + (b - a)| == |a| + |b - a|;
    SubsetSize(b - a, b);
  }

  /** A number added up n times: a product that only unfolds one step at a time. */
  function Repeated(n: nat, h: real): real {
    if n == 0 then 0.0 else h + Repeated(n - 1, h)
  }

  lemma {:induction false} RepeatedIsProduct(n: nat, h: real)
    ensures Repeated(n, h) == n as real * h
  {
    if n > 0 {
      RepeatedIsProduct(n - 1, h);
      assert n as real == (n - 1) as real + 1.0;
      assert n as real * h == (n - 1) as real * h + h;
    }
  }
}

/** The few pieces of JavaScript's `Math` that the model uses, over exact reals. */
module RealMath {

  function Max(a: real, b: real): real {
    if a >= b then a else b
  }

  function Min(a: real, b: real): real {
    if a <= b then a else b
  }

  /** `Math.ceil`: the least integer not below `x`. */
  function Ceil(x: real): (c: int)
    ensures c as real - 1.0 < x <= c as real
  {
    -((-x).Floor)
  }

  /** The two bounds of `Ceil` determine it. */
  lemma CeilUnique(x: real, c: int)
    requires c as real - 1.0 < x <= c as real
    ensures Ceil(x) == c
  {
  }

  lemma MulLeRight(a: real, b: real, c: real)
    requires a <= b && 0.0 <= c
    ensures a * c <= b * c
  {
    assert (b - a) * c >= 0.0;
  }

  lemma MulLtRight(a: real, b: real, c: real)
    requires a < b && 0.0 < c
    ensures a * c < b * c
  {
    assert (b - a) * c > 0.0;
  }

  /** `Math.ceil(x / p)` brackets `x` between consecutive multiples of `p`. */
  lemma CeilDivBounds(x: real, p: real)
    requires p > 0.0
    ensures (Ceil(x / p) as real - 1.0) * p < x <= Ceil(x / p) as real * p
  {
    var c := Ceil(x / p);
    var q := x / p;
    assert q * p == x;
    MulLtRight(c as real - 1.0, q, p);
    assert (c as real - 1.0) * p < q * p;
    assert (c as real - 1.0) * p < x;
    MulLeRight(q, c as real, p);
  }

  lemma MulLtLeft(k: real, a: real, b: real)
    requires 0.0 < k && a < b
    ensures k * a < k * b
  {
    assert k * (b - a) > 0.0;
  }

  /** `(k + 1) * d == k * d + d`, for counting months. */
  lemma MulSucc(k: nat, d: real)
    ensures (k + 1) as real * d == k as real * d + d
  {
  }

  /** Taking `d > 0` off both sides of `b <= max(0, c)` keeps the order, clamped at zero. */
  lemma MaxShift(b: real, d: real, c: real)
    requires 0.0 <= b <= Max(0.0, c) && d > 0.0
    ensures Max(0.0, b - d) <= Max(0.0, c - d)
  {
  }

  /** `k * d` as `k` repeated additions: the shape in which monthly amounts
      accumulate, and one the solver handles without non-linear arithmetic. */
  function Times(k: nat, d: real): real {
    if k == 0 then 0.0 else Times(k - 1, d) + d
  }

  lemma {:induction false} TimesIsMul(k: nat, d: real)
    ensures Times(k, d) == k as real * d
  {
    if k > 0 {
      TimesIsMul(k - 1, d);
      MulSucc(k - 1, d);
    }
  }

  lemma {:induction false} TimesStrictlyMonotonic(k: nat, a: real, b: real)
    requires k > 0 && a < b
    ensures Times(k, a) < Times(k, b)
  {
    if k > 1 {
      TimesStrictlyMonotonic(k - 1, a, b);
    }
  }

  /** The bracket of `CeilDivBounds` determines the quotient's ceiling. */
  lemma CeilDivUnique(x: real, p: real, c: int)
    requires p > 0.0
    requires (c as real - 1.0) * p < x <= c as real * p
    ensures Ceil(x / p) == c
  {
    DivAbove(x, p, c as real - 1.0);
    DivAtMost(x, p, c as real);
    CeilUnique(x / p, c);
  }

  lemma DivAbove(x: real, p: real, a: real)
    requires p > 0.0 && a * p < x
    ensures a < x / p
  {
    var q := x / p;
    assert q * p == x;
    assert (q - a) * p > 0.0;
  }

  lemma DivAtMost(x: real, p: real, a: real)
    requires p > 0.0 && x <= a * p
    ensures x / p <= a
  {
    var q := x / p;
    assert q * p == x;
    assert (a - q) * p >= 0.0;
  }

  lemma MulPred(a: real, p: real)
    ensures (a - 1.0) * p == a * p - p
  {
  }

  /** A count whose predecessor's multiple of `p` lies below `x <= p` is at most one. */
  lemma SingleMultiple(m: int, p: real, x: real)
    requires p > 0.0 && (m as real - 1.0) * p < x <= p
    ensures m <= 1
  {
    if m >= 2 {
      MulLeRight(1.0, m as real - 1.0, p);
    }
  }

  lemma MaxMonotonic(x: real, y: real)
    requires x <= y
    ensures Max(0.0, x) <= Max(0.0, y)
  {
  }

  lemma AddBounds(a: real, b: real, x: real, y: real)
    requires 0.0 <= a <= x && 0.0 <= b <= y
    ensures 0.0 <= a + b <= x + y
  {
  }
}

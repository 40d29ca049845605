/** Multiplicative congruential generators z' = (a * z) mod m, stepped with
    Schrage's decomposition m = a*q + r so that no intermediate product
    exceeds m.  The three generators of baserandom.cpp are instances. */
module Lcg {

  /** The constants of one generator: multiplier, quotient, remainder, modulus. */
  datatype Lcg = Lcg(a: int, q: int, r: int, m: int)
  {
    /** Schrage's decomposition applies: m = a*q + r with r < q. */
    predicate WellFormed() {
      0 < a && 0 <= r < q && m == a * q + r
    }
  }

  /** One Schrage step: k = z/q; z = a*(z - k*q) - r*k; if z < 0 then z += m. */
  function Step(g: Lcg, z: int): int
    requires g.WellFormed()
  {
    var k := z / g.q;
    var t := g.a * (z - k * g.q) - g.r * k;
    if t < 0 then t + g.m else t
  }

  /** n consecutive steps from z. */
  function Iter(g: Lcg, z: int, n: nat): int
    requires g.WellFormed()
  {
    if n == 0 then z else Step(g, Iter(g, z, n - 1))
  }

  /** Multiplying both sides of x <= y by a non-negative c. */
  lemma MulLe(x: int, y: int, c: int)
    requires x <= y && 0 <= c
    ensures x * c <= y * c
  {
    assert y * c - x * c == (y - x) * c;
  }

  /** x == k*m + t with 0 <= t < m determines t as x % m. */
  lemma ModUnique(x: int, m: int, k: int, t: int)
    requires 0 < m && 0 <= t < m && x == k * m + t
    ensures x % m == t
  {
    var k', t' := x / m, x % m;
    assert x == k' * m + t';
    assert (k - k') * m == t' - t;
    if k - k' >= 1 {
      MulLe(1, k - k', m);
    } else if k - k' <= -1 {
      MulLe(1, k' - k, m);
    }
  }

  /** The quotient z / q of a z below (a+1)*q is at most a. */
  lemma QuotientBound(z: int, a: int, q: int)
    requires 0 < q && 0 <= z < (a + 1) * q
    ensures 0 <= z / q <= a
  {
    var k := z / q;
    assert k * q <= z;
    if k > a {
      MulLe(a + 1, k, q);
    }
    if k < 0 {
      MulLe(k, -1, q);
    }
  }

  /** Both Schrage products stay below m: a*u for u < q and r*k for k <= a. */
  lemma SchrageBounds(a: int, q: int, r: int, m: int, k: int, u: int)
    requires 0 < a && 0 <= r < q && m == a * q + r
    requires 0 <= u < q && 0 <= k <= a
    ensures 0 <= a * u < m && 0 <= r * k < m
  {
    MulLe(0, u, a);
    MulLe(u, q - 1, a);
    assert (q - 1) * a == m - r - a;
    MulLe(0, k, r);
    MulLe(k, a, r);
    MulLe(r, q, a);
  }

  /** a*z == k*m + (a*u - r*k) for z == k*q + u and m == a*q + r. */
  lemma SchrageIdentity(a: int, q: int, r: int, m: int, k: int, u: int, z: int)
    requires z == k * q + u && m == a * q + r
    ensures a * z == k * m + (a * u - r * k)
  {
    calc {
      a * z;
      == a * (k * q + u);
      == k * (a * q) + a * u;
      == k * (m - r) + a * u;
      == k * m + (a * u - r * k);
    }
  }

  /** The Schrage remainder t = a*(z mod q) - r*(z div q) satisfies
      a*z == (z div q)*m + t and -m < t < m. */
  lemma SchrageSplit(g: Lcg, z: int)
    requires g.WellFormed() && 0 <= z < (g.a + 1) * g.q
    ensures var k := z / g.q; var u := z % g.q;
      && 0 <= g.a * u < g.m && 0 <= g.r * k < g.m
      && g.a * z == k * g.m + (g.a * u - g.r * k)
      && z - k * g.q == u
  {
    var k := z / g.q;
    var u := z % g.q;
    QuotientBound(z, g.a, g.q);
    assert z == k * g.q + u;
    SchrageBounds(g.a, g.q, g.r, g.m, k, u);
    SchrageIdentity(g.a, g.q, g.r, g.m, k, u, z);
  }

  /** Schrage's step computes (a*z) mod m exactly, for every z below (a+1)*q
      (which covers the whole range [0, m)); the two products it forms,
      a*(z mod q) and r*(z div q), both stay below m, so nothing overflows a
      word that holds m. */
  lemma StepIsModMul(g: Lcg, z: int)
    requires g.WellFormed() && 0 <= z < (g.a + 1) * g.q
    ensures Step(g, z) == (g.a * z) % g.m
    ensures 0 <= Step(g, z) < g.m
    ensures 0 <= g.a * (z % g.q) < g.m && 0 <= g.r * (z / g.q) < g.m
  {
    SchrageSplit(g, z);
    var k := z / g.q;
    var t := g.a * (z % g.q) - g.r * k;
    assert Step(g, z) == if t < 0 then t + g.m else t;
    if t < 0 {
      assert g.a * z == (k - 1) * g.m + (t + g.m);
      ModUnique(g.a * z, g.m, k - 1, t + g.m);
    } else {
      ModUnique(g.a * z, g.m, k, t);
    }
  }

  /** a*u == r*k with a, r coprime (s*a + t*r == 1) makes k a multiple of a. */
  lemma CoprimeDivides(a: int, r: int, s: int, t: int, u: int, k: int)
    requires s * a + t * r == 1 && a * u == r * k
    ensures k == a * (s * k + t * u)
  {
    calc {
      k;
      == k * (s * a + t * r);
      == s * a * k + t * (r * k);
      == s * a * k + t * (a * u);
      == a * (s * k + t * u);
    }
  }

  /** Cancelling a positive factor. */
  lemma MulCancel(a: int, x: int, y: int)
    requires 0 < a && a * x == a * y
    ensures x == y
  {
    if x < y { MulLe(x + 1, y, a); }
    if x > y { MulLe(y + 1, x, a); }
  }

  /** The Schrage remainder a*u - r*k vanishes only at z == k*q + u == 0 or m,
      when a and r are coprime (s*a + t*r == 1). */
  lemma RemainderNonZero(a: int, q: int, r: int, s: int, t: int, u: int, k: int)
    requires 0 < a && 0 <= u < q && 0 <= k <= a && s * a + t * r == 1
    requires a * u == r * k
    ensures k * q + u == 0 || k * q + u == a * q + r
  {
    CoprimeDivides(a, r, s, t, u, k);
    var c := s * k + t * u;
    if c <= 0 {
      MulLe(c, 0, a);
      assert k == 0;
      MulCancel(a, u, 0);
    } else {
      if c >= 2 { MulLe(2, c, a); }
      assert c == 1;
      assert k == a;
      MulCancel(a, u, r);
    }
  }

  /** When a and r are coprime (witnessed by s*a + t*r == 1), a step from any
      z in [1, m-1] lands in [1, m-1] again: the state never collapses to 0. */
  lemma StepNonZero(g: Lcg, z: int, s: int, t: int)
    requires g.WellFormed() && s * g.a + t * g.r == 1
    requires 1 <= z < g.m
    ensures 1 <= Step(g, z) < g.m
  {
    MulLe(0, g.a, g.q);
    StepIsModMul(g, z);
    SchrageSplit(g, z);
    QuotientBound(z, g.a, g.q);
    var k := z / g.q;
    var u := z % g.q;
    if g.a * u == g.r * k {
      RemainderNonZero(g.a, g.q, g.r, s, t, u, k);
      assert false;
    }
  }

  /** Iterating from a state in [1, m-1] stays in [1, m-1]. */
  lemma {:induction false} IterInRange(g: Lcg, z: int, n: nat, s: int, t: int)
    requires g.WellFormed() && s * g.a + t * g.r == 1
    requires 1 <= z < g.m
    ensures 1 <= Iter(g, z, n) < g.m
  {
    if n > 0 {
      IterInRange(g, z, n - 1, s, t);
      StepNonZero(g, Iter(g, z, n - 1), s, t);
    }
  }

  /** Every state below m is in the range where Schrage's step is exact. */
  lemma BelowModulus(g: Lcg, z: int)
    requires g.WellFormed() && 0 <= z < g.m
    ensures z < (g.a + 1) * g.q
  {
    assert (g.a + 1) * g.q == g.a * g.q + g.q;
  }

  /** a to the power n. */
  function Pow(a: int, n: nat): int
  {
    if n == 0 then 1 else a * Pow(a, n - 1)
  }

  /** Adding a multiple of m does not change a residue. */
  lemma ModAddMultiple(c: int, m: int, y: int)
    requires m > 0
    ensures (c * m + y) % m == y % m
  {
    var k := y / m;
    assert y == k * m + y % m;
    assert c * m + y == (c + k) * m + y % m;
    ModUnique(c * m + y, m, c + k, y % m);
  }

  /** Reducing a factor modulo m first does not change a product modulo m. */
  lemma ModMulCompat(a: int, m: int, x: int)
    requires m > 0
    ensures (a * (x % m)) % m == (a * x) % m
  {
    var d, y := x / m, x % m;
    assert x == d * m + y;
    assert a * (d * m + y) == a * (d * m) + a * y;
    assert a * (d * m) == (a * d) * m;
    assert a * x == (a * d) * m + a * y;
    ModAddMultiple(a * d, m, a * y);
  }

  /** n Schrage steps from a state in [0, m) multiply it by a^n modulo m. */
  lemma {:induction false} IterIsModPow(g: Lcg, z: int, n: nat)
    requires g.WellFormed() && 0 <= z < g.m
    ensures Iter(g, z, n) == (Pow(g.a, n) * z) % g.m
  {
    if n == 0 {
      ModUnique(z, g.m, 0, z);
    } else {
      var p := Pow(g.a, n - 1);
      assert g.a * (p * z) == (g.a * p) * z;
      IterIsModPow(g, z, n - 1);
      var y := Iter(g, z, n - 1);
      BelowModulus(g, y);
      StepIsModMul(g, y);
      ModMulCompat(g.a, g.m, p * z);
    }
  }
}

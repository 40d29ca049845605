/** The table helpers of class mathb (math.cpp): an interval test and the
    bisection search that finds where a value sits in a monotone table.
    Doubles are modelled as reals. */
module MathB {

  /** fabs. */
  function Abs(d: real): (r: real)
    ensures r >= 0.0 && (r == d || r == -d)
  {
    if d < 0.0 then -d else d
  }

  /** d / |d|, with the divisor replaced by 1 when d is 0, as check_bounds
      does: the sign of d as -1, 0 or 1. */
  function UnitSign(d: real): (u: real)
    ensures d > 0.0 ==> u == 1.0
    ensures d < 0.0 ==> u == -1.0
    ensures d == 0.0 ==> u == 0.0
  {
    var a := if d != 0.0 then Abs(d) else 1.0;
    QuotientBySize(d, a);
    d / a
  }

  /** Dividing d by d or by -d. */
  lemma QuotientBySize(d: real, a: real)
    requires a != 0.0
    ensures a == d ==> d / a == 1.0
    ensures a == -d ==> d / a == -1.0
  {
    assert (d / a) * a == d;
  }

  /** mathb::check_bounds: 1 when the product of the signs of x - x1 and
      x - x2 is not positive, else 0.  That is exactly when x lies in the
      closed interval between x1 and x2, in either order. */
  function CheckBounds(x: real, x1: real, x2: real): (r: int)
    ensures r == 0 || r == 1
    ensures r == 1 <==> (x1 <= x <= x2 || x2 <= x <= x1)
  {
    var xt := UnitSign(x - x1) * UnitSign(x - x2);
    if xt <= 0.0 then 1 else 0
  }

  /** The step condition of the bisection: the probe xs[i] sends the search
      up (jl := i) when (x >= xs[i]) agrees with the direction asc. */
  predicate GoesUp(x: real, xs: seq<real>, asc: bool, i: int)
    requires 0 <= i < |xs|
  {
    (x >= xs[i]) == asc
  }

  /** The bisection loop of locate on the bracket [jl, ju), run to
      completion: halve at jm = (ju + jl) / 2 until ju - jl <= 1, and return
      the final jl. */
  function Bisect(x: real, xs: seq<real>, asc: bool, jl: int, ju: int): (j: int)
    requires 0 <= jl < ju <= |xs|
    ensures jl <= j < ju
    decreases ju - jl
  {
    if ju - jl <= 1 then jl
    else
      var jm := (ju + jl) / 2;
      if GoesUp(x, xs, asc, jm) then Bisect(x, xs, asc, jm, ju) else Bisect(x, xs, asc, jl, jm)
  }

  /** mathb::locate on the table xs (the first n entries of xx): 0 when x
      lies outside [xs[0], xs[n-1]], 0 when x == xs[0], n - 2 when
      x == xs[n-1], and otherwise the index the bisection ends on, with the
      direction taken from xs[n-1] >= xs[0]. */
  function LocateIndex(x: real, xs: seq<real>): (j: int)
    requires |xs| >= 1
    ensures CheckBounds(x, xs[0], xs[|xs| - 1]) == 0 ==> j == 0
    ensures x == xs[0] ==> j == 0
  {
    var n := |xs|;
    if CheckBounds(x, xs[0], xs[n - 1]) == 0 then 0
    else
      var jl := Bisect(x, xs, xs[n - 1] >= xs[0], 0, n);
      if x == xs[0] then 0
      else if x == xs[n - 1] then n - 2
      else jl
  }

  /** mathb::locate: bisection over the first n entries of xx.  The table
      is only read. */
  method Locate(x: real, xx: array<real>, n: int) returns (j: int)
    requires 1 <= n <= xx.Length
    ensures j == LocateIndex(x, xx[..n])
  {
    ghost var xs := xx[..n];
    if CheckBounds(x, xx[0], xx[n - 1]) == 0 {
      return 0;
    }
    var jl, ju := 0, n;
    var asc := xx[n - 1] >= xx[0];
    while ju - jl > 1
      invariant 0 <= jl < ju <= n
      invariant Bisect(x, xs, asc, jl, ju) == Bisect(x, xs, asc, 0, n)
      decreases ju - jl
    {
      var jm := (ju + jl) / 2;
      if (x >= xx[jm]) == asc {
        jl := jm;
      } else {
        ju := jm;
      }
    }
    if x == xx[0] {
      j := 0;
    } else if x == xx[n - 1] {
      j := n - 2;
    } else {
      j := jl;
    }
  }

  /** The bracket the bisection keeps: the lower end lo is 0 or a probe that
      sends the search up, the upper end hi is n or a probe that sends it
      down. */
  predicate Bracketed(x: real, xs: seq<real>, asc: bool, lo: int, hi: int)
    requires 0 <= lo < hi <= |xs|
  {
    (lo == 0 || GoesUp(x, xs, asc, lo)) && (hi == |xs| || !GoesUp(x, xs, asc, hi))
  }

  /** Whatever the table holds, the bisection keeps its bracket, and the
      index j it returns is bracketed with j + 1. */
  lemma {:induction false} BisectBrackets(x: real, xs: seq<real>, asc: bool, jl: int, ju: int)
    requires 0 <= jl < ju <= |xs| && Bracketed(x, xs, asc, jl, ju)
    ensures Bisect(x, xs, asc, jl, ju) + 1 <= |xs|
    ensures Bracketed(x, xs, asc, Bisect(x, xs, asc, jl, ju), Bisect(x, xs, asc, jl, ju) + 1)
    decreases ju - jl
  {
    if ju - jl > 1 {
      var jm := (ju + jl) / 2;
      if GoesUp(x, xs, asc, jm) {
        BisectBrackets(x, xs, asc, jm, ju);
      } else {
        BisectBrackets(x, xs, asc, jl, jm);
      }
    }
  }

  /** Ascending table (xs[n-1] >= xs[0]), x strictly inside: the index j
      brackets x as xs[j] <= x < xs[j+1].  No monotonicity of the inner
      entries is needed. */
  lemma LocateAscending(x: real, xs: seq<real>)
    requires |xs| >= 2 && xs[0] <= xs[|xs| - 1]
    requires xs[0] < x < xs[|xs| - 1]
    ensures var j := LocateIndex(x, xs);
      0 <= j <= |xs| - 2 && xs[j] <= x < xs[j + 1]
  {
    BisectBrackets(x, xs, true, 0, |xs|);
  }

  /** Descending table (xs[n-1] < xs[0]), x strictly inside: the index j
      brackets x as xs[j] > x >= xs[j+1]. */
  lemma LocateDescending(x: real, xs: seq<real>)
    requires |xs| >= 2 && xs[|xs| - 1] < xs[0]
    requires xs[|xs| - 1] < x < xs[0]
    ensures var j := LocateIndex(x, xs);
      0 <= j <= |xs| - 2 && xs[j] > x >= xs[j + 1]
  {
    BisectBrackets(x, xs, false, 0, |xs|);
  }

  /** The result is always an index of the table, and with two or more
      entries it is the lower end of a pair xs[j], xs[j+1]; the upper
      endpoint maps to n - 2 unless it is also the lower one. */
  lemma LocateRange(x: real, xs: seq<real>)
    requires |xs| >= 1
    ensures var j := LocateIndex(x, xs);
      && 0 <= j < |xs|
      && (|xs| >= 2 ==> j <= |xs| - 2)
      && (|xs| >= 2 && x == xs[|xs| - 1] && x != xs[0] ==> j == |xs| - 2)
  {
    var n := |xs|;
    if n >= 2 && CheckBounds(x, xs[0], xs[n - 1]) == 1 && x != xs[0] && x != xs[n - 1] {
      if xs[0] <= xs[n - 1] {
        LocateAscending(x, xs);
      } else {
        LocateDescending(x, xs);
      }
    }
  }
}

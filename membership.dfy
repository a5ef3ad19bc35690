/**
 * Membership functions: the two piecewise-linear shapes the stages use,
 * triangles (`trimf`) and trapezoids (`trapmf`), evaluated exactly over `real`.
 */
module Membership {

  /** A membership function given by its breakpoints. */
  datatype MF =
    | Tri(a: real, b: real, c: real)
    | Trap(a: real, b: real, c: real, d: real)

  /** The breakpoints are in non-decreasing order, as both shapes demand. */
  predicate WellFormed(mf: MF) {
    match mf
    case Tri(a, b, c) => a <= b <= c
    case Trap(a, b, c, d) => a <= b <= c <= d
  }

  /** Left end of the support (the first breakpoint). */
  function SupportLo(mf: MF): real {
    mf.a
  }

  /** Right end of the support (the last breakpoint). */
  function SupportHi(mf: MF): real {
    match mf
    case Tri(_, _, c) => c
    case Trap(_, _, _, d) => d
  }

  /** Left end of the core, where the degree first reaches 1. */
  function CoreLo(mf: MF): real {
    mf.b
  }

  /** Right end of the core: the peak of a triangle, the end of a trapezoid's plateau. */
  function CoreHi(mf: MF): real {
    match mf
    case Tri(_, b, _) => b
    case Trap(_, _, c, _) => c
  }

  /**
   * Degree of membership of `x`: 0 outside [first, last breakpoint], a linear
   * rise from the first breakpoint to the core, 1 on the core, a linear fall to
   * the last breakpoint. An edge of zero width is a step, so it never divides by zero.
   */
  function Degree(mf: MF, x: real): (r: real)
    ensures 0.0 <= r <= 1.0
    ensures x < SupportLo(mf) || SupportHi(mf) < x ==> r == 0.0
    ensures WellFormed(mf) && CoreLo(mf) <= x <= CoreHi(mf) ==> r == 1.0
    ensures WellFormed(mf) && SupportLo(mf) < x < SupportHi(mf) ==> r > 0.0
  {
    match mf
    case Tri(a, b, c) =>
      if x < a || c < x then 0.0
      else if x < b then Ratio(x - a, b - a)
      else if x == b then 1.0
      else if x < c then Ratio(c - x, c - b)
      else 0.0
    case Trap(a, b, c, d) =>
      if x < a || d < x then 0.0
      else if x < b then Ratio(x - a, b - a)
      else if x <= c then 1.0
      else if x < d then Ratio(d - x, d - c)
      else 0.0
  }

  /** The position of `u` along an edge of width `w`, as a fraction in [0,1]. */
  function Ratio(u: real, w: real): (r: real)
    requires 0.0 <= u <= w && 0.0 < w
    ensures 0.0 <= r <= 1.0
    ensures 0.0 < r <==> 0.0 < u
  {
    assert u / w <= w / w by { DivideMonotone(u, w, w); }
    u / w
  }

  lemma RatioScales(u: real, w: real)
    requires 0.0 <= u <= w && 0.0 < w
    ensures Ratio(u, w) * w == u
  {
  }

  /** A triangle is the trapezoid whose plateau is the single point of its peak. */
  lemma TriangleIsDegenerateTrapezoid(a: real, b: real, c: real, x: real)
    requires a <= b <= c
    ensures Degree(Tri(a, b, c), x) == Degree(Trap(a, b, b, c), x)
  {
  }

  /** A well-formed shape rises up to its core and falls after it (a convex fuzzy set). */
  lemma DegreeRisesThenFalls(mf: MF, x: real, y: real)
    requires WellFormed(mf) && x <= y
    ensures y <= CoreLo(mf) ==> Degree(mf, x) <= Degree(mf, y)
    ensures CoreHi(mf) <= x ==> Degree(mf, y) <= Degree(mf, x)
  {
    var a, b := mf.a, mf.b;
    if y <= b && a <= x && x < b {
      assert (x - a) / (b - a) <= (y - a) / (b - a) by {
        DivideMonotone(x - a, y - a, b - a);
      }
    }
    var c, d := CoreHi(mf), SupportHi(mf);
    if c <= x && x < d && y <= d {
      assert (d - y) / (d - c) <= (d - x) / (d - c) by {
        DivideMonotone(d - y, d - x, d - c);
      }
    }
  }

  lemma DivideMonotone(u: real, v: real, w: real)
    requires u <= v && 0.0 < w
    ensures u / w <= v / w
  {
    assert v / w - u / w == (v - u) / w;
  }

  /** The positions along one edge, measured from its two ends, add up to the whole edge. */
  lemma ComplementaryRatios(u: real, v: real, w: real)
    requires 0.0 <= u && 0.0 <= v && u + v == w && 0.0 < w
    ensures Ratio(u, w) + Ratio(v, w) == 1.0
  {
    var ru, rv := Ratio(u, w), Ratio(v, w);
    RatioScales(u, w);
    RatioScales(v, w);
    assert (ru + rv) * w == ru * w + rv * w;
    assert (ru + rv - 1.0) * w == 0.0;
    ZeroProduct(ru + rv - 1.0, w);
  }

  lemma ZeroProduct(t: real, w: real)
    requires t * w == 0.0 && w != 0.0
    ensures t == 0.0
  {
  }

  /**
   * Three trapezoids that hand over from one to the next on (p, q) and (r, s)
   * partition [lo, hi]: their degrees sum to exactly 1 there. A triangle middle
   * term is the case q == r.
   */
  lemma PartitionOfUnity(lo: real, p: real, q: real, r: real, s: real, hi: real, x: real)
    requires lo <= p < q <= r < s <= hi
    requires lo <= x <= hi
    ensures Degree(Trap(lo, lo, p, q), x) + Degree(Trap(p, q, r, s), x) + Degree(Trap(r, s, hi, hi), x) == 1.0
  {
    var left, middle, right := Degree(Trap(lo, lo, p, q), x), Degree(Trap(p, q, r, s), x), Degree(Trap(r, s, hi, hi), x);
    if x <= p {
      assert left == 1.0 && middle == 0.0 && right == 0.0;
    } else if x < q {
      HandOver(lo, lo, p, q, r, s, x);
      assert right == 0.0;
    } else if x <= r {
      assert left == 0.0 && middle == 1.0 && right == 0.0;
    } else if x < s {
      HandOver(p, q, r, s, hi, hi, x);
      assert left == 0.0;
    } else {
      assert left == 0.0 && middle == 0.0 && right == 1.0;
    }
  }

  /** On the edge (p, q) where one trapezoid falls, the next one rises by as much. */
  lemma HandOver(a: real, b: real, p: real, q: real, r: real, s: real, x: real)
    requires a <= b <= p < x < q <= r <= s
    ensures Degree(Trap(a, b, p, q), x) + Degree(Trap(p, q, r, s), x) == 1.0
  {
    assert Degree(Trap(a, b, p, q), x) == Ratio(q - x, q - p);
    assert Degree(Trap(p, q, r, s), x) == Ratio(x - p, q - p);
    ComplementaryRatios(q - x, x - p, q - p);
  }

  /** In a partition of unity some term always has a positive degree. */
  lemma PartitionHasPositiveTerm(lo: real, p: real, q: real, r: real, s: real, hi: real, x: real)
    requires lo <= p < q <= r < s <= hi
    requires lo <= x <= hi
    ensures Degree(Trap(lo, lo, p, q), x) > 0.0 || Degree(Trap(p, q, r, s), x) > 0.0 || Degree(Trap(r, s, hi, hi), x) > 0.0
  {
    PartitionOfUnity(lo, p, q, r, s, hi, x);
  }
}

/**
 * src/utils/math.ts: the Euclidean distance between two points, and the
 * length of a polyline as the sum of its segment lengths (the fold that
 * src/geometry/pipeline.ts and src/geometry/tapered.ts both compute).
 */
module MathUtils {
  import opened Types

  /** `distance(a, b) = Math.hypot(a.x - b.x, a.y - b.y)`. */
  function Distance(hypot: Hypot, a: Point, b: Point): (d: real)
    ensures d >= 0.0
    ensures d == 0.0 <==> a == b
  {
    hypot(a.x - b.x, a.y - b.y)
  }

  lemma DistanceSymmetric(hypot: Hypot, a: Point, b: Point)
    ensures Distance(hypot, a, b) == Distance(hypot, b, a)
  {
    assert hypot(Neg(a.x - b.x), Neg(a.y - b.y)) == hypot(a.x - b.x, a.y - b.y);
    assert Neg(a.x - b.x) == b.x - a.x && Neg(a.y - b.y) == b.y - a.y;
  }

  lemma DistanceToSelf(hypot: Hypot, a: Point)
    ensures Distance(hypot, a, a) == 0.0
  {
  }

  /** The distance depends on the coordinate differences only. */
  lemma DistanceTranslationInvariant(hypot: Hypot, a: Point, b: Point, dx: real, dy: real)
    ensures Distance(hypot, Point(a.x + dx, a.y + dy), Point(b.x + dx, b.y + dy)) == Distance(hypot, a, b)
  {
    assert (a.x + dx) - (b.x + dx) == a.x - b.x;
    assert (a.y + dy) - (b.y + dy) == a.y - b.y;
  }

  /**
   * The sum of the distances between consecutive points; built from the left,
   * as `Array.prototype.reduce` and the accumulating loops do.
   */
  function PolylineLength(hypot: Hypot, pts: seq<Point>): (len: real)
    decreases |pts|
  {
    if |pts| <= 1 then 0.0
    else PolylineLength(hypot, pts[..|pts| - 1]) + Distance(hypot, pts[|pts| - 1], pts[|pts| - 2])
  }

  lemma {:induction false} PolylineLengthNonNegative(hypot: Hypot, pts: seq<Point>)
    ensures PolylineLength(hypot, pts) >= 0.0
    decreases |pts|
  {
    if |pts| > 1 {
      PolylineLengthNonNegative(hypot, pts[..|pts| - 1]);
    }
  }

  /** Extending a polyline never shortens it. */
  lemma {:induction false} PolylineLengthMonotone(hypot: Hypot, pts: seq<Point>, k: nat)
    requires k <= |pts|
    ensures PolylineLength(hypot, pts[..k]) <= PolylineLength(hypot, pts)
    decreases |pts|
  {
    if k < |pts| {
      var init := pts[..|pts| - 1];
      assert init[..k] == pts[..k];
      PolylineLengthMonotone(hypot, init, k);
      if |pts| >= 2 {
        assert PolylineLength(hypot, pts) == PolylineLength(hypot, init) + Distance(hypot, pts[|pts| - 1], pts[|pts| - 2]);
      }
    } else {
      assert pts[..k] == pts;
    }
  }

  /** The length is zero exactly when all the points coincide with the first. */
  lemma {:induction false} PolylineLengthZeroIff(hypot: Hypot, pts: seq<Point>)
    requires |pts| > 0
    ensures PolylineLength(hypot, pts) == 0.0 <==> forall i :: 0 <= i < |pts| ==> pts[i] == pts[0]
    decreases |pts|
  {
    if |pts| > 1 {
      var init := pts[..|pts| - 1];
      PolylineLengthZeroIff(hypot, init);
      PolylineLengthNonNegative(hypot, init);
      if PolylineLength(hypot, pts) == 0.0 {
        assert PolylineLength(hypot, init) == 0.0;
        assert forall i :: 0 <= i < |init| ==> pts[i] == init[i];
        assert pts[|pts| - 1] == pts[|pts| - 2];
      }
    }
  }
}

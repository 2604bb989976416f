/**
 * src/utils/meshGenerator.ts: builds the twist/rotation solid as an indexed
 * triangle mesh. The revolution curve gives a radius for each of the 101
 * rings (height on y, radius on x), the optional twist curve gives each
 * ring's twist angle (height on x, degrees on y), and the rotation curve is
 * the cross-section placed on every ring. Consecutive rings are joined by
 * two triangles per quad, wrapping around each ring.
 */
module MeshGenerator {
  import opened Wrappers
  import opened Types

  /** The key argument of `interpolate`: `'x'` or `'y'`. */
  datatype Axis = X | Y

  function Coord(p: Point, axis: Axis): real {
    match axis
    case X => p.x
    case Y => p.y
  }

  /** Whether `value` lies in the key range of segment `i` (either orientation). */
  predicate InSegment(curve: seq<Point>, i: nat, value: real, valueKey: Axis)
    requires i + 1 < |curve|
  {
    var v1, v2 := Coord(curve[i], valueKey), Coord(curve[i + 1], valueKey);
    (value >= v1 && value <= v2) || (value >= v2 && value <= v1)
  }

  /**
   * The search loop of `interpolate` from segment `i` on: the first segment
   * whose key range holds `value`, or `|curve| - 1` when none does.
   */
  function FindSegment(curve: seq<Point>, value: real, valueKey: Axis, i: nat): (k: nat)
    requires i < |curve|
    ensures i <= k < |curve|
    ensures k + 1 < |curve| ==> InSegment(curve, k, value, valueKey)
    ensures forall j :: i <= j < k ==> !InSegment(curve, j, value, valueKey)
    decreases |curve| - i
  {
    if i + 1 == |curve| then i
    else if InSegment(curve, i, value, valueKey) then i
    else FindSegment(curve, value, valueKey, i + 1)
  }

  /** `a + t * (b - a)`. */
  function Mix(a: real, b: real, t: real): real {
    a + t * (b - a)
  }

  /** The clamp after the search: the endpoint whose key is nearer; ties go to the last point. */
  function Clamp(curve: seq<Point>, value: real, valueKey: Axis, resultKey: Axis): real
    requires |curve| > 0
  {
    var first, last := curve[0], curve[|curve| - 1];
    if Abs(value - Coord(first, valueKey)) < Abs(value - Coord(last, valueKey)) then Coord(first, resultKey)
    else Coord(last, resultKey)
  }

  /**
   * `interpolate(curve, value, valueKey, resultKey)` as written, with `None`
   * for the `NaN` it returns when the first segment holding `value` is flat
   * in the key (`(value - v1) / (v2 - v1)` is then 0/0).
   */
  function InterpolateAsWritten(curve: seq<Point>, value: real, valueKey: Axis, resultKey: Axis): (r: Option<real>)
    ensures r.None? <==>
      (|curve| >= 2 && var k := FindSegment(curve, value, valueKey, 0);
        k + 1 < |curve| && Coord(curve[k], valueKey) == Coord(curve[k + 1], valueKey))
  {
    if |curve| == 0 then Some(0.0)
    else if |curve| == 1 then Some(Coord(curve[0], resultKey))
    else
      var k := FindSegment(curve, value, valueKey, 0);
      if k + 1 < |curve| then
        var v1, v2 := Coord(curve[k], valueKey), Coord(curve[k + 1], valueKey);
        if v2 == v1 then None
        else Some(Mix(Coord(curve[k], resultKey), Coord(curve[k + 1], resultKey), (value - v1) / (v2 - v1)))
      else Some(Clamp(curve, value, valueKey, resultKey))
  }

  /**
   * `interpolate` with the flat-segment case corrected: a segment flat in the
   * key yields its first point's result, the limit of the interpolation.
   */
  function Interpolate(curve: seq<Point>, value: real, valueKey: Axis, resultKey: Axis): (r: real)
    ensures |curve| == 0 ==> r == 0.0
    ensures |curve| == 1 ==> r == Coord(curve[0], resultKey)
  {
    if |curve| == 0 then 0.0
    else if |curve| == 1 then Coord(curve[0], resultKey)
    else
      var k := FindSegment(curve, value, valueKey, 0);
      if k + 1 < |curve| then
        var v1, v2 := Coord(curve[k], valueKey), Coord(curve[k + 1], valueKey);
        if v2 == v1 then Coord(curve[k], resultKey)
        else Mix(Coord(curve[k], resultKey), Coord(curve[k + 1], resultKey), (value - v1) / (v2 - v1))
      else Clamp(curve, value, valueKey, resultKey)
  }

  lemma QuotientInUnitRange(a: real, b: real)
    requires (0.0 <= a <= b && b > 0.0) || (b <= a <= 0.0 && b < 0.0)
    ensures 0.0 <= a / b <= 1.0
  {
    assert a / b * b == a;
  }

  lemma UnitScaleOfNonNegative(t: real, d: real)
    requires 0.0 <= t <= 1.0 && 0.0 <= d
    ensures 0.0 <= t * d <= d
  {
    assert 0.0 <= (1.0 - t) * d;
  }

  lemma UnitScaleOfNonPositive(t: real, d: real)
    requires 0.0 <= t <= 1.0 && d <= 0.0
    ensures d <= t * d <= 0.0
  {
    assert 0.0 <= (1.0 - t) * -d;
  }

  /** Mixing at `p / q` moves from `a` by `p / q` of the way to `b`. */
  lemma MixAtQuotient(a: real, b: real, p: real, q: real)
    requires q != 0.0
    ensures (Mix(a, b, p / q) - a) * q == p * (b - a)
    ensures p == 0.0 ==> Mix(a, b, p / q) == a
    ensures p == q ==> Mix(a, b, p / q) == b
  {
    var t := p / q;
    assert t * q == p;
    assert (t * (b - a)) * q == (t * q) * (b - a);
  }

  lemma MixBetween(a: real, b: real, t: real)
    requires 0.0 <= t <= 1.0
    ensures a <= b ==> a <= Mix(a, b, t) <= b
    ensures b <= a ==> b <= Mix(a, b, t) <= a
  {
    var d := b - a;
    var m := t * d;
    assert Mix(a, b, t) == a + m;
    if 0.0 <= d {
      UnitScaleOfNonNegative(t, d);
    }
    if d <= 0.0 {
      UnitScaleOfNonPositive(t, d);
    }
  }

  /**
   * Inside the first segment `k` holding `value`, the result lies between
   * the results at the segment's two ends, and at the segment's start key
   * it is the start point's result.
   */
  lemma InterpolateOnSegment(curve: seq<Point>, value: real, valueKey: Axis, resultKey: Axis)
    requires |curve| >= 2
    requires FindSegment(curve, value, valueKey, 0) + 1 < |curve|
    ensures var k, r := FindSegment(curve, value, valueKey, 0), Interpolate(curve, value, valueKey, resultKey);
      var a, b := Coord(curve[k], resultKey), Coord(curve[k + 1], resultKey);
      && InSegment(curve, k, value, valueKey)
      && (forall j :: 0 <= j < k ==> !InSegment(curve, j, value, valueKey))
      && (a <= b ==> a <= r <= b)
      && (b <= a ==> b <= r <= a)
      && (value == Coord(curve[k], valueKey) ==> r == a)
  {
    var k := FindSegment(curve, value, valueKey, 0);
    var v1, v2 := Coord(curve[k], valueKey), Coord(curve[k + 1], valueKey);
    var a, b := Coord(curve[k], resultKey), Coord(curve[k + 1], resultKey);
    if v2 != v1 {
      var t := (value - v1) / (v2 - v1);
      QuotientInUnitRange(value - v1, v2 - v1);
      MixBetween(a, b, t);
      if value == v1 {
        assert t == 0.0;
      }
    }
  }

  /**
   * On that segment the result is linear in the value: it moves from the
   * start's result by the same fraction of the way to the end's result as
   * the value moves from the start's key to the end's key, so the end key
   * gives the end's result. A segment flat in the key gives the start's result.
   */
  lemma InterpolateLinearOnSegment(curve: seq<Point>, value: real, valueKey: Axis, resultKey: Axis)
    requires |curve| >= 2
    requires FindSegment(curve, value, valueKey, 0) + 1 < |curve|
    ensures var k, r := FindSegment(curve, value, valueKey, 0), Interpolate(curve, value, valueKey, resultKey);
      var a, b := Coord(curve[k], resultKey), Coord(curve[k + 1], resultKey);
      var v1, v2 := Coord(curve[k], valueKey), Coord(curve[k + 1], valueKey);
      && (v1 != v2 ==> (r - a) * (v2 - v1) == (value - v1) * (b - a))
      && (v1 != v2 && value == v2 ==> r == b)
      && (v1 == v2 ==> r == a)
  {
    var k := FindSegment(curve, value, valueKey, 0);
    var v1, v2 := Coord(curve[k], valueKey), Coord(curve[k + 1], valueKey);
    var a, b := Coord(curve[k], resultKey), Coord(curve[k + 1], resultKey);
    var r := Interpolate(curve, value, valueKey, resultKey);
    if v2 != v1 {
      var p, q := value - v1, v2 - v1;
      assert r == Mix(a, b, p / q);
      MixAtQuotient(a, b, p, q);
    } else {
      assert r == a;
    }
  }

  /**
   * A value outside every segment clamps to the endpoint whose key is
   * nearer, and a tie goes to the last point.
   */
  lemma InterpolateClampsOutside(curve: seq<Point>, value: real, valueKey: Axis, resultKey: Axis)
    requires |curve| >= 2
    requires forall j :: 0 <= j < |curve| - 1 ==> !InSegment(curve, j, value, valueKey)
    ensures var dFirst, dLast := Abs(value - Coord(curve[0], valueKey)), Abs(value - Coord(curve[|curve| - 1], valueKey));
      && (dFirst < dLast ==> Interpolate(curve, value, valueKey, resultKey) == Coord(curve[0], resultKey))
      && (dFirst >= dLast ==> Interpolate(curve, value, valueKey, resultKey) == Coord(curve[|curve| - 1], resultKey))
  {
  }

  /** Wherever the code as written yields a number, the corrected interpolation yields the same one. */
  lemma CorrectedAgreesWhenDefined(curve: seq<Point>, value: real, valueKey: Axis, resultKey: Axis)
    requires InterpolateAsWritten(curve, value, valueKey, resultKey).Some?
    ensures Interpolate(curve, value, valueKey, resultKey) == InterpolateAsWritten(curve, value, valueKey, resultKey).value
  {
  }

  /**
   * The code as written returns `NaN` on a profile with a flat base: the
   * segment from (0, 0) to (5, 0) is the first to hold height 0, and is flat
   * in y. The corrected interpolation returns the radius 0 there.
   */
  lemma FlatBaseYieldsNaN()
    ensures var curve := [Point(0.0, 0.0), Point(5.0, 0.0), Point(5.0, 10.0)];
      && InterpolateAsWritten(curve, 0.0, Y, X) == None
      && Interpolate(curve, 0.0, Y, X) == 0.0
  {
    var curve := [Point(0.0, 0.0), Point(5.0, 0.0), Point(5.0, 10.0)];
    assert InSegment(curve, 0, 0.0, Y);
    assert FindSegment(curve, 0.0, Y, 0) == 0;
  }

  // ---------------------------------------------------------------- geometry

  /** `heightSegments`: rings are `0 ..= HeightSegments`. */
  const HeightSegments: nat := 100

  /**
   * The cosine and sine of a twist angle given in degrees
   * (`Math.cos`/`Math.sin` of `angle * Math.PI / 180`), which this model
   * takes as a parameter.
   */
  type Trig = real -> (real, real)

  /** The `BufferGeometry`: a flat position list (3 numbers per vertex) and the triangle index list. */
  datatype Mesh = Mesh(positions: seq<real>, indices: seq<int>)

  /** The smallest y of the curve: the `minY` tracked by the `forEach`. */
  function MinY(curve: seq<Point>): real
    requires |curve| > 0
    decreases |curve|
  {
    if |curve| == 1 then curve[0].y
    else
      var m := MinY(curve[..|curve| - 1]);
      var last := curve[|curve| - 1].y;
      if last < m then last else m
  }

  /** The largest y of the curve: the `maxY` tracked by the `forEach`. */
  function MaxY(curve: seq<Point>): real
    requires |curve| > 0
    decreases |curve|
  {
    if |curve| == 1 then curve[0].y
    else
      var m := MaxY(curve[..|curve| - 1]);
      var last := curve[|curve| - 1].y;
      if last > m then last else m
  }

  /** `MinY` is the least y of the curve: no point lies below it and some point lies on it. */
  lemma {:induction false} MinYIsLeast(curve: seq<Point>)
    requires |curve| > 0
    ensures forall i :: 0 <= i < |curve| ==> MinY(curve) <= curve[i].y
    ensures exists i :: 0 <= i < |curve| && MinY(curve) == curve[i].y
    decreases |curve|
  {
    if |curve| > 1 {
      var init := curve[..|curve| - 1];
      MinYIsLeast(init);
      assert forall i :: 0 <= i < |init| ==> init[i] == curve[i];
      var last := |curve| - 1;
      if curve[last].y < MinY(init) {
        assert MinY(curve) == curve[last].y;
      } else {
        var w :| 0 <= w < |init| && MinY(init) == init[w].y;
        assert MinY(curve) == curve[w].y;
      }
    } else {
      assert MinY(curve) == curve[0].y;
    }
  }

  /** `MaxY` is the greatest y of the curve: no point lies above it and some point lies on it. */
  lemma {:induction false} MaxYIsGreatest(curve: seq<Point>)
    requires |curve| > 0
    ensures forall i :: 0 <= i < |curve| ==> curve[i].y <= MaxY(curve)
    ensures exists i :: 0 <= i < |curve| && MaxY(curve) == curve[i].y
    decreases |curve|
  {
    if |curve| > 1 {
      var init := curve[..|curve| - 1];
      MaxYIsGreatest(init);
      assert forall i :: 0 <= i < |init| ==> init[i] == curve[i];
      var last := |curve| - 1;
      if curve[last].y > MaxY(init) {
        assert MaxY(curve) == curve[last].y;
      } else {
        var w :| 0 <= w < |init| && MaxY(init) == init[w].y;
        assert MaxY(curve) == curve[w].y;
      }
    } else {
      assert MaxY(curve) == curve[0].y;
    }
  }

  /** The height of ring `i`. */
  function RingY(minY: real, height: real, i: nat): real {
    minY + (i as real / HeightSegments as real) * height
  }

  /** The twist angle at height `y`: 0 without a (non-empty) twist curve. */
  function TwistAngle(twistCurve: Option<seq<Point>>, y: real): real {
    if twistCurve.Some? && |twistCurve.value| > 0 then Interpolate(twistCurve.value, y, X, Y) else 0.0
  }

  /**
   * The factor applied to the cross-section: `radius / 10`, or 0 for a
   * radius that is not positive. A `NaN` radius (`None`) fails `radius > 0`
   * and also gives 0.
   */
  function ScaleOf(radius: Option<real>): real {
    if radius.Some? && radius.value > 0.0 then radius.value / 10.0 else 0.0
  }

  /** The three numbers pushed for a scaled cross-section point: rotated by the twist, at height `y`. */
  function RotatedVertex(scaledX: real, scaledY: real, cosT: real, sinT: real, y: real): seq<real> {
    [scaledX * cosT - scaledY * sinT, y, scaledX * sinT + scaledY * cosT]
  }

  /** The three numbers for cross-section point `p` scaled by `scale`. */
  function PlacedVertex(p: Point, scale: real, cosT: real, sinT: real, y: real): seq<real> {
    RotatedVertex(p.x * scale, p.y * scale, cosT, sinT, y)
  }

  /** The first `j` cross-section points of a ring at height `y`, scaled and twisted. */
  function RingCoords(rotation: seq<Point>, scale: real, cosT: real, sinT: real, y: real, j: nat): (coords: seq<real>)
    requires j <= |rotation|
    ensures |coords| == 3 * j
  {
    if j == 0 then []
    else RingCoords(rotation, scale, cosT, sinT, y, j - 1) + PlacedVertex(rotation[j - 1], scale, cosT, sinT, y)
  }

  /**
   * The whole ring at height `y`: scale from the revolution curve, as the code
   * computes it, and twist from the twist curve.
   */
  function Ring(trig: Trig, revolution: seq<Point>, rotation: seq<Point>, twistCurve: Option<seq<Point>>, y: real)
    : (coords: seq<real>)
    ensures |coords| == 3 * |rotation|
  {
    var cs := trig(TwistAngle(twistCurve, y));
    RingCoords(rotation, ScaleOf(InterpolateAsWritten(revolution, y, Y, X)), cs.0, cs.1, y, |rotation|)
  }

  /** A ring scaled by 0 lies on the axis: every vertex is (0, y, 0), whatever the twist. */
  lemma {:induction false} ZeroScaleRingOnAxis(rotation: seq<Point>, cosT: real, sinT: real, y: real, j: nat)
    requires j <= |rotation|
    ensures forall m :: 0 <= m < 3 * j ==> RingCoords(rotation, 0.0, cosT, sinT, y, j)[m] == (if m % 3 == 1 then y else 0.0)
  {
    if j > 0 {
      ZeroScaleRingOnAxis(rotation, cosT, sinT, y, j - 1);
      var prev := RingCoords(rotation, 0.0, cosT, sinT, y, j - 1);
      var v := PlacedVertex(rotation[j - 1], 0.0, cosT, sinT, y);
      assert v == [0.0, y, 0.0];
      var coords := prev + v;
      assert coords == RingCoords(rotation, 0.0, cosT, sinT, y, j);
      forall m | 0 <= m < 3 * j
        ensures coords[m] == (if m % 3 == 1 then y else 0.0)
      {
        if m < 3 * (j - 1) {
          assert coords[m] == prev[m];
        } else {
          var d := m - 3 * (j - 1);
          assert coords[m] == v[d];
          ModOfMultiplePlus(m, j - 1, d);
          if d == 1 {
            assert v[d] == y;
          } else {
            assert v[d] == 0.0;
          }
        }
      }
    }
  }

  lemma ModOfMultiplePlus(m: nat, q: nat, d: nat)
    requires d < 3 && m == 3 * q + d
    ensures m % 3 == d
  {
  }

  /**
   * Where the first revolution segment holding the ring's height is flat in
   * y, the radius is `NaN`, which fails `radius > 0`: the ring collapses onto
   * the axis, every vertex at (0, y, 0).
   */
  lemma FlatRadiusSegmentCollapsesRing(trig: Trig, revolution: seq<Point>, rotation: seq<Point>,
                                       twistCurve: Option<seq<Point>>, y: real)
    requires |revolution| >= 2
    requires var k := FindSegment(revolution, y, Y, 0);
      k + 1 < |revolution| && revolution[k].y == revolution[k + 1].y
    ensures InterpolateAsWritten(revolution, y, Y, X).None?
    ensures var coords := Ring(trig, revolution, rotation, twistCurve, y);
      forall m :: 0 <= m < 3 * |rotation| ==> coords[m] == (if m % 3 == 1 then y else 0.0)
  {
    var cs := trig(TwistAngle(twistCurve, y));
    assert ScaleOf(InterpolateAsWritten(revolution, y, Y, X)) == 0.0;
    assert Ring(trig, revolution, rotation, twistCurve, y) == RingCoords(rotation, 0.0, cs.0, cs.1, y, |rotation|);
    ZeroScaleRingOnAxis(rotation, cs.0, cs.1, y, |rotation|);
    var coords := Ring(trig, revolution, rotation, twistCurve, y);
    assert forall m :: 0 <= m < 3 * |rotation| ==> coords[m] == (if m % 3 == 1 then y else 0.0);
  }

  /**
   * A twist curve whose first segment holding the height is flat in x: the
   * code as written computes a `NaN` angle there, while the model takes the
   * corrected angle, the first point's.
   */
  lemma FlatTwistSegment()
    ensures var twist := [Point(0.0, 0.0), Point(0.0, 45.0), Point(10.0, 90.0)];
      && InterpolateAsWritten(twist, 0.0, X, Y) == None
      && TwistAngle(Some(twist), 0.0) == 0.0
  {
    var twist := [Point(0.0, 0.0), Point(0.0, 45.0), Point(10.0, 90.0)];
    assert InSegment(twist, 0, 0.0, X);
    assert FindSegment(twist, 0.0, X, 0) == 0;
  }

  /** The positions of rings `0 .. i - 1`. */
  function RingsCoords(trig: Trig, revolution: seq<Point>, rotation: seq<Point>, twistCurve: Option<seq<Point>>,
                       minY: real, height: real, i: nat): (coords: seq<real>)
    ensures |coords| == 3 * |rotation| * i
  {
    if i == 0 then []
    else
      var prev := RingsCoords(trig, revolution, rotation, twistCurve, minY, height, i - 1);
      var ring := Ring(trig, revolution, rotation, twistCurve, RingY(minY, height, i - 1));
      assert |prev + ring| == 3 * |rotation| * (i - 1) + 3 * |rotation|;
      assert 3 * |rotation| * (i - 1) + 3 * |rotation| == 3 * |rotation| * i;
      prev + ring
  }

  /** The six indices of quad (i, j): triangles (a, c, b) and (b, c, d). */
  function Quad(n: nat, i: nat, j: nat): seq<int>
    requires n > 0
  {
    var nextJ := (j + 1) % n;
    var a, b := i * n + j, i * n + nextJ;
    var c, d := (i + 1) * n + j, (i + 1) * n + nextJ;
    [a, c, b, b, c, d]
  }

  /** The quads `0 .. j - 1` of row `i`. */
  function RowQuads(n: nat, i: nat, j: nat): (idx: seq<int>)
    requires n > 0 && j <= n
    ensures |idx| == 6 * j
  {
    if j == 0 then [] else RowQuads(n, i, j - 1) + Quad(n, i, j - 1)
  }

  /** The quads of rows `0 .. i - 1`. */
  function Rows(n: nat, i: nat): (idx: seq<int>)
    requires n > 0
    ensures |idx| == 6 * n * i
  {
    if i == 0 then []
    else
      var prev := Rows(n, i - 1);
      assert 6 * n * (i - 1) + 6 * n == 6 * n * i;
      prev + RowQuads(n, i - 1, n)
  }

  /** When `generateTwistRotGeometry` gives no geometry. */
  predicate NoGeometry(revolutionCurve: Option<seq<Point>>, rotationCurve: Option<seq<Point>>) {
    || revolutionCurve.None? || rotationCurve.None?
    || |revolutionCurve.value| < 2 || |rotationCurve.value| < 3
    || MaxY(revolutionCurve.value) - MinY(revolutionCurve.value) <= 0.0
  }

  /** The `forEach` that tracks `minY` and `maxY`. */
  method HeightRange(curve: seq<Point>) returns (minY: real, maxY: real)
    requires |curve| > 0
    ensures minY == MinY(curve) && maxY == MaxY(curve)
  {
    // The first iteration stores the first y into both seeds (+∞ and -∞).
    minY := curve[0].y;
    maxY := curve[0].y;
    for k := 1 to |curve|
      invariant minY == MinY(curve[..k]) && maxY == MaxY(curve[..k])
    {
      assert curve[..k + 1][..k] == curve[..k];
      var p := curve[k];
      if p.y < minY {
        minY := p.y;
      }
      if p.y > maxY {
        maxY := p.y;
      }
    }
    assert curve[..|curve|] == curve;
  }

  /** Step 3: one ring of vertices per height step. */
  method GenerateVertices(trig: Trig, revolution: seq<Point>, rotation: seq<Point>, twistCurve: Option<seq<Point>>,
                          minY: real, height: real)
    returns (vertices: seq<real>)
    ensures vertices == RingsCoords(trig, revolution, rotation, twistCurve, minY, height, HeightSegments + 1)
  {
    vertices := [];
    for i := 0 to HeightSegments + 1
      invariant vertices == RingsCoords(trig, revolution, rotation, twistCurve, minY, height, i)
    {
      var t := i as real / HeightSegments as real;
      var currentY := minY + t * height;
      assert currentY == RingY(minY, height, i);
      var radius := InterpolateAsWritten(revolution, currentY, Y, X);
      var twistAngle := 0.0;
      if twistCurve.Some? && |twistCurve.value| > 0 {
        twistAngle := Interpolate(twistCurve.value, currentY, X, Y);
      }
      assert twistAngle == TwistAngle(twistCurve, currentY);
      var cs := trig(twistAngle);
      var cosT, sinT := cs.0, cs.1;
      vertices := PushRing(vertices, rotation, radius, cosT, sinT, currentY);
      RingsStep(trig, revolution, rotation, twistCurve, minY, height, i, currentY, radius, cosT, sinT);
    }
  }

  /** The inner loop of step 3: one ring's points pushed after `vertices`. */
  method PushRing(vertices: seq<real>, rotation: seq<Point>, radius: Option<real>, cosT: real, sinT: real, currentY: real)
    returns (result: seq<real>)
    ensures result == vertices + RingCoords(rotation, ScaleOf(radius), cosT, sinT, currentY, |rotation|)
  {
    result := vertices;
    for j := 0 to |rotation|
      invariant result == vertices + RingCoords(rotation, ScaleOf(radius), cosT, sinT, currentY, j)
    {
      var p := rotation[j];
      var scaledX := p.x * (if radius.Some? && radius.value > 0.0 then radius.value / 10.0 else 0.0);
      var scaledY := p.y * (if radius.Some? && radius.value > 0.0 then radius.value / 10.0 else 0.0);
      var rx := scaledX * cosT - scaledY * sinT;
      var ry := scaledX * sinT + scaledY * cosT;
      assert scaledX == p.x * ScaleOf(radius) && scaledY == p.y * ScaleOf(radius);
      PlacedVertexComputed(p, ScaleOf(radius), cosT, sinT, currentY, scaledX, scaledY);
      result := result + [rx, currentY, ry];
    }
  }

  /** One more ring appends the ring at the next height. */
  lemma RingsStep(trig: Trig, revolution: seq<Point>, rotation: seq<Point>, twistCurve: Option<seq<Point>>,
                  minY: real, height: real, i: nat, y: real, radius: Option<real>, cosT: real, sinT: real)
    requires y == RingY(minY, height, i) && radius == InterpolateAsWritten(revolution, y, Y, X)
    requires (cosT, sinT) == trig(TwistAngle(twistCurve, y))
    ensures RingsCoords(trig, revolution, rotation, twistCurve, minY, height, i + 1)
      == RingsCoords(trig, revolution, rotation, twistCurve, minY, height, i)
         + RingCoords(rotation, ScaleOf(radius), cosT, sinT, y, |rotation|)
  {
    assert Ring(trig, revolution, rotation, twistCurve, y) == RingCoords(rotation, ScaleOf(radius), cosT, sinT, y, |rotation|);
  }

  /** The numbers the loop body computes for one point are those of `PlacedVertex`. */
  lemma PlacedVertexComputed(p: Point, scale: real, cosT: real, sinT: real, y: real, scaledX: real, scaledY: real)
    requires scaledX == p.x * scale && scaledY == p.y * scale
    ensures PlacedVertex(p, scale, cosT, sinT, y) == [scaledX * cosT - scaledY * sinT, y, scaledX * sinT + scaledY * cosT]
  {
    var v := PlacedVertex(p, scale, cosT, sinT, y);
    assert v == RotatedVertex(p.x * scale, p.y * scale, cosT, sinT, y);
    assert v[0] == scaledX * cosT - scaledY * sinT;
    assert v[2] == scaledX * sinT + scaledY * cosT;
  }

  /** Step 4: two triangles per quad between consecutive rings. */
  method GenerateIndices(pointsPerRing: nat) returns (indices: seq<int>)
    requires pointsPerRing > 0
    ensures indices == Rows(pointsPerRing, HeightSegments)
  {
    indices := [];
    for i := 0 to HeightSegments
      invariant indices == Rows(pointsPerRing, i)
    {
      ghost var before := indices;
      for j := 0 to pointsPerRing
        invariant indices == before + RowQuads(pointsPerRing, i, j)
      {
        var nextJ := (j + 1) % pointsPerRing;
        var a := i * pointsPerRing + j;
        var b := i * pointsPerRing + nextJ;
        var c := (i + 1) * pointsPerRing + j;
        var d := (i + 1) * pointsPerRing + nextJ;
        assert [a, c, b] + [b, c, d] == Quad(pointsPerRing, i, j);
        indices := indices + [a, c, b];
        indices := indices + [b, c, d];
      }
    }
  }

  /**
   * The geometry of a call: none for a missing or too short curve or a flat
   * revolution curve; otherwise 101 rings of the cross-section and the
   * triangles between consecutive rings.
   */
  function TwistRotGeometry(trig: Trig, revolutionCurve: Option<seq<Point>>, rotationCurve: Option<seq<Point>>,
                            twistCurve: Option<seq<Point>>): Option<Mesh>
  {
    if NoGeometry(revolutionCurve, rotationCurve) then None
    else
      var revolution, rotation := revolutionCurve.value, rotationCurve.value;
      var minY := MinY(revolution);
      Some(Mesh(RingsCoords(trig, revolution, rotation, twistCurve, minY, MaxY(revolution) - minY, HeightSegments + 1),
                Rows(|rotation|, HeightSegments)))
  }

  /** `generateTwistRotGeometry(revolutionCurve, rotationCurve, twistCurve)`; `None` stands for `null`. */
  method GenerateTwistRotGeometry(trig: Trig, revolutionCurve: Option<seq<Point>>, rotationCurve: Option<seq<Point>>,
                                  twistCurve: Option<seq<Point>>)
    returns (geometry: Option<Mesh>)
    ensures geometry == TwistRotGeometry(trig, revolutionCurve, rotationCurve, twistCurve)
  {
    if revolutionCurve.None? || rotationCurve.None? || |revolutionCurve.value| < 2 || |rotationCurve.value| < 3 {
      return None;
    }
    var revolution, rotation := revolutionCurve.value, rotationCurve.value;
    var minY, maxY := HeightRange(revolution);
    var height := maxY - minY;
    if height <= 0.0 {
      return None;
    }
    var vertices := GenerateVertices(trig, revolution, rotation, twistCurve, minY, height);
    var indices := GenerateIndices(|rotation|);
    GeometryOfValidCurves(trig, revolutionCurve, rotationCurve, twistCurve, minY, height);
    return Some(Mesh(vertices, indices));
  }

  /** For curves that pass the checks, the geometry is built from the measured height range. */
  lemma GeometryOfValidCurves(trig: Trig, revolutionCurve: Option<seq<Point>>, rotationCurve: Option<seq<Point>>,
                              twistCurve: Option<seq<Point>>, minY: real, height: real)
    requires revolutionCurve.Some? && rotationCurve.Some?
    requires |revolutionCurve.value| >= 2 && |rotationCurve.value| >= 3
    requires minY == MinY(revolutionCurve.value) && height == MaxY(revolutionCurve.value) - minY && height > 0.0
    ensures TwistRotGeometry(trig, revolutionCurve, rotationCurve, twistCurve)
      == Some(Mesh(RingsCoords(trig, revolutionCurve.value, rotationCurve.value, twistCurve, minY, height, HeightSegments + 1),
                   Rows(|rotationCurve.value|, HeightSegments)))
  {
    var revolution := revolutionCurve.value;
    SameHeights(trig, revolution, rotationCurve.value, twistCurve, minY, height, MinY(revolution), MaxY(revolution) - MinY(revolution));
  }

  /** Rings built from equal heights are equal. */
  lemma SameHeights(trig: Trig, revolution: seq<Point>, rotation: seq<Point>, twistCurve: Option<seq<Point>>,
                    minY: real, height: real, minY': real, height': real)
    requires minY == minY' && height == height'
    ensures RingsCoords(trig, revolution, rotation, twistCurve, minY, height, HeightSegments + 1)
      == RingsCoords(trig, revolution, rotation, twistCurve, minY', height', HeightSegments + 1)
  {
  }

  lemma MulMonotone(a: nat, b: nat, n: nat)
    requires a <= b
    ensures a * n <= b * n
  {
  }

  /** Every index of quad (i, j) names a vertex of ring i or ring i + 1. */
  lemma QuadIndicesInRings(n: nat, i: nat, j: nat)
    requires n > 0 && j < n
    ensures forall x :: x in Quad(n, i, j) ==> i * n <= x < (i + 2) * n
  {
    assert (i + 1) * n == i * n + n;
    assert (i + 2) * n == i * n + 2 * n;
  }

  /** Every index of the rows below `rows` names a vertex of rings `0 ..= rows`. */
  lemma {:induction false} RowsInRange(n: nat, rows: nat)
    requires n > 0
    ensures forall k :: 0 <= k < |Rows(n, rows)| ==> 0 <= Rows(n, rows)[k] < (rows + 1) * n
    decreases rows
  {
    if rows > 0 {
      RowsInRange(n, rows - 1);
      MulMonotone(rows, rows + 1, n);
      RowQuadsInRange(n, rows - 1, n);
    }
  }

  lemma {:induction false} RowQuadsInRange(n: nat, i: nat, j: nat)
    requires n > 0 && j <= n
    ensures forall k :: 0 <= k < |RowQuads(n, i, j)| ==> i * n <= RowQuads(n, i, j)[k] < (i + 2) * n
    decreases j
  {
    if j > 0 {
      RowQuadsInRange(n, i, j - 1);
      QuadIndicesInRings(n, i, j - 1);
    }
  }

  /**
   * The mesh of a valid call: 101 rings of n vertices (3 numbers each),
   * 6 indices per quad over 100 rows of n quads, and every index naming one
   * of the 101·n vertices.
   */
  lemma MeshCounts(trig: Trig, revolutionCurve: Option<seq<Point>>, rotationCurve: Option<seq<Point>>,
                   twistCurve: Option<seq<Point>>)
    ensures var geometry := TwistRotGeometry(trig, revolutionCurve, rotationCurve, twistCurve);
      geometry.Some? ==>
        var n := |rotationCurve.value|;
        && n >= 3
        && |geometry.value.positions| == 3 * 101 * n
        && |geometry.value.indices| == 600 * n
        && forall k :: 0 <= k < |geometry.value.indices| ==> 0 <= geometry.value.indices[k] < 101 * n
  {
    if !NoGeometry(revolutionCurve, rotationCurve) {
      RowsInRange(|rotationCurve.value|, HeightSegments);
    }
  }

  /** The last quad of ring i wraps around: its right-hand vertices are the first of rings i and i + 1. */
  lemma LastQuadWraps(n: nat, i: nat)
    requires n > 0
    ensures Quad(n, i, n - 1)[2] == i * n && Quad(n, i, n - 1)[5] == (i + 1) * n
  {
    assert (n - 1 + 1) % n == 0;
  }
}

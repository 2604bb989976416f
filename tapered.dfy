/**
 * src/geometry/tapered.ts: resamples a root and a tip polyline at the same
 * normalized arc-length parameters `i / samples`, so that both profiles of a
 * 4-axis cut advance in lock-step. Parameters at or beyond the ends clamp to
 * the first or last vertex.
 */
module Tapered {
  import opened Types
  import opened MathUtils

  /** The length of the segment from `path[i - 1]` to `path[i]`. */
  function SegmentLength(hypot: Hypot, path: seq<Point>, i: nat): (len: real)
    requires 1 <= i < |path|
    ensures len >= 0.0
  {
    hypot(path[i].x - path[i - 1].x, path[i].y - path[i - 1].y)
  }

  /** The point at `ratio` of the way from `p1` to `p2`. */
  function Lerp(p1: Point, p2: Point, ratio: real): Point {
    Point(p1.x + (p2.x - p1.x) * ratio, p1.y + (p2.y - p1.y) * ratio)
  }

  /**
   * The segment walk of `getPointAtFraction` from segment `i` on, with
   * `currentDist` the length already passed: the first segment whose end
   * reaches `target` is interpolated; past the last segment, the last vertex.
   */
  function Walk(hypot: Hypot, path: seq<Point>, target: real, i: nat, currentDist: real): Point
    requires 1 <= i <= |path|
    requires currentDist < target
    decreases |path| - i
  {
    if i == |path| then path[|path| - 1]
    else
      var segLen := SegmentLength(hypot, path, i);
      if currentDist + segLen >= target then Lerp(path[i - 1], path[i], (target - currentDist) / segLen)
      else Walk(hypot, path, target, i + 1, currentDist + segLen)
  }

  /** `getPointAtFraction(path, totalLen, t)`. */
  function PointAtFraction(hypot: Hypot, path: seq<Point>, totalLen: real, t: real): (p: Point)
    requires |path| > 0
    requires 0.0 < t < 1.0 ==> totalLen > 0.0
    ensures t <= 0.0 ==> p == path[0]
    ensures t >= 1.0 ==> p == path[|path| - 1]
  {
    if t <= 0.0 then path[0]
    else if t >= 1.0 then path[|path| - 1]
    else
      MulPositive(totalLen, t);
      Walk(hypot, path, totalLen * t, 1, 0.0)
  }

  lemma ScaledBelow(a: real, t: real)
    requires 0.0 < a && 0.0 < t < 1.0
    ensures 0.0 < a * t < a
  {
    MulPositive(a, 1.0 - t);
  }

  lemma MulPositive(a: real, b: real)
    requires 0.0 < a && 0.0 < b
    ensures 0.0 < a * b
  {
  }

  /** `getPathLength(path)`: the accumulating loop over the segments. */
  method GetPathLength(hypot: Hypot, path: seq<Point>) returns (len: real)
    ensures len == PolylineLength(hypot, path)
  {
    len := 0.0;
    var i := 1;
    while i < |path|
      invariant |path| > 0 ==> 1 <= i <= |path| && len == PolylineLength(hypot, path[..i])
      invariant |path| == 0 ==> len == 0.0
    {
      var dx := path[i].x - path[i - 1].x;
      var dy := path[i].y - path[i - 1].y;
      assert path[..i + 1][..i] == path[..i];
      len := len + hypot(dx, dy);
      i := i + 1;
    }
    assert |path| > 0 ==> path[..i] == path;
  }

  /** `getPointAtFraction(path, totalLen, t)`: clamping, then the segment walk. */
  method GetPointAtFraction(hypot: Hypot, path: seq<Point>, totalLen: real, t: real) returns (p: Point)
    requires |path| > 0
    requires 0.0 < t < 1.0 ==> totalLen > 0.0
    ensures p == PointAtFraction(hypot, path, totalLen, t)
  {
    if t <= 0.0 {
      return path[0];
    }
    if t >= 1.0 {
      return path[|path| - 1];
    }
    var targetDist := totalLen * t;
    MulPositive(totalLen, t);
    assert PointAtFraction(hypot, path, totalLen, t) == Walk(hypot, path, targetDist, 1, 0.0);
    var currentDist := 0.0;
    var i := 1;
    while i < |path|
      invariant 1 <= i <= |path|
      invariant currentDist < targetDist
      invariant Walk(hypot, path, targetDist, i, currentDist) == Walk(hypot, path, targetDist, 1, 0.0)
    {
      var p1 := path[i - 1];
      var p2 := path[i];
      var dx := p2.x - p1.x;
      var dy := p2.y - p1.y;
      var segLen := hypot(dx, dy);
      assert segLen == SegmentLength(hypot, path, i);
      if currentDist + segLen >= targetDist {
        var remaining := targetDist - currentDist;
        var ratio := remaining / segLen;
        p := Point(p1.x + dx * ratio, p1.y + dy * ratio);
        assert p == Lerp(p1, p2, ratio);
        assert Walk(hypot, path, targetDist, i, currentDist) == Lerp(p1, p2, ratio);
        return;
      }
      assert Walk(hypot, path, targetDist, i, currentDist) == Walk(hypot, path, targetDist, i + 1, currentDist + segLen);
      currentDist := currentDist + segLen;
      i := i + 1;
    }
    return path[|path| - 1];
  }

  /**
   * `p` lies on segment `j` (from `path[j - 1]` to `path[j]`), the first one
   * whose cumulative end reaches `target`, at the ratio
   * `(target - before) / segLen` of its own length, which is in (0, 1].
   */
  ghost predicate OnReachingSegment(hypot: Hypot, path: seq<Point>, target: real, j: nat, p: Point) {
    if 1 <= j < |path| then
      PrefixLengthStep(hypot, path, j);
      var before := PolylineLength(hypot, path[..j]);
      && before < target <= PolylineLength(hypot, path[..j + 1])
      && var ratio := (target - before) / SegmentLength(hypot, path, j);
         0.0 < ratio <= 1.0 && p == Lerp(path[j - 1], path[j], ratio)
    else false
  }

  /** Extending a prefix by one vertex adds that vertex's segment. */
  lemma PrefixLengthStep(hypot: Hypot, path: seq<Point>, j: nat)
    requires 1 <= j < |path|
    ensures PolylineLength(hypot, path[..j + 1]) == PolylineLength(hypot, path[..j]) + SegmentLength(hypot, path, j)
  {
    assert path[..j + 1][..j] == path[..j];
  }

  lemma RatioInUnitRange(a: real, b: real)
    requires 0.0 < a <= b
    ensures 0.0 < a / b <= 1.0
  {
    assert a / b * b == a;
  }

  /** When segment `i` reaches `target`, the walk stops on it. */
  lemma WalkStopsOnReachingSegment(hypot: Hypot, path: seq<Point>, target: real, i: nat, before: real)
    requires 1 <= i < |path| && before == PolylineLength(hypot, path[..i])
    requires before < target <= before + SegmentLength(hypot, path, i)
    ensures OnReachingSegment(hypot, path, target, i, Walk(hypot, path, target, i, before))
  {
    PrefixLengthStep(hypot, path, i);
    RatioInUnitRange(target - before, SegmentLength(hypot, path, i));
  }

  /** When segment `i` falls short of `target`, the walk moves on to segment `i + 1`. */
  lemma WalkPassesSegment(hypot: Hypot, path: seq<Point>, target: real, i: nat, before: real)
    requires 1 <= i < |path| && before < target
    requires before + SegmentLength(hypot, path, i) < target
    ensures Walk(hypot, path, target, i, before) == Walk(hypot, path, target, i + 1, before + SegmentLength(hypot, path, i))
  {
  }

  /**
   * The walk from segment `i`, started with the length `before` of
   * `path[..i]`, continues unchanged up to the first segment `j` at or after
   * `i` whose end reaches `target`, when the whole path reaches it.
   */
  lemma {:induction false} WalkFindsReachingSegment(hypot: Hypot, path: seq<Point>, target: real, i: nat, before: real) returns (j: nat, atJ: real)
    requires 1 <= i < |path| && before == PolylineLength(hypot, path[..i])
    requires before < target <= PolylineLength(hypot, path)
    ensures i <= j < |path| && atJ == PolylineLength(hypot, path[..j])
    ensures atJ < target <= atJ + SegmentLength(hypot, path, j)
    ensures Walk(hypot, path, target, i, before) == Walk(hypot, path, target, j, atJ)
    decreases |path| - i
  {
    var next := before + SegmentLength(hypot, path, i);
    PrefixLengthStep(hypot, path, i);
    assert path[..|path|] == path;
    if next >= target {
      j, atJ := i, before;
    } else {
      WalkPassesSegment(hypot, path, target, i, before);
      j, atJ := WalkFindsReachingSegment(hypot, path, target, i + 1, next);
    }
  }

  /** When the whole path is shorter than `target`, the walk ends on the last vertex. */
  lemma {:induction false} WalkPastEnd(hypot: Hypot, path: seq<Point>, target: real, i: nat, before: real)
    requires 1 <= i <= |path| && before == PolylineLength(hypot, path[..i])
    requires before < target && PolylineLength(hypot, path) < target
    ensures Walk(hypot, path, target, i, before) == path[|path| - 1]
    decreases |path| - i
  {
    if i < |path| {
      var next := before + SegmentLength(hypot, path, i);
      PrefixLengthStep(hypot, path, i);
      PolylineLengthMonotone(hypot, path, i + 1);
      WalkPassesSegment(hypot, path, target, i, before);
      WalkPastEnd(hypot, path, target, i + 1, next);
    }
  }

  /**
   * For 0 < t < 1 on a path of positive length, the point lies on the first
   * segment whose cumulative end reaches `t * totalLen`.
   */
  lemma FractionOnFirstReachingSegment(hypot: Hypot, path: seq<Point>, totalLen: real, t: real) returns (j: nat)
    requires |path| > 1 && totalLen == PolylineLength(hypot, path) && totalLen > 0.0 && 0.0 < t < 1.0
    ensures OnReachingSegment(hypot, path, totalLen * t, j, PointAtFraction(hypot, path, totalLen, t))
  {
    var target := totalLen * t;
    InteriorFractionWalks(hypot, path, totalLen, t, target);
    assert PolylineLength(hypot, path[..1]) == 0.0;
    var atJ;
    j, atJ := WalkFindsReachingSegment(hypot, path, target, 1, 0.0);
    WalkStopsOnReachingSegment(hypot, path, target, j, atJ);
  }

  /** Strictly inside (0, 1), the point is the walk towards `t * totalLen`. */
  lemma InteriorFractionWalks(hypot: Hypot, path: seq<Point>, totalLen: real, t: real, target: real)
    requires |path| > 0 && totalLen > 0.0 && 0.0 < t < 1.0 && target == totalLen * t
    ensures 0.0 < target < totalLen
    ensures PointAtFraction(hypot, path, totalLen, t) == Walk(hypot, path, target, 1, 0.0)
  {
    ScaledBelow(totalLen, t);
  }

  /** The shared parameter of sample `i`. */
  function SampleFraction(i: nat, samples: nat): real
    requires samples > 0
  {
    i as real / samples as real
  }

  /**
   * What `syncTaperedPaths` needs of its arguments: once some parameter lies
   * strictly inside (0, 1), that is once `samples > 1`, two paths of positive
   * length (on a path of length 0 the walk computes the ratio 0/0).
   */
  predicate SyncWellDefined(hypot: Hypot, rootPath: seq<Point>, tipPath: seq<Point>, samples: nat) {
    |rootPath| >= 2 && |tipPath| >= 2 && samples > 1 ==>
      PolylineLength(hypot, rootPath) > 0.0 && PolylineLength(hypot, tipPath) > 0.0
  }

  lemma InteriorFraction(i: nat, samples: nat)
    requires 0 < samples && i <= samples
    ensures 0.0 < SampleFraction(i, samples) < 1.0 ==> samples > 1
  {
    if i == samples {
      assert SampleFraction(i, samples) == 1.0;
    }
  }

  /** The sample that pairs the last vertices of both paths. */
  function LastPair(rootPath: seq<Point>, tipPath: seq<Point>): Point4
    requires |rootPath| > 0 && |tipPath| > 0
  {
    Point4(rootPath[|rootPath| - 1].x, rootPath[|rootPath| - 1].y, tipPath[|tipPath| - 1].x, tipPath[|tipPath| - 1].y)
  }

  /**
   * Sample `i`: root (x, y) and tip (u, v), both at parameter `i / samples`.
   * With `samples == 0` the parameter `0 / 0` is `NaN`, which fails both
   * clamps and every comparison of the walk, so both points are the last
   * vertices.
   */
  function SyncedSample(hypot: Hypot, rootPath: seq<Point>, tipPath: seq<Point>, samples: nat, i: nat): Point4
    requires |rootPath| >= 2 && |tipPath| >= 2 && SyncWellDefined(hypot, rootPath, tipPath, samples)
    requires i <= samples
  {
    if samples == 0 then LastPair(rootPath, tipPath)
    else
      var t := SampleFraction(i, samples);
      InteriorFraction(i, samples);
      var pRoot := PointAtFraction(hypot, rootPath, PolylineLength(hypot, rootPath), t);
      var pTip := PointAtFraction(hypot, tipPath, PolylineLength(hypot, tipPath), t);
      Point4(pRoot.x, pRoot.y, pTip.x, pTip.y)
  }

  /** One iteration of the sampling loop: both paths at `i / samples`. */
  method SampleBoth(hypot: Hypot, rootPath: seq<Point>, tipPath: seq<Point>, samples: nat, rootLen: real, tipLen: real, i: nat)
    returns (sample: Point4)
    requires |rootPath| >= 2 && |tipPath| >= 2 && SyncWellDefined(hypot, rootPath, tipPath, samples)
    requires rootLen == PolylineLength(hypot, rootPath) && tipLen == PolylineLength(hypot, tipPath)
    requires i <= samples
    ensures sample == SyncedSample(hypot, rootPath, tipPath, samples, i)
  {
    if samples == 0 {
      // `i / samples` is NaN: no clamp applies and the walk runs off the end.
      var lastRoot, lastTip := rootPath[|rootPath| - 1], tipPath[|tipPath| - 1];
      return Point4(lastRoot.x, lastRoot.y, lastTip.x, lastTip.y);
    }
    var t := i as real / samples as real;
    assert t == SampleFraction(i, samples);
    InteriorFraction(i, samples);
    var pRoot := GetPointAtFraction(hypot, rootPath, rootLen, t);
    var pTip := GetPointAtFraction(hypot, tipPath, tipLen, t);
    sample := Point4(pRoot.x, pRoot.y, pTip.x, pTip.y);
  }

  /** `syncTaperedPaths(rootPath, tipPath, samples)`. */
  method SyncTaperedPaths(hypot: Hypot, rootPath: seq<Point>, tipPath: seq<Point>, samples: nat) returns (result: seq<Point4>)
    requires SyncWellDefined(hypot, rootPath, tipPath, samples)
    ensures |rootPath| < 2 || |tipPath| < 2 ==> result == []
    ensures |rootPath| >= 2 && |tipPath| >= 2 ==>
      && |result| == samples + 1
      && (forall i :: 0 <= i <= samples ==> result[i] == SyncedSample(hypot, rootPath, tipPath, samples, i))
      && (samples > 0 ==> result[0] == Point4(rootPath[0].x, rootPath[0].y, tipPath[0].x, tipPath[0].y))
      && result[samples] == LastPair(rootPath, tipPath)
  {
    if |rootPath| < 2 || |tipPath| < 2 {
      return [];
    }
    var rootLen := GetPathLength(hypot, rootPath);
    var tipLen := GetPathLength(hypot, tipPath);
    result := [];
    for i := 0 to samples + 1
      invariant |result| == i
      invariant forall k :: 0 <= k < i ==> result[k] == SyncedSample(hypot, rootPath, tipPath, samples, k)
    {
      var sample := SampleBoth(hypot, rootPath, tipPath, samples, rootLen, tipLen, i);
      result := result + [sample];
    }
    SyncedEndpoints(hypot, rootPath, tipPath, samples);
  }

  /**
   * The first sample pairs the two start vertices (unless there are no
   * steps at all), the last one the two end vertices.
   */
  lemma SyncedEndpoints(hypot: Hypot, rootPath: seq<Point>, tipPath: seq<Point>, samples: nat)
    requires |rootPath| >= 2 && |tipPath| >= 2 && SyncWellDefined(hypot, rootPath, tipPath, samples)
    ensures samples > 0 ==>
      SyncedSample(hypot, rootPath, tipPath, samples, 0) == Point4(rootPath[0].x, rootPath[0].y, tipPath[0].x, tipPath[0].y)
    ensures SyncedSample(hypot, rootPath, tipPath, samples, samples) == LastPair(rootPath, tipPath)
  {
    if samples == 0 {
      return;
    }
    var one := samples as real / samples as real;
    assert one == 1.0;
    assert SampleFraction(samples, samples) == one;
  }
}

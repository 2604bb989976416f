/**
 * src/geometry/polylineBuilder.ts: stitches the ordered contours into one
 * polyline that starts at the origin. Each usable contour adds a rapid
 * point to its entry (when that is more than 0.01 away from the last point)
 * and then `numSamples + 1` samples taken forward from the entry, wrapping
 * past parameter 1. Unusable contours are skipped.
 */
module PolylineBuilder {
  import opened Wrappers
  import opened Types
  import opened MathUtils

  datatype PathGenerationOptions = PathGenerationOptions(step: real, origin: Point)

  /** `entryExits.find(ee => ee.contourId === id)`. */
  function FindEntryExit(entryExits: seq<EntryExit>, id: ContourId): Option<EntryExit>
    decreases |entryExits|
  {
    if |entryExits| == 0 then None
    else if entryExits[0].contourId == id then Some(entryExits[0])
    else FindEntryExit(entryExits[1..], id)
  }

  /**
   * `FindEntryExit` finds the first entry for `id`: nothing exactly when no
   * entry has that id, and otherwise the entry at the first index that has it.
   */
  lemma {:induction false} FindEntryExitFindsFirst(entryExits: seq<EntryExit>, id: ContourId)
    ensures FindEntryExit(entryExits, id).None? <==> forall i :: 0 <= i < |entryExits| ==> entryExits[i].contourId != id
    ensures FindEntryExit(entryExits, id).Some? ==> exists i :: (0 <= i < |entryExits|
      && entryExits[i] == FindEntryExit(entryExits, id).value && entryExits[i].contourId == id
      && forall j :: 0 <= j < i ==> entryExits[j].contourId != id)
    decreases |entryExits|
  {
    if |entryExits| > 0 && entryExits[0].contourId != id {
      var rest := entryExits[1..];
      FindEntryExitFindsFirst(rest, id);
      assert forall i :: 1 <= i < |entryExits| ==> entryExits[i] == rest[i - 1];
      if FindEntryExit(rest, id).Some? {
        var i :| 0 <= i < |rest| && rest[i] == FindEntryExit(rest, id).value && rest[i].contourId == id
          && forall j :: 0 <= j < i ==> rest[j].contourId != id;
        assert entryExits[i + 1] == rest[i];
      }
    } else if |entryExits| > 0 {
      assert entryExits[0] == FindEntryExit(entryExits, id).value;
    }
  }

  /** `Math.ceil(x)`. */
  function Ceil(x: real): (n: int)
    ensures x <= n as real < x + 1.0
  {
    -((-x).Floor)
  }

  /** `x % 1` in JavaScript: the remainder keeps the sign of `x`. */
  function JsMod1(x: real): (r: real)
    ensures 0.0 <= x ==> 0.0 <= r < 1.0
    ensures x < 0.0 ==> -1.0 < r <= 0.0
    ensures (x - r).Floor as real == x - r
  {
    if x >= 0.0 then
      var f := x.Floor;
      assert (f as real).Floor == f;
      x - f as real
    else
      var f := (-x).Floor;
      assert (-(f as real)).Floor == -f;
      x + f as real
  }

  /** `Math.max(50, Math.ceil(length / step))`. */
  function NumSamples(length: real, step: real): (n: nat)
    requires step > 0.0
    ensures n >= 50
  {
    var c := Ceil(length / step);
    if c > 50 then c else 50
  }

  /** The sample count is the smallest whole number of steps covering the length, but never below 50. */
  lemma NumSamplesCoversLength(length: real, step: real)
    requires step > 0.0
    ensures var n := NumSamples(length, step);
      && n as real >= length / step
      && (n == 50 || (n as real) - 1.0 < length / step)
  {
    var q := length / step;
    assert Ceil(q) as real >= q;
  }

  /**
   * The parameter of sample `i` out of `numSamples` before wrapping: from
   * `entryT`, forward by the fraction `i / numSamples` of `1 - entryT + exitT`.
   */
  function UnwrappedParam(ee: EntryExit, numSamples: nat, i: nat): real
    requires numSamples > 0
  {
    var t := i as real / numSamples as real;
    ee.entryT + t * (1.0 - ee.entryT + ee.exitT)
  }

  /** The wrapped parameter of sample `i`. */
  function SampleParam(ee: EntryExit, numSamples: nat, i: nat): real
    requires numSamples > 0
  {
    JsMod1(UnwrappedParam(ee, numSamples, i))
  }

  /** The arc-length offset at which the entry point is looked up. */
  function EntryOffset(path: Path, ee: EntryExit): real {
    ee.entryT * path.length
  }

  /** The arc-length offset at which sample `i` is looked up. */
  function SampleOffset(path: Path, ee: EntryExit, numSamples: nat, i: nat): real
    requires numSamples > 0
  {
    SampleParam(ee, numSamples, i) * path.length
  }

  /** What sample `i` adds: the point at its parameter, or nothing. */
  function SampleAt(path: Path, ee: EntryExit, numSamples: nat, i: nat): seq<Point>
    requires numSamples > 0
  {
    match path.pointAt(SampleOffset(path, ee, numSamples, i))
    case Some(p) => [p]
    case None => []
  }

  /** The points samples `0 .. k-1` add, in order. */
  function Samples(path: Path, ee: EntryExit, numSamples: nat, k: nat): seq<Point>
    requires numSamples > 0
    decreases k
  {
    if k == 0 then [] else Samples(path, ee, numSamples, k - 1) + SampleAt(path, ee, numSamples, k - 1)
  }

  /** What one contour adds after `last`, the last point emitted so far. */
  function ContourPoints(hypot: Hypot, last: Point, contour: Contour, entryExits: seq<EntryExit>, step: real): seq<Point>
    requires step > 0.0
  {
    if contour.path.None? then []
    else
      var path := contour.path.value;
      if path.segments == 0 then []
      else match FindEntryExit(entryExits, contour.id)
        case None => []
        case Some(ee) =>
          match path.pointAt(EntryOffset(path, ee))
          case None => []
          case Some(entry) =>
            var n := NumSamples(path.length, step);
            (if Distance(hypot, entry, last) > 0.01 then [entry] else []) + Samples(path, ee, n, n + 1)
  }

  /**
   * The polyline after visiting the first `k` contours in order, starting
   * from `origin`, where `added(last, c)` is what contour `c` adds after the
   * last point `last`.
   */
  function StitchedUpTo(added: (Point, Contour) -> seq<Point>, contours: seq<Contour>, origin: Point, k: nat): (pts: seq<Point>)
    requires k <= |contours|
    ensures |pts| >= 1 && pts[0] == origin
    decreases k
  {
    if k == 0 then [origin]
    else
      var prev := StitchedUpTo(added, contours, origin, k - 1);
      prev + added(prev[|prev| - 1], contours[k - 1])
  }

  /** What a contour adds after the last point, for fixed entry/exit choices and step. */
  function AddedBy(hypot: Hypot, entryExits: seq<EntryExit>, step: real): (Point, Contour) -> seq<Point>
    requires step > 0.0
  {
    (last: Point, contour: Contour) => ContourPoints(hypot, last, contour, entryExits, step)
  }

  /** The polyline after visiting all of `contours` in order. */
  function Stitched(hypot: Hypot, contours: seq<Contour>, entryExits: seq<EntryExit>, options: PathGenerationOptions): seq<Point>
    requires options.step > 0.0
  {
    StitchedUpTo(AddedBy(hypot, entryExits, options.step), contours, options.origin, |contours|)
  }

  /**
   * The body of the `forEach` callback: what contour `contour` adds after
   * `lastPt`, with an early return for each skip rule.
   */
  method TraceContour(hypot: Hypot, lastPt: Point, contour: Contour, entryExits: seq<EntryExit>, step: real)
    returns (added: seq<Point>)
    requires step > 0.0
    ensures added == ContourPoints(hypot, lastPt, contour, entryExits, step)
  {
    added := [];
    if contour.path.None? {
      return;
    }
    var path := contour.path.value;
    if path.segments == 0 {
      return;
    }
    var entryExit := FindEntryExit(entryExits, contour.id);
    if entryExit.None? {
      return;
    }
    var ee := entryExit.value;
    var pathLength := path.length;
    var entryPoint := path.pointAt(ee.entryT * pathLength);
    assert ee.entryT * pathLength == EntryOffset(path, ee);
    if entryPoint.None? {
      return;
    }
    var entry := entryPoint.value;
    var distToEntry := hypot(entry.x - lastPt.x, entry.y - lastPt.y);
    assert distToEntry == Distance(hypot, entry, lastPt);
    if distToEntry > 0.01 {
      added := added + [Point(entry.x, entry.y)];
    }
    assert added == if Distance(hypot, entry, lastPt) > 0.01 then [entry] else [];
    var numSamples := NumSamples(pathLength, step);
    var samples := SampleContour(path, ee, numSamples);
    added := added + samples;
  }

  /**
   * The inner `for` loop of the callback: samples `0 ..= numSamples`, each
   * at its wrapped parameter, keeping the lookups that yield a point.
   */
  method SampleContour(path: Path, ee: EntryExit, numSamples: nat) returns (samples: seq<Point>)
    requires numSamples > 0
    ensures samples == Samples(path, ee, numSamples, numSamples + 1)
  {
    samples := [];
    var pathLength := path.length;
    var pointsAdded := 0;
    for i := 0 to numSamples + 1
      invariant samples == Samples(path, ee, numSamples, i)
      invariant pointsAdded == |samples|
    {
      var t := i as real / numSamples as real;
      var offset := ee.entryT + t * (1.0 - ee.entryT + ee.exitT);
      var normalizedT := JsMod1(offset);
      var point := path.pointAt(normalizedT * pathLength);
      SampleStep(path, ee, numSamples, i, t, offset, normalizedT, pathLength, point);
      if point.Some? {
        samples := samples + [Point(point.value.x, point.value.y)];
        pointsAdded := pointsAdded + 1;
      }
    }
  }

  /** The loop body's lookup is sample `i`'s: one more sample appends what that lookup yields. */
  lemma SampleStep(path: Path, ee: EntryExit, numSamples: nat, i: nat, t: real, offset: real, normalizedT: real,
                   pathLength: real, point: Option<Point>)
    requires numSamples > 0
    requires t == i as real / numSamples as real
    requires offset == ee.entryT + t * (1.0 - ee.entryT + ee.exitT)
    requires normalizedT == JsMod1(offset)
    requires pathLength == path.length && point == path.pointAt(normalizedT * pathLength)
    ensures Samples(path, ee, numSamples, i + 1)
      == Samples(path, ee, numSamples, i) + (if point.Some? then [point.value] else [])
  {
    assert offset == UnwrappedParam(ee, numSamples, i);
    assert normalizedT * pathLength == SampleOffset(path, ee, numSamples, i);
  }

  /** `buildContinuousPolyline(contours, entryExits, options)`. */
  method BuildContinuousPolyline(hypot: Hypot, contours: seq<Contour>, entryExits: seq<EntryExit>, options: PathGenerationOptions)
    returns (pts: seq<Point>)
    requires options.step > 0.0
    ensures pts == Stitched(hypot, contours, entryExits, options)
  {
    pts := [Point(options.origin.x, options.origin.y)];
    for k := 0 to |contours|
      invariant pts == StitchedUpTo(AddedBy(hypot, entryExits, options.step), contours, options.origin, k)
    {
      pts := StitchContour(hypot, contours, entryExits, options, k, pts);
    }
  }

  /** One call of the `forEach` callback: contour `k`'s points appended to the polyline so far. */
  method StitchContour(hypot: Hypot, contours: seq<Contour>, entryExits: seq<EntryExit>, options: PathGenerationOptions,
                       k: nat, pts: seq<Point>)
    returns (next: seq<Point>)
    requires options.step > 0.0 && k < |contours|
    requires pts == StitchedUpTo(AddedBy(hypot, entryExits, options.step), contours, options.origin, k)
    ensures next == StitchedUpTo(AddedBy(hypot, entryExits, options.step), contours, options.origin, k + 1)
  {
    var added := TraceContour(hypot, pts[|pts| - 1], contours[k], entryExits, options.step);
    next := pts + added;
  }

  /** Points are only appended: each stage's polyline is a prefix of every later one. */
  lemma {:induction false} StitchedPrefix(added: (Point, Contour) -> seq<Point>, contours: seq<Contour>, origin: Point,
                                          k: nat, j: nat)
    requires k <= j <= |contours|
    ensures StitchedUpTo(added, contours, origin, k) <= StitchedUpTo(added, contours, origin, j)
    decreases j - k
  {
    if k < j {
      StitchedPrefix(added, contours, origin, k, j - 1);
      var a, b := StitchedUpTo(added, contours, origin, k), StitchedUpTo(added, contours, origin, j - 1);
      assert forall i :: 0 <= i < |a| ==> a[i] == b[i] == StitchedUpTo(added, contours, origin, j)[i];
    }
  }

  /** The four reasons a contour adds nothing, after which stitching goes on. */
  lemma SkippedContour(hypot: Hypot, last: Point, contour: Contour, entryExits: seq<EntryExit>, step: real)
    requires step > 0.0
    requires contour.path.Some? && contour.path.value.segments > 0 && FindEntryExit(entryExits, contour.id).Some? ==>
      contour.path.value.pointAt(EntryOffset(contour.path.value, FindEntryExit(entryExits, contour.id).value)).None?
    ensures ContourPoints(hypot, last, contour, entryExits, step) == []
  {
  }

  /** Sample count: at most `k`. */
  lemma {:induction false} SamplesAtMost(path: Path, ee: EntryExit, numSamples: nat, k: nat)
    requires numSamples > 0
    ensures |Samples(path, ee, numSamples, k)| <= k
    decreases k
  {
    if k > 0 {
      SamplesAtMost(path, ee, numSamples, k - 1);
    }
  }

  /** When every lookup yields a point there are exactly `k` samples, sample `i` at parameter `i`. */
  lemma {:induction false} SamplesAllFound(path: Path, ee: EntryExit, numSamples: nat, k: nat)
    requires numSamples > 0
    requires forall i :: 0 <= i < k ==> path.pointAt(SampleOffset(path, ee, numSamples, i)).Some?
    ensures |Samples(path, ee, numSamples, k)| == k
    ensures forall i :: 0 <= i < k ==>
      Samples(path, ee, numSamples, k)[i] == path.pointAt(SampleOffset(path, ee, numSamples, i)).value
    decreases k
  {
    if k > 0 {
      SamplesAllFound(path, ee, numSamples, k - 1);
      var q := path.pointAt(SampleOffset(path, ee, numSamples, k - 1));
      assert SampleAt(path, ee, numSamples, k - 1) == [q.value];
    }
  }

  /**
   * A usable contour adds the rapid point only when its entry is more than
   * 0.01 from the last point, then at most `numSamples + 1` samples, exactly
   * that many when every lookup succeeds.
   */
  lemma ProcessedContour(hypot: Hypot, last: Point, contour: Contour, entryExits: seq<EntryExit>, step: real,
                         path: Path, ee: EntryExit, entry: Point)
    requires step > 0.0
    requires contour.path == Some(path) && path.segments > 0
    requires FindEntryExit(entryExits, contour.id) == Some(ee)
    requires path.pointAt(EntryOffset(path, ee)) == Some(entry)
    ensures var n, pts := NumSamples(path.length, step), ContourPoints(hypot, last, contour, entryExits, step);
      var rapid := if Distance(hypot, entry, last) > 0.01 then 1 else 0;
      && |pts| <= rapid + n + 1
      && (rapid == 1 ==> pts[0] == entry)
      && (rapid == 0 ==> pts == Samples(path, ee, n, n + 1))
      && ((forall i :: 0 <= i <= n ==> path.pointAt(SampleOffset(path, ee, n, i)).Some?) ==>
            |pts| == rapid + n + 1)
  {
    var n := NumSamples(path.length, step);
    UsableContourPoints(hypot, last, contour, entryExits, step, path, ee, entry);
    SamplesAtMost(path, ee, n, n + 1);
    if forall i :: 0 <= i <= n ==> path.pointAt(SampleOffset(path, ee, n, i)).Some? {
      SamplesAllFound(path, ee, n, n + 1);
    }
  }

  /** A usable contour adds the optional rapid point followed by its samples. */
  lemma UsableContourPoints(hypot: Hypot, last: Point, contour: Contour, entryExits: seq<EntryExit>, step: real,
                            path: Path, ee: EntryExit, entry: Point)
    requires step > 0.0
    requires contour.path == Some(path) && path.segments > 0
    requires FindEntryExit(entryExits, contour.id) == Some(ee)
    requires path.pointAt(EntryOffset(path, ee)) == Some(entry)
    ensures var n := NumSamples(path.length, step);
      ContourPoints(hypot, last, contour, entryExits, step)
        == (if Distance(hypot, entry, last) > 0.01 then [entry] else []) + Samples(path, ee, n, n + 1)
  {
  }

  /** The first sample sits at `entryT % 1` and the last at `(1 + exitT) % 1`. */
  lemma SampleParamEndpoints(ee: EntryExit, numSamples: nat)
    requires numSamples > 0
    ensures SampleParam(ee, numSamples, 0) == JsMod1(ee.entryT)
    ensures SampleParam(ee, numSamples, numSamples) == JsMod1(1.0 + ee.exitT)
  {
    var n := numSamples as real;
    var d := 1.0 - ee.entryT + ee.exitT;
    var zero := 0 as real / n;
    var one := n / n;
    assert zero == 0.0 && one == 1.0;
    assert zero * d == 0.0 && one * d == d;
    assert UnwrappedParam(ee, numSamples, 0) == ee.entryT + zero * d;
    assert UnwrappedParam(ee, numSamples, numSamples) == ee.entryT + one * d;
  }

  /** With `entryT == exitT` in [0, 1) the samples trace a full loop from the entry back to it. */
  lemma FullLoopReturnsToEntry(ee: EntryExit, numSamples: nat)
    requires numSamples > 0
    requires 0.0 <= ee.entryT < 1.0 && ee.exitT == ee.entryT
    ensures SampleParam(ee, numSamples, 0) == ee.entryT
    ensures SampleParam(ee, numSamples, numSamples) == ee.entryT
  {
    SampleParamEndpoints(ee, numSamples);
    JsMod1Identity(ee.entryT, 0);
    JsMod1Identity(ee.entryT, 1);
  }

  /** Adding a whole number to a fraction in [0, 1) does not change its `% 1`. */
  lemma JsMod1Identity(x: real, k: nat)
    requires 0.0 <= x < 1.0
    ensures JsMod1(x + k as real) == x
  {
    assert (x + k as real).Floor == k;
  }

  /** For parameters in [0, 1], every sample parameter stays in [0, 1). */
  lemma SampleParamInUnitRange(ee: EntryExit, numSamples: nat, i: nat)
    requires numSamples > 0 && i <= numSamples
    requires 0.0 <= ee.entryT <= 1.0 && 0.0 <= ee.exitT <= 1.0
    ensures 0.0 <= SampleParam(ee, numSamples, i) < 1.0
  {
    var t := i as real / numSamples as real;
    assert 0.0 <= t;
    assert UnwrappedParam(ee, numSamples, i) == ee.entryT + t * (1.0 - ee.entryT + ee.exitT);
    MulNonNegative(t, 1.0 - ee.entryT + ee.exitT);
    assert 0.0 <= UnwrappedParam(ee, numSamples, i);
  }

  lemma MulNonNegative(a: real, b: real)
    requires 0.0 <= a && 0.0 <= b
    ensures 0.0 <= a * b
  {
  }
}

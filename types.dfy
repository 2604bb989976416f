/**
 * The value types shared by the toolpath pipeline (src/geometry/types.ts),
 * the two shapes the pipeline uses but types.ts does not show (the 4-axis
 * point and the entry/exit override), and the abstraction of `Math.hypot`.
 */
module Types {
  import opened Wrappers

  /** A planar point in drawing units. */
  datatype Point = Point(x: real, y: real)

  /** A tapered (4-axis) sample: root profile at (x, y), tip profile at (u, v). */
  datatype Point4 = Point4(x: real, y: real, u: real, v: real)

  type ContourId = string

  datatype Bounds = Bounds(x: real, y: real, width: real, height: real)

  /**
   * The Paper.js path behind a contour, as the pipeline queries it:
   * `segments` is `path.segments.length` (a missing segment list counts as 0),
   * `length` is `path.length`, and `pointAt(d)` is `path.getPointAt(d)`, which
   * yields no point when the offset `d` is off the path.
   */
  datatype Path = Path(segments: nat, length: real, pointAt: real -> Option<Point>)

  /** A contour: `path` is `None` when the contour carries no path object. */
  datatype Contour = Contour(
    id: ContourId,
    path: Option<Path>,
    isHole: bool,
    parentId: Option<ContourId>,
    islandId: string,
    bounds: Option<Bounds>,
    area: Option<real>)

  /** Where a contour is entered and left, as fractions of its length. */
  datatype EntryExit = EntryExit(contourId: ContourId, entryT: real, exitT: real)

  /** A user override of a contour's entry/exit; absent fields take defaults. */
  datatype EntryExitOverride = EntryExitOverride(entryT: Option<real>, exitT: Option<real>)

  datatype Island = Island(id: string, outer: Contour, holes: seq<Contour>, allContours: seq<Contour>)

  datatype OptimizedPath = OptimizedPath(
    contoursOrdered: seq<ContourId>,
    entryExits: seq<EntryExit>,
    polyline: seq<Point>,
    length: real)

  /** `contours.map(c => c.id)`. */
  function ContourIds(contours: seq<Contour>): (ids: seq<ContourId>)
    ensures |ids| == |contours|
    ensures forall i :: 0 <= i < |ids| ==> ids[i] == contours[i].id
  {
    seq(|contours|, i requires 0 <= i < |contours| => contours[i].id)
  }

  function Abs(x: real): (r: real)
    ensures r >= 0.0 && (r == x || r == -x)
  {
    if x < 0.0 then -x else x
  }

  /**
   * The properties of `Math.hypot(dx, dy)` the model relies on: it is never
   * negative, it is zero exactly at (0, 0), and negating both arguments does
   * not change it.
   */
  ghost predicate IsHypot(h: (real, real) -> real) {
    && (forall dx, dy :: 0.0 <= h(dx, dy))
    && (forall dx, dy :: h(dx, dy) == 0.0 <==> dx == 0.0 && dy == 0.0)
    && (forall dx, dy {:trigger h(Neg(dx), Neg(dy))} :: h(Neg(dx), Neg(dy)) == h(dx, dy))
  }

  /** Negation, named so that the evenness of a `Hypot` is used only where a proof asks for it. */
  function Neg(x: real): real {
    -x
  }

  /**
   * `Math.hypot`, which needs a square root Dafny does not have: every
   * operation that measures length takes it as a parameter of this type.
   */
  type Hypot = h: (real, real) -> real | IsHypot(h)
    witness (dx: real, dy: real) => Abs(dx) + Abs(dy)
}

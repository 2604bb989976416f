# webFoam toolpath core in Dafny

This project models the core of webFoam, a browser CAM tool for hot-wire foam
cutters, and proves properties of that model. The core is the pipeline that
turns drawn contours into one cutting polyline and then into G-code, and the
helpers around it:

- entry/exit selection: one `(entryT, exitT)` pair per contour, with
  defaults;
- polyline stitching: an origin point, then per contour a rapid point to its
  entry and the samples along it, with wrapped parameters and skip rules;
- G-code emission: a fixed header, one G0 rapid move, a feed declaration,
  one G1 move per further point, and M2. The codes follow sections 3.5 and
  3.6 of the NIST RS274NGC Interpreter, version 3;
- the tapered (4-axis) synchronizer: resamples a root and a tip polyline at
  shared normalized arc-length parameters;
- the island-grouping and ordering stubs, and the orchestrator
  `runFullOptimization`;
- the helpers: `distance`, the `.dat` airfoil parser and the twist/rotation
  mesh generator;
- the foam-cutter state store, as a class whose setters replace one field
  each.

There is one module per source file. `Types` holds the shared records,
`Text` the JavaScript string built-ins the code relies on (`split`, `join`,
`trim`, `split(/\s+/)`), and `Wrappers` the `Option` type. Where the source
runs a loop that changes variables, the model is a method with that loop. Its
`ensures` ties the result to a specification function, and lemmas prove what
the source promises about that function.

`Math.hypot`, `toFixed`, `parseFloat`, `Math.cos`/`Math.sin` and the Paper.js
path queries (`path.length`, `path.getPointAt`) are not modelled; they are
parameters of the operations that call them.

- `Hypot` is a function that is never negative, is zero exactly at (0, 0),
  and does not change when both arguments are negated.
- A contour's path is a record of its segment count, its length and a
  `pointAt` oracle.
- `parseFloat` returns `None` where JavaScript gives `NaN`.

`src/geometry/tapered.ts` imports `Point4D` from `types.ts`, which does not
define it. The model defines `Types.Point4` with the four fields the code
writes.

## Model

| member | source | states |
|---|---|---|
| Types.ContourIds | src/geometry/pipeline.ts:89 | one id per contour, the `i`-th id being the `i`-th contour's |
| Types.Abs | src/utils/meshGenerator.ts:25 | `Math.abs`: never negative, and equal to `x` or `-x` |
| MathUtils.Distance | src/utils/math.ts:3-6 | never negative, and zero exactly when the two points coincide |
| MathUtils.DistanceSymmetric | src/utils/math.ts:4-5 | `distance(a, b) == distance(b, a)` |
| MathUtils.DistanceToSelf | src/utils/math.ts:4-5 | `distance(a, a) == 0` |
| MathUtils.DistanceTranslationInvariant | src/utils/math.ts:4 | shifting both points by the same vector leaves the distance unchanged: it depends on dx and dy only |
| MathUtils.PolylineLengthNonNegative | src/geometry/tapered.ts:40-48 | the summed length of a polyline is never negative |
| MathUtils.PolylineLengthMonotone | src/geometry/pipeline.ts:79-85 | the length of a prefix never exceeds the length of the whole polyline |
| MathUtils.PolylineLengthZeroIff | src/geometry/pipeline.ts:79-85 | the length is 0 exactly when every point equals the first, in both directions |
| EntryExits.ComputeEntryExits | src/geometry/entryExit.ts:9-25 | exactly one EntryExit per input contour, in input order, each carrying that contour's id |
| EntryExits.DefaultEntryExit | src/geometry/entryExit.ts:11-13 | a contour without an override gets entry 0 and exit 0 |
| EntryExits.NoCustomMapAllZero | src/geometry/entryExit.ts:11-13 | with no custom map at all, every contour gets (0, 0) |
| EntryExits.OverrideFieldsIndependent | src/geometry/entryExit.ts:11-13 | a present override field is copied unchanged; a missing entry becomes 0 and a missing exit becomes the resolved entry |
| EntryExits.UnrelatedOverridesIgnored | src/geometry/entryExit.ts:10-11 | two option records that agree on the input's ids give the same result, so overrides for other ids make no difference |
| EntryExits.RestrictedMapSameResult | src/geometry/entryExit.ts:10-11 | restricting the custom map to the input's ids leaves the result unchanged |
| Islands.GroupIntoIslands | src/geometry/islands.ts:4-13 | no islands exactly for no contours; otherwise exactly one island, with the fresh id, `outer` the first contour and no holes |
| Islands.IslandsPartitionContours | src/geometry/islands.ts:7-12 | listing every island's contours gives back the input in order, and each island's outer contour is one of its contours |
| TspOrdering.OrderContoursWithinIsland | src/geometry/tspOrdering.ts:3-5 | the island's contour ids, same length and same order, a permutation of them |
| TspOrdering.OrderIslands | src/geometry/tspOrdering.ts:6-8 | the islands unchanged, in their order |
| PolylineBuilder.FindEntryExitFindsFirst | src/geometry/polylineBuilder.ts:40 | `find` gives nothing exactly when no entry has the id; otherwise the entry at the first index that has it |
| PolylineBuilder.Ceil | src/geometry/polylineBuilder.ts:71 | `Math.ceil(x)` is the integer `n` with `x <= n < x + 1` |
| PolylineBuilder.JsMod1 | src/geometry/polylineBuilder.ts:79 | `x % 1` keeps the sign of `x`: in [0, 1) for `x >= 0`, in (-1, 0] otherwise, and `x` minus it is a whole number |
| PolylineBuilder.NumSamples | src/geometry/polylineBuilder.ts:71 | the sample count is at least 50 |
| PolylineBuilder.NumSamplesCoversLength | src/geometry/polylineBuilder.ts:71 | the count covers `length / step`, and is the least whole number that does unless it is the floor of 50 |
| PolylineBuilder.StitchedUpTo | src/geometry/polylineBuilder.ts:17-21 | the polyline is never empty and its first point is the origin, after any number of contours |
| PolylineBuilder.TraceContour | src/geometry/polylineBuilder.ts:26-91 | one callback: the points the contour adds after the last point, as `ContourPoints` defines them |
| PolylineBuilder.SampleContour | src/geometry/polylineBuilder.ts:74-91 | the sampling loop yields the found points of samples `0 ..= numSamples`, in order |
| PolylineBuilder.SampleStep | src/geometry/polylineBuilder.ts:77-84 | the lookup of one iteration, at `((entryT + t(1 - entryT + exitT)) % 1) * length`, is the lookup of sample `i` |
| PolylineBuilder.BuildContinuousPolyline | src/geometry/polylineBuilder.ts:8-103 | the origin, followed by what each contour adds after the last point, contours in input order |
| PolylineBuilder.StitchContour | src/geometry/polylineBuilder.ts:23-95 | one `forEach` step appends contour `k`'s points to the polyline of the first `k` contours |
| PolylineBuilder.StitchedPrefix | src/geometry/polylineBuilder.ts:23-95 | points are only appended: the polyline after `k` contours is a prefix of the polyline after any later count |
| PolylineBuilder.SkippedContour | src/geometry/polylineBuilder.ts:26-57 | a contour with no path, no segments, no EntryExit or no entry point adds nothing |
| PolylineBuilder.SamplesAtMost | src/geometry/polylineBuilder.ts:75-91 | `k` sampling steps add at most `k` points |
| PolylineBuilder.SamplesAllFound | src/geometry/polylineBuilder.ts:75-91 | when every lookup yields a point, `k` steps add exactly `k` points, the `i`-th being the point at sample `i`'s offset |
| PolylineBuilder.ProcessedContour | src/geometry/polylineBuilder.ts:61-91 | a usable contour adds its entry first only when it is more than 0.01 from the last point; then at most `numSamples + 1` samples, exactly that many when every lookup succeeds |
| PolylineBuilder.UsableContourPoints | src/geometry/polylineBuilder.ts:61-91 | a usable contour adds the optional rapid point followed by its samples |
| PolylineBuilder.SampleParamEndpoints | src/geometry/polylineBuilder.ts:77-79 | the first sample is at `entryT % 1` and the last at `(1 + exitT) % 1` |
| PolylineBuilder.FullLoopReturnsToEntry | src/geometry/polylineBuilder.ts:77-79 | with `entryT == exitT` in [0, 1), the first and the last sample are both at the entry |
| PolylineBuilder.JsMod1Identity | src/geometry/polylineBuilder.ts:79 | adding a whole number to a fraction in [0, 1) leaves its `% 1` unchanged |
| PolylineBuilder.SampleParamInUnitRange | src/geometry/polylineBuilder.ts:77-79 | for entry and exit in [0, 1], every sample parameter lies in [0, 1) |
| GCode.MoveLines | src/geometry/gcode.ts:19-24 | one G1 line per point, the `i`-th for the `i`-th point |
| GCode.GenerateGCode | src/geometry/gcode.ts:9-27 | the text is the program lines joined by line feeds, and none for an empty polyline |
| GCode.PushMoves | src/geometry/gcode.ts:19-24 | the loop appends the G1 lines of the points after the first, in order |
| GCode.HeaderComputed | src/geometry/gcode.ts:12-18 | the four lines pushed first are the units line, G90, the rapid move to the first point and the feed line |
| GCode.MoveLineStep | src/geometry/gcode.ts:20-23 | the line pushed for point `i`, at `(p - origin) * scale`, is that point's G1 line |
| GCode.EmptyPolylineEmptyProgram | src/geometry/gcode.ts:10 | an empty polyline gives the empty string, with no header |
| GCode.LinesHoldNoNewline | src/geometry/gcode.ts:11-25 | no program line holds a line feed |
| GCode.ProgramLines | src/geometry/gcode.ts:9-27 | splitting the text on line feeds gives `|polyline| + 4` lines: G21/G20 by units, G90, the only G0 line (to the first point), `G1 F`, one G1 per further point in order, and M2 last |
| GCode.GCodeLinesShape | src/geometry/gcode.ts:12-25 | the program lines of a non-empty polyline, one by one, and their count |
| GCode.SingleRapidMove | src/geometry/gcode.ts:14-24 | the third line is a G0 move and no other line is |
| Tapered.SegmentLength | src/geometry/tapered.ts:58-62 | a segment's length is never negative |
| Tapered.PointAtFraction | src/geometry/tapered.ts:50-52 | `t <= 0` gives the first vertex and `t >= 1` the last: clamped, not extrapolated |
| Tapered.GetPathLength | src/geometry/tapered.ts:40-48 | the accumulating loop gives the sum of the segment lengths |
| Tapered.GetPointAtFraction | src/geometry/tapered.ts:50-78 | the clamps, then the segment walk with its running distance, as `PointAtFraction` defines them |
| Tapered.PrefixLengthStep | src/geometry/tapered.ts:42-45 | one more vertex adds exactly its segment's length |
| Tapered.WalkStopsOnReachingSegment | src/geometry/tapered.ts:64-71 | the walk stops on the segment whose end reaches the target, at a ratio in (0, 1] |
| Tapered.WalkPassesSegment | src/geometry/tapered.ts:64-74 | a segment that falls short of the target is passed, with its length added |
| Tapered.WalkFindsReachingSegment | src/geometry/tapered.ts:57-75 | when the path reaches the target, the walk runs on unchanged to the first segment whose cumulative end reaches it |
| Tapered.WalkPastEnd | src/geometry/tapered.ts:77 | when the whole path falls short of the target, the walk gives the last vertex |
| Tapered.FractionOnFirstReachingSegment | src/geometry/tapered.ts:54-75 | for `0 < t < 1` and positive length, the point lies on the first segment whose cumulative end reaches `t * totalLen`, at ratio `(target - before) / segLen` in (0, 1] |
| Tapered.InteriorFractionWalks | src/geometry/tapered.ts:51-54 | strictly inside (0, 1) the target is strictly between 0 and the length, and the point is the walk's |
| Tapered.InteriorFraction | src/geometry/tapered.ts:23 | a parameter `i / samples` strictly inside (0, 1) needs at least two steps |
| Tapered.SampleBoth | src/geometry/tapered.ts:23-34 | one iteration gives root and tip both at `i / samples` |
| Tapered.SyncTaperedPaths | src/geometry/tapered.ts:8-38 | nothing if either path has fewer than 2 points; otherwise `samples + 1` entries, entry `i` pairing root and tip at `i / samples`, entry 0 the two starts and the last entry the two ends |
| Tapered.SyncedEndpoints | src/geometry/tapered.ts:51-52 | sample 0 pairs the start vertices and sample `samples` the end vertices |
| Pipeline.FirstIndex | src/geometry/pipeline.ts:50 | the index of the first contour with the id, or the count when there is none; no earlier contour has it |
| Pipeline.FirstWithId | src/geometry/pipeline.ts:50 | the first contour with contour `i`'s id carries that id |
| Pipeline.FindContour | src/geometry/pipeline.ts:50 | nothing exactly when no contour has the id; otherwise the first contour that has it |
| Pipeline.CollectOrderedContours | src/geometry/pipeline.ts:43-58 | the outer `forEach` gives each island's resolved ordered contours, island after island |
| Pipeline.CollectIsland | src/geometry/pipeline.ts:44-57 | one island's ordered ids, looked up in the island, appended when found |
| Pipeline.ResolveStep | src/geometry/pipeline.ts:49-56 | one more id appends what looking it up finds |
| Pipeline.CollectedStep | src/geometry/pipeline.ts:44-58 | one more island appends its resolved contours |
| Pipeline.ResolveKeepsFoundIds | src/geometry/pipeline.ts:49-56 | the resolved contours carry exactly the ids that are found, in order: a missing id is skipped, not an error |
| Pipeline.FoundIdsAll | src/geometry/pipeline.ts:49-56 | when every id is found, none is skipped |
| Pipeline.ResolveFoundIds | src/geometry/pipeline.ts:49-56 | when every id is found, the `i`-th resolved contour is the first contour with the `i`-th id |
| Pipeline.FoundIdStep | src/geometry/pipeline.ts:50-52 | a found id appends the first contour carrying it |
| Pipeline.DistinctIdsResolveToThemselves | src/geometry/pipeline.ts:46-57 | with distinct ids, resolving an island's own ids gives back its contours |
| Pipeline.ResolveAllOwnIds | src/geometry/pipeline.ts:46-57 | resolving an island's own ids keeps one contour per id, in order, each the first with its id |
| Pipeline.SingleIslandCollected | src/geometry/pipeline.ts:27-58 | with the one-island stub, step 3 resolves the input's own ids in order |
| Pipeline.CollectedFromGrouping | src/geometry/pipeline.ts:27-58 | step 3 yields one contour per input contour, carrying the input ids in input order |
| Pipeline.SumSegmentLengths | src/geometry/pipeline.ts:79-85 | the `reduce` gives the sum of the distances between consecutive points |
| Pipeline.RunFullOptimization | src/geometry/pipeline.ts:8-104 | `undefined` exactly for no contours. Otherwise the result is the stages composed; `contoursOrdered` is the input ids in order; one (0, 0) EntryExit per contour; the polyline starts at the origin; the length is its non-negative summed length, and 0 for a one-point polyline |
| Text.Split | src/utils/datParser.ts:10 | at least one piece, and no piece holds the separator |
| Text.JoinSplit | src/utils/datParser.ts:10 | joining the pieces of a split gives back the string |
| Text.SplitJoin | src/geometry/gcode.ts:26 | splitting pieces joined by a separator they do not hold gives back the pieces |
| Text.SplitNoSeparator | src/utils/datParser.ts:10 | a string without the separator splits into itself |
| Text.SplitAtSeparator | src/utils/datParser.ts:10 | a split cuts at the first separator |
| Text.JoinConsHead | src/geometry/gcode.ts:26 | a character in front of the first piece comes first in the joined text |
| Text.TrimStart | src/utils/datParser.ts:13 | a suffix of the string; every dropped character is whitespace and the result does not start with whitespace |
| Text.TrimEnd | src/utils/datParser.ts:13 | a prefix of the string; every dropped character is whitespace and the result does not end with whitespace |
| Text.TrimIsInnerSlice | src/utils/datParser.ts:13 | the trimmed line is the slice between leading and trailing whitespace and neither starts nor ends with whitespace |
| Text.TrimEndKeepsStart | src/utils/datParser.ts:13 | trimming the end of a string that starts with non-whitespace leaves both ends non-whitespace |
| Text.InnerSlice | src/utils/datParser.ts:13 | a prefix of a suffix is a slice, and what follows it is whitespace |
| Text.Word | src/utils/datParser.ts:16 | the longest whitespace-free prefix |
| Text.Tokens | src/utils/datParser.ts:16 | tokens are non-empty and hold no whitespace; which tokens a string has is fixed by the lemmas below |
| Text.TokensSkipBlank | src/utils/datParser.ts:16 | a leading whitespace run of any length changes no token |
| Text.WordThenBlankTokens | src/utils/datParser.ts:16 | a word, then a nonempty whitespace run of any length, then anything: the word is the first token and the rest's tokens follow |
| Text.TokensDropBlank | src/utils/datParser.ts:16 | a trailing whitespace run after a non-whitespace end adds no token |
| Text.TokensOfTrim | src/utils/datParser.ts:13-16 | trimming before splitting changes no token: `Tokens(Trim(s)) == Tokens(s)` |
| Text.TokensNonEmpty | src/utils/datParser.ts:14-16 | a line with a non-whitespace character has a token |
| Text.WordOfWordThen | src/utils/datParser.ts:16 | a word followed by whitespace or the end is read whole |
| Text.SingleWordTokens | src/utils/datParser.ts:16 | a single word is a single token |
| Text.TrimOfTrimmed | src/utils/datParser.ts:13 | a string with non-whitespace ends trims to itself |
| Text.TrimOfBlank | src/utils/datParser.ts:13-14 | a string of whitespace trims to the empty string |
| DatParser.ParseDatFile | src/utils/datParser.ts:8-28 | the loop yields the points of the lines in file order, one line at a time |
| DatParser.LinesPointsAppend | src/utils/datParser.ts:12-25 | lines are handled independently: the points of two runs of lines concatenate |
| DatParser.AtMostOnePointPerLine | src/utils/datParser.ts:12-25 | there are at most as many points as lines |
| DatParser.FilePointsAreLinePoints | src/utils/datParser.ts:9-27 | a file made of lines joined by line feeds yields those lines' points in order, at most one per line |
| DatParser.LinePointOfTokens | src/utils/datParser.ts:13-23 | the trim and the empty-line `continue` change no outcome: a line's point is the one its first two tokens name |
| DatParser.BlankLineNoPoint | src/utils/datParser.ts:13-14 | a blank line yields no point |
| DatParser.SingleTokenNoPoint | src/utils/datParser.ts:13-17 | a one-token line, with any whitespace before and after it, yields no point |
| DatParser.TwoTokenLine | src/utils/datParser.ts:13-23 | "X Y" with any whitespace runs before, between and after (such as "  1.000000  0.001260\r") yields (X, Y) when both parse, and nothing when either does not |
| DatParser.PaddedPairTokens | src/utils/datParser.ts:13-16 | two words separated and surrounded by whitespace runs split into exactly those two tokens |
| DatParser.ExtraTokensIgnored | src/utils/datParser.ts:16-19 | whatever follows the second token after whitespace changes nothing: "X Y <anything>", with any leading whitespace and separators, yields what "X Y" yields |
| MeshGenerator.FindSegment | src/utils/meshGenerator.ts:10-20 | the first segment whose key range holds the value, in either orientation, or the last index when none does |
| MeshGenerator.InterpolateAsWritten | src/utils/meshGenerator.ts:5-30 | `interpolate` exactly as written; the result is `NaN` (`None`) exactly when the curve has two or more points and the first segment holding the value is flat in the key, and otherwise a number, the corrected interpolation's (`CorrectedAgreesWhenDefined`) |
| MeshGenerator.Interpolate | src/utils/meshGenerator.ts:5-30 | 0 on an empty curve, the point's result on a one-point curve; the value on a segment and the clamp outside every segment are the lemmas below (this is the corrected interpolation, see Findings) |
| MeshGenerator.InterpolateOnSegment | src/utils/meshGenerator.ts:10-19 | inside the first segment holding the value, the result lies between the results at its ends, and is the start's at the start key |
| MeshGenerator.InterpolateLinearOnSegment | src/utils/meshGenerator.ts:10-19 | on that segment the result is linear in the value, `(r - a)(v2 - v1) == (value - v1)(b - a)`, so the end key gives the end's result; a segment flat in the key gives the start's result |
| MeshGenerator.InterpolateClampsOutside | src/utils/meshGenerator.ts:23-29 | outside every segment the result is the nearer endpoint's, ties going to the last point |
| MeshGenerator.CorrectedAgreesWhenDefined | src/utils/meshGenerator.ts:16-18 | wherever the code as written yields a number, the corrected interpolation yields the same |
| MeshGenerator.FlatBaseYieldsNaN | src/utils/meshGenerator.ts:16-18 | a profile with a flat base gives `NaN` as written and radius 0 when corrected |
| MeshGenerator.MixBetween | src/utils/meshGenerator.ts:18 | interpolating with `t` in [0, 1] stays between the two end values |
| MeshGenerator.MinYIsLeast | src/utils/meshGenerator.ts:42-47 | `minY` is below or at every point's y and equal to one of them |
| MeshGenerator.MaxYIsGreatest | src/utils/meshGenerator.ts:42-47 | `maxY` is above or at every point's y and equal to one of them |
| MeshGenerator.RingCoords | src/utils/meshGenerator.ts:89-116 | three numbers per cross-section point |
| MeshGenerator.Ring | src/utils/meshGenerator.ts:62-116 | a ring has three numbers per rotation-curve point; its scale comes from the radius as the code computes it, `NaN` included |
| MeshGenerator.ZeroScaleRingOnAxis | src/utils/meshGenerator.ts:103-115 | a ring scaled by 0 puts every vertex at (0, y, 0), whatever the twist |
| MeshGenerator.FlatRadiusSegmentCollapsesRing | src/utils/meshGenerator.ts:62-115 | where the first revolution segment holding the ring's height is flat in y, the radius is `NaN`, `radius > 0` fails, and every vertex of the ring is (0, y, 0) |
| MeshGenerator.FlatTwistSegment | src/utils/meshGenerator.ts:66-71 | on the twist curve (0, 0), (0, 45), (10, 90) at height 0 the code as written computes a `NaN` angle, and the model's twist is the first point's angle, 0 |
| MeshGenerator.RingsCoords | src/utils/meshGenerator.ts:58-117 | `i` rings have `3 n i` numbers |
| MeshGenerator.RowQuads | src/utils/meshGenerator.ts:122-136 | six indices per quad |
| MeshGenerator.Rows | src/utils/meshGenerator.ts:121-137 | `i` rows of `n` quads have `6 n i` indices |
| MeshGenerator.HeightRange | src/utils/meshGenerator.ts:42-47 | the `forEach` gives the least and the greatest y |
| MeshGenerator.GenerateVertices | src/utils/meshGenerator.ts:58-117 | the outer loop gives the 101 rings at heights `minY + (i / 100) * height`, each scaled by the radius as the code interpolates it and twisted by the twist curve's angle |
| MeshGenerator.PushRing | src/utils/meshGenerator.ts:89-116 | the inner loop appends one ring: each point scaled by `radius / 10` (0 for a radius that is not positive or is `NaN`), twisted, at the ring's height |
| MeshGenerator.RingsStep | src/utils/meshGenerator.ts:59-116 | one iteration appends the ring at the next height, with the radius as the code interpolates it (`NaN` included) and the twist |
| MeshGenerator.PlacedVertexComputed | src/utils/meshGenerator.ts:104-115 | the numbers pushed for a point are `(x cos - y sin, height, x sin + y cos)` of the scaled point |
| MeshGenerator.GenerateIndices | src/utils/meshGenerator.ts:120-137 | two triangles `(a, c, b)` and `(b, c, d)` per quad, row after row |
| MeshGenerator.GenerateTwistRotGeometry | src/utils/meshGenerator.ts:32-145 | `null` for a missing curve, fewer than 2 revolution or 3 rotation points, or a y-span that is not positive; otherwise the 101 rings and the index rows |
| MeshGenerator.GeometryOfValidCurves | src/utils/meshGenerator.ts:41-58 | curves that pass the checks give the rings built from the measured height range |
| MeshGenerator.QuadIndicesInRings | src/utils/meshGenerator.ts:123-135 | every index of quad (i, j) names a vertex of ring `i` or ring `i + 1` |
| MeshGenerator.RowsInRange | src/utils/meshGenerator.ts:120-137 | every index of the first `rows` rows names a vertex of rings `0 ..= rows` |
| MeshGenerator.RowQuadsInRange | src/utils/meshGenerator.ts:122-136 | every index of row `i` names a vertex of ring `i` or `i + 1` |
| MeshGenerator.MeshCounts | src/utils/meshGenerator.ts:53-137 | a produced mesh has `n >= 3` rotation points, `3 * 101 * n` position numbers, `600 n` indices, each below `101 n` |
| MeshGenerator.LastQuadWraps | src/utils/meshGenerator.ts:123-128 | the last quad of a row wraps to the first vertices of both rings |
| FoamCutStore.WithEntryPoint | src/state/foamCutStore.ts:44-46 | the copied map sends the id to the new value, has the old keys plus that id, and keeps every other value |
| FoamCutStore.Store.constructor | src/state/foamCutStore.ts:30-39 | no contours, no path, an empty map, kerf 0, mm, scale 1, origin (0, 0), feed rate 1500, the select tool |
| FoamCutStore.Store.SetContours | src/state/foamCutStore.ts:40 | stores the contours as given; every other field is unchanged |
| FoamCutStore.Store.SetOptimizedPath | src/state/foamCutStore.ts:41 | stores the path or `undefined` as given; every other field is unchanged |
| FoamCutStore.Store.SetCustomEntryPoint | src/state/foamCutStore.ts:42-47 | the map becomes the old one with the id set to `entryT`; every other field is unchanged |
| FoamCutStore.Store.ClearCustomEntryPoints | src/state/foamCutStore.ts:48 | the map becomes empty; every other field is unchanged |
| FoamCutStore.Store.SetKerf | src/state/foamCutStore.ts:49 | stores the kerf as given, without validation; every other field is unchanged |
| FoamCutStore.Store.SetUnits | src/state/foamCutStore.ts:50 | stores the units; every other field is unchanged |
| FoamCutStore.Store.SetFeedRate | src/state/foamCutStore.ts:51 | stores the feed rate as given, without validation; every other field is unchanged |
| FoamCutStore.Store.SetScale | src/state/foamCutStore.ts:52 | stores the scale as given, without validation; every other field is unchanged |
| FoamCutStore.Store.SetActiveTool | src/state/foamCutStore.ts:53 | stores the tool; every other field is unchanged |
| FoamCutStore.LaterEntryPointWins | src/state/foamCutStore.ts:42-47 | setting the same contour twice keeps only the later value |
| FoamCutStore.DistinctEntryPointsCommute | src/state/foamCutStore.ts:42-47 | setting two different contours gives the same map in either order |
| FoamCutStore.SameEntryPointNoChange | src/state/foamCutStore.ts:44-45 | setting a contour to its current value leaves the map as it was |
| FoamCutStore.AfterEditsLastWins | src/state/foamCutStore.ts:42-48 | after edits from a cleared map, a contour has an entry point exactly when some edit named it, with the last such edit's value |

## Left out

- The React components, layouts, panels and `App.tsx` are not part of this
  model: they are DOM, Paper.js scene changes and event handling.
- `src/utils/dxfImport.ts` is not part of this model; it wraps the DXF parser
  and Paper.js constructors.
- Three.js is not modelled: the `BufferGeometry`, its attributes and
  `computeVertexNormals`. The mesh is a record of the position list and the
  index list.
- `Math.hypot`, `Math.cos`/`Math.sin`, `toFixed` and `parseFloat` are
  parameters, not definitions, because Dafny has no square root or
  trigonometry and decimal formatting is out of scope. Floating-point
  rounding is not modelled: the model uses exact reals. The `parseFloat`
  parameter yields a real or `None` for `NaN`, so it cannot give the
  `Infinity` or `-Infinity` that JavaScript returns for "Infinity" or
  "1e999"; such a value passes the `isNaN` test and the source pushes an
  infinite coordinate, which no real value of the parameter can stand for.
- The Paper.js `path.length` and `getPointAt` are an oracle in the path
  record. Their arc-length meaning is not modelled.
- Logging (`console.log`, `console.warn`) is left out: it has no effect on
  the results.
- `generateId` (from `src/utils/id`, which is not part of this model) is a
  parameter holding the fresh island id. `src/geometry/buildContours.ts` is
  left out because it only wraps `generateId`.
- `generateGCode4Axis`, imported by the tapered wizard, is not defined in
  `src/geometry/gcode.ts` and is not modelled.
- `src/state/workflowStore.ts` and `src/state/twistRotStore.ts` hold only
  single-field setters, like the store modelled here.
- Call sites whose arguments disagree with the declared signatures are not
  modelled: callers pass an options object as `runFullOptimization`'s
  origin, and the store's `Map<string, number>` is not the
  `Map<string, EntryExitOverride>` that `computeEntryExits` reads.
  `EntryExits` models the declared override record.
- Tapered.SyncTaperedPaths: requires positive path lengths when
  `samples > 1`. On a path of length 0 an interior parameter makes the walk
  divide 0 by 0, giving `NaN` coordinates, which reals cannot hold. The
  default `samples = 100` is left to the caller. `samples` is a natural
  number: a negative count, for which the loop runs no iteration and the
  result is empty, and a fractional count, whose last sample stops short of
  `t = 1`, are not modelled; the wizard passes 100.
- Tapered.GetPointAtFraction: requires a positive `totalLen` for `0 < t < 1`,
  for the same reason.
- Tapered.SyncedSample: `samples == 0` is modelled through its effect. The
  parameter `0 / 0` is `NaN` and fails every comparison, so the one sample
  pairs the two last vertices.
- PolylineBuilder.NumSamples: requires `step > 0`. The pipeline always passes
  1; `Math.ceil` of an infinite or `NaN` quotient is not modelled.
- Pipeline.RunFullOptimization: takes the origin as an argument; the default
  origin (0, 0) of the declaration is left to the caller.
- MeshGenerator.GenerateVertices: where the first twist segment holding a
  ring's height is flat in x, the code as written computes a `NaN` twist, so
  that ring's x and z coordinates are `NaN`, which reals cannot hold. The
  model twists such a ring by the corrected angle, the first point's
  (`MeshGenerator.FlatTwistSegment`). The radius follows the code as written,
  `NaN` included.
- MeshGenerator.RingsStep: the same `NaN` twist is replaced by the corrected
  angle, for the same reason.
- MeshGenerator.TwistAngle: uses the corrected interpolation, for the same
  reason.
- MeshGenerator.GenerateTwistRotGeometry: a ring whose twist is `NaN` in the
  code as written has the corrected twist in the model, as above. The vertex
  coordinates use the `Trig`
  parameter for `cos`/`sin` of the degree angle. The `+/-Infinity` seeds of
  `minY`/`maxY` are replaced by the first point's y, which gives the same
  result on the at-least-two-point curves that reach the loop.
- The model turns callback bodies into methods of their own:
  `StitchContour`/`TraceContour`, `CollectIsland`, `PushRing`, `PushMoves`
  and `SampleBoth`. They run in the same order as the source's `forEach`
  callbacks and inner loops.
- `Tokens` is `split(/\s+/)` only on trimmed, non-empty strings, the only
  strings the parser gives it. On an untrimmed string, JavaScript would also
  give empty edge pieces; `Text.TokensOfTrim` shows that trimming first makes
  no difference to `Tokens`.
- GCode determinism is not stated as a lemma: every model function is
  deterministic by construction.

## Findings

| source | as written | input that shows it | evidently intended | confidence | as-written member | corrected member |
|---|---|---|---|---|---|---|
| src/utils/meshGenerator.ts:16-18 | the first segment whose key range holds the value is interpolated with `t = (value - v1) / (v2 - v1)`, which is 0/0 = `NaN` when the segment is flat in the key | revolution curve (0, 0), (5, 0), (5, 10) at height 0: the flat base segment is found first, so the bottom ring's radius is `NaN`; `radius > 0` then fails and the ring collapses onto the axis, also for (2, 0), (5, 0), (5, 10), where the intended radius 2 gives scale 0.2; a flat twist segment gives a `NaN` twist and `NaN` coordinates | a flat segment yields a number, e.g. its first point's result (every `t` gives the same point when `value == v1 == v2`) | not executed | MeshGenerator.FlatBaseYieldsNaN | MeshGenerator.Interpolate |

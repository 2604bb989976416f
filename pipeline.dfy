/**
 * src/geometry/pipeline.ts: `runFullOptimization` composes the stages:
 * grouping into islands, ordering islands and contours, resolving the
 * ordered ids back to contours, entry/exit selection, stitching, and the
 * length of the stitched polyline.
 */
module Pipeline {
  import opened Wrappers
  import opened Types
  import opened MathUtils
  import opened Islands
  import opened TspOrdering
  import opened EntryExits
  import opened PolylineBuilder

  /** The index of the first contour with that id, or `|contours|` when there is none. */
  function FirstIndex(contours: seq<Contour>, id: ContourId): (k: nat)
    ensures k <= |contours|
    ensures forall j :: 0 <= j < k ==> contours[j].id != id
    ensures k < |contours| ==> contours[k].id == id
    decreases |contours|
  {
    if |contours| == 0 then 0
    else if contours[0].id == id then 0
    else
      var k := FirstIndex(contours[1..], id);
      assert forall j :: 1 <= j < k + 1 ==> contours[j].id != id by {
        forall j | 1 <= j < k + 1 ensures contours[j].id != id {
          assert contours[j] == contours[1..][j - 1];
        }
      }
      k + 1
  }

  /** The first contour sharing contour `i`'s id: contour `i` itself unless an earlier one has that id. */
  function FirstWithId(all: seq<Contour>, i: nat): (c: Contour)
    requires i < |all|
    ensures c.id == all[i].id
  {
    all[FirstIndex(all, all[i].id)]
  }

  /** `allContours.find(cc => cc.id === id)`: the first contour with that id, if any. */
  function FindContour(contours: seq<Contour>, id: ContourId): (r: Option<Contour>)
    ensures r.None? <==> forall i :: 0 <= i < |contours| ==> contours[i].id != id
    ensures r.Some? ==> (r.value.id == id && FirstIndex(contours, id) < |contours|
      && r.value == contours[FirstIndex(contours, id)])
  {
    var k := FirstIndex(contours, id);
    if k < |contours| then Some(contours[k]) else None
  }

  /** What looking up one id adds: the contour found, or nothing. */
  function Found(all: seq<Contour>, id: ContourId): seq<Contour> {
    match FindContour(all, id)
    case Some(c) => [c]
    case None => []
  }

  /** The inner `forEach` of step 3: each id resolved in `all`, unresolved ids skipped. */
  function Resolve(all: seq<Contour>, ids: seq<ContourId>): seq<Contour>
    decreases |ids|
  {
    if |ids| == 0 then []
    else Resolve(all, ids[..|ids| - 1]) + Found(all, ids[|ids| - 1])
  }

  /** The outer `forEach` of step 3: the resolved contours of each island, island after island. */
  function Collected(islands: seq<Island>): seq<Contour>
    decreases |islands|
  {
    if |islands| == 0 then []
    else
      var island := islands[|islands| - 1];
      Collected(islands[..|islands| - 1]) + Resolve(island.allContours, OrderContoursWithinIsland(island))
  }

  /** The ids of `ids` that resolve in `all`, in order. */
  function FoundIds(all: seq<Contour>, ids: seq<ContourId>): seq<ContourId>
    decreases |ids|
  {
    if |ids| == 0 then []
    else FoundIds(all, ids[..|ids| - 1]) + (if FindContour(all, ids[|ids| - 1]).Some? then [ids[|ids| - 1]] else [])
  }

  /** Step 3: the outer `forEach` over the ordered islands. */
  method CollectOrderedContours(islands: seq<Island>) returns (orderedContours: seq<Contour>)
    ensures orderedContours == Collected(islands)
  {
    orderedContours := [];
    for k := 0 to |islands|
      invariant orderedContours == Collected(islands[..k])
    {
      orderedContours := CollectIsland(orderedContours, islands[k]);
      CollectedStep(islands, k);
    }
    assert islands[..|islands|] == islands;
  }

  /**
   * The callback of that `forEach`: the island's ordered ids, each looked up
   * in the island and pushed when found.
   */
  method CollectIsland(orderedContours: seq<Contour>, island: Island) returns (result: seq<Contour>)
    ensures result == orderedContours + Resolve(island.allContours, OrderContoursWithinIsland(island))
  {
    result := orderedContours;
    var ids := OrderContoursWithinIsland(island);
    for j := 0 to |ids|
      invariant result == orderedContours + Resolve(island.allContours, ids[..j])
    {
      var c := FindContour(island.allContours, ids[j]);
      ResolveStep(island.allContours, ids, j);
      if c.Some? {
        result := result + [c.value];
      }
    }
    assert ids[..|ids|] == ids;
  }

  lemma ResolveStep(all: seq<Contour>, ids: seq<ContourId>, j: nat)
    requires j < |ids|
    ensures Resolve(all, ids[..j + 1]) == Resolve(all, ids[..j]) + Found(all, ids[j])
  {
    assert ids[..j + 1][..j] == ids[..j];
  }

  lemma CollectedStep(islands: seq<Island>, k: nat)
    requires k < |islands|
    ensures Collected(islands[..k + 1])
      == Collected(islands[..k]) + Resolve(islands[k].allContours, OrderContoursWithinIsland(islands[k]))
  {
    assert islands[..k + 1][..k] == islands[..k];
  }

  /**
   * Resolving ids keeps exactly the ids that are found: the resolved
   * contours carry the found ids, in order, and a missing id is skipped.
   */
  lemma {:induction false} ResolveKeepsFoundIds(all: seq<Contour>, ids: seq<ContourId>)
    ensures ContourIds(Resolve(all, ids)) == FoundIds(all, ids)
    ensures |Resolve(all, ids)| <= |ids|
    decreases |ids|
  {
    if |ids| > 0 {
      var init := ids[..|ids| - 1];
      ResolveKeepsFoundIds(all, init);
      var last := ids[|ids| - 1];
      var r := FindContour(all, last);
      assert ContourIds(Resolve(all, ids)) == ContourIds(Resolve(all, init)) + ContourIds(Found(all, last));
      if r.Some? {
        assert ContourIds(Found(all, last)) == [last];
      } else {
        assert ContourIds(Found(all, last)) == [];
      }
    }
  }

  /** When every id is found, nothing is skipped. */
  lemma {:induction false} FoundIdsAll(all: seq<Contour>, ids: seq<ContourId>)
    requires forall i :: 0 <= i < |ids| ==> FindContour(all, ids[i]).Some?
    ensures FoundIds(all, ids) == ids
    decreases |ids|
  {
    if |ids| > 0 {
      FoundIdsAll(all, ids[..|ids| - 1]);
    }
  }

  /**
   * When every id is found, resolving keeps one contour per id: the `i`-th
   * resolved contour is the first contour carrying the `i`-th id.
   */
  lemma {:induction false} ResolveFoundIds(all: seq<Contour>, ids: seq<ContourId>)
    requires forall i :: 0 <= i < |ids| ==> FirstIndex(all, ids[i]) < |all|
    ensures |Resolve(all, ids)| == |ids|
    ensures forall i :: 0 <= i < |ids| ==> Resolve(all, ids)[i] == all[FirstIndex(all, ids[i])]
    decreases |ids|
  {
    if |ids| > 0 {
      var init := ids[..|ids| - 1];
      ResolveFoundIds(all, init);
      FoundIdStep(all, ids);
      var r := Resolve(all, init);
      var last := all[FirstIndex(all, ids[|ids| - 1])];
      forall i | 0 <= i < |ids|
        ensures (r + [last])[i] == all[FirstIndex(all, ids[i])]
      {
        if i < |init| {
          assert init[i] == ids[i];
          assert (r + [last])[i] == r[i];
        } else {
          assert (r + [last])[i] == last;
        }
      }
    }
  }

  /** One more found id appends the first contour carrying it. */
  lemma FoundIdStep(all: seq<Contour>, ids: seq<ContourId>)
    requires |ids| > 0 && FirstIndex(all, ids[|ids| - 1]) < |all|
    ensures Resolve(all, ids) == Resolve(all, ids[..|ids| - 1]) + [all[FirstIndex(all, ids[|ids| - 1])]]
  {
    assert Found(all, ids[|ids| - 1]) == [all[FirstIndex(all, ids[|ids| - 1])]];
  }

  /** With distinct ids, resolving the island's own ids gives back its contours. */
  lemma DistinctIdsResolveToThemselves(all: seq<Contour>)
    requires forall i, j :: 0 <= i < j < |all| ==> all[i].id != all[j].id
    ensures Resolve(all, ContourIds(all)) == all
  {
    var ids := ContourIds(all);
    ResolveAllOwnIds(all);
    forall i | 0 <= i < |all|
      ensures Resolve(all, ids)[i] == all[i]
    {
      assert FirstIndex(all, all[i].id) == i;
    }
  }

  /** Every contour's own id is found, so resolving an island's own ids keeps one contour per id. */
  lemma ResolveAllOwnIds(all: seq<Contour>)
    ensures var r := Resolve(all, ContourIds(all));
      && ContourIds(r) == ContourIds(all)
      && |r| == |all|
      && forall i :: 0 <= i < |all| ==> r[i] == FirstWithId(all, i)
  {
    var ids := ContourIds(all);
    ResolveKeepsFoundIds(all, ids);
    forall i | 0 <= i < |ids|
      ensures FindContour(all, ids[i]).Some?
    {
      assert all[i].id == ids[i];
    }
    FoundIdsAll(all, ids);
    ResolveFoundIds(all, ids);
    forall i | 0 <= i < |all|
      ensures Resolve(all, ids)[i] == FirstWithId(all, i)
    {
      assert ids[i] == all[i].id;
    }
  }

  /** The stub grouper makes one island of all the contours, so step 3 resolves their ids in order. */
  lemma SingleIslandCollected(contours: seq<Contour>, freshId: string)
    requires |contours| > 0
    ensures Collected(OrderIslands(GroupIntoIslands(contours, freshId))) == Resolve(contours, ContourIds(contours))
  {
    var islands := GroupIntoIslands(contours, freshId);
    assert islands[..0] == [];
  }

  /**
   * With the stub grouper and orderers, step 3 yields one contour per input
   * contour, carrying the input ids in input order; contour `i` is the first
   * input contour with its id.
   */
  lemma CollectedFromGrouping(contours: seq<Contour>, freshId: string)
    ensures var ordered := Collected(OrderIslands(GroupIntoIslands(contours, freshId)));
      && ContourIds(ordered) == ContourIds(contours)
      && |ordered| == |contours|
      && forall i :: 0 <= i < |contours| ==> ordered[i] == FirstWithId(contours, i)
  {
    if |contours| > 0 {
      SingleIslandCollected(contours, freshId);
      ResolveAllOwnIds(contours);
    }
  }

  /** The options step 4 always passes: 32 samples, weight 1, no custom entry points. */
  function PipelineEntryExitOptions(origin: Point): EntryExitOptions {
    EntryExitOptions(32, 1.0, origin, None)
  }

  /** The options step 5 always passes: step 1 from the origin. */
  function PipelinePathOptions(origin: Point): PathGenerationOptions {
    PathGenerationOptions(1.0, origin)
  }

  /** Step 6: `polyline.reduce(...)`, the distances between consecutive points summed from the left. */
  method SumSegmentLengths(hypot: Hypot, polyline: seq<Point>) returns (length: real)
    ensures length == PolylineLength(hypot, polyline)
  {
    length := 0.0;
    for i := 0 to |polyline|
      invariant length == PolylineLength(hypot, polyline[..i])
    {
      if i == 0 {
        length := 0.0;
      } else {
        var prev := polyline[i - 1];
        var dx := polyline[i].x - prev.x;
        var dy := polyline[i].y - prev.y;
        assert polyline[..i + 1][..i] == polyline[..i];
        length := length + hypot(dx, dy);
      }
    }
    assert polyline[..|polyline|] == polyline;
  }

  /**
   * `runFullOptimization(contours, origin)`; `freshIslandId` stands for the
   * value of `generateId("island")`.
   */
  method RunFullOptimization(hypot: Hypot, freshIslandId: string, contours: seq<Contour>, origin: Point)
    returns (result: Option<OptimizedPath>)
    ensures contours == [] <==> result.None?
    ensures result.Some? ==>
      var ordered := Collected(OrderIslands(GroupIntoIslands(contours, freshIslandId)));
      var r := result.value;
      && r.contoursOrdered == ContourIds(ordered)
      && r.entryExits == ComputeEntryExits(ordered, PipelineEntryExitOptions(origin))
      && r.polyline == Stitched(hypot, ordered, r.entryExits, PipelinePathOptions(origin))
      && r.length == PolylineLength(hypot, r.polyline)
    ensures result.Some? ==>
      var r := result.value;
      && r.contoursOrdered == ContourIds(contours)
      && |r.entryExits| == |contours|
      && (forall i :: 0 <= i < |contours| ==> r.entryExits[i] == EntryExit(contours[i].id, 0.0, 0.0))
      && r.polyline[0] == origin
      && r.length >= 0.0
      && (|r.polyline| == 1 ==> r.length == 0.0)
  {
    if |contours| == 0 {
      return None;
    }
    var islands := GroupIntoIslands(contours, freshIslandId);
    var orderedIslands := OrderIslands(islands);
    var orderedContours := CollectOrderedContours(orderedIslands);
    var entryExits := ComputeEntryExits(orderedContours, PipelineEntryExitOptions(origin));
    var polyline := BuildContinuousPolyline(hypot, orderedContours, entryExits, PipelinePathOptions(origin));
    var length := SumSegmentLengths(hypot, polyline);
    result := Some(OptimizedPath(ContourIds(orderedContours), entryExits, polyline, length));
    CollectedFromGrouping(contours, freshIslandId);
    NoCustomMapAllZero(orderedContours, PipelineEntryExitOptions(origin));
    PolylineLengthNonNegative(hypot, polyline);
  }
}

/**
 * src/geometry/tspOrdering.ts: the ordering stages. Both are stubs that keep
 * the input order; being functions, they have no hidden state.
 */
module TspOrdering {
  import opened Types

  /** `orderContoursWithinIsland(island)`: the island's contour ids, in order. */
  function OrderContoursWithinIsland(island: Island): (ids: seq<ContourId>)
    ensures |ids| == |island.allContours|
    ensures forall i :: 0 <= i < |ids| ==> ids[i] == island.allContours[i].id
    ensures multiset(ids) == multiset(ContourIds(island.allContours))
  {
    ContourIds(island.allContours)
  }

  /** `orderIslands(islands)`: the identity. */
  function OrderIslands(islands: seq<Island>): (ordered: seq<Island>)
    ensures ordered == islands
  {
    islands
  }
}

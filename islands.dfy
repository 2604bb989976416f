/**
 * src/geometry/islands.ts: groups the contours into islands. The grouping is
 * a stub: all contours form one island whose outer contour is the first one.
 */
module Islands {
  import opened Types

  /**
   * `groupIntoIslands(contours)`; `freshId` stands for the value of
   * `generateId("island")`, which this model does not include.
   */
  function GroupIntoIslands(contours: seq<Contour>, freshId: string): (islands: seq<Island>)
    ensures |contours| == 0 <==> islands == []
    ensures |contours| > 0 ==> |islands| == 1
    ensures |contours| > 0 ==>
      islands[0].id == freshId && islands[0].outer == contours[0] && islands[0].holes == []
  {
    if |contours| == 0 then []
    else [Island(freshId, contours[0], [], contours)]
  }

  /** The contours of `islands`, island after island. */
  function AllContours(islands: seq<Island>): seq<Contour>
    decreases |islands|
  {
    if |islands| == 0 then [] else islands[0].allContours + AllContours(islands[1..])
  }

  /**
   * The islands partition the input: listing every island's contours in
   * order gives back the input, so each contour lies in exactly one island,
   * and each island's outer contour is one of its own contours.
   */
  lemma IslandsPartitionContours(contours: seq<Contour>, freshId: string)
    ensures AllContours(GroupIntoIslands(contours, freshId)) == contours
    ensures forall island :: island in GroupIntoIslands(contours, freshId) ==> island.outer in island.allContours
  {
    var islands := GroupIntoIslands(contours, freshId);
    if |contours| > 0 {
      assert islands[1..] == [];
      assert AllContours(islands) == contours + [];
    }
  }
}

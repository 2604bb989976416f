/**
 * src/state/foamCutStore.ts: the application state of the foam cutter, a
 * record of fields with one setter per field. Every setter replaces its own
 * field and nothing else; the custom entry-point map is copied before it is
 * changed, so a map handed out earlier keeps its contents.
 */
module FoamCutStore {
  import opened Wrappers
  import opened Types
  import opened GCode

  /** The drawing tools of the editor: "select", "pan", "line", "polyline" and "text". */
  datatype Tool = SelectTool | PanTool | LineTool | PolylineTool | TextTool

  /** `CustomEntryPoints`: contour id to the entry parameter chosen by the user. */
  type CustomEntryPoints = map<ContourId, real>

  /** The map after `newMap.set(contourId, entryT)` on a copy of `m`. */
  function WithEntryPoint(m: CustomEntryPoints, contourId: ContourId, entryT: real): (r: CustomEntryPoints)
    ensures contourId in r && r[contourId] == entryT
    ensures r.Keys == m.Keys + {contourId}
    ensures forall k :: k in m && k != contourId ==> r[k] == m[k]
  {
    m[contourId := entryT]
  }

  class Store {
    var contours: seq<Contour>
    var optimizedPath: Option<OptimizedPath>
    var customEntryPoints: CustomEntryPoints
    var kerf: real
    var units: Units
    var scale: real
    var origin: Point
    var feedRate: real
    var activeTool: Tool

    /** The state the store is created with. */
    predicate IsInitial()
      reads this
    {
      && contours == []
      && optimizedPath.None?
      && customEntryPoints == map[]
      && kerf == 0.0
      && units == Mm
      && scale == 1.0
      && origin == Point(0.0, 0.0)
      && feedRate == 1500.0
      && activeTool == SelectTool
    }

    constructor ()
      ensures IsInitial()
    {
      contours := [];
      optimizedPath := None;
      customEntryPoints := map[];
      kerf := 0.0;
      units := Mm;
      scale := 1.0;
      origin := Point(0.0, 0.0);
      feedRate := 1500.0;
      activeTool := SelectTool;
    }

    method SetContours(c: seq<Contour>)
      modifies this
      ensures contours == c
      ensures optimizedPath == old(optimizedPath) && customEntryPoints == old(customEntryPoints)
      ensures kerf == old(kerf) && units == old(units) && scale == old(scale) && origin == old(origin)
      ensures feedRate == old(feedRate) && activeTool == old(activeTool)
    {
      contours := c;
    }

    /** `setOptimizedPath(p?)`: `None` stands for `undefined`. */
    method SetOptimizedPath(p: Option<OptimizedPath>)
      modifies this
      ensures optimizedPath == p
      ensures contours == old(contours) && customEntryPoints == old(customEntryPoints)
      ensures kerf == old(kerf) && units == old(units) && scale == old(scale) && origin == old(origin)
      ensures feedRate == old(feedRate) && activeTool == old(activeTool)
    {
      optimizedPath := p;
    }

    /** `setCustomEntryPoint(contourId, entryT)`: a copy of the map with one key set. */
    method SetCustomEntryPoint(contourId: ContourId, entryT: real)
      modifies this
      ensures customEntryPoints == WithEntryPoint(old(customEntryPoints), contourId, entryT)
      ensures contours == old(contours) && optimizedPath == old(optimizedPath)
      ensures kerf == old(kerf) && units == old(units) && scale == old(scale) && origin == old(origin)
      ensures feedRate == old(feedRate) && activeTool == old(activeTool)
    {
      var newMap := customEntryPoints;
      newMap := newMap[contourId := entryT];
      customEntryPoints := newMap;
    }

    method ClearCustomEntryPoints()
      modifies this
      ensures customEntryPoints == map[]
      ensures contours == old(contours) && optimizedPath == old(optimizedPath)
      ensures kerf == old(kerf) && units == old(units) && scale == old(scale) && origin == old(origin)
      ensures feedRate == old(feedRate) && activeTool == old(activeTool)
    {
      customEntryPoints := map[];
    }

    method SetKerf(k: real)
      modifies this
      ensures kerf == k
      ensures contours == old(contours) && optimizedPath == old(optimizedPath) && customEntryPoints == old(customEntryPoints)
      ensures units == old(units) && scale == old(scale) && origin == old(origin)
      ensures feedRate == old(feedRate) && activeTool == old(activeTool)
    {
      kerf := k;
    }

    method SetUnits(u: Units)
      modifies this
      ensures units == u
      ensures contours == old(contours) && optimizedPath == old(optimizedPath) && customEntryPoints == old(customEntryPoints)
      ensures kerf == old(kerf) && scale == old(scale) && origin == old(origin)
      ensures feedRate == old(feedRate) && activeTool == old(activeTool)
    {
      units := u;
    }

    method SetFeedRate(f: real)
      modifies this
      ensures feedRate == f
      ensures contours == old(contours) && optimizedPath == old(optimizedPath) && customEntryPoints == old(customEntryPoints)
      ensures kerf == old(kerf) && units == old(units) && scale == old(scale) && origin == old(origin)
      ensures activeTool == old(activeTool)
    {
      feedRate := f;
    }

    method SetScale(s: real)
      modifies this
      ensures scale == s
      ensures contours == old(contours) && optimizedPath == old(optimizedPath) && customEntryPoints == old(customEntryPoints)
      ensures kerf == old(kerf) && units == old(units) && origin == old(origin)
      ensures feedRate == old(feedRate) && activeTool == old(activeTool)
    {
      scale := s;
    }

    method SetActiveTool(t: Tool)
      modifies this
      ensures activeTool == t
      ensures contours == old(contours) && optimizedPath == old(optimizedPath) && customEntryPoints == old(customEntryPoints)
      ensures kerf == old(kerf) && units == old(units) && scale == old(scale) && origin == old(origin)
      ensures feedRate == old(feedRate)
    {
      activeTool := t;
    }
  }

  /** Setting the same contour twice keeps only the later value. */
  lemma LaterEntryPointWins(m: CustomEntryPoints, contourId: ContourId, t1: real, t2: real)
    ensures WithEntryPoint(WithEntryPoint(m, contourId, t1), contourId, t2) == WithEntryPoint(m, contourId, t2)
  {
    var a := WithEntryPoint(WithEntryPoint(m, contourId, t1), contourId, t2);
    var b := WithEntryPoint(m, contourId, t2);
    assert forall k :: k in a ==> a[k] == b[k];
  }

  /** Entry points set for two different contours do not interfere: the order of the two calls does not matter. */
  lemma DistinctEntryPointsCommute(m: CustomEntryPoints, id1: ContourId, t1: real, id2: ContourId, t2: real)
    requires id1 != id2
    ensures WithEntryPoint(WithEntryPoint(m, id1, t1), id2, t2) == WithEntryPoint(WithEntryPoint(m, id2, t2), id1, t1)
  {
    var a := WithEntryPoint(WithEntryPoint(m, id1, t1), id2, t2);
    var b := WithEntryPoint(WithEntryPoint(m, id2, t2), id1, t1);
    assert forall k :: k in a ==> a[k] == b[k];
  }

  /** Setting a contour to the value it already has leaves the map as it was. */
  lemma SameEntryPointNoChange(m: CustomEntryPoints, contourId: ContourId)
    requires contourId in m
    ensures WithEntryPoint(m, contourId, m[contourId]) == m
  {
    var a := WithEntryPoint(m, contourId, m[contourId]);
    assert forall k :: k in a ==> a[k] == m[k];
  }

  /** A sequence of user edits, as `setCustomEntryPoint` calls in order. */
  function AfterEdits(m: CustomEntryPoints, edits: seq<(ContourId, real)>): (r: CustomEntryPoints)
    decreases |edits|
  {
    if |edits| == 0 then m
    else WithEntryPoint(AfterEdits(m, edits[..|edits| - 1]), edits[|edits| - 1].0, edits[|edits| - 1].1)
  }

  /**
   * After a run of edits from a cleared map, a contour has an entry point
   * exactly when some edit named it, and the value is that of the last such
   * edit.
   */
  lemma {:induction false} AfterEditsLastWins(edits: seq<(ContourId, real)>, id: ContourId)
    ensures id in AfterEdits(map[], edits) <==> exists i :: 0 <= i < |edits| && edits[i].0 == id
    ensures forall i :: 0 <= i < |edits| && edits[i].0 == id && (forall j :: i < j < |edits| ==> edits[j].0 != id) ==>
              (id in AfterEdits(map[], edits) && AfterEdits(map[], edits)[id] == edits[i].1)
    decreases |edits|
  {
    if |edits| > 0 {
      var init := edits[..|edits| - 1];
      AfterEditsLastWins(init, id);
      var last := edits[|edits| - 1];
      if last.0 != id {
        forall i | 0 <= i < |edits| && edits[i].0 == id
          ensures i < |init| && init[i].0 == id
        {
        }
        forall i | 0 <= i < |init| && init[i].0 == id
          ensures edits[i].0 == id
        {
        }
        forall i | 0 <= i < |edits| && edits[i].0 == id && (forall j :: i < j < |edits| ==> edits[j].0 != id)
          ensures i < |init| && (forall j :: i < j < |init| ==> init[j].0 != id)
        {
        }
      } else {
        assert edits[|edits| - 1].0 == id;
      }
    }
  }
}

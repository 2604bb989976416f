/**
 * src/geometry/entryExit.ts: one EntryExit per contour, in the contours'
 * order. An override's fields win where present; otherwise the entry is 0
 * and the exit equals the entry.
 */
module EntryExits {
  import opened Wrappers
  import opened Types

  /** Only `customEntryPoints` influences the result; the rest is carried along. */
  datatype EntryExitOptions = EntryExitOptions(
    samplesPerContour: int,
    crossingPenaltyWeight: real,
    origin: Point,
    customEntryPoints: Option<map<ContourId, EntryExitOverride>>)

  /** `options.customEntryPoints?.get(id)`. */
  function LookupOverride(custom: Option<map<ContourId, EntryExitOverride>>, id: ContourId): Option<EntryExitOverride> {
    if custom.Some? && id in custom.value then Some(custom.value[id]) else None
  }

  /** `override?.entryT ?? 0`, then `override?.exitT ?? entryT`. */
  function ResolveEntryExit(id: ContourId, ov: Option<EntryExitOverride>): EntryExit {
    var entryT := if ov.Some? && ov.value.entryT.Some? then ov.value.entryT.value else 0.0;
    var exitT := if ov.Some? && ov.value.exitT.Some? then ov.value.exitT.value else entryT;
    EntryExit(id, entryT, exitT)
  }

  /** `computeEntryExits(contours, options)`: a `map` over the contours. */
  function ComputeEntryExits(contours: seq<Contour>, options: EntryExitOptions): (r: seq<EntryExit>)
    ensures |r| == |contours|
    ensures forall i :: 0 <= i < |r| ==> r[i].contourId == contours[i].id
  {
    seq(|contours|, i requires 0 <= i < |contours| =>
      ResolveEntryExit(contours[i].id, LookupOverride(options.customEntryPoints, contours[i].id)))
  }

  /** A contour without an override is entered and left at parameter 0. */
  lemma DefaultEntryExit(contours: seq<Contour>, options: EntryExitOptions, i: nat)
    requires i < |contours|
    requires options.customEntryPoints.None? || contours[i].id !in options.customEntryPoints.value
    ensures ComputeEntryExits(contours, options)[i] == EntryExit(contours[i].id, 0.0, 0.0)
  {
  }

  /** Without a custom map every contour gets (0, 0). */
  lemma NoCustomMapAllZero(contours: seq<Contour>, options: EntryExitOptions)
    requires options.customEntryPoints.None?
    ensures forall i :: 0 <= i < |contours| ==>
      ComputeEntryExits(contours, options)[i] == EntryExit(contours[i].id, 0.0, 0.0)
  {
  }

  /**
   * With an override, each field is resolved on its own: a present field is
   * copied unchanged, a missing entry becomes 0 and a missing exit becomes the
   * resolved entry.
   */
  lemma OverrideFieldsIndependent(contours: seq<Contour>, options: EntryExitOptions, i: nat)
    requires i < |contours|
    requires options.customEntryPoints.Some? && contours[i].id in options.customEntryPoints.value
    ensures var ov, ee := options.customEntryPoints.value[contours[i].id], ComputeEntryExits(contours, options)[i];
      && ee.entryT == (if ov.entryT.Some? then ov.entryT.value else 0.0)
      && ee.exitT == (if ov.exitT.Some? then ov.exitT.value else ee.entryT)
  {
  }

  /**
   * Overrides for ids that name no input contour make no difference: two
   * option records that agree on the input's ids give the same result.
   */
  lemma UnrelatedOverridesIgnored(contours: seq<Contour>, a: EntryExitOptions, b: EntryExitOptions)
    requires forall i :: 0 <= i < |contours| ==>
      LookupOverride(a.customEntryPoints, contours[i].id) == LookupOverride(b.customEntryPoints, contours[i].id)
    ensures ComputeEntryExits(contours, a) == ComputeEntryExits(contours, b)
  {
  }

  /** Restricting the custom map to the input's ids changes nothing. */
  lemma RestrictedMapSameResult(contours: seq<Contour>, options: EntryExitOptions, m: map<ContourId, EntryExitOverride>)
    requires options.customEntryPoints == Some(m)
    ensures var ids := set i | 0 <= i < |contours| :: contours[i].id;
      ComputeEntryExits(contours, options)
        == ComputeEntryExits(contours, options.(customEntryPoints := Some(map k | k in m && k in ids :: m[k])))
  {
    var ids := set i | 0 <= i < |contours| :: contours[i].id;
    var restricted := options.(customEntryPoints := Some(map k | k in m && k in ids :: m[k]));
    forall i | 0 <= i < |contours|
      ensures LookupOverride(options.customEntryPoints, contours[i].id) == LookupOverride(restricted.customEntryPoints, contours[i].id)
    {
      assert contours[i].id in ids;
    }
    UnrelatedOverridesIgnored(contours, options, restricted);
  }
}

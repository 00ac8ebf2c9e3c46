/** The peripapillary grid around the optic disc:
    `create_peripapillary_grid` in octolyzer/measure/bscan/thickness_maps/grid.py.
    A disk is split into four quadrants; quadrants 0 and 2 are halved along
    the line through their centroid and the disk centre; a central disk of a
    third of the radius is cut out of every sector and listed last. */
module Peripapillary {
  import opened Raster
  import opened CircularGrid

  /** The angle nudge of line 226. */
  const Nudge: real := 0.00000001

  /** The pixel (row y, column x) passes the test `y <= m*x + c` of line 255. */
  predicate OnRightSide(p: Pixel, m: real, c: real) {
    p.row as real <= m * p.col as real + c
  }

  /** Lines 254-258 as a value: the pixels failing the line test go left and
      the pixels passing it go right. */
  function HalfPlaneSplit(region: set<Pixel>, m: real, c: real): (halves: (set<Pixel>, set<Pixel>))
    ensures halves.0 !! halves.1 && halves.0 + halves.1 == region
    ensures forall p :: p in halves.1 <==> p in region && OnRightSide(p, m, c)
  {
    var right := set p | p in region && OnRightSide(p, m, c);
    (region - right, right)
  }

  /** The loop of lines 254-258 over the pixels of the region. */
  method SplitByLine(region: set<Pixel>, m: real, c: real) returns (left: set<Pixel>, right: set<Pixel>)
    ensures (left, right) == HalfPlaneSplit(region, m, c)
  {
    left, right := {}, {};
    var rest := region;
    while rest != {}
      invariant rest <= region
      invariant left == set p | p in region - rest && !OnRightSide(p, m, c)
      invariant right == set p | p in region - rest && OnRightSide(p, m, c)
      decreases rest
    {
      var p :| p in rest;
      if OnRightSide(p, m, c) {
        right := right + {p};
      } else {
        left := left + {p};
      }
      rest := rest - {p};
    }
    assert region - rest == region;
    assert left == region - right;
  }

  /** The sectors one quadrant contributes (lines 237-268): quadrants 1 and 3
      whole, quadrants 0 and 2 as their first labelled component halved by
      the line; each without the central disk. No component, or an empty
      half (`left[:, 1]` on an empty array), raises IndexError. */
  function QuadSectors(idx: nat, quad: set<Pixel>, central: set<Pixel>, centre: Point, kit: Toolkit)
    : (r: Result<seq<set<Pixel>>>)
    ensures r.Ok? ==> |r.value| == (if idx == 1 || idx == 3 then 1 else 2)
    ensures r.Err? ==> r.error == IndexError
    ensures r.Ok? ==> forall k :: 0 <= k < |r.value| ==> r.value[k] !! central
  {
    if idx == 1 || idx == 3 then Ok([quad - central])
    else
      var comps := kit.components(quad);
      if |comps| == 0 then Err(IndexError)
      else
        var line := kit.lineThrough(quad, centre);
        var halves := HalfPlaneSplit(comps[0], line.0, line.1);
        if halves.0 == {} || halves.1 == {} then Err(IndexError)
        else Ok([halves.0 - central, halves.1 - central])
  }

  /** The sectors of the first `n` quadrants, in list order; the first
      failure propagates. */
  function SectorsUpTo(quads: seq<set<Pixel>>, n: nat, central: set<Pixel>, centre: Point, kit: Toolkit)
    : (r: Result<seq<set<Pixel>>>)
    requires n <= |quads|
    ensures r.Ok? ==> forall k :: 0 <= k < |r.value| ==> r.value[k] !! central
    ensures r.Err? ==> r.error == IndexError
  {
    if n == 0 then Ok([])
    else match SectorsUpTo(quads, n - 1, central, centre, kit)
      case Err(e) => Err(e)
      case Ok(done) =>
        match QuadSectors(n - 1, quads[n - 1], central, centre, kit)
        case Err(e) => Err(e)
        case Ok(more) => Ok(done + more)
  }

  /** The index lists of lines 272-275; any other eye keeps the list order. */
  function EyeOrder(eye: string): seq<nat> {
    if eye == "Right" then [2, 1, 0, 5, 3, 4, 6]
    else if eye == "Left" then [5, 0, 1, 2, 4, 3, 6]
    else [0, 1, 2, 3, 4, 5, 6]
  }

  /** The three orders are permutations of the seven masks, and each keeps
      the central disk last. */
  lemma EyeOrderIsPermutation(eye: string)
    ensures IsPermutation(EyeOrder(eye), 7)
    ensures EyeOrder(eye)[6] == 6
  {
    var t := EyeOrder(eye);
    forall j | 0 <= j < 7 ensures j in t {
      assert t[0] == j || t[1] == j || t[2] == j || t[3] == j || t[4] == j || t[5] == j || t[6] == j;
    }
  }

  /** `create_peripapillary_grid(radius, centre, img_shape, angle, eye)` as a
      value: the six sectors, then the central disk of radius `radius // 3`,
      reordered by eye. */
  function PeripapillaryGrid(radius: int, centre: Point, s: Shape, angle: real, eye: string, kit: Toolkit)
    : (r: Result<seq<set<Pixel>>>)
    ensures r.Ok? ==> |r.value| == 7 && r.value[6] == CircularMask(s, centre, radius / 3)
    ensures r.Ok? ==> forall k :: 0 <= k < 6 ==> r.value[k] !! CircularMask(s, centre, radius / 3)
  {
    var circle := CircularMask(s, centre, radius);
    var central := CircularMask(s, centre, radius / 3);
    match CircularGrids(circle, angle + Nudge, kit)
    case Err(e) => Err(e)
    case Ok(quads) =>
      match SectorsUpTo(quads, 4, central, centre, kit)
      case Err(e) => Err(e)
      case Ok(sectors) =>
        assert |sectors| == 6 by { SectorCount(quads, central, centre, kit); }
        Ok(Pick(sectors + [central], EyeOrder(eye)))
  }

  /** When the four quadrants yield sectors, there are six of them. */
  lemma SectorCount(quads: seq<set<Pixel>>, central: set<Pixel>, centre: Point, kit: Toolkit)
    requires |quads| == 4
    requires SectorsUpTo(quads, 4, central, centre, kit).Ok?
    ensures |SectorsUpTo(quads, 4, central, centre, kit).value| == 6
  {
    var s := SectorsUpTo(quads, 4, central, centre, kit);
    assert SectorsUpTo(quads, 3, central, centre, kit).Ok?;
    assert SectorsUpTo(quads, 2, central, centre, kit).Ok?;
    assert SectorsUpTo(quads, 1, central, centre, kit).Ok?;
  }

  /** A failure in an earlier quadrant is a failure of the whole loop. */
  lemma {:induction false} SectorsErrSticky(quads: seq<set<Pixel>>, n: nat, m: nat,
                                            central: set<Pixel>, centre: Point, kit: Toolkit)
    requires n <= m <= |quads|
    requires SectorsUpTo(quads, n, central, centre, kit).Err?
    ensures SectorsUpTo(quads, m, central, centre, kit).Err?
    decreases m - n
  {
    if n < m {
      SectorsErrSticky(quads, n, m - 1, central, centre, kit);
    }
  }

  /** The function body of `create_peripapillary_grid`, with the loop of
      lines 236-268 appending to `grid_masks`. */
  method CreatePeripapillaryGrid(radius: int, centre: Point, s: Shape, angle: real, eye: string, kit: Toolkit)
    returns (r: Result<seq<set<Pixel>>>)
    ensures r == PeripapillaryGrid(radius, centre, s, angle, eye, kit)
  {
    var circle := CircularMask(s, centre, radius);
    var central := CircularMask(s, centre, radius / 3);
    var grids := CircularGrids(circle, angle + Nudge, kit);
    if grids.Err? {
      return Err(grids.error);
    }
    var quads := grids.value;
    var gridMasks: seq<set<Pixel>> := [];
    var idx := 0;
    while idx < 4
      invariant 0 <= idx <= 4
      invariant SectorsUpTo(quads, idx, central, centre, kit) == Ok(gridMasks)
    {
      var quad := quads[idx];
      if idx == 1 || idx == 3 {
        gridMasks := gridMasks + [quad - central];
      } else {
        var comps := kit.components(quad);
        if |comps| == 0 {
          assert QuadSectors(idx, quad, central, centre, kit).Err?;
          SectorsErrSticky(quads, idx + 1, 4, central, centre, kit);
          return Err(IndexError);
        }
        var line := kit.lineThrough(quad, centre);
        var left, right := SplitByLine(comps[0], line.0, line.1);
        if left == {} || right == {} {
          assert QuadSectors(idx, quad, central, centre, kit).Err?;
          SectorsErrSticky(quads, idx + 1, 4, central, centre, kit);
          return Err(IndexError);
        }
        gridMasks := gridMasks + [left - central, right - central];
      }
      idx := idx + 1;
    }
    SectorCount(quads, central, centre, kit);
    gridMasks := gridMasks + [central];
    r := Ok(Pick(gridMasks, EyeOrder(eye)));
  }

  /** The halves of a quadrant along the line through its centroid. */
  function Halves(quad: set<Pixel>, centre: Point, kit: Toolkit): (set<Pixel>, set<Pixel>) {
    var line := kit.lineThrough(quad, centre);
    HalfPlaneSplit(quad, line.0, line.1)
  }

  /** What the partition needs of a quadrant that gets halved: its first
      labelled component is the whole quadrant and the line leaves pixels on
      both sides. */
  ghost predicate Splittable(quad: set<Pixel>, centre: Point, kit: Toolkit) {
    && |kit.components(quad)| > 0
    && kit.components(quad)[0] == quad
    && Halves(quad, centre, kit).0 != {}
    && Halves(quad, centre, kit).1 != {}
  }

  /** Whenever the loop succeeds, list positions 2 and 5 hold the unsplit
      quadrants 1 and 3 without the central disk. */
  lemma SectorsLayout(quads: seq<set<Pixel>>, central: set<Pixel>, centre: Point, kit: Toolkit)
    requires |quads| == 4
    requires SectorsUpTo(quads, 4, central, centre, kit).Ok?
    ensures |SectorsUpTo(quads, 4, central, centre, kit).value| == 6
    ensures SectorsUpTo(quads, 4, central, centre, kit).value[2] == quads[1] - central
    ensures SectorsUpTo(quads, 4, central, centre, kit).value[5] == quads[3] - central
  {
    SectorCount(quads, central, centre, kit);
    assert SectorsUpTo(quads, 3, central, centre, kit).Ok?;
    assert SectorsUpTo(quads, 2, central, centre, kit).Ok?;
    assert SectorsUpTo(quads, 1, central, centre, kit).Ok?;
    var s1 := SectorsUpTo(quads, 1, central, centre, kit).value;
    var s2 := SectorsUpTo(quads, 2, central, centre, kit).value;
    var s3 := SectorsUpTo(quads, 3, central, centre, kit).value;
    assert s2 == s1 + [quads[1] - central];
    assert |s3| == 5;
  }

  /** With both halved quadrants splittable, the loop yields the six sectors
      in the order of lines 240-266. */
  lemma SectorsValue(quads: seq<set<Pixel>>, central: set<Pixel>, centre: Point, kit: Toolkit)
    requires |quads| == 4
    requires Splittable(quads[0], centre, kit) && Splittable(quads[2], centre, kit)
    ensures SectorsUpTo(quads, 4, central, centre, kit) == Ok([
      Halves(quads[0], centre, kit).0 - central, Halves(quads[0], centre, kit).1 - central,
      quads[1] - central,
      Halves(quads[2], centre, kit).0 - central, Halves(quads[2], centre, kit).1 - central,
      quads[3] - central])
  {
    var h0 := Halves(quads[0], centre, kit);
    var h2 := Halves(quads[2], centre, kit);
    assert QuadSectors(0, quads[0], central, centre, kit) == Ok([h0.0 - central, h0.1 - central]);
    assert QuadSectors(2, quads[2], central, centre, kit) == Ok([h2.0 - central, h2.1 - central]);
    var s1 := [h0.0 - central, h0.1 - central];
    var s2 := s1 + [quads[1] - central];
    var s3 := s2 + [h2.0 - central, h2.1 - central];
    assert SectorsUpTo(quads, 1, central, centre, kit) == Ok([] + s1);
    assert [] + s1 == s1;
    assert SectorsUpTo(quads, 2, central, centre, kit) == Ok(s2);
    assert SectorsUpTo(quads, 3, central, centre, kit) == Ok(s3);
    assert SectorsUpTo(quads, 4, central, centre, kit) == Ok(s3 + [quads[3] - central]);
    assert s3 + [quads[3] - central] == [h0.0 - central, h0.1 - central, quads[1] - central,
                                         h2.0 - central, h2.1 - central, quads[3] - central];
  }

  /** Six sectors cut from a partitioned disk, plus a central disk inside
      it, again partition the disk. */
  lemma {:induction false} SevenPartition(q: seq<set<Pixel>>, disk: set<Pixel>, central: set<Pixel>,
                                          h0: (set<Pixel>, set<Pixel>), h2: (set<Pixel>, set<Pixel>))
    requires |q| == 4 && Partitions(q, disk) && central <= disk
    requires h0.0 !! h0.1 && h0.0 + h0.1 == q[0]
    requires h2.0 !! h2.1 && h2.0 + h2.1 == q[2]
    ensures Partitions([h0.0 - central, h0.1 - central, q[1] - central,
                        h2.0 - central, h2.1 - central, q[3] - central, central], disk)
  {
    var m := [h0.0 - central, h0.1 - central, q[1] - central,
              h2.0 - central, h2.1 - central, q[3] - central, central];
    // the quadrant each of the first six masks comes from
    var from := [0, 0, 1, 2, 2, 3];
    assert forall i :: 0 <= i < 6 ==> m[i] <= q[from[i]];
    forall i, j | 0 <= i < j < 7 ensures m[i] !! m[j] {
      if j < 6 && from[i] != from[j] {
        assert q[from[i]] !! q[from[j]];
      }
    }
    forall p | p in disk ensures p in UnionAll(m) {
      if p in central {
        assert p in m[6];
      } else {
        assert p in UnionAll(q);
        var k :| 0 <= k < 4 && p in q[k];
        if k == 0 {
          assert p in m[0] || p in m[1];
        } else if k == 2 {
          assert p in m[3] || p in m[4];
        } else if k == 1 {
          assert p in m[2];
        } else {
          assert p in m[5];
        }
      }
    }
    forall p | p in UnionAll(m) ensures p in disk {
      var i :| 0 <= i < 7 && p in m[i];
      if i < 6 {
        assert p in q[from[i]];
        assert p in UnionAll(q);
      }
    }
  }

  /** If the disk is well split and quadrants 0 and 2 are splittable, the
      seven masks are produced without error and partition the disk, in
      every eye order. */
  lemma PeripapillaryPartition(radius: int, centre: Point, s: Shape, angle: real, eye: string, kit: Toolkit)
    requires WellSplit(CircularMask(s, centre, radius), angle + Nudge, kit)
    requires CircularGrids(CircularMask(s, centre, radius), angle + Nudge, kit).Ok?
    requires Splittable(CircularGrids(CircularMask(s, centre, radius), angle + Nudge, kit).value[0], centre, kit)
    requires Splittable(CircularGrids(CircularMask(s, centre, radius), angle + Nudge, kit).value[2], centre, kit)
    ensures PeripapillaryGrid(radius, centre, s, angle, eye, kit).Ok?
    ensures Partitions(PeripapillaryGrid(radius, centre, s, angle, eye, kit).value, CircularMask(s, centre, radius))
  {
    var disk := CircularMask(s, centre, radius);
    var central := CircularMask(s, centre, radius / 3);
    var quads := CircularGrids(disk, angle + Nudge, kit).value;
    CircularGridsPartition(disk, angle + Nudge, kit);
    if radius >= 0 {
      MasksNest(s, centre, radius / 3, radius);
    }
    SectorsValue(quads, central, centre, kit);
    var h0 := Halves(quads[0], centre, kit);
    var h2 := Halves(quads[2], centre, kit);
    SevenPartition(quads, disk, central, h0, h2);
    var sectors := SectorsUpTo(quads, 4, central, centre, kit).value;
    assert sectors + [central] == [h0.0 - central, h0.1 - central, quads[1] - central,
                                   h2.0 - central, h2.1 - central, quads[3] - central, central];
    EyeOrderIsPermutation(eye);
    PickPermutationPartitions(sectors + [central], EyeOrder(eye), disk);
  }

  /** Position i of the Left order holds what position Mirror[i] of the
      Right order holds. */
  const Mirror: seq<nat> := [3, 2, 1, 0, 5, 4, 6]

  /** The Left grid is the Right grid with the sectors mirrored: the first
      four positions reversed and the next two swapped. */
  lemma PeripapillaryMirror(radius: int, centre: Point, s: Shape, angle: real, kit: Toolkit)
    ensures PeripapillaryGrid(radius, centre, s, angle, "Left", kit).Ok?
            <==> PeripapillaryGrid(radius, centre, s, angle, "Right", kit).Ok?
    ensures PeripapillaryGrid(radius, centre, s, angle, "Left", kit).Ok? ==>
      forall i :: 0 <= i < 7 ==>
        PeripapillaryGrid(radius, centre, s, angle, "Left", kit).value[i]
        == PeripapillaryGrid(radius, centre, s, angle, "Right", kit).value[Mirror[i]]
  {
  }

  /** The two unsplit quadrants land at positions 0 and 3, swapped between
      the eyes. */
  lemma UnsplitQuadrantsSwap(radius: int, centre: Point, s: Shape, angle: real, kit: Toolkit)
    requires PeripapillaryGrid(radius, centre, s, angle, "Right", kit).Ok?
    ensures var quads := CircularGrids(CircularMask(s, centre, radius), angle + Nudge, kit).value;
            var central := CircularMask(s, centre, radius / 3);
            var right := PeripapillaryGrid(radius, centre, s, angle, "Right", kit).value;
            var left := PeripapillaryGrid(radius, centre, s, angle, "Left", kit).value;
            && right[0] == quads[1] - central && right[3] == quads[3] - central
            && left[0] == quads[3] - central && left[3] == quads[1] - central
  {
    var quads := CircularGrids(CircularMask(s, centre, radius), angle + Nudge, kit).value;
    SectorsLayout(quads, CircularMask(s, centre, radius / 3), centre, kit);
  }
}

/** The ETDRS (Early Treatment Diabetic Retinopathy Study) grid:
    `create_etdrs_grid` in octolyzer/measure/bscan/thickness_maps/grid.py.
    Three concentric disks; the middle and outer disks are split into four
    quadrants each, and set differences carve out a central disk, four inner
    regions and four outer regions. */
module Etdrs {
  import opened Raster
  import opened CircularGrid

  /** `int(np.ceil((N/scale)/2))`: the pixel radius of a disk of diameter N
      microns at `scale` microns per pixel, computed on exact reals. */
  function CeilRadius(diameter: real, scale: real): (r: int)
    requires scale != 0.0
    ensures diameter / scale / 2.0 <= r as real < diameter / scale / 2.0 + 1.0
  {
    -((-(diameter / scale / 2.0)).Floor)
  }

  /** A larger diameter never gives a smaller radius. */
  lemma CeilRadiusMonotone(d1: real, d2: real, scale: real)
    requires scale > 0.0 && d1 <= d2
    ensures CeilRadius(d1, scale) <= CeilRadius(d2, scale)
  {
    assert d1 / scale <= d2 / scale by {
      assert d2 / scale - d1 / scale == (d2 - d1) / scale;
    }
  }

  /** The radius list of line 333; dividing by a zero scale raises once the
      list has an element. */
  function EtdrsRadii(diameters: seq<real>, scale: real): (r: Result<seq<int>>)
    ensures r.Err? <==> |diameters| > 0 && scale == 0.0
    ensures r.Ok? ==> |r.value| == |diameters|
    ensures r.Ok? ==> forall i :: 0 <= i < |diameters| ==>
      diameters[i] / scale / 2.0 <= r.value[i] as real < diameters[i] / scale / 2.0 + 1.0
  {
    if |diameters| > 0 && scale == 0.0 then Err(ZeroDivisionError)
    else Ok(seq(|diameters|, i requires 0 <= i < |diameters| => CeilRadius(diameters[i], scale)))
  }

  /** Line 337: `create_circular_grids` on every disk after the first; the
      first failure propagates. */
  function QuadrantsOf(circles: seq<set<Pixel>>, angle: real, kit: Toolkit)
    : (r: Result<seq<seq<set<Pixel>>>>)
    ensures r.Ok? ==> |r.value| == |circles|
    ensures r.Ok? ==> forall i :: 0 <= i < |circles| ==>
      CircularGrids(circles[i], angle, kit) == Ok(r.value[i])
    ensures r.Err? <==> exists i :: 0 <= i < |circles| && CircularGrids(circles[i], angle, kit).Err?
  {
    if |circles| == 0 then Ok([])
    else match CircularGrids(circles[0], angle, kit)
      case Err(e) => Err(e)
      case Ok(q) =>
        match QuadrantsOf(circles[1..], angle, kit)
        case Err(e) => Err(e)
        case Ok(qs) => Ok([q] + qs)
  }

  /** The central disk, the two annuli and the eight quadrant regions. */
  datatype Rings = Rings(
    central: set<Pixel>,
    innerCircle: set<Pixel>,
    outerCircle: set<Pixel>,
    innerRegions: seq<set<Pixel>>,
    outerRegions: seq<set<Pixel>>)

  /** Lines 340-344: inner region k is middle quadrant k without the central
      disk; outer region k is outer quadrant k without inner region k and
      without the central disk; each circle is the union of its regions. */
  function RingRegions(central: set<Pixel>, q1: seq<set<Pixel>>, q2: seq<set<Pixel>>): (g: Rings)
    requires |q1| == 4 && |q2| == 4
    ensures g.central == central
    ensures |g.innerRegions| == 4 && |g.outerRegions| == 4
    ensures forall k :: 0 <= k < 4 ==>
      g.innerRegions[k] !! central && g.outerRegions[k] !! central
      && g.innerRegions[k] !! g.outerRegions[k]
    ensures forall k :: 0 <= k < 4 ==> g.innerRegions[k] <= q1[k] && g.outerRegions[k] <= q2[k]
    ensures forall p :: p in g.innerCircle <==>
      p !in central && exists k :: 0 <= k < 4 && p in q1[k]
    ensures forall p :: p in g.outerCircle <==>
      p !in central && exists k :: 0 <= k < 4 && p in q2[k] && p !in q1[k]
  {
    var inner := seq(4, k requires 0 <= k < 4 => q1[k] - central);
    var outer := seq(4, k requires 0 <= k < 4 => q2[k] - inner[k] - central);
    Rings(central, UnionAll(inner), UnionAll(outer), inner, outer)
  }

  /** The nine subfields in the order `measure_grid` lists them. */
  function Subfields(g: Rings): seq<set<Pixel>> {
    [g.central] + g.innerRegions + g.outerRegions
  }

  /** The subtraction only keeps outer region k apart from inner region k:
      when the two quadrant splits do not line up, a pixel can lie in inner
      region 0 and in outer region 1 at once. */
  lemma CrossIndexOverlap()
    ensures var a := Pixel(0, 0);
            var g := RingRegions({}, [{a}, {}, {}, {}], [{}, {a}, {}, {}]);
            a in g.innerRegions[0] && a in g.outerRegions[1]
  {
    var a := Pixel(0, 0);
    var g := RingRegions({}, [{a}, {}, {}, {}], [{}, {a}, {}, {}]);
    assert g.innerRegions[0] == {a} - {};
    assert g.outerRegions[1] == {a} - g.innerRegions[1] - {};
  }

  /** Hypotheses shared by the ring lemmas: nested disks, each disk's
      quadrants partitioning it, and every middle quadrant inside the outer
      quadrant of the same index. */
  predicate AlignedRings(c0: set<Pixel>, c1: set<Pixel>, c2: set<Pixel>,
                         q1: seq<set<Pixel>>, q2: seq<set<Pixel>>) {
    && c0 <= c1 <= c2
    && |q1| == 4 && |q2| == 4
    && Partitions(q1, c1) && Partitions(q2, c2)
    && (forall k :: 0 <= k < 4 ==> q1[k] <= q2[k])
  }

  /** Under aligned splits the nine subfields are pairwise disjoint. */
  lemma RingsDisjoint(c0: set<Pixel>, c1: set<Pixel>, c2: set<Pixel>,
                      q1: seq<set<Pixel>>, q2: seq<set<Pixel>>)
    requires AlignedRings(c0, c1, c2, q1, q2)
    ensures PairwiseDisjoint(Subfields(RingRegions(c0, q1, q2)))
  {
    var g := RingRegions(c0, q1, q2);
    var f := Subfields(g);
    assert forall k :: 0 <= k < 4 ==> f[1 + k] == g.innerRegions[k] && f[5 + k] == g.outerRegions[k];
    forall i, j | 0 <= i < j < 9 ensures f[i] !! f[j] {
      if i == 0 {
      } else if j < 5 {
        assert q1[i - 1] !! q1[j - 1];
      } else if i >= 5 {
        assert q2[i - 5] !! q2[j - 5];
      } else if j - 5 != i - 1 {
        assert q2[i - 1] !! q2[j - 5];
      }
    }
  }

  /** Under aligned splits the nine subfields cover exactly the outer disk. */
  lemma RingsCover(c0: set<Pixel>, c1: set<Pixel>, c2: set<Pixel>,
                   q1: seq<set<Pixel>>, q2: seq<set<Pixel>>)
    requires AlignedRings(c0, c1, c2, q1, q2)
    ensures UnionAll(Subfields(RingRegions(c0, q1, q2))) == c2
  {
    var g := RingRegions(c0, q1, q2);
    var f := Subfields(g);
    assert forall k :: 0 <= k < 4 ==> f[1 + k] == g.innerRegions[k] && f[5 + k] == g.outerRegions[k];
    forall p | p in c2 ensures p in UnionAll(f) {
      if p in c0 {
        assert p in f[0];
      } else {
        assert p in UnionAll(q2);
        var k :| 0 <= k < 4 && p in q2[k];
        if p in q1[k] {
          assert p in f[1 + k];
        } else {
          assert p in f[5 + k];
        }
      }
    }
    forall p | p in UnionAll(f) ensures p in c2 {
      var i :| 0 <= i < 9 && p in f[i];
      if 1 <= i < 5 {
        assert p in UnionAll(q1);
      } else if i >= 5 {
        assert p in UnionAll(q2);
      }
    }
  }

  /** Under aligned splits the inner annulus is the middle disk minus the
      central one and the outer annulus is the outer disk minus the middle. */
  lemma RingsAnnuli(c0: set<Pixel>, c1: set<Pixel>, c2: set<Pixel>,
                    q1: seq<set<Pixel>>, q2: seq<set<Pixel>>)
    requires AlignedRings(c0, c1, c2, q1, q2)
    ensures RingRegions(c0, q1, q2).innerCircle == c1 - c0
    ensures RingRegions(c0, q1, q2).outerCircle == c2 - c1
  {
    var g := RingRegions(c0, q1, q2);
    forall p | p in c1 - c0 ensures p in g.innerCircle {
      assert p in UnionAll(q1);
    }
    forall p | p in g.innerCircle ensures p in c1 - c0 {
      var k :| 0 <= k < 4 && p in q1[k];
      assert p in UnionAll(q1);
    }
    forall p | p in c2 - c1 ensures p in g.outerCircle {
      assert p in UnionAll(q2);
      var k :| 0 <= k < 4 && p in q2[k];
      assert p !in UnionAll(q1);
    }
    forall p | p in g.outerCircle ensures p in c2 - c1 {
      var k :| 0 <= k < 4 && p in q2[k] && p !in q1[k];
      assert p in UnionAll(q2);
      assert p !in UnionAll(q1) by {
        forall j | 0 <= j < 4 && j != k ensures p !in q1[j] {
          assert q2[j] !! q2[k];
        }
      }
    }
  }

  /** All three outputs of `create_etdrs_grid`. */
  datatype EtdrsGrid = EtdrsGrid(circles: seq<set<Pixel>>, quadrants: seq<seq<set<Pixel>>>, rings: Rings)

  /** `create_etdrs_grid(scale, center, img_shape, angle, etdrs_microns)`.
      Fewer than three diameters index past the circle or quadrant lists. */
  function CreateEtdrsGrid(scale: real, centre: Point, s: Shape, angle: real,
                           diameters: seq<real>, kit: Toolkit): (r: Result<EtdrsGrid>)
    ensures r.Ok? ==> |r.value.circles| == |diameters| >= 3
    ensures r.Ok? ==> forall i :: 0 <= i < |diameters| ==> r.value.circles[i] <= Lattice(s)
    ensures r.Ok? ==> r.value.rings.central == r.value.circles[0]
    ensures r.Ok? ==> |r.value.quadrants| == |diameters| - 1
    ensures |diameters| < 3 && !(|diameters| > 0 && scale == 0.0) ==> r.Err?
  {
    match EtdrsRadii(diameters, scale)
    case Err(e) => Err(e)
    case Ok(radii) =>
      var circles := seq(|radii|, i requires 0 <= i < |radii| => CircularMask(s, centre, radii[i]));
      match QuadrantsOf(if |circles| == 0 then [] else circles[1..], angle, kit)
      case Err(e) => Err(e)
      case Ok(quadrants) =>
        if |circles| == 0 || |quadrants| < 2 then Err(IndexError)
        else
          var g := RingRegions(circles[0], quadrants[0], quadrants[1]);
          Ok(EtdrsGrid(circles, quadrants, g))
  }

  /** The disk of line 336 for one diameter. */
  function EtdrsDisk(scale: real, centre: Point, s: Shape, diameter: real): set<Pixel>
    requires scale != 0.0
  {
    CircularMask(s, centre, CeilRadius(diameter, scale))
  }

  /** Middle quadrant k lies inside outer quadrant k for every k. */
  predicate QuadrantsAligned(r1: Result<seq<set<Pixel>>>, r2: Result<seq<set<Pixel>>>) {
    && r1.Ok? && r2.Ok? && |r1.value| == 4 && |r2.value| == 4
    && forall k :: 0 <= k < 4 ==> r1.value[k] <= r2.value[k]
  }

  /** With three diameters and both quadrant splits succeeding, the grid is
      the three disks, their two quadrant lists and the ring regions. */
  lemma EtdrsGridShape(scale: real, centre: Point, s: Shape, angle: real,
                       diameters: seq<real>, kit: Toolkit)
    requires scale != 0.0 && |diameters| == 3
    requires CircularGrids(EtdrsDisk(scale, centre, s, diameters[1]), angle, kit).Ok?
    requires CircularGrids(EtdrsDisk(scale, centre, s, diameters[2]), angle, kit).Ok?
    ensures CreateEtdrsGrid(scale, centre, s, angle, diameters, kit) ==
      var c := [EtdrsDisk(scale, centre, s, diameters[0]), EtdrsDisk(scale, centre, s, diameters[1]),
                EtdrsDisk(scale, centre, s, diameters[2])];
      var q1 := CircularGrids(c[1], angle, kit).value;
      var q2 := CircularGrids(c[2], angle, kit).value;
      Ok(EtdrsGrid(c, [q1, q2], RingRegions(c[0], q1, q2)))
  {
    var c := [EtdrsDisk(scale, centre, s, diameters[0]), EtdrsDisk(scale, centre, s, diameters[1]),
              EtdrsDisk(scale, centre, s, diameters[2])];
    var radii := EtdrsRadii(diameters, scale).value;
    var circles := seq(|radii|, i requires 0 <= i < |radii| => CircularMask(s, centre, radii[i]));
    assert circles == c;
    var q1 := CircularGrids(c[1], angle, kit).value;
    var q2 := CircularGrids(c[2], angle, kit).value;
    assert c[1..] == [c[1], c[2]];
    var tail := [c[2]];
    assert tail[0] == c[2] && tail[1..] == [];
    assert QuadrantsOf(tail[1..], angle, kit) == Ok([]);
    assert CircularGrids(tail[0], angle, kit) == Ok(q2);
    assert QuadrantsOf(tail, angle, kit) == Ok([q2] + []);
    assert [q2] + [] == [q2];
    var both := [c[1], c[2]];
    assert both[0] == c[1] && both[1..] == tail;
    assert CircularGrids(both[0], angle, kit) == Ok(q1);
    assert QuadrantsOf(both, angle, kit) == Ok([q1] + [q2]);
    assert c[1..] == both;
    assert [q1] + [q2] == [q1, q2];
  }

  /** For increasing diameters, well-split disks and aligned quadrants, the
      grid is built without error and its nine subfields partition the outer
      disk, with the annuli being differences of consecutive disks. */
  lemma EtdrsGridPartition(scale: real, centre: Point, s: Shape, angle: real,
                           diameters: seq<real>, kit: Toolkit)
    requires scale > 0.0 && |diameters| == 3
    requires diameters[0] <= diameters[1] <= diameters[2]
    requires WellSplit(EtdrsDisk(scale, centre, s, diameters[1]), angle, kit)
    requires WellSplit(EtdrsDisk(scale, centre, s, diameters[2]), angle, kit)
    requires QuadrantsAligned(CircularGrids(EtdrsDisk(scale, centre, s, diameters[1]), angle, kit),
                              CircularGrids(EtdrsDisk(scale, centre, s, diameters[2]), angle, kit))
    ensures CreateEtdrsGrid(scale, centre, s, angle, diameters, kit).Ok?
    ensures var g := CreateEtdrsGrid(scale, centre, s, angle, diameters, kit).value;
            && Partitions(Subfields(g.rings), g.circles[2])
            && g.rings.innerCircle == g.circles[1] - g.circles[0]
            && g.rings.outerCircle == g.circles[2] - g.circles[1]
  {
    var c0 := EtdrsDisk(scale, centre, s, diameters[0]);
    var c1 := EtdrsDisk(scale, centre, s, diameters[1]);
    var c2 := EtdrsDisk(scale, centre, s, diameters[2]);
    CeilRadiusMonotone(diameters[0], diameters[1], scale);
    CeilRadiusMonotone(diameters[1], diameters[2], scale);
    MasksNest(s, centre, CeilRadius(diameters[0], scale), CeilRadius(diameters[1], scale));
    MasksNest(s, centre, CeilRadius(diameters[1], scale), CeilRadius(diameters[2], scale));
    CircularGridsPartition(c1, angle, kit);
    CircularGridsPartition(c2, angle, kit);
    var q1 := CircularGrids(c1, angle, kit).value;
    var q2 := CircularGrids(c2, angle, kit).value;
    EtdrsGridShape(scale, centre, s, angle, diameters, kit);
    assert AlignedRings(c0, c1, c2, q1, q2);
    RingsDisjoint(c0, c1, c2, q1, q2);
    RingsCover(c0, c1, c2, q1, q2);
    RingsAnnuli(c0, c1, c2, q1, q2);
  }
}

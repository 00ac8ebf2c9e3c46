/** Circular masks and the split of a disk into four rotation-aware quadrants
    (`create_circular_mask` and `create_circular_grids` in
    octolyzer/measure/bscan/thickness_maps/grid.py). */
module CircularGrid {
  import opened Raster

  // ---------------------------------------------------------------------------
  // Circular masks
  // ---------------------------------------------------------------------------

  /** The pixels of the image within Euclidean distance `radius` of `centre`.
      numpy compares `sqrt(d2) <= radius`; for an integer radius that is the
      integer test below (see RootWithinRadius). */
  function CircularMask(s: Shape, centre: Point, radius: int): set<Pixel> {
    set p | p in Lattice(s) && radius >= 0 && Dist2(p, centre) <= radius * radius
  }

  /** The default centre `(int(h/2), int(w/2))`, used as (x, y). */
  function DefaultCentre(s: Shape): Point {
    Point(s.h / 2, s.w / 2)
  }

  /** The default radius: the smallest distance from the centre to an image wall. */
  function DefaultRadius(s: Shape, c: Point): int {
    Min(Min(c.x, c.y), Min(s.w - c.x, s.h - c.y))
  }

  /** `create_circular_mask(img_shape, center, radius)` with its defaults:
      the centre `(int(h/2), int(w/2))` is read as (x, y), so x comes from
      the height, and the radius is `min(cx, cy, w - cx, h - cy)`. */
  function CreateCircularMask(s: Shape, centre: Option<Point>, radius: Option<int>): (m: set<Pixel>)
    ensures m <= Lattice(s)
    ensures var cx := if centre.None? then s.h / 2 else centre.value.x;
      var cy := if centre.None? then s.w / 2 else centre.value.y;
      var r := if radius.None? then Min(Min(cx, cy), Min(s.w - cx, s.h - cy)) else radius.value;
      forall p :: p in m <==>
        InImage(s, p) && r >= 0 && (p.col - cx) * (p.col - cx) + (p.row - cy) * (p.row - cy) <= r * r
  {
    var c := if centre.None? then DefaultCentre(s) else centre.value;
    var r := if radius.None? then DefaultRadius(s, c) else radius.value;
    CircularMask(s, c, r)
  }

  /** For the non-negative square root of d2, `root <= radius` holds exactly
      when `radius >= 0 && d2 <= radius * radius`. */
  lemma RootWithinRadius(d2: nat, root: real, radius: int)
    requires root >= 0.0 && root * root == d2 as real
    ensures root <= radius as real <==> radius >= 0 && d2 <= radius * radius
  {
    var r := radius as real;
    assert (radius * radius) as real == r * r;
    if root <= r {
      SquareLe(root, r);
    } else if radius >= 0 {
      SquareLt(r, root);
    }
  }

  lemma SquareLt(a: real, b: real)
    requires 0.0 <= a < b
    ensures a * a < b * b
  {
    var d := b - a;
    assert b * b == a * a + 2.0 * a * d + d * d;
    assert d * d > 0.0;
    assert a * d >= 0.0;
  }

  lemma SquareLe(a: real, b: real)
    requires 0.0 <= a <= b
    ensures a * a <= b * b
  {
    var d := b - a;
    assert b * b == a * a + 2.0 * a * d + d * d;
    assert d * d >= 0.0;
    assert a * d >= 0.0;
  }

  /** A pixel is in the mask exactly when numpy's `sqrt(dist) <= radius` holds
      of it, given the square root of its squared distance to the centre. */
  lemma CircularMaskMembership(s: Shape, centre: Point, radius: int, p: Pixel, root: real)
    requires InImage(s, p)
    requires root >= 0.0 && root * root == Dist2(p, centre) as real
    ensures p in CircularMask(s, centre, radius) <==> root <= radius as real
  {
    RootWithinRadius(Dist2(p, centre), root, radius);
  }

  /** numpy's `sqrt(dist) <= radius` test, with the centre and radius
      defaulted as `create_circular_mask` does. */
  lemma CreateCircularMaskMembership(s: Shape, centre: Option<Point>, radius: Option<int>, p: Pixel, root: real)
    requires InImage(s, p)
    requires var c := if centre.None? then DefaultCentre(s) else centre.value;
      root >= 0.0 && root * root == Dist2(p, c) as real
    ensures var c := if centre.None? then DefaultCentre(s) else centre.value;
      var r := if radius.None? then DefaultRadius(s, c) else radius.value;
      p in CreateCircularMask(s, centre, radius) <==> root <= r as real
  {
    var c := if centre.None? then DefaultCentre(s) else centre.value;
    var r := if radius.None? then DefaultRadius(s, c) else radius.value;
    CircularMaskMembership(s, c, r, p, root);
  }

  /** On a square image the defaults give the inscribed disk: it is centred
      on the middle pixel, which it contains. */
  lemma DefaultMaskOnSquareImage(s: Shape)
    requires s.h == s.w >= 1
    ensures DefaultRadius(s, DefaultCentre(s)) == s.h / 2
    ensures Pixel(s.h / 2, s.w / 2) in CreateCircularMask(s, None, None)
  {
    assert Dist2(Pixel(s.h / 2, s.w / 2), DefaultCentre(s)) == 0;
  }

  /** Because the default centre is transposed, an image more than twice as
      tall as it is wide gets a negative default radius and an empty mask. */
  lemma DefaultMaskEmptyWhenTall(s: Shape)
    requires s.h / 2 > s.w
    ensures DefaultRadius(s, DefaultCentre(s)) < 0
    ensures CreateCircularMask(s, None, None) == {}
  {
  }

  lemma SquareMonotone(a: int, b: int)
    requires 0 <= a <= b
    ensures a * a <= b * b
  {
    assert a * a <= a * b <= b * b;
  }

  lemma SquareBound(a: int, r: int)
    requires r >= 0 && a * a <= r * r
    ensures -r <= a <= r
  {
    if a > r {
      SquareMonotone(r + 1, a);
    } else if a < -r {
      SquareMonotone(r + 1, -a);
    }
  }

  lemma SquareNonNegative(a: int)
    ensures a * a >= 0
  {
    if a < 0 {
      SquareMonotone(0, -a);
    }
  }

  /** Masks around one centre are nested as the radius grows. */
  lemma MasksNest(s: Shape, c: Point, r1: int, r2: int)
    requires r1 <= r2
    ensures CircularMask(s, c, r1) <= CircularMask(s, c, r2)
  {
    if r1 >= 0 {
      SquareMonotone(r1, r2);
    }
  }

  /** With the default radius, the whole disk (clipped or not) stays inside
      the image frame, walls included. */
  lemma DefaultDiskWithinFrame(s: Shape, c: Point, q: Pixel)
    requires DefaultRadius(s, c) >= 0
    requires Dist2(q, c) <= DefaultRadius(s, c) * DefaultRadius(s, c)
    ensures 0 <= q.col <= s.w && 0 <= q.row <= s.h
  {
    var r := DefaultRadius(s, c);
    var dx, dy := q.col - c.x, q.row - c.y;
    SquareNonNegative(dx);
    SquareNonNegative(dy);
    assert dx * dx <= r * r && dy * dy <= r * r;
    SquareBound(dx, r);
    SquareBound(dy, r);
    assert r <= c.x && r <= s.w - c.x && r <= c.y && r <= s.h - c.y;
  }

  // ---------------------------------------------------------------------------
  // Angle normalisation (grid.py lines 128-136)
  // ---------------------------------------------------------------------------

  function Sign(a: real): int {
    if a > 0.0 then 1 else if a < 0.0 then -1 else 0
  }

  function Abs(a: real): real {
    if a < 0.0 then -a else a
  }

  lemma FloorShift(x: real, k: int)
    ensures (x + k as real).Floor == x.Floor + k
  {
  }

  /** Python's float `%`: the remainder takes the sign of the divisor. */
  function PyMod(a: real, b: real): real
    requires b != 0.0
  {
    a - b * ((a / b).Floor as real)
  }

  /** `angle % (angle_sign * 360)` for a nonzero angle: it keeps the angle's
      sign (or becomes 0) and its magnitude drops below 360. */
  function Wrap(angle: real): (a: real)
    ensures angle > 0.0 ==> 0.0 <= a < 360.0
    ensures angle < 0.0 ==> -360.0 < a <= 0.0
    ensures angle == 0.0 ==> a == 0.0
  {
    if angle > 0.0 then
      assert 0.0 <= angle / 360.0 - (angle / 360.0).Floor as real < 1.0;
      PyMod(angle, 360.0)
    else if angle < 0.0 then
      assert 0.0 <= angle / -360.0 - (angle / -360.0).Floor as real < 1.0;
      PyMod(angle, -360.0)
    else angle
  }

  /** The normalised rotation and the relabel count. */
  datatype Rotation = Rotation(angle: real, relabel: int)

  /** Lines 129-136: wrap the angle, then, past 44 degrees, shift it by 89
      degrees against the original sign and count `(|a| - 1) // 44` relabels. */
  function NormaliseAngle(angle: real): Rotation {
    var a := Wrap(angle);
    if Abs(a) > 44.0 then
      Rotation(a - (Sign(angle) * 89) as real, ((Abs(a) - 1.0) / 44.0).Floor)
    else
      Rotation(a, 0)
  }

  /** Angle 0 is untouched; a wrapped angle of magnitude at most 44 is kept with
      relabel 0; past 44 the angle moves by 89 against its sign and the
      relabel count lies in 0 .. 8. */
  lemma NormaliseAngleCases(angle: real)
    ensures angle == 0.0 ==> NormaliseAngle(angle) == Rotation(0.0, 0)
    ensures Abs(Wrap(angle)) <= 44.0 ==> NormaliseAngle(angle) == Rotation(Wrap(angle), 0)
    ensures Abs(Wrap(angle)) > 44.0 ==>
      && NormaliseAngle(angle).angle == Wrap(angle) - (Sign(angle) * 89) as real
      && NormaliseAngle(angle).relabel == ((Abs(Wrap(angle)) - 1.0) / 44.0).Floor
      && 0 <= NormaliseAngle(angle).relabel <= 8
  {
    var a := Wrap(angle);
    if Abs(a) > 44.0 {
      var q := (Abs(a) - 1.0) / 44.0;
      assert 0.0 < q < 9.0;
    }
  }

  /** Within the documented range [-120, 120] the normalised angle lies
      strictly inside (-45, 45) and at most two relabels happen. */
  lemma DocumentedRange(angle: real)
    requires -120.0 <= angle <= 120.0
    ensures -45.0 < NormaliseAngle(angle).angle < 45.0
    ensures 0 <= NormaliseAngle(angle).relabel <= 2
  {
    if angle > 0.0 {
      assert PyMod(angle, 360.0) == angle by {
        assert (angle / 360.0).Floor == 0;
      }
    } else if angle < 0.0 {
      assert PyMod(angle, -360.0) == angle by {
        assert (angle / -360.0).Floor == 0;
      }
    }
  }

  /** Two nonzero angles of the same sign that differ by a whole number of
      turns normalise identically. */
  lemma {:induction false} NormalisePeriodic(a1: real, a2: real, k: int)
    requires a1 != 0.0 && a2 != 0.0 && Sign(a1) == Sign(a2)
    requires a2 == a1 + 360.0 * k as real
    ensures NormaliseAngle(a1) == NormaliseAngle(a2)
  {
    if a1 > 0.0 {
      assert a2 / 360.0 == a1 / 360.0 + k as real;
      FloorShift(a1 / 360.0, k);
      assert Wrap(a1) == Wrap(a2);
    } else {
      assert a2 / -360.0 == a1 / -360.0 + (-k) as real;
      FloorShift(a1 / -360.0, -k);
      assert Wrap(a1) == Wrap(a2);
    }
  }

  // ---------------------------------------------------------------------------
  // Bands and components (grid.py lines 138-163)
  // ---------------------------------------------------------------------------

  /** A polar angle `theta` falls in the top/bottom band of a grid rotated by
      the normalised angle `a`. */
  predicate InTopBottom(theta: real, a: real) {
    -45.0 - a < theta < 45.0 - a
  }

  /** Lines 140-149: the disk pixels split into the top/bottom band and its
      complement, the left/right band. */
  function Bands(disk: set<Pixel>, c: Pixel, a: real, polar: (Pixel, Pixel) -> real)
    : (r: (set<Pixel>, set<Pixel>))
    ensures r.0 !! r.1 && r.0 + r.1 == disk
    ensures forall p :: p in r.0 <==> p in disk && InTopBottom(polar(c, p), a)
  {
    var tb := set p | p in disk && InTopBottom(polar(c, p), a);
    (tb, disk - tb)
  }

  function Slot(cs: seq<set<Pixel>>, i: nat, n: nat): set<Pixel>
    requires n <= |cs|
  {
    if i < n then cs[i] else {}
  }

  /** Lines 152-163 as one value: the first two components of each band, as
      zipped, fill two slots per band; a third zipped pair indexes past the
      slots. The centroid pixel is put back into top/bottom slot 0. */
  function ComponentSlots(tb: seq<set<Pixel>>, rl: seq<set<Pixel>>, c: Pixel)
    : Result<seq<set<Pixel>>>
  {
    var n := Min(|tb|, |rl|);
    if n > 2 then Err(IndexError)
    else Ok([Slot(tb, 0, n) + {c}, Slot(tb, 1, n), Slot(rl, 0, n), Slot(rl, 1, n)])
  }

  /** The loop of lines 160-163 over `zip(topbot_props, leftright_props)`. */
  method SplitComponents(tb: seq<set<Pixel>>, rl: seq<set<Pixel>>, c: Pixel)
    returns (r: Result<seq<set<Pixel>>>)
    ensures r == ComponentSlots(tb, rl, c)
    ensures r.Err? <==> |tb| > 2 && |rl| > 2
  {
    var tbSplit: seq<set<Pixel>> := [{}, {}];
    var rlSplit: seq<set<Pixel>> := [{}, {}];
    var i := 0;
    while i < |tb| && i < |rl|
      invariant 0 <= i <= 2 && i <= |tb| && i <= |rl|
      invariant |tbSplit| == 2 && |rlSplit| == 2
      invariant forall k :: 0 <= k < 2 ==> tbSplit[k] == (if k < i then tb[k] else {})
      invariant forall k :: 0 <= k < 2 ==> rlSplit[k] == (if k < i then rl[k] else {})
    {
      if i >= 2 {
        return Err(IndexError);
      }
      tbSplit := tbSplit[i := tbSplit[i] + tb[i]];
      rlSplit := rlSplit[i := rlSplit[i] + rl[i]];
      i := i + 1;
    }
    var n := Min(|tb|, |rl|);
    assert i == n;
    tbSplit := tbSplit[0 := tbSplit[0] + {c}];
    assert tbSplit + rlSplit == [Slot(tb, 0, n) + {c}, Slot(tb, 1, n), Slot(rl, 0, n), Slot(rl, 1, n)];
    return Ok(tbSplit + rlSplit);
  }

  // ---------------------------------------------------------------------------
  // Quadrant ordering (grid.py lines 165-182)
  // ---------------------------------------------------------------------------

  /** Lines 166-182: reorder [tb0, tb1, rl0, rl1]; relabel 1 and relabel 2 apply
      the same permutation, chosen by the sign of the original angle. */
  function OrderQuadrants<T>(q: seq<T>, rot: Rotation, sign: int): seq<T>
    requires |q| == 4
  {
    var base := if rot.angle >= 0.0 then [q[0], q[2], q[1], q[3]] else [q[0], q[3], q[1], q[2]];
    if (rot.relabel == 1 || rot.relabel == 2) && sign > 0 then [base[3], base[2], base[1], base[0]]
    else if (rot.relabel == 1 || rot.relabel == 2) && sign < 0 then [base[1], base[2], base[3], base[0]]
    else base
  }

  /** The composed index table of OrderQuadrants. */
  function OrderTable(rot: Rotation, sign: int): seq<nat> {
    if (rot.relabel == 1 || rot.relabel == 2) && sign != 0 then
      (if (rot.angle >= 0.0) == (sign > 0) then [3, 1, 2, 0] else [2, 1, 3, 0])
    else if rot.angle >= 0.0 then [0, 2, 1, 3]
    else [0, 3, 1, 2]
  }

  /** Four indices that are 0, 1, 2 and 3 in some order form a permutation. */
  lemma FourIndicesPermutation(a: nat, b: nat, c: nat, d: nat)
    requires {a, b, c, d} == {0, 1, 2, 3}
    ensures IsPermutation([a, b, c, d], 4)
  {
    var t := [a, b, c, d];
    forall j | 0 <= j < 4 ensures j in t {
      assert j in {a, b, c, d};
    }
    assert a in {0, 1, 2, 3} && b in {0, 1, 2, 3} && c in {0, 1, 2, 3} && d in {0, 1, 2, 3};
  }

  /** Whatever the rotation and the sign, the quadrant order is a permutation
      of [tb0, tb1, rl0, rl1]: no quadrant is lost or duplicated. */
  lemma OrderTableIsPermutation(rot: Rotation, sign: int)
    ensures IsPermutation(OrderTable(rot, sign), 4)
  {
    var t := OrderTable(rot, sign);
    FourIndicesPermutation(t[0], t[1], t[2], t[3]);
    assert t == [t[0], t[1], t[2], t[3]];
  }

  /** The two-stage reordering of lines 166-182 picks the quadrants in the
      order OrderTable gives: after a relabel, top/bottom component 1 stays
      second and component 0 moves last. */
  lemma QuadrantOrderIsPick<T>(q: seq<T>, rot: Rotation, sign: int)
    requires |q| == 4
    ensures OrderQuadrants(q, rot, sign) == Pick(q, OrderTable(rot, sign))
  {
    var t := OrderTable(rot, sign);
    var r := OrderQuadrants(q, rot, sign);
    assert |t| == 4 && t[0] < 4 && t[1] < 4 && t[2] < 4 && t[3] < 4;
    var p := Pick(q, t);
    assert r[0] == p[0] && r[1] == p[1] && r[2] == p[2] && r[3] == p[3];
  }

  // ---------------------------------------------------------------------------
  // create_circular_grids
  // ---------------------------------------------------------------------------

  /** The two bands of a disk for a given input angle. */
  function DiskBands(disk: set<Pixel>, angle: real, kit: Toolkit): (set<Pixel>, set<Pixel>) {
    Bands(disk, kit.centroid(disk), NormaliseAngle(angle).angle, kit.polarAngle)
  }

  /** `create_circular_grids(circle_mask, angle)`: four quadrant masks. */
  function CircularGrids(disk: set<Pixel>, angle: real, kit: Toolkit): (r: Result<seq<set<Pixel>>>)
    ensures r.Ok? ==> |r.value| == 4
    ensures r.Err? <==> |kit.components(DiskBands(disk, angle, kit).0 - {kit.centroid(disk)})| > 2
                        && |kit.components(DiskBands(disk, angle, kit).1)| > 2
  {
    var c := kit.centroid(disk);
    var rot := NormaliseAngle(angle);
    var bands := DiskBands(disk, angle, kit);
    match ComponentSlots(kit.components(bands.0 - {c}), kit.components(bands.1), c)
    case Err(e) => Err(e)
    case Ok(q) => Ok(OrderQuadrants(q, rot, Sign(angle)))
  }

  /** What the labeller is trusted to do: split the top/bottom band (centroid
      removed) and the left/right band into exactly two components each. */
  ghost predicate TwoComponentsPerBand(disk: set<Pixel>, angle: real, kit: Toolkit) {
    var c := kit.centroid(disk);
    var bands := DiskBands(disk, angle, kit);
    && |kit.components(bands.0 - {c})| == 2 && Partitions(kit.components(bands.0 - {c}), bands.0 - {c})
    && |kit.components(bands.1)| == 2 && Partitions(kit.components(bands.1), bands.1)
  }

  /** What the labeller is trusted to do on one disk, together with the
      centroid lying in the top/bottom band (see CentroidInTopBottom). */
  ghost predicate WellSplit(disk: set<Pixel>, angle: real, kit: Toolkit) {
    TwoComponentsPerBand(disk, angle, kit) && kit.centroid(disk) in DiskBands(disk, angle, kit).0
  }

  /** With two components per band and the centroid in the top/bottom band,
      the four quadrants are pairwise disjoint and cover the disk. */
  lemma CircularGridsPartition(disk: set<Pixel>, angle: real, kit: Toolkit)
    requires TwoComponentsPerBand(disk, angle, kit)
    requires kit.centroid(disk) in DiskBands(disk, angle, kit).0
    ensures CircularGrids(disk, angle, kit).Ok?
    ensures |CircularGrids(disk, angle, kit).value| == 4
    ensures Partitions(CircularGrids(disk, angle, kit).value, disk)
  {
    var c := kit.centroid(disk);
    var rot := NormaliseAngle(angle);
    var bands := DiskBands(disk, angle, kit);
    var tb := kit.components(bands.0 - {c});
    var rl := kit.components(bands.1);
    var q := [tb[0] + {c}, tb[1], rl[0], rl[1]];
    assert ComponentSlots(tb, rl, c) == Ok(q);
    assert tb[0] !! tb[1] && rl[0] !! rl[1];
    assert tb[0] <= bands.0 - {c} && tb[1] <= bands.0 - {c};
    assert rl[0] <= bands.1 && rl[1] <= bands.1;
    forall p | p in disk ensures p in UnionAll(q) {
      if p == c {
        assert p in q[0];
      } else if p in bands.0 {
        assert p in UnionAll(tb);
        var i :| 0 <= i < 2 && p in tb[i];
        assert p in q[i];
      } else {
        assert p in UnionAll(rl);
        var i :| 0 <= i < 2 && p in rl[i];
        assert p in q[2 + i];
      }
    }
    forall p | p in UnionAll(q) ensures p in disk {
      var i :| 0 <= i < 4 && p in q[i];
      if i < 2 && p != c {
        assert p in UnionAll(tb);
      } else if i >= 2 {
        assert p in UnionAll(rl);
      }
    }
    assert Partitions(q, disk);
    OrderTableIsPermutation(rot, Sign(angle));
    QuadrantOrderIsPick(q, rot, Sign(angle));
    PickPermutationPartitions(q, OrderTable(rot, Sign(angle)), disk);
  }

  /** The centroid pixel lies in the top/bottom band whenever its own polar
      angle is 0 (arctan of 0) and the input angle is in [-120, 120]. */
  lemma CentroidInTopBottom(disk: set<Pixel>, angle: real, kit: Toolkit)
    requires -120.0 <= angle <= 120.0
    requires kit.centroid(disk) in disk
    requires kit.polarAngle(kit.centroid(disk), kit.centroid(disk)) == 0.0
    ensures kit.centroid(disk) in DiskBands(disk, angle, kit).0
  {
    DocumentedRange(angle);
  }

  /** Rotating by whole turns (same sign) gives the same quadrants. */
  lemma CircularGridsPeriodic(disk: set<Pixel>, a1: real, a2: real, k: int, kit: Toolkit)
    requires a1 != 0.0 && a2 != 0.0 && Sign(a1) == Sign(a2)
    requires a2 == a1 + 360.0 * k as real
    ensures CircularGrids(disk, a1, kit) == CircularGrids(disk, a2, kit)
  {
    NormalisePeriodic(a1, a2, k);
  }
}

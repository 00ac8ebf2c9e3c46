/** Measurement maps and nearest-neighbour filling of missing values:
    `interp_missing` in octolyzer/measure/bscan/thickness_maps/grid.py.
    A map holds one sample per pixel; NaN is an explicit sample. */
module Interp {
  import opened Raster

  /** A float64 map entry: a number or NaN. */
  datatype Sample = Num(v: real) | NaN

  /** The map has an entry for every pixel of an image of shape `s`. */
  predicate Covers(s: Shape, m: map<Pixel, Sample>) {
    Lattice(s) <= m.Keys
  }

  /** `ctmask > 0`: a known (positive) measurement. NaN compares false. */
  predicate Positive(x: Sample) {
    x.Num? && x.v > 0.0
  }

  /** The entries of `m` at the pixels of `ps` that lie in `mask`, in the
      order of `ps`. */
  function SelectIn(ps: seq<Pixel>, m: map<Pixel, Sample>, mask: set<Pixel>): (vs: seq<Sample>)
    requires forall p :: p in ps ==> p in m
    ensures |vs| <= |ps|
    ensures forall v :: v in vs ==> exists p :: p in ps && p in mask && m[p] == v
    ensures forall p :: p in ps && p in mask ==> m[p] in vs
  {
    if ps == [] then []
    else (if ps[0] in mask then [m[ps[0]]] else []) + SelectIn(ps[1..], m, mask)
  }

  /** Numpy's boolean indexing `a[mask]`: the entries under the mask in
      row-major order. */
  function Selected(s: Shape, m: map<Pixel, Sample>, mask: set<Pixel>): seq<Sample>
    requires Covers(s, m)
  {
    SelectIn(Pixels(s), m, mask)
  }

  /** Selecting under a mask only looks at the entries under the mask. */
  lemma {:induction false} SelectInAgrees(ps: seq<Pixel>, m1: map<Pixel, Sample>, m2: map<Pixel, Sample>,
                                          mask: set<Pixel>)
    requires forall p :: p in ps ==> p in m1 && p in m2
    requires forall p :: p in ps && p in mask ==> m1[p] == m2[p]
    ensures SelectIn(ps, m1, mask) == SelectIn(ps, m2, mask)
  {
    if ps != [] {
      SelectInAgrees(ps[1..], m1, m2, mask);
    }
  }

  /** The positive pixels of the map in row-major order: `np.where(ctmask > 0)`. */
  function KnownIn(ps: seq<Pixel>, m: map<Pixel, Sample>): (ks: seq<Pixel>)
    requires forall p :: p in ps ==> p in m
    ensures forall q :: q in ks <==> q in ps && Positive(m[q])
  {
    if ps == [] then []
    else (if Positive(m[ps[0]]) then [ps[0]] else []) + KnownIn(ps[1..], m)
  }

  /** The first pixel of `known` at the least Euclidean distance from `p`.
      It stands in for scipy's NearestNDInterpolator, whose choice among
      equally near pixels is not modelled. */
  function NearestIn(known: seq<Pixel>, p: Pixel): (q: Pixel)
    requires |known| > 0
    ensures q in known
    ensures forall k :: k in known ==> PixelDist2(p, q) <= PixelDist2(p, k)
  {
    if |known| == 1 then known[0]
    else
      var rest := NearestIn(known[1..], p);
      assert forall k :: k in known ==> k == known[0] || k in known[1..];
      if PixelDist2(p, known[0]) <= PixelDist2(p, rest) then known[0] else rest
  }

  /** `q` is a positive pixel at the least distance from `p`. */
  predicate NearestKnown(s: Shape, m: map<Pixel, Sample>, p: Pixel, q: Pixel)
    requires Covers(s, m)
  {
    && q in Lattice(s) && Positive(m[q])
    && forall k :: k in Lattice(s) && Positive(m[k]) ==> PixelDist2(p, q) <= PixelDist2(p, k)
  }

  /** What `interp_missing` promises: zero stays zero, a positive entry keeps
      its value, and every other entry (NaN or negative) takes the value of
      some positive entry at the least distance; ties are left open. */
  ghost predicate IsNearestFill(s: Shape, before: map<Pixel, Sample>, after: map<Pixel, Sample>)
    requires Covers(s, before)
  {
    && after.Keys == Lattice(s)
    && forall p :: p in Lattice(s) ==>
         if before[p] == Num(0.0) then after[p] == Num(0.0)
         else if Positive(before[p]) then after[p] == before[p]
         else exists q :: NearestKnown(s, before, p, q) && after[p] == before[q]
  }

  /** The filled map built from the positive pixels `known`. */
  function NearestFill(s: Shape, m: map<Pixel, Sample>, known: seq<Pixel>): map<Pixel, Sample>
    requires Covers(s, m) && |known| > 0
    requires forall k :: k in known ==> k in m
  {
    map p | p in Lattice(s) :: if m[p] == Num(0.0) then Num(0.0) else m[NearestIn(known, p)]
  }

  /** The pixel NearestIn picks among all positive pixels is a nearest one. */
  lemma NearestInIsNearest(s: Shape, m: map<Pixel, Sample>, p: Pixel)
    requires Covers(s, m) && |KnownIn(Pixels(s), m)| > 0
    ensures NearestKnown(s, m, p, NearestIn(KnownIn(Pixels(s), m), p))
  {
    var known := KnownIn(Pixels(s), m);
    var q := NearestIn(known, p);
    forall k | k in Lattice(s) && Positive(m[k]) ensures PixelDist2(p, q) <= PixelDist2(p, k) {
      assert k in Pixels(s);
      assert k in known;
    }
  }

  /** A positive pixel is its own only nearest positive pixel. */
  lemma OnlySelfAtDistanceZero(s: Shape, m: map<Pixel, Sample>, p: Pixel, q: Pixel)
    requires Covers(s, m) && p in Lattice(s) && Positive(m[p])
    requires NearestKnown(s, m, p, q)
    ensures p == q
  {
    assert PixelDist2(p, q) <= PixelDist2(p, p) == 0;
    SquaresZero(p.col - q.col, p.row - q.row);
  }

  /** Filling from all positive pixels meets the promise of `interp_missing`. */
  lemma NearestFillIsNearest(s: Shape, m: map<Pixel, Sample>)
    requires Covers(s, m) && |KnownIn(Pixels(s), m)| > 0
    ensures IsNearestFill(s, m, NearestFill(s, m, KnownIn(Pixels(s), m)))
  {
    var known := KnownIn(Pixels(s), m);
    var out := NearestFill(s, m, known);
    forall p | p in Lattice(s) && m[p] != Num(0.0)
      ensures Positive(m[p]) ==> out[p] == m[p]
      ensures exists q :: NearestKnown(s, m, p, q) && out[p] == m[q]
    {
      var q := NearestIn(known, p);
      assert out[p] == m[q];
      NearestInIsNearest(s, m, p);
      if Positive(m[p]) {
        OnlySelfAtDistanceZero(s, m, p, q);
      }
    }
    assert out.Keys == Lattice(s);
  }

  /** `interp_missing(ctmask)`: a zero map, with every non-zero entry
      (NaN included) replaced by the value at a nearest positive pixel.
      Without any positive pixel there is nothing to interpolate from. */
  function InterpMissing(s: Shape, m: map<Pixel, Sample>): (r: Result<map<Pixel, Sample>>)
    requires Covers(s, m)
    ensures r.Err? <==> forall p :: p in Lattice(s) ==> !Positive(m[p])
    ensures r.Ok? ==> IsNearestFill(s, m, r.value)
  {
    var known := KnownIn(Pixels(s), m);
    if |known| == 0 then
      assert forall p :: p in Lattice(s) ==> !Positive(m[p]) by {
        forall p | p in Lattice(s) ensures !Positive(m[p]) {
          assert p in Pixels(s);
          assert p !in known;
        }
      }
      Err(NoKnownSamples)
    else
      assert known[0] in Pixels(s);
      NearestFillIsNearest(s, m);
      Ok(NearestFill(s, m, known))
  }

  /** Two squares sum to zero only when both numbers are zero. */
  lemma SquaresZero(a: int, b: int)
    requires a * a + b * b == 0
    ensures a == 0 && b == 0
  {
  }
}

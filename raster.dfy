/** Pixel lattices, binary masks and the index permutations shared by every
    grid builder. A numpy boolean image of shape (h, w) is modelled as the set
    of its True pixels; numpy's `(a - b).clip(0, 1)` is set difference and the
    logical OR of a stack of masks is their union. */
module Raster {

  /** A pixel index in numpy order: (row, column), that is (y, x). */
  datatype Pixel = Pixel(row: int, col: int)

  /** A point in (x, y) order, the order in which the builders take centres. */
  datatype Point = Point(x: int, y: int)

  /** An image shape (height, width). */
  datatype Shape = Shape(h: nat, w: nat)

  /** The Python exceptions the core can raise on well-typed inputs. */
  datatype Error =
    | IndexError      // indexing past the end of an array or list
    | ValueError      // unpacking the wrong number of values, reducing an empty array
    | NameError       // a local variable read before any branch bound it
    | TypeError       // an ordering comparison with None
    | ZeroDivisionError
    | NoKnownSamples  // nearest-neighbour interpolation asked to work from no known value

  datatype Result<T> = Ok(value: T) | Err(error: Error)

  /** The subfield names `measure_grid` produces: "central", "inner_<loc>",
      "outer_<loc>", the chessboard name "<row>.<column>" and "all". */
  datatype Subfield =
    | Central
    | Inner(loc: string)
    | Outer(loc: string)
    | Chess(row: int, col: int)
    | All

  /** The messages appended to a logging list. */
  datatype LogEntry =
    | GridUnavailable(n: int, cellSizeMm: real)    // "<N>x<N> <cell>mm grid unavailable given field of view."
    | SquareGridFailed(widthMm: real)              // "Failed to measure square grid with a width of <w>mm."
    | MeasuringWholeImage                          // "Measuring entire SLO image, using centre of image, ..."
    | MissingValues(percent: real, subfield: Subfield, measureType: string)

  datatype Option<T> = None | Some(value: T)

  /** The library calls the grid builders make (skimage.measure, numpy's
      arctan, a two-point line fit). They are not modelled; each builder takes
      them as an input and each lemma states what it needs of them. */
  datatype Toolkit = Toolkit(
    // `meas.centroid(mask).astype(int)`, as a (row, column) pixel
    centroid: set<Pixel> -> Pixel,
    // `180/pi * arctan((c_x - x)/(c_y - y + 1e-8))`: the angle of pixel p seen from c
    polarAngle: (Pixel, Pixel) -> real,
    // `meas.regionprops(meas.label(mask))`: connected components in label order
    components: set<Pixel> -> seq<set<Pixel>>,
    // `construct_line(meas.centroid(quad), centre)`: slope and intercept
    lineThrough: (set<Pixel>, Point) -> (real, real)
  )

  function Min(a: int, b: int): int { if a <= b then a else b }

  predicate InImage(s: Shape, p: Pixel) {
    0 <= p.row < s.h && 0 <= p.col < s.w
  }

  /** Every pixel of an image of shape `s` (numpy's `np.ones(img_shape)`). */
  function Lattice(s: Shape): (l: set<Pixel>)
    ensures forall p :: p in l <==> InImage(s, p)
  {
    set y: int, x: int | 0 <= y < s.h && 0 <= x < s.w :: Pixel(y, x)
  }

  /** Squared Euclidean distance from a pixel to a point given as (x, y). */
  function Dist2(p: Pixel, c: Point): int {
    (p.col - c.x) * (p.col - c.x) + (p.row - c.y) * (p.row - c.y)
  }

  /** Squared Euclidean distance between two pixels. */
  function PixelDist2(p: Pixel, q: Pixel): int {
    (p.col - q.col) * (p.col - q.col) + (p.row - q.row) * (p.row - q.row)
  }

  /** The pixels of row `y`, left to right. */
  function RowPixels(y: int, w: nat): (ps: seq<Pixel>)
    ensures |ps| == w
    ensures forall p :: p in ps <==> p.row == y && 0 <= p.col < w
  {
    var ps := seq(w, x => Pixel(y, x));
    assert forall p: Pixel | p.row == y && 0 <= p.col < w :: ps[p.col] == p;
    ps
  }

  /** The pixels of the first `h` rows in row-major order: the order in which
      numpy's `np.where` and boolean indexing `a[mask]` visit them. */
  function RowMajor(h: nat, w: nat): (ps: seq<Pixel>)
    ensures |ps| == h * w
    ensures forall p :: p in ps <==> 0 <= p.row < h && 0 <= p.col < w
  {
    if h == 0 then [] else RowMajor(h - 1, w) + RowPixels(h - 1, w)
  }

  /** Row-major pixel order of a whole image. */
  function Pixels(s: Shape): (ps: seq<Pixel>)
    ensures forall p :: p in ps <==> p in Lattice(s)
  {
    RowMajor(s.h, s.w)
  }

  /** The union of a list of masks (numpy's `np.sum(masks, axis=0) > 0`). */
  function UnionAll(ms: seq<set<Pixel>>): (u: set<Pixel>)
    ensures forall p :: p in u <==> exists i :: 0 <= i < |ms| && p in ms[i]
  {
    set i, p | 0 <= i < |ms| && p in ms[i] :: p
  }

  /** No pixel belongs to two masks of the list. */
  predicate PairwiseDisjoint(ms: seq<set<Pixel>>) {
    forall i, j :: 0 <= i < j < |ms| ==> ms[i] !! ms[j]
  }

  /** The masks split `whole` into disjoint pieces. */
  predicate Partitions(ms: seq<set<Pixel>>, whole: set<Pixel>) {
    PairwiseDisjoint(ms) && UnionAll(ms) == whole
  }

  /** Reordering by an index list: numpy's `[xs[i] for i in idx]`. */
  function Pick<T>(xs: seq<T>, idx: seq<nat>): (r: seq<T>)
    requires forall k :: 0 <= k < |idx| ==> idx[k] < |xs|
    ensures |r| == |idx|
    ensures forall k :: 0 <= k < |idx| ==> r[k] == xs[idx[k]]
  {
    seq(|idx|, k requires 0 <= k < |idx| => xs[idx[k]])
  }

  /** `idx` lists each of 0 .. n-1 exactly once. */
  predicate IsPermutation(idx: seq<nat>, n: nat) {
    && |idx| == n
    && (forall k :: 0 <= k < n ==> idx[k] < n)
    && (forall k, l :: 0 <= k < l < n ==> idx[k] != idx[l])
    && (forall j :: 0 <= j < n ==> j in idx)
  }

  /** Reordering by a permutation keeps a partition a partition. */
  lemma PickPermutationPartitions(ms: seq<set<Pixel>>, idx: seq<nat>, whole: set<Pixel>)
    requires IsPermutation(idx, |ms|)
    requires Partitions(ms, whole)
    ensures Partitions(Pick(ms, idx), whole)
  {
    var r := Pick(ms, idx);
    forall p | p in whole ensures p in UnionAll(r) {
      var i :| 0 <= i < |ms| && p in ms[i];
      assert i in idx;
      var k :| 0 <= k < |idx| && idx[k] == i;
      assert p in r[k];
    }
  }

  /** The union of a concatenation is the union of the unions. */
  lemma UnionAppend(a: seq<set<Pixel>>, b: seq<set<Pixel>>)
    ensures UnionAll(a + b) == UnionAll(a) + UnionAll(b)
  {
    var ab := a + b;
    forall p | p in UnionAll(a) ensures p in UnionAll(ab) {
      var i :| 0 <= i < |a| && p in a[i];
      assert ab[i] == a[i];
    }
    forall p | p in UnionAll(b) ensures p in UnionAll(ab) {
      var i :| 0 <= i < |b| && p in b[i];
      assert ab[|a| + i] == b[i];
    }
    forall p | p in UnionAll(ab) ensures p in UnionAll(a) + UnionAll(b) {
      var i :| 0 <= i < |ab| && p in ab[i];
      if i < |a| {
        assert p in a[i];
      } else {
        assert p in b[i - |a|];
      }
    }
  }

  /** Two lists of pairwise disjoint masks whose unions do not meet are
      pairwise disjoint together. */
  lemma DisjointAppend(a: seq<set<Pixel>>, b: seq<set<Pixel>>)
    requires PairwiseDisjoint(a) && PairwiseDisjoint(b)
    requires UnionAll(a) !! UnionAll(b)
    ensures PairwiseDisjoint(a + b)
  {
    var ab := a + b;
    forall i, j | 0 <= i < j < |ab| ensures ab[i] !! ab[j] {
      if j < |a| {
        assert ab[i] == a[i] && ab[j] == a[j];
      } else if i >= |a| {
        assert ab[i] == b[i - |a|] && ab[j] == b[j - |a|];
      } else {
        assert ab[i] == a[i] && ab[j] == b[j - |a|];
        assert a[i] <= UnionAll(a) && b[j - |a|] <= UnionAll(b);
      }
    }
  }
}

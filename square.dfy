/** The posterior-pole chessboard grid: the axis-aligned branch of
    `create_square_grid` in octolyzer/measure/bscan/thickness_maps/grid.py.
    N+1 grid lines per axis are spaced evenly over a square of `grid_size`
    microns; when a line falls outside the image the whole image is used
    instead and three messages are logged. */
module Square {
  import opened Raster

  /** `astype(int)`: truncation toward zero. */
  function Trunc(x: real): (t: int)
    ensures x >= 0.0 ==> t as real <= x < t as real + 1.0
    ensures x < 0.0 ==> t as real - 1.0 < x <= t as real
  {
    if x >= 0.0 then x.Floor else -((-x).Floor)
  }

  lemma TruncMonotone(a: real, b: real)
    requires a <= b
    ensures Trunc(a) <= Trunc(b)
  {
  }

  /** Sample k of an evenly spaced line set. */
  function Sample(start: real, step: real, k: int): real {
    start + k as real * step
  }

  /** `np.linspace(centre - width/2, centre + width/2, n + 1).astype(int)` on
      exact reals; `n == -1` asks for no samples. */
  function GridLines(centre: int, width: real, n: int): (ls: seq<int>)
    requires n >= -1 && n != 0
    ensures |ls| == n + 1
    ensures n >= 1 ==> ls[0] == Trunc(centre as real - width / 2.0)
    ensures n >= 1 ==> ls[n] == Trunc(centre as real + width / 2.0)
  {
    if n == -1 then []
    else
      var start := centre as real - width / 2.0;
      var step := width / n as real;
      var ls := seq(n + 1, k requires 0 <= k <= n => Trunc(Sample(start, step, k)));
      assert n as real * step == width;
      assert Sample(start, step, n) == centre as real + width / 2.0;
      ls
  }

  /** Sorted in non-decreasing order. */
  predicate Ascending(ls: seq<int>) {
    forall k, l :: 0 <= k <= l < |ls| ==> ls[k] <= ls[l]
  }

  /** For a non-negative width the grid lines ascend. */
  lemma GridLinesAscend(centre: int, width: real, n: int)
    requires n >= -1 && n != 0 && width >= 0.0
    ensures Ascending(GridLines(centre, width, n))
  {
    if n >= 1 {
      var start := centre as real - width / 2.0;
      var step := width / n as real;
      var ls := GridLines(centre, width, n);
      assert step >= 0.0;
      forall k, l | 0 <= k <= l < n + 1 ensures ls[k] <= ls[l] {
        assert (l - k) as real * step >= 0.0;
        assert Sample(start, step, k) <= Sample(start, step, l);
        TruncMonotone(Sample(start, step, k), Sample(start, step, l));
      }
    }
  }

  /** The test of line 406: every row line strictly inside (0, w) and every
      column line strictly inside (0, h). */
  predicate Fits(lr: seq<int>, ud: seq<int>, s: Shape) {
    && (forall k :: 0 <= k < |lr| ==> 0 < lr[k] < s.w)
    && (forall k :: 0 <= k < |ud| ==> 0 < ud[k] < s.h)
  }

  /** The pixels of the block `[x1, x2) x [y1, y2)` (rows x, columns y) that
      lie in the image: numpy's slice `grid[x1:x2, y1:y2]`. */
  function Cell(s: Shape, x1: int, x2: int, y1: int, y2: int): (c: set<Pixel>)
    ensures forall p :: p in c <==> InImage(s, p) && x1 <= p.row < x2 && y1 <= p.col < y2
  {
    set p | p in Lattice(s) && x1 <= p.row < x2 && y1 <= p.col < y2
  }

  /** The cells of row band `i`, left to right. */
  function CellRow(lr: seq<int>, ud: seq<int>, s: Shape, i: nat): (row: seq<set<Pixel>>)
    requires i + 1 < |lr| && |ud| >= 1
    ensures |row| == |ud| - 1
  {
    seq(|ud| - 1, j requires 0 <= j < |ud| - 1 => Cell(s, lr[i], lr[i + 1], ud[j], ud[j + 1]))
  }

  /** The cells of the first `rows` row bands, in the order of the nested
      loops of lines 435-440. */
  function CellMasks(lr: seq<int>, ud: seq<int>, s: Shape, rows: nat): (ms: seq<set<Pixel>>)
    requires rows < |lr| && |ud| >= 1
    ensures |ms| == rows * (|ud| - 1)
  {
    if rows == 0 then [] else CellMasks(lr, ud, s, rows - 1) + CellRow(lr, ud, s, rows - 1)
  }

  /** The labels `(i, j)` of the first `rows` row bands of an n-column grid. */
  function CellLabels(rows: nat, n: nat): (ls: seq<(int, int)>)
    ensures |ls| == rows * n
    ensures forall k :: 0 <= k < |ls| ==> 0 <= ls[k].0 < rows && 0 <= ls[k].1 < n
  {
    if rows == 0 then []
    else CellLabels(rows - 1, n) + seq(n, j requires 0 <= j < n => (rows - 1, j))
  }

  /** Label `(i, j)` sits at position `i*n + j`: the labels are in row-major
      order and therefore distinct. */
  lemma {:induction false} LabelsRowMajor(rows: nat, n: nat, i: nat, j: nat)
    requires i < rows && j < n
    ensures i * n + j < rows * n
    ensures CellLabels(rows, n)[i * n + j] == (i, j)
  {
    if i < rows - 1 {
      LabelsRowMajor(rows - 1, n, i, j);
      assert (rows - 1) * n == rows * n - n;
    } else {
      assert i * n == (rows - 1) * n;
    }
  }

  /** The nested loops of lines 435-440: one cell and one label per pair of
      consecutive row lines and consecutive column lines. */
  method SquareCells(lr: seq<int>, ud: seq<int>, s: Shape) returns (masks: seq<set<Pixel>>, labels: seq<(int, int)>)
    requires |lr| >= 1 && |ud| >= 1
    ensures masks == CellMasks(lr, ud, s, |lr| - 1)
    ensures labels == CellLabels(|lr| - 1, |ud| - 1)
  {
    var n := |ud| - 1;
    masks, labels := [], [];
    var i := 0;
    while i < |lr| - 1
      invariant 0 <= i <= |lr| - 1
      invariant masks == CellMasks(lr, ud, s, i)
      invariant labels == CellLabels(i, n)
    {
      var j := 0;
      while j < n
        invariant 0 <= j <= n
        invariant masks == CellMasks(lr, ud, s, i) + CellRow(lr, ud, s, i)[..j]
        invariant labels == CellLabels(i, n) + seq(j, k requires 0 <= k < j => (i, k))
      {
        masks := masks + [Cell(s, lr[i], lr[i + 1], ud[j], ud[j + 1])];
        labels := labels + [(i, j)];
        j := j + 1;
      }
      assert CellRow(lr, ud, s, i)[..j] == CellRow(lr, ud, s, i);
      i := i + 1;
    }
  }

  /** A value between the first and the last line of an ascending list lies
      in some half-open gap between consecutive lines. */
  lemma {:induction false} FindGap(ls: seq<int>, x: int) returns (j: nat)
    requires |ls| >= 1 && Ascending(ls) && ls[0] <= x < ls[|ls| - 1]
    ensures j + 1 < |ls| && ls[j] <= x < ls[j + 1]
  {
    if x < ls[1] {
      j := 0;
    } else {
      var rest := ls[1..];
      assert rest[|rest| - 1] == ls[|ls| - 1];
      var k := FindGap(rest, x);
      j := k + 1;
    }
  }

  /** The cells of one row band are disjoint and tile the band. */
  lemma RowPartition(lr: seq<int>, ud: seq<int>, s: Shape, i: nat)
    requires i + 1 < |lr| && |ud| >= 1 && Ascending(ud)
    ensures PairwiseDisjoint(CellRow(lr, ud, s, i))
    ensures UnionAll(CellRow(lr, ud, s, i)) == Cell(s, lr[i], lr[i + 1], ud[0], ud[|ud| - 1])
  {
    var row := CellRow(lr, ud, s, i);
    var band := Cell(s, lr[i], lr[i + 1], ud[0], ud[|ud| - 1]);
    forall p | p in band ensures p in UnionAll(row) {
      var j := FindGap(ud, p.col);
      assert p in row[j];
    }
    forall p | p in UnionAll(row) ensures p in band {
      var j :| 0 <= j < |row| && p in row[j];
      assert ud[0] <= ud[j] && ud[j + 1] <= ud[|ud| - 1];
    }
  }

  /** With ascending lines, the cells of the first `rows` row bands are
      pairwise disjoint and tile the rectangle from the first line to line
      `rows` (rows) and from the first to the last line (columns). */
  lemma {:induction false} CellsPartition(lr: seq<int>, ud: seq<int>, s: Shape, rows: nat)
    requires rows < |lr| && |ud| >= 1 && Ascending(lr) && Ascending(ud)
    ensures PairwiseDisjoint(CellMasks(lr, ud, s, rows))
    ensures UnionAll(CellMasks(lr, ud, s, rows)) == Cell(s, lr[0], lr[rows], ud[0], ud[|ud| - 1])
  {
    if rows > 0 {
      var top := CellMasks(lr, ud, s, rows - 1);
      var row := CellRow(lr, ud, s, rows - 1);
      CellsPartition(lr, ud, s, rows - 1);
      RowPartition(lr, ud, s, rows - 1);
      UnionAppend(top, row);
      DisjointAppend(top, row);
      assert lr[0] <= lr[rows - 1] <= lr[rows];
    } else {
      assert Cell(s, lr[0], lr[0], ud[0], ud[|ud| - 1]) == {};
    }
  }

  /** The two shapes `create_square_grid` returns: the 2-tuple
      `(np.ones(img_shape), logging)` of the fallback (line 421) and the
      3-tuple `(grid_masks, labels, logging)` otherwise (line 456). */
  datatype SquareOutcome =
    | WholeImage(ones: set<Pixel>, log: seq<LogEntry>)
    | Chessboard(masks: seq<set<Pixel>>, labels: seq<(int, int)>, log: seq<LogEntry>)

  /** Line 397: the default centre `(int(h/2), int(w/2))`, used as (x, y). */
  function SquareCentre(s: Shape, centre: Option<Point>): Point {
    if centre.None? then Point(s.h / 2, s.w / 2) else centre.value
  }

  /** The width of the grid in pixels (line 401). */
  function GridWidth(gridSize: real, scalex: real): real
    requires scalex != 0.0
  {
    gridSize / scalex
  }

  /** Lines 404-405: the row lines are spaced around the centre's y and the
      column lines around its x. */
  function SquareLines(scalex: real, c: Point, n: int, gridSize: real): (lines: (seq<int>, seq<int>))
    requires scalex != 0.0 && n >= -1 && n != 0
    ensures |lines.0| == n + 1 && |lines.1| == n + 1
  {
    var width := GridWidth(gridSize, scalex);
    (GridLines(c.y, width, n), GridLines(c.x, width, n))
  }

  /** The three messages of lines 413-419. */
  function FallbackMessages(n: int, gridSize: real): seq<LogEntry>
    requires n != 0
  {
    [GridUnavailable(n, gridSize / 1000.0 / n as real), SquareGridFailed(gridSize / 1000.0), MeasuringWholeImage]
  }

  /** `create_square_grid(scalex, center, img_shape, 0, N_grid, grid_size,
      logging)`. The cell size divides by N_grid and the width by scalex;
      numpy refuses a negative sample count below zero. */
  function SquareGrid(scalex: real, centre: Option<Point>, s: Shape, n: int, gridSize: real,
                      log: seq<LogEntry>): (r: Result<SquareOutcome>)
    ensures r.Err? <==> n == 0 || scalex == 0.0 || n < 0
    ensures n == -1 && scalex != 0.0 ==> r == Err(IndexError)
    ensures r.Ok? ==> (r.value.WholeImage? <==>
      var lines := SquareLines(scalex, SquareCentre(s, centre), n, gridSize);
      !Fits(lines.0, lines.1, s))
    ensures r.Ok? && r.value.WholeImage? ==>
      r.value.ones == Lattice(s) && r.value.log == log + FallbackMessages(n, gridSize)
    ensures r.Ok? && r.value.Chessboard? ==> r.value.log == log
    ensures r.Ok? && r.value.Chessboard? && n >= 1 ==>
      |r.value.masks| == n * n && r.value.labels == CellLabels(n, n)
  {
    if n == 0 then Err(ZeroDivisionError)
    else if scalex == 0.0 then Err(ZeroDivisionError)
    else if n < -1 then Err(ValueError)
    else
      var lines := SquareLines(scalex, SquareCentre(s, centre), n, gridSize);
      if !Fits(lines.0, lines.1, s) then Ok(WholeImage(Lattice(s), log + FallbackMessages(n, gridSize)))
      else if n == -1 then Err(IndexError)
      else Ok(Chessboard(CellMasks(lines.0, lines.1, s, n), CellLabels(n, n), log))
  }

  /** The body of `create_square_grid` at angle 0: the fit check, the three
      appends to `logging` on failure, and the cell loops otherwise. */
  method CreateSquareGrid(scalex: real, centre: Option<Point>, s: Shape, n: int, gridSize: real,
                          log: seq<LogEntry>) returns (r: Result<SquareOutcome>)
    ensures r == SquareGrid(scalex, centre, s, n, gridSize, log)
  {
    if n == 0 || scalex == 0.0 {
      return Err(ZeroDivisionError);
    }
    if n < -1 {
      return Err(ValueError);
    }
    var c := SquareCentre(s, centre);
    var lines := SquareLines(scalex, c, n, gridSize);
    if !Fits(lines.0, lines.1, s) {
      var logging := log;
      logging := logging + [GridUnavailable(n, gridSize / 1000.0 / n as real)];
      logging := logging + [SquareGridFailed(gridSize / 1000.0)];
      logging := logging + [MeasuringWholeImage];
      assert logging == log + FallbackMessages(n, gridSize);
      return Ok(WholeImage(Lattice(s), logging));
    }
    if n == -1 {
      return Err(IndexError);
    }
    var masks, labels := SquareCells(lines.0, lines.1, s);
    return Ok(Chessboard(masks, labels, log));
  }

  /** A chessboard's cells are the cells between its grid lines. */
  lemma ChessboardCells(scalex: real, centre: Option<Point>, s: Shape, n: int, gridSize: real,
                        log: seq<LogEntry>)
    requires SquareGrid(scalex, centre, s, n, gridSize, log).Ok?
    requires SquareGrid(scalex, centre, s, n, gridSize, log).value.Chessboard? && n >= 1
    ensures SquareGrid(scalex, centre, s, n, gridSize, log).value.masks
            == CellMasks(SquareLines(scalex, SquareCentre(s, centre), n, gridSize).0,
                         SquareLines(scalex, SquareCentre(s, centre), n, gridSize).1, s, n)
  {
  }

  /** For a positive scale and a non-negative grid size, a chessboard's
      cells are pairwise disjoint and tile the rectangle between the outer
      grid lines. */
  lemma SquareGridPartition(scalex: real, centre: Option<Point>, s: Shape, n: int, gridSize: real,
                            log: seq<LogEntry>)
    requires scalex > 0.0 && gridSize >= 0.0 && n >= 1
    requires SquareGrid(scalex, centre, s, n, gridSize, log).Ok?
    requires SquareGrid(scalex, centre, s, n, gridSize, log).value.Chessboard?
    ensures var g := SquareGrid(scalex, centre, s, n, gridSize, log).value;
            var c := SquareCentre(s, centre);
            var half := gridSize / scalex / 2.0;
            && PairwiseDisjoint(g.masks)
            && UnionAll(g.masks) == Cell(s, Trunc(c.y as real - half), Trunc(c.y as real + half),
                                           Trunc(c.x as real - half), Trunc(c.x as real + half))
  {
    var c := SquareCentre(s, centre);
    var width := GridWidth(gridSize, scalex);
    assert width >= 0.0;
    GridLinesAscend(c.y, width, n);
    GridLinesAscend(c.x, width, n);
    var lines := SquareLines(scalex, c, n, gridSize);
    ChessboardCells(scalex, centre, s, n, gridSize, log);
    CellsPartition(lines.0, lines.1, s, n);
  }
}

/** Zonal aggregation of a thickness or density map over a grid:
    `measure_grid` in octolyzer/measure/bscan/thickness_maps/grid.py.
    Each subfield gets the mean of the map under its mask (after
    nearest-neighbour filling of the -1 "missing" marker when interpolating)
    and, for integer-valued maps, a volume; "all" is the raw map over the
    union of the masks. */
module Zonal {
  import opened Raster
  import opened CircularGrid
  import opened Etdrs
  import opened Square
  import opened Interp

  // ---------------------------------------------------------------------------
  // Statistics on exact reals
  // ---------------------------------------------------------------------------

  /** `np.sum`: NaN as soon as one entry is NaN; 0 for an empty array. */
  function Total(vs: seq<Sample>): (t: Sample)
    ensures t.NaN? <==> NaN in vs
  {
    if vs == [] then Num(0.0)
    else
      var rest := Total(vs[1..]);
      assert NaN in vs <==> vs[0] == NaN || NaN in vs[1..];
      if vs[0].Num? && rest.Num? then Num(vs[0].v + rest.v) else NaN
  }

  /** `np.mean`: NaN for an empty array or one holding NaN. */
  function Mean(vs: seq<Sample>): (m: Sample)
    ensures m.Num? <==> |vs| > 0 && NaN !in vs
  {
    if |vs| == 0 then NaN
    else match Total(vs)
      case Num(t) => Num(t / |vs| as real)
      case NaN => NaN
  }

  /** `(delta_xy * vals).sum()`. */
  function Volume(delta: real, vs: seq<Sample>): (r: Sample)
    ensures r.NaN? <==> NaN in vs
  {
    match Total(vs)
    case Num(t) => Num(delta * t)
    case NaN => NaN
  }

  /** The number of entries equal to the number `x`. */
  function Count(vs: seq<Sample>, x: real): (n: nat)
    ensures n <= |vs|
    ensures n > 0 <==> Num(x) in vs
  {
    if vs == [] then 0
    else
      assert Num(x) in vs <==> vs[0] == Num(x) || Num(x) in vs[1..];
      (if vs[0] == Num(x) then 1 else 0) + Count(vs[1..], x)
  }

  /** Every entry is a number between lo and hi. */
  predicate AllWithin(vs: seq<Sample>, lo: real, hi: real) {
    forall i :: 0 <= i < |vs| ==> vs[i].Num? && lo <= vs[i].v <= hi
  }

  /** A sum of numbers between lo and hi lies between |vs|*lo and |vs|*hi. */
  lemma {:induction false} TotalBounds(vs: seq<Sample>, lo: real, hi: real)
    requires AllWithin(vs, lo, hi)
    ensures Total(vs).Num?
    ensures |vs| as real * lo <= Total(vs).v <= |vs| as real * hi
  {
    if vs != [] {
      var n := |vs| as real;
      TotalBounds(vs[1..], lo, hi);
      var rest := Total(vs[1..]).v;
      assert Total(vs) == Num(vs[0].v + rest);
      assert n * lo == (n - 1.0) * lo + lo;
      assert n * hi == (n - 1.0) * hi + hi;
    }
  }

  /** Multiplying by a positive number keeps a strict order. */
  lemma ScaleStrict(a: real, b: real, n: real)
    requires n > 0.0 && a < b
    ensures a * n < b * n
  {
  }

  /** A mean of numbers between lo and hi lies between lo and hi. */
  lemma MeanBounds(vs: seq<Sample>, lo: real, hi: real)
    requires |vs| > 0 && AllWithin(vs, lo, hi)
    ensures Mean(vs).Num? && lo <= Mean(vs).v <= hi
  {
    TotalBounds(vs, lo, hi);
    var n := |vs| as real;
    var t := Total(vs).v;
    var m := t / n;
    assert m * n == t;
    if m < lo {
      ScaleStrict(m, lo, n);
    }
    if hi < m {
      ScaleStrict(hi, m, n);
    }
  }

  // ---------------------------------------------------------------------------
  // Subfield names (lines 584-601)
  // ---------------------------------------------------------------------------

  /** Lines 586-591: label (ud, lr) is named "(N-ud).(lr+1)", or "(N-ud).(N-lr)"
      for a Left eye. */
  function ChessName(ij: (int, int), n: int, eye: string): Subfield {
    Chess(n - ij.0, if eye == "Left" then n - ij.1 else ij.1 + 1)
  }

  /** Both eyes give the same row number and mirrored column numbers, all
      within 1..N. */
  lemma ChessNamesMirror(n: int, i: int, j: int)
    requires 0 <= i < n && 0 <= j < n
    ensures var r := ChessName((i, j), n, "Right");
            var l := ChessName((i, j), n, "Left");
            && r.row == l.row && 1 <= r.row <= n
            && 1 <= r.col <= n && 1 <= l.col <= n && r.col + l.col == n + 1
  {
  }

  /** The chessboard labels are pairwise distinct. */
  lemma {:induction false} CellLabelsDistinct(rows: nat, n: nat)
    ensures forall k, l :: 0 <= k < l < rows * n ==> CellLabels(rows, n)[k] != CellLabels(rows, n)[l]
  {
    if rows > 0 {
      CellLabelsDistinct(rows - 1, n);
      var top := CellLabels(rows - 1, n);
      var all := CellLabels(rows, n);
      assert all == top + seq(n, j requires 0 <= j < n => (rows - 1, j));
      forall k, l | 0 <= k < l < rows * n ensures all[k] != all[l] {
        if l >= |top| && k < |top| {
          assert all[k] == top[k];
          assert top[k].0 < rows - 1;
        }
      }
    }
  }

  /** For either eye the chessboard subfield names are pairwise distinct. */
  lemma ChessNamesDistinct(n: nat, eye: string)
    ensures forall k, l :: 0 <= k < l < n * n ==>
      ChessName(CellLabels(n, n)[k], n, eye) != ChessName(CellLabels(n, n)[l], n, eye)
  {
    CellLabelsDistinct(n, n);
  }

  /** Lines 596-599: the quadrant words by eye; any other eye leaves
      `etdrs_locs` unbound. */
  function EtdrsLocs(eye: string): Option<seq<string>> {
    if eye == "Right" then Some(["superior", "temporal", "inferior", "nasal"])
    else if eye == "Left" then Some(["superior", "nasal", "inferior", "temporal"])
    else None
  }

  /** Line 601: "central", then "inner_<loc>" and "outer_<loc>" per word. */
  function EtdrsNames(locs: seq<string>): (names: seq<Subfield>)
    ensures |names| == 1 + 2 * |locs|
  {
    [Central] + seq(|locs|, k requires 0 <= k < |locs| => Inner(locs[k]))
              + seq(|locs|, k requires 0 <= k < |locs| => Outer(locs[k]))
  }

  /** Exchanges the temporal and nasal sides of a subfield name. */
  function SwapSides(f: Subfield): Subfield {
    match f
    case Inner(loc) => Inner(SwapWord(loc))
    case Outer(loc) => Outer(SwapWord(loc))
    case _ => f
  }

  function SwapWord(loc: string): string {
    if loc == "temporal" then "nasal" else if loc == "nasal" then "temporal" else loc
  }

  /** Both eyes get nine distinct ETDRS names, and the Left names are the
      Right names with temporal and nasal exchanged. */
  lemma EtdrsNamesByEye()
    ensures var r := EtdrsNames(EtdrsLocs("Right").value);
            var l := EtdrsNames(EtdrsLocs("Left").value);
            && |r| == 9 && |l| == 9
            && (forall k :: 0 <= k < 9 ==> l[k] == SwapSides(r[k]))
            && (forall k, j :: 0 <= k < j < 9 ==> r[k] != r[j] && l[k] != l[j])
  {
    var r := EtdrsNames(EtdrsLocs("Right").value);
    var l := EtdrsNames(EtdrsLocs("Left").value);
    assert r == [Central, Inner("superior"), Inner("temporal"), Inner("inferior"), Inner("nasal"),
                 Outer("superior"), Outer("temporal"), Outer("inferior"), Outer("nasal")];
    assert l == [Central, Inner("superior"), Inner("nasal"), Inner("inferior"), Inner("temporal"),
                 Outer("superior"), Outer("nasal"), Outer("inferior"), Outer("temporal")];
  }

  // ---------------------------------------------------------------------------
  // Grid layout (lines 578-604)
  // ---------------------------------------------------------------------------

  /** `dtype`: np.uint64, np.float64, or anything else (which leaves
      `round_idx` unbound). */
  datatype Dtype = UInt64 | Float64 | OtherDtype

  /** The keywords forwarded to the grid builder: `etdrs_microns` for the
      ETDRS grid, `N_grid` and `grid_size` for the chessboard. */
  datatype GridKwds = GridKwds(etdrsMicrons: seq<real>, nGrid: int, gridSize: real)

  /** Subfield names with their masks, and the logging list so far. */
  datatype Layout = Layout(names: seq<Subfield>, masks: seq<set<Pixel>>, log: seq<LogEntry>)

  /** Lines 578-602: build the grid named by `measureType`. The second
      component is the content of `create_square_grid`'s shared default
      logging list afterwards: the chessboard returns that list itself, so
      `logging_list` starts as a copy of everything it ever collected; the
      fallback appends three messages to it and then fails to unpack into
      three names. An unknown measure type leaves `grid_masks` unbound. */
  function GridLayout(s: Shape, fovea: Point, scale: real, eye: string, rotate: real, measureType: string,
                      kwds: GridKwds, kit: Toolkit, shared: seq<LogEntry>): (out: (Result<Layout>, seq<LogEntry>))
    ensures out.0.Ok? ==> |out.0.value.names| == |out.0.value.masks|
  {
    if measureType == "square" then
      match SquareGrid(scale, Some(fovea), s, kwds.nGrid, kwds.gridSize, shared)
      case Err(e) => (Err(e), shared)
      case Ok(WholeImage(_, log)) => (Err(ValueError), log)
      case Ok(Chessboard(masks, labels, log)) =>
        var names := seq(|labels|, k requires 0 <= k < |labels| => ChessName(labels[k], kwds.nGrid, eye));
        (Ok(Layout(names, masks, log)), log)
    else if measureType == "etdrs" then
      match CreateEtdrsGrid(scale, fovea, s, rotate, kwds.etdrsMicrons, kit)
      case Err(e) => (Err(e), shared)
      case Ok(g) =>
        match EtdrsLocs(eye)
        case None => (Err(NameError), shared)
        case Some(locs) =>
          (Ok(Layout(EtdrsNames(locs), Subfields(g.rings), [])), shared)
    else (Err(NameError), shared)
  }

  // ---------------------------------------------------------------------------
  // One subfield (lines 626-644)
  // ---------------------------------------------------------------------------

  /** `mapmask[~bool_mask] = x`: every entry outside the mask becomes x. */
  function FillOutside(m: map<Pixel, Sample>, mask: set<Pixel>, x: Sample): (r: map<Pixel, Sample>)
    ensures r.Keys == m.Keys
    ensures forall p :: p in mask && p in m ==> r[p] == m[p]
  {
    map p | p in m.Keys :: if p in mask then m[p] else x
  }

  /** `mapmask[mapmask == -1] = np.nan`. */
  function MissingToNaN(m: map<Pixel, Sample>): (r: map<Pixel, Sample>)
    ensures r.Keys == m.Keys
  {
    map p | p in m.Keys :: if m[p] == Num(-1.0) then NaN else m[p]
  }

  /** What one subfield contributes: its values and its log messages. */
  datatype Visit = Visit(values: seq<Sample>, messages: seq<LogEntry>)

  /** The percentage of -1 entries among the values under a non-empty mask
      (rounding to two decimals is not modelled). */
  function MissingPercent(raw: seq<Sample>, mask: set<Pixel>): real
    requires |mask| > 0
  {
    100.0 * Count(raw, -1.0) as real / |mask| as real
  }

  /** Lines 627-641: when the subfield holds a -1, log the missing share,
      zero the map outside the subfield, turn -1 into NaN and fill from the
      nearest positive pixel; in either case read the values under the mask
      after marking the outside -1. */
  function SubfieldVisit(s: Shape, thick: map<Pixel, Sample>, name: Subfield, mask: set<Pixel>,
                         measureType: string): (r: Result<Visit>)
    requires Covers(s, thick)
    ensures r.Ok? ==> (r.value.messages != [] <==> Num(-1.0) in Selected(s, thick, mask))
    ensures r.Ok? ==> r.value.messages == [] || (|r.value.messages| == 1 && r.value.messages[0].MissingValues?)
    ensures r.Err? ==> r.error == NoKnownSamples
  {
    var raw := Selected(s, thick, mask);
    if Count(raw, -1.0) > 0 then
      assert |mask| > 0 by {
        var p :| p in Pixels(s) && p in mask && thick[p] == Num(-1.0);
      }
      var msg := MissingValues(MissingPercent(raw, mask), name, measureType);
      var prepared := MissingToNaN(FillOutside(thick, mask, Num(0.0)));
      match InterpMissing(s, prepared)
      case Err(e) => Err(e)
      case Ok(filled) =>
        Ok(Visit(Selected(s, FillOutside(filled, mask, Num(-1.0)), mask), [msg]))
    else
      Ok(Visit(Selected(s, FillOutside(thick, mask, Num(-1.0)), mask), []))
  }

  /** A subfield without -1 keeps its raw values and logs nothing, so the
      interpolating and the plain path agree on it. */
  lemma NoMissingSameValues(s: Shape, thick: map<Pixel, Sample>, name: Subfield, mask: set<Pixel>,
                            measureType: string)
    requires Covers(s, thick)
    requires Num(-1.0) !in Selected(s, thick, mask)
    ensures SubfieldVisit(s, thick, name, mask, measureType) == Ok(Visit(Selected(s, thick, mask), []))
  {
    SelectInAgrees(Pixels(s), FillOutside(thick, mask, Num(-1.0)), thick, mask);
  }

  /** After filling, a subfield holds no NaN and no -1: every value is 0, an
      original positive value, or the value of a nearest positive pixel. */
  lemma FilledValuesKnown(s: Shape, thick: map<Pixel, Sample>, name: Subfield, mask: set<Pixel>,
                          measureType: string)
    requires Covers(s, thick)
    requires SubfieldVisit(s, thick, name, mask, measureType).Ok?
    requires Num(-1.0) in Selected(s, thick, mask)
    ensures forall v :: v in SubfieldVisit(s, thick, name, mask, measureType).value.values ==>
      v.Num? && v.v >= 0.0
  {
    var prepared := MissingToNaN(FillOutside(thick, mask, Num(0.0)));
    var filled := InterpMissing(s, prepared).value;
    var marked := FillOutside(filled, mask, Num(-1.0));
    forall v | v in Selected(s, marked, mask) ensures v.Num? && v.v >= 0.0 {
      var p :| p in Pixels(s) && p in mask && marked[p] == v;
      assert marked[p] == filled[p];
      if prepared[p] != Num(0.0) && !Positive(prepared[p]) {
        var q :| NearestKnown(s, prepared, p, q) && filled[p] == prepared[q];
      }
    }
  }

  // ---------------------------------------------------------------------------
  // The subfield loop and the whole measurement (lines 619-675)
  // ---------------------------------------------------------------------------

  /** `grid_dict`, `gridvol_dict` and `logging_list` while the loop runs. */
  datatype Tally = Tally(grid: map<Subfield, Sample>, volumes: map<Subfield, Sample>, log: seq<LogEntry>)

  /** `delta_xy` (lines 568-571): square microns unless the file name
      mentions vessels; `fname` may be absent. */
  function DeltaXY(scale: real, fname: Option<string>): real {
    if fname.Some? && !Mentions(fname.value, "vessel") then scale / 1000000000.0 * scale
    else scale / 1000000000.0
  }

  /** Python's `sub in text` on strings. */
  predicate Mentions(text: string, sub: string)
    decreases |text|
  {
    |sub| <= |text| && (text[..|sub|] == sub || Mentions(text[1..], sub))
  }

  /** The tally after the first `k` subfields of the interpolating loop;
      an unknown dtype fails at the first `np.round(..., round_idx)`. */
  function InterpLoop(s: Shape, thick: map<Pixel, Sample>, l: Layout, k: nat, dtype: Dtype, delta: real,
                      measureType: string): (r: Result<Tally>)
    requires Covers(s, thick) && k <= |l.names| == |l.masks|
    ensures r.Ok? ==> forall f :: f in r.value.grid <==> exists i :: 0 <= i < k && l.names[i] == f
    ensures r.Ok? ==> (dtype == UInt64 || r.value.volumes == map[])
  {
    if k == 0 then Ok(Tally(map[], map[], l.log))
    else match InterpLoop(s, thick, l, k - 1, dtype, delta, measureType)
      case Err(e) => Err(e)
      case Ok(t) =>
        match SubfieldVisit(s, thick, l.names[k - 1], l.masks[k - 1], measureType)
        case Err(e) => Err(e)
        case Ok(v) =>
          if dtype == OtherDtype then Err(NameError)
          else Ok(Record(t, l.names[k - 1], v, dtype, delta))
  }

  /** Lines 642-644: enter one subfield's mean (and, for uint64, its volume)
      and append its messages. */
  function Record(t: Tally, name: Subfield, v: Visit, dtype: Dtype, delta: real): Tally {
    Tally(t.grid[name := Mean(v.values)],
          if dtype == UInt64 then t.volumes[name := Volume(delta, v.values)] else t.volumes,
          t.log + v.messages)
  }

  /** One more subfield of the loop. */
  lemma InterpLoopStep(s: Shape, thick: map<Pixel, Sample>, l: Layout, k: nat, dtype: Dtype, delta: real,
                       measureType: string)
    requires Covers(s, thick) && k < |l.names| == |l.masks|
    requires InterpLoop(s, thick, l, k, dtype, delta, measureType).Ok?
    ensures var visit := SubfieldVisit(s, thick, l.names[k], l.masks[k], measureType);
      InterpLoop(s, thick, l, k + 1, dtype, delta, measureType) ==
        if visit.Err? then Err(visit.error)
        else if dtype == OtherDtype then Err(NameError)
        else Ok(Record(InterpLoop(s, thick, l, k, dtype, delta, measureType).value, l.names[k], visit.value, dtype, delta))
  {
  }

  /** Line 654: the plain path's dictionary of raw means over the first `k`
      subfields. */
  function RawMeans(s: Shape, thick: map<Pixel, Sample>, l: Layout, k: nat): (g: map<Subfield, Sample>)
    requires Covers(s, thick) && k <= |l.names| == |l.masks|
    ensures forall f :: f in g <==> exists i :: 0 <= i < k && l.names[i] == f
  {
    if k == 0 then map[]
    else RawMeans(s, thick, l, k - 1)[l.names[k - 1] := Mean(Selected(s, thick, l.masks[k - 1]))]
  }

  /** Line 659: the plain path's dictionary of raw volumes. */
  function RawVolumes(s: Shape, thick: map<Pixel, Sample>, l: Layout, k: nat, delta: real): (g: map<Subfield, Sample>)
    requires Covers(s, thick) && k <= |l.names| == |l.masks|
    ensures forall f :: f in g <==> exists i :: 0 <= i < k && l.names[i] == f
  {
    if k == 0 then map[]
    else RawVolumes(s, thick, l, k - 1, delta)[l.names[k - 1] := Volume(delta, Selected(s, thick, l.masks[k - 1]))]
  }

  /** Line 664: `np.quantile(thick_map[thick_map != -1], q=0.995)` needs at
      least one entry that is not -1 (numpy raises an IndexError on an empty
      array). */
  predicate HasClipSample(s: Shape, thick: map<Pixel, Sample>)
    requires Covers(s, thick)
  {
    exists p :: p in Lattice(s) && thick[p] != Num(-1.0)
  }

  /** What `measure_grid` returns: `grid_dict`, `gridvol_dict` and `logging_list`. */
  datatype Measured = Measured(grid: map<Subfield, Sample>, volumes: map<Subfield, Sample>, log: seq<LogEntry>)

  /** `measure_grid(thick_map, fovea, scale, eye, interp, rotate,
      measure_type, grid_kwds, dtype=dtype, fname=fname)` with plotting off,
      paired with the shared default logging list's content afterwards.
      "all" is always read from the raw map over the union of the masks, whose
      `max()` fails when that union is empty; the plain path with float64
      never binds `gridvol_dict`. */
  function MeasureGridSpec(s: Shape, thick: map<Pixel, Sample>, fovea: Point, scale: real, eye: string,
                           interp: bool, rotate: real, measureType: string, kwds: GridKwds, dtype: Dtype,
                           fname: Option<string>, kit: Toolkit, shared: seq<LogEntry>)
    : (out: (Result<Measured>, seq<LogEntry>))
    requires Covers(s, thick)
    requires measureType == "square" ==> rotate == 0.0
  {
    var layout := GridLayout(s, fovea, scale, eye, rotate, measureType, kwds, kit, shared);
    match layout.0
    case Err(e) => (Err(e), layout.1)
    case Ok(l) =>
      var delta := DeltaXY(scale, fname);
      if interp then (InterpMeasure(s, thick, l, dtype, delta, measureType), layout.1)
      else (PlainMeasure(s, thick, l, dtype, delta), layout.1)
  }

  /** Lines 617-651: the interpolating path once the grid exists. */
  function InterpMeasure(s: Shape, thick: map<Pixel, Sample>, l: Layout, dtype: Dtype, delta: real,
                         measureType: string): Result<Measured>
    requires Covers(s, thick) && |l.names| == |l.masks|
  {
    match InterpLoop(s, thick, l, |l.names|, dtype, delta, measureType)
    case Err(e) => Err(e)
    case Ok(t) => Finish(s, thick, l, t, dtype, delta)
  }

  /** The measurement after the loop, as a function of the loop's outcome. */
  lemma InterpMeasureOutcome(s: Shape, thick: map<Pixel, Sample>, l: Layout, dtype: Dtype, delta: real,
                             measureType: string, outcome: Result<Tally>)
    requires Covers(s, thick) && |l.names| == |l.masks|
    requires InterpLoop(s, thick, l, |l.names|, dtype, delta, measureType) == outcome
    ensures InterpMeasure(s, thick, l, dtype, delta, measureType) ==
      if outcome.Err? then Err(outcome.error) else Finish(s, thick, l, outcome.value, dtype, delta)
  {
  }

  /** Lines 644-651 and 664: "all" from the raw map, then the clip value. */
  function Finish(s: Shape, thick: map<Pixel, Sample>, l: Layout, t: Tally, dtype: Dtype, delta: real): Result<Measured>
    requires Covers(s, thick)
  {
    var allVals := Selected(s, thick, UnionAll(l.masks));
    if |allVals| == 0 then Err(ValueError)
    else if dtype == OtherDtype then Err(NameError)
    else if !HasClipSample(s, thick) then Err(IndexError)
    else
      var volumes := if dtype == UInt64 then t.volumes[All := Volume(delta, allVals)] else t.volumes;
      Ok(Measured(t.grid[All := Mean(allVals)], volumes, t.log))
  }

  /** Lines 653-664: the plain path, a dictionary comprehension per output. */
  function PlainMeasure(s: Shape, thick: map<Pixel, Sample>, l: Layout, dtype: Dtype, delta: real): Result<Measured>
    requires Covers(s, thick) && |l.names| == |l.masks|
  {
    var allVals := Selected(s, thick, UnionAll(l.masks));
    if |l.masks| > 0 && dtype == OtherDtype then Err(NameError)
    else if |allVals| == 0 then Err(ValueError)
    else if dtype == OtherDtype then Err(NameError)
    else if !HasClipSample(s, thick) then Err(IndexError)
    else if dtype == Float64 then Err(NameError)
    else
      var grid := RawMeans(s, thick, l, |l.names|)[All := Mean(allVals)];
      var volumes := RawVolumes(s, thick, l, |l.names|, delta)[All := Volume(delta, allVals)];
      Ok(Measured(grid, volumes, l.log))
  }


  /** Once a subfield fails, the loop's outcome is that failure. */
  lemma {:induction false} InterpLoopErrSticky(s: Shape, thick: map<Pixel, Sample>, l: Layout, k: nat, j: nat,
                                               dtype: Dtype, delta: real, measureType: string)
    requires Covers(s, thick) && k <= j <= |l.names| == |l.masks|
    requires InterpLoop(s, thick, l, k, dtype, delta, measureType).Err?
    ensures InterpLoop(s, thick, l, j, dtype, delta, measureType) == InterpLoop(s, thick, l, k, dtype, delta, measureType)
    decreases j
  {
    if j > k {
      InterpLoopErrSticky(s, thick, l, k, j - 1, dtype, delta, measureType);
    }
  }

  /** Lines 566-675 with plotting off: the subfield loop of the
      interpolating path updates `grid_dict`, `gridvol_dict` and
      `logging_list` in place, one subfield at a time. */
  method MeasureGrid(s: Shape, thick: map<Pixel, Sample>, fovea: Point, scale: real, eye: string,
                     interp: bool, rotate: real, measureType: string, kwds: GridKwds, dtype: Dtype,
                     fname: Option<string>, kit: Toolkit, shared: seq<LogEntry>)
    returns (r: Result<Measured>, sharedAfter: seq<LogEntry>)
    requires Covers(s, thick)
    requires measureType == "square" ==> rotate == 0.0
    ensures (r, sharedAfter) ==
      MeasureGridSpec(s, thick, fovea, scale, eye, interp, rotate, measureType, kwds, dtype, fname, kit, shared)
  {
    var layout := GridLayout(s, fovea, scale, eye, rotate, measureType, kwds, kit, shared);
    sharedAfter := layout.1;
    if layout.0.Err? {
      return Err(layout.0.error), sharedAfter;
    }
    var l := layout.0.value;
    var delta := DeltaXY(scale, fname);
    if interp {
      r := MeasureSubfields(s, thick, l, dtype, delta, measureType);
    } else {
      r := PlainMeasure(s, thick, l, dtype, delta);
    }
  }

  /** Lines 620-651: the interpolating loop over the subfields, updating
      `grid_dict`, `gridvol_dict` and `logging_list` in place. */
  method MeasureSubfields(s: Shape, thick: map<Pixel, Sample>, l: Layout, dtype: Dtype, delta: real,
                          measureType: string) returns (r: Result<Measured>)
    requires Covers(s, thick) && |l.names| == |l.masks|
    ensures r == InterpMeasure(s, thick, l, dtype, delta, measureType)
  {
    var grid: map<Subfield, Sample> := map[];
    var volumes: map<Subfield, Sample> := map[];
    var log := l.log;
    var failure: Option<Error> := None;
    var i := 0;
    while i < |l.names| && failure.None?
      invariant 0 <= i <= |l.names|
      invariant InterpLoop(s, thick, l, i, dtype, delta, measureType) ==
        if failure.Some? then Err(failure.value) else Ok(Tally(grid, volumes, log))
    {
      var visit := SubfieldVisit(s, thick, l.names[i], l.masks[i], measureType);
      InterpLoopStep(s, thick, l, i, dtype, delta, measureType);
      if visit.Err? {
        failure := Some(visit.error);
      } else if dtype == OtherDtype {
        failure := Some(NameError);
      } else {
        ghost var before := Tally(grid, volumes, log);
        grid := grid[l.names[i] := Mean(visit.value.values)];
        if dtype == UInt64 {
          volumes := volumes[l.names[i] := Volume(delta, visit.value.values)];
        }
        log := log + visit.value.messages;
        assert Tally(grid, volumes, log) == Record(before, l.names[i], visit.value, dtype, delta);
      }
      i := i + 1;
    }
    if failure.Some? {
      InterpLoopErrSticky(s, thick, l, i, |l.names|, dtype, delta, measureType);
      InterpMeasureOutcome(s, thick, l, dtype, delta, measureType, Err(failure.value));
      r := Err(failure.value);
    } else {
      InterpMeasureOutcome(s, thick, l, dtype, delta, measureType, Ok(Tally(grid, volumes, log)));
      r := Finish(s, thick, l, Tally(grid, volumes, log), dtype, delta);
    }
  }

  // ---------------------------------------------------------------------------
  // Properties of the measurement
  // ---------------------------------------------------------------------------

  /** Lines 646-651 and 655-661: on success "all" is the raw map's mean over
      the union of the subfield masks, whichever path ran, and a volume is
      reported exactly for uint64; every subfield name is a key. */
  lemma AllFromRawMap(s: Shape, thick: map<Pixel, Sample>, fovea: Point, scale: real, eye: string,
                      interp: bool, rotate: real, measureType: string, kwds: GridKwds, dtype: Dtype,
                      fname: Option<string>, kit: Toolkit, shared: seq<LogEntry>)
    requires Covers(s, thick)
    requires measureType == "square" ==> rotate == 0.0
    requires MeasureGridSpec(s, thick, fovea, scale, eye, interp, rotate, measureType, kwds, dtype, fname, kit, shared).0.Ok?
    ensures var layout := GridLayout(s, fovea, scale, eye, rotate, measureType, kwds, kit, shared).0;
      var m := MeasureGridSpec(s, thick, fovea, scale, eye, interp, rotate, measureType, kwds, dtype, fname, kit, shared).0.value;
      var allVals := Selected(s, thick, UnionAll(layout.value.masks));
      layout.Ok? && |allVals| > 0 && HasClipSample(s, thick) &&
      m.grid[All] == Mean(allVals) &&
      (All in m.volumes <==> dtype == UInt64) &&
      (dtype == UInt64 ==> m.volumes[All] == Volume(DeltaXY(scale, fname), allVals)) &&
      forall k :: 0 <= k < |layout.value.names| ==> layout.value.names[k] in m.grid
  {
  }

  /** Lines 653-661: without interpolation a float64 measurement never binds
      `gridvol_dict`, so a grid that gets as far as returning fails. */
  lemma Float64NeedsInterp(s: Shape, thick: map<Pixel, Sample>, fovea: Point, scale: real, eye: string,
                           rotate: real, measureType: string, kwds: GridKwds,
                           fname: Option<string>, kit: Toolkit, shared: seq<LogEntry>)
    requires Covers(s, thick)
    requires measureType == "square" ==> rotate == 0.0
    ensures MeasureGridSpec(s, thick, fovea, scale, eye, false, rotate, measureType, kwds, Float64, fname, kit, shared).0.Err?
  {
  }

  /** Lines 578-580 with the fallback of lines 406-421: a chessboard that
      does not fit the image makes `create_square_grid` append its three
      messages to the shared default list and return two values, which
      `measure_grid` cannot unpack into three. */
  lemma SquareFallbackFails(s: Shape, thick: map<Pixel, Sample>, fovea: Point, scale: real, eye: string,
                            interp: bool, kwds: GridKwds, dtype: Dtype,
                            fname: Option<string>, kit: Toolkit, shared: seq<LogEntry>)
    requires Covers(s, thick)
    requires scale != 0.0 && kwds.nGrid >= 1
    requires var lines := SquareLines(scale, fovea, kwds.nGrid, kwds.gridSize); !Fits(lines.0, lines.1, s)
    ensures MeasureGridSpec(s, thick, fovea, scale, eye, interp, 0.0, "square", kwds, dtype, fname, kit, shared)
      == (Err(ValueError), shared + FallbackMessages(kwds.nGrid, kwds.gridSize))
  {
    assert SquareCentre(s, Some(fovea)) == fovea;
  }

  /** Lines 578-580 with line 430: `N_grid = -1` asks linspace for no grid
      lines, the fit check holds of the empty lines, and indexing the first
      line then raises an IndexError; the shared list is left as it was. */
  lemma EmptyChessboardFails(s: Shape, thick: map<Pixel, Sample>, fovea: Point, scale: real, eye: string,
                             interp: bool, kwds: GridKwds, dtype: Dtype,
                             fname: Option<string>, kit: Toolkit, shared: seq<LogEntry>)
    requires Covers(s, thick)
    requires scale != 0.0 && kwds.nGrid == -1
    ensures MeasureGridSpec(s, thick, fovea, scale, eye, interp, 0.0, "square", kwds, dtype, fname, kit, shared)
      == (Err(IndexError), shared)
  {
  }

  /** Every log entry from index `from` on reports missing values. */
  predicate MissingReportsFrom(log: seq<LogEntry>, from: nat) {
    forall j :: from <= j < |log| ==> log[j].MissingValues?
  }

  /** The interpolating loop only appends to the log: at most one message
      per subfield, each a missing-value report. */
  lemma {:induction false} InterpLoopLog(s: Shape, thick: map<Pixel, Sample>, l: Layout, k: nat, dtype: Dtype,
                                         delta: real, measureType: string)
    requires Covers(s, thick) && k <= |l.names| == |l.masks|
    requires InterpLoop(s, thick, l, k, dtype, delta, measureType).Ok?
    ensures var log := InterpLoop(s, thick, l, k, dtype, delta, measureType).value.log;
      l.log <= log && |log| <= |l.log| + k && MissingReportsFrom(log, |l.log|)
  {
    if k > 0 {
      InterpLoopLog(s, thick, l, k - 1, dtype, delta, measureType);
      var prev := InterpLoop(s, thick, l, k - 1, dtype, delta, measureType).value.log;
      var v := SubfieldVisit(s, thick, l.names[k - 1], l.masks[k - 1], measureType).value;
      ReportsAppend(prev, v.messages, |l.log|);
    }
  }

  lemma ReportsAppend(prev: seq<LogEntry>, msgs: seq<LogEntry>, from: nat)
    requires MissingReportsFrom(prev, from) && from <= |prev|
    requires msgs == [] || (|msgs| == 1 && msgs[0].MissingValues?)
    ensures MissingReportsFrom(prev + msgs, from)
  {
    forall j | from <= j < |prev + msgs| ensures (prev + msgs)[j].MissingValues? {
      if j >= |prev| {
        assert (prev + msgs)[j] == msgs[j - |prev|];
      }
    }
  }

  /** Every subfield is free of -1 up to index k. */
  predicate NoMissingUpTo(s: Shape, thick: map<Pixel, Sample>, l: Layout, k: nat)
    requires Covers(s, thick) && k <= |l.masks|
  {
    forall i :: 0 <= i < k ==> Num(-1.0) !in Selected(s, thick, l.masks[i])
  }

  /** With no missing value in any subfield, interpolation changes nothing:
      the loop computes the raw means (and, for uint64, the raw volumes) and
      logs nothing. */
  lemma {:induction false} InterpAgreesWhenComplete(s: Shape, thick: map<Pixel, Sample>, l: Layout, k: nat,
                                                    dtype: Dtype, delta: real, measureType: string)
    requires Covers(s, thick) && k <= |l.names| == |l.masks|
    requires NoMissingUpTo(s, thick, l, k) && dtype != OtherDtype
    ensures InterpLoop(s, thick, l, k, dtype, delta, measureType).Ok?
    ensures var t := InterpLoop(s, thick, l, k, dtype, delta, measureType).value;
      t.grid == RawMeans(s, thick, l, k) && t.log == l.log &&
      (dtype == UInt64 ==> t.volumes == RawVolumes(s, thick, l, k, delta))
  {
    if k > 0 {
      InterpAgreesWhenComplete(s, thick, l, k - 1, dtype, delta, measureType);
      NoMissingSameValues(s, thick, l.names[k - 1], l.masks[k - 1], measureType);
    }
  }

  /** Whole-call form: a uint64 map with no missing value in any subfield
      measures the same with and without interpolation. */
  lemma InterpIrrelevantWhenComplete(s: Shape, thick: map<Pixel, Sample>, fovea: Point, scale: real, eye: string,
                                     rotate: real, measureType: string, kwds: GridKwds,
                                     fname: Option<string>, kit: Toolkit, shared: seq<LogEntry>)
    requires Covers(s, thick)
    requires measureType == "square" ==> rotate == 0.0
    requires var layout := GridLayout(s, fovea, scale, eye, rotate, measureType, kwds, kit, shared).0;
      layout.Ok? && NoMissingUpTo(s, thick, layout.value, |layout.value.masks|)
    ensures MeasureGridSpec(s, thick, fovea, scale, eye, true, rotate, measureType, kwds, UInt64, fname, kit, shared)
         == MeasureGridSpec(s, thick, fovea, scale, eye, false, rotate, measureType, kwds, UInt64, fname, kit, shared)
  {
    var l := GridLayout(s, fovea, scale, eye, rotate, measureType, kwds, kit, shared).0.value;
    InterpAgreesWhenComplete(s, thick, l, |l.names|, UInt64, DeltaXY(scale, fname), measureType);
  }
}

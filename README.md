# OCTolyzer subfield grids and zonal measurement, in Dafny

OCTolyzer measures retinal layer thickness maps and SLO (scanning laser
ophthalmoscopy) images. This project models the part of it that divides a
thickness map into standard subfields and aggregates the map over each one:

- the binary masks: the circular mask, the four-quadrant split of a disk,
  the ETDRS grid (central disc, inner and outer rings of four quadrants
  each), the seven-sector peripapillary grid and the axis-aligned square
  "chessboard" grid with its fallback to the whole image;
- nearest-neighbour filling of missing values (`interp_missing`);
- `measure_grid`: subfield names per eye, per-subfield means and volumes,
  the missing-value log, the whole-grid "all" entry, and every error path
  the code takes on well-typed input;
- the decision rules `analyse` applies to an SLO image: scale validation and
  units, fixation location, laterality, and the per-zone arteriole-to-venule
  ratio (AVR) with its warning.

Masks are sets of `Pixel(row, col)`. A thickness map is a
`map<Pixel, Sample>` that covers the image, where a `Sample` is a number or
NaN. Python exceptions are `Err` values of a `Result`. The library calls the
grid builders make are fields of a `Toolkit` value passed in: skimage's
`centroid`, `label` and `regionprops`, numpy's `arctan` angle, and the
two-point line fit. Lemmas state what they need of these calls. Code that
loops in Python is modelled by methods with loop invariants, each proved
equal to a specification function. These are the component fill, the
half-plane split, the peripapillary assembly, the chessboard cells, the
subfield loop and the AVR loop.

The model keeps several behaviours of the code as written:

- `create_square_grid`'s fallback returns two values, and `measure_grid`
  cannot unpack them into three;
- the shared default `logging` list of `create_square_grid` is threaded
  through as an explicit input and output;
- "all" is computed from the raw map, even after interpolation;
- the non-interpolating path with float64 never binds `gridvol_dict`;
- an unknown eye on the ETDRS grid, or an unknown measure type, leaves a
  name unbound (on the chessboard an unknown eye is labelled as a right eye);
- `N_grid = -1` yields no grid lines, passes the fit check, and then fails
  indexing the first line;
- a non-numeric SLO scale reaches a comparison with `None`.

## Model

| member | source | states |
|---|---|---|
| CircularGrid.CreateCircularMask | octolyzer/measure/bscan/thickness_maps/grid.py:80-90 | the default centre is `(int(h/2), int(w/2))` read as (x, y) and the default radius `min(cx, cy, w-cx, h-cy)`; the mask is exactly the image pixels within that radius of that centre |
| CircularGrid.CreateCircularMaskMembership | octolyzer/measure/bscan/thickness_maps/grid.py:80-90 | with the centre and radius defaulted as the source does, an image pixel is in the mask exactly when `sqrt(d2) <= radius` |
| CircularGrid.DefaultMaskOnSquareImage | octolyzer/measure/bscan/thickness_maps/grid.py:81-84 | on a square image the default radius is h//2 and the middle pixel is in the mask |
| CircularGrid.DefaultMaskEmptyWhenTall | octolyzer/measure/bscan/thickness_maps/grid.py:81-84 | the transposed default centre gives a negative radius and an empty mask on an image more than twice as tall as wide |
| CircularGrid.CircularMaskMembership | octolyzer/measure/bscan/thickness_maps/grid.py:86-89 | an image pixel is in the mask exactly when the square root of its squared distance to the centre is at most the radius (`sqrt(d2) <= r` as integer arithmetic) |
| CircularGrid.MasksNest | octolyzer/measure/bscan/thickness_maps/grid.py:86-89 | masks with the same centre nest: a smaller radius gives a subset |
| CircularGrid.DefaultDiskWithinFrame | octolyzer/measure/bscan/thickness_maps/grid.py:81-84 | with the default radius (smallest distance to the walls), every pixel of the disk lies within the image frame |
| CircularGrid.Wrap | octolyzer/measure/bscan/thickness_maps/grid.py:130-132 | `angle % (sign*360)` keeps the sign of a nonzero angle and has magnitude below 360; 0 stays 0 |
| CircularGrid.NormaliseAngleCases | octolyzer/measure/bscan/thickness_maps/grid.py:129-136 | up to 44 degrees the wrapped angle is kept with relabel 0; past 44 it moves 89 toward zero and relabel is `(abs-1)//44`, within 0..8 |
| CircularGrid.DocumentedRange | octolyzer/measure/bscan/thickness_maps/grid.py:129-136 | for the documented input range [-120, 120] the normalised angle lies strictly inside (-45, 45) and at most two relabels happen |
| CircularGrid.NormalisePeriodic | octolyzer/measure/bscan/thickness_maps/grid.py:129-136 | two nonzero angles of the same sign that differ by whole turns normalise identically |
| CircularGrid.Bands | octolyzer/measure/bscan/thickness_maps/grid.py:140-149 | every disk pixel is in exactly one of the top/bottom band (its polar angle strictly inside (-45-a, 45-a)) and the left/right band |
| CircularGrid.SplitComponents | octolyzer/measure/bscan/thickness_maps/grid.py:157-163 | the component-filling loop equals its specification, and fails with an IndexError exactly when both bands have more than two components |
| CircularGrid.OrderTableIsPermutation | octolyzer/measure/bscan/thickness_maps/grid.py:166-182 | the combined reordering for any angle and relabel count is a permutation of the four quadrant slots |
| CircularGrid.QuadrantOrderIsPick | octolyzer/measure/bscan/thickness_maps/grid.py:166-182 | the two-stage reordering (base order, then relabel 1 or 2 by the sign of the original angle) picks the quadrants in the order of a single index table |
| CircularGrid.CircularGrids | octolyzer/measure/bscan/thickness_maps/grid.py:119-184 | the result is four quadrants, or an error exactly when both bands split into more than two components |
| CircularGrid.CircularGridsPartition | octolyzer/measure/bscan/thickness_maps/grid.py:138-184 | with two components per band and the centroid in the top/bottom band, the four quadrants are pairwise disjoint and their union is the disk |
| CircularGrid.CentroidInTopBottom | octolyzer/measure/bscan/thickness_maps/grid.py:126-149 | for angles in [-120, 120], a centroid whose own polar angle reads 0 falls in the top/bottom band, so putting it back into top/bottom slot 0 keeps the bands apart |
| CircularGrid.CircularGridsPeriodic | octolyzer/measure/bscan/thickness_maps/grid.py:129-184 | angles of the same sign that differ by whole turns give the same quadrants |
| Etdrs.CeilRadius | octolyzer/measure/bscan/thickness_maps/grid.py:332 | `int(ceil(d/scale/2))` is the least integer not below `d/scale/2` |
| Etdrs.CeilRadiusMonotone | octolyzer/measure/bscan/thickness_maps/grid.py:332 | for a positive scale, larger diameters give radii that are at least as large |
| Etdrs.EtdrsRadii | octolyzer/measure/bscan/thickness_maps/grid.py:332 | one radius per diameter, each the ceiling of half the diameter in pixels; a ZeroDivisionError exactly when some diameter is listed and the scale is 0 |
| Etdrs.QuadrantsOf | octolyzer/measure/bscan/thickness_maps/grid.py:336 | one quadrant list per disk, each the disk's `create_circular_grids`; an error exactly when some disk fails to split |
| Etdrs.RingRegions | octolyzer/measure/bscan/thickness_maps/grid.py:339-343 | inner region k lies in middle-disk quadrant k and outer region k in outer-disk quadrant k; each avoids the central disc and its same-index partner; a pixel is in the inner ring exactly when it is in some middle quadrant and not central, and in the outer ring exactly when it is in some outer quadrant k, not in middle quadrant k and not central |
| Etdrs.CrossIndexOverlap | octolyzer/measure/bscan/thickness_maps/grid.py:342 | the outer subtraction removes only the same-index inner region: a pixel can sit in inner region 0 and outer region 1 at once when the quadrant lists are not aligned |
| Etdrs.RingsDisjoint | octolyzer/measure/bscan/thickness_maps/grid.py:339-343 | with aligned, nested quadrant partitions the nine subfields are pairwise disjoint |
| Etdrs.RingsCover | octolyzer/measure/bscan/thickness_maps/grid.py:339-343 | with aligned, nested quadrant partitions the nine subfields cover the outer disk |
| Etdrs.RingsAnnuli | octolyzer/measure/bscan/thickness_maps/grid.py:339-343 | the inner ring is the middle disk minus the central disc and the outer ring is the outer disk minus the middle disk |
| Etdrs.CreateEtdrsGrid | octolyzer/measure/bscan/thickness_maps/grid.py:332-345 | one disk per diameter inside the image, quadrants for every disk after the first, the central disc being the first disk; fewer than three diameters fail unless the scale fails first |
| Etdrs.EtdrsGridShape | octolyzer/measure/bscan/thickness_maps/grid.py:332-345 | with three diameters and both outer disks splitting, the grid is exactly the three disks, their quadrants and the ring regions built from them |
| Etdrs.EtdrsGridPartition | octolyzer/measure/bscan/thickness_maps/grid.py:332-345 | for a positive scale, increasing diameters and well-split, aligned disks, the nine ETDRS subfields partition the outer disk, and the rings are the differences of consecutive disks |
| Peripapillary.HalfPlaneSplit | octolyzer/measure/bscan/thickness_maps/grid.py:254-258 | each pixel of a quadrant goes to exactly one half: to the right half exactly when `y <= m*x + c` |
| Peripapillary.SplitByLine | octolyzer/measure/bscan/thickness_maps/grid.py:249-262 | the pixel loop produces exactly the two halves of HalfPlaneSplit |
| Peripapillary.QuadSectors | octolyzer/measure/bscan/thickness_maps/grid.py:233-268 | quadrants 1 and 3 give one sector and quadrants 0 and 2 two; every sector avoids the central disc; an empty half fails with an IndexError |
| Peripapillary.SectorsUpTo | octolyzer/measure/bscan/thickness_maps/grid.py:233-268 | the sectors collected so far all avoid the central disc; any failure is an IndexError |
| Peripapillary.SectorCount | octolyzer/measure/bscan/thickness_maps/grid.py:233-268 | four quadrants give six sectors |
| Peripapillary.SectorsErrSticky | octolyzer/measure/bscan/thickness_maps/grid.py:233-268 | once a quadrant fails, the whole collection fails |
| Peripapillary.SectorsLayout | octolyzer/measure/bscan/thickness_maps/grid.py:233-268 | the unsplit quadrants 1 and 3 land at sector positions 2 and 5, minus the central disc |
| Peripapillary.SectorsValue | octolyzer/measure/bscan/thickness_maps/grid.py:233-268 | when quadrants 0 and 2 split into two nonempty halves, the six sectors are exactly those halves and the unsplit quadrants, each minus the central disc, in loop order |
| Peripapillary.EyeOrderIsPermutation | octolyzer/measure/bscan/thickness_maps/grid.py:271-275 | the Right and Left index lists (and the identity for other eyes) are permutations of 0..6 that keep the central disc last |
| Peripapillary.PeripapillaryGrid | octolyzer/measure/bscan/thickness_maps/grid.py:226-277 | the grid is seven masks with the central disc of radius `r//3` last, and the six sectors avoid it |
| Peripapillary.CreatePeripapillaryGrid | octolyzer/measure/bscan/thickness_maps/grid.py:226-277 | the quadrant loop with its appends and the final reordering equals PeripapillaryGrid |
| Peripapillary.SevenPartition | octolyzer/measure/bscan/thickness_maps/grid.py:227-271 | two halved quadrants, two whole quadrants (each minus the central disc) and the central disc partition the disk |
| Peripapillary.PeripapillaryPartition | octolyzer/measure/bscan/thickness_maps/grid.py:226-277 | for a well-split disk whose quadrants 0 and 2 both halve, the seven masks partition the circular mask, for either eye |
| Peripapillary.PeripapillaryMirror | octolyzer/measure/bscan/thickness_maps/grid.py:272-275 | the Left grid succeeds exactly when the Right one does and is the Right grid permuted by [3,2,1,0,5,4,6] |
| Peripapillary.UnsplitQuadrantsSwap | octolyzer/measure/bscan/thickness_maps/grid.py:233-275 | the two unsplit quadrants sit at positions 0 and 3, swapped between the eyes |
| Square.Trunc | octolyzer/measure/bscan/thickness_maps/grid.py:404-405 | `.astype(int)` truncates toward zero |
| Square.TruncMonotone | octolyzer/measure/bscan/thickness_maps/grid.py:404-405 | truncation is monotone |
| Square.GridLines | octolyzer/measure/bscan/thickness_maps/grid.py:404-405 | `linspace(c - width/2, c + width/2, N+1).astype(int)` has N+1 lines whose ends are the truncated endpoints |
| Square.GridLinesAscend | octolyzer/measure/bscan/thickness_maps/grid.py:404-405 | for a non-negative width the grid lines never decrease |
| Square.Cell | octolyzer/measure/bscan/thickness_maps/grid.py:438-439 | a cell is the image pixels with x1 <= row < x2 and y1 <= col < y2 |
| Square.CellLabels | octolyzer/measure/bscan/thickness_maps/grid.py:435-440 | rows times n labels, each (i, j) with i < rows and j < n |
| Square.LabelsRowMajor | octolyzer/measure/bscan/thickness_maps/grid.py:435-440 | label number i*n + j is (i, j): row-major order |
| Square.SquareCells | octolyzer/measure/bscan/thickness_maps/grid.py:435-440 | the nested loops produce exactly the cell masks and labels of the specification |
| Square.CellsPartition | octolyzer/measure/bscan/thickness_maps/grid.py:435-440 | with ascending lines the cells are pairwise disjoint and their union is the block from the first to the last lines |
| Square.SquareGrid | octolyzer/measure/bscan/thickness_maps/grid.py:393-456 | N=0 or a zero scale divides by zero, N<-1 breaks linspace, and N=-1 gives no grid lines, which pass the fit check and then fail with an IndexError at the first line. The whole-image fallback happens exactly when the lines do not fit; it appends the three messages to the shared log. A chessboard leaves the log unchanged and has N*N cells labelled in row-major order |
| Square.CreateSquareGrid | octolyzer/measure/bscan/thickness_maps/grid.py:393-456 | the function with its loops equals SquareGrid |
| Square.SquareGridPartition | octolyzer/measure/bscan/thickness_maps/grid.py:404-440 | for a positive scale, N >= 1 and a grid that fits, the N*N cells are pairwise disjoint and cover the block between the truncated outer lines |
| Interp.SelectIn | octolyzer/measure/bscan/thickness_maps/grid.py:639 | `map[mask]` holds exactly the values of the masked pixels |
| Interp.SelectInAgrees | octolyzer/measure/bscan/thickness_maps/grid.py:636-639 | two maps that agree on the mask give the same masked values |
| Interp.NearestIn | octolyzer/measure/bscan/thickness_maps/grid.py:490-496 | the chosen known pixel is at minimal squared Euclidean distance from the query |
| Interp.NearestFillIsNearest | octolyzer/measure/bscan/thickness_maps/grid.py:483-496 | the fill keeps zeros and positive values and gives every other pixel the value of a nearest positive pixel |
| Interp.OnlySelfAtDistanceZero | octolyzer/measure/bscan/thickness_maps/grid.py:490-496 | a positive pixel's nearest positive pixel is itself, so known values are kept |
| Interp.InterpMissing | octolyzer/measure/bscan/thickness_maps/grid.py:483-498 | fails exactly when no pixel is positive; otherwise zeros stay 0, positive values are kept and NaN or negative pixels take a nearest positive value |
| Zonal.Total | octolyzer/measure/bscan/thickness_maps/grid.py:640 | a sum is NaN exactly when a NaN is summed |
| Zonal.Mean | octolyzer/measure/bscan/thickness_maps/grid.py:641 | a mean is a number exactly when there are values and none is NaN |
| Zonal.Count | octolyzer/measure/bscan/thickness_maps/grid.py:626-627 | the -1 count is at most the number of values, and positive exactly when a -1 is present |
| Zonal.MeanBounds | octolyzer/measure/bscan/thickness_maps/grid.py:641 | the mean of a non-empty list of numbers within [lo, hi] is a number within [lo, hi] |
| Zonal.ChessNamesMirror | octolyzer/measure/bscan/thickness_maps/grid.py:586-587 | the two eyes name a cell with the same row number, rows and columns lie in 1..N, and the two column numbers sum to N+1 |
| Zonal.ChessNamesDistinct | octolyzer/measure/bscan/thickness_maps/grid.py:584-589 | the N*N cells of a chessboard get pairwise distinct names for either eye |
| Zonal.EtdrsNamesByEye | octolyzer/measure/bscan/thickness_maps/grid.py:595-601 | each eye gets 9 distinct names, and the Left names are the Right names with temporal and nasal swapped |
| Zonal.GridLayout | octolyzer/measure/bscan/thickness_maps/grid.py:579-601 | a successful layout has one name per mask |
| Zonal.SubfieldVisit | octolyzer/measure/bscan/thickness_maps/grid.py:626-641 | a subfield logs one missing-value message exactly when a -1 lies under its mask; the only failure is interpolation with no positive value |
| Zonal.NoMissingSameValues | octolyzer/measure/bscan/thickness_maps/grid.py:626-639 | a subfield with no -1 keeps its raw values and logs nothing |
| Zonal.FilledValuesKnown | octolyzer/measure/bscan/thickness_maps/grid.py:629-639 | after interpolation every value under the mask is a non-negative number |
| Zonal.InterpLoop | octolyzer/measure/bscan/thickness_maps/grid.py:620-641 | after k subfields the mean dictionary has exactly their names as keys; volumes are recorded only for uint64 |
| Zonal.RawMeans | octolyzer/measure/bscan/thickness_maps/grid.py:654 | the plain path's dictionary has exactly the subfield names as keys |
| Zonal.InterpLoopErrSticky | octolyzer/measure/bscan/thickness_maps/grid.py:620-641 | a failure in one subfield is the outcome of the whole loop |
| Zonal.MeasureSubfields | octolyzer/measure/bscan/thickness_maps/grid.py:620-651 | the in-place subfield loop equals the interpolating path of the specification |
| Zonal.MeasureGrid | octolyzer/measure/bscan/thickness_maps/grid.py:566-675 | `measure_grid` with plotting off equals MeasureGridSpec, including the shared default logging list's content afterwards |
| Zonal.AllFromRawMap | octolyzer/measure/bscan/thickness_maps/grid.py:604-661 | on success "all" is the raw map's mean over the union of the masks, a volume is reported exactly for uint64, and every subfield name is a key |
| Zonal.Float64NeedsInterp | octolyzer/measure/bscan/thickness_maps/grid.py:653-675 | without interpolation a float64 measurement always fails |
| Zonal.SquareFallbackFails | octolyzer/measure/bscan/thickness_maps/grid.py:579-580 | a chessboard that does not fit gives a ValueError at the unpacking, and the shared list grows by the three fallback messages |
| Zonal.EmptyChessboardFails | octolyzer/measure/bscan/thickness_maps/grid.py:404-430 | a chessboard with N_grid = -1 fails with an IndexError and leaves the shared list unchanged |
| Zonal.InterpLoopLog | octolyzer/measure/bscan/thickness_maps/grid.py:626-631 | the loop only appends to the log, at most one message per subfield, each a missing-value report |
| Zonal.InterpAgreesWhenComplete | octolyzer/measure/bscan/thickness_maps/grid.py:620-659 | with no -1 in any subfield the interpolating loop computes the raw means and volumes and logs nothing |
| Zonal.InterpIrrelevantWhenComplete | octolyzer/measure/bscan/thickness_maps/grid.py:615-675 | for uint64 with no -1 in any subfield, interpolating and not interpolating give the same result |
| SloRules.CheckScale | octolyzer/analyse_slo.py:169-181 | a numeric scale is kept exactly when 3 <= scale <= 20, and otherwise dropped with one message; a non-numeric scale raises a TypeError |
| SloRules.Units | octolyzer/analyse_slo.py:373-378 | units are "px" exactly when there is no scale |
| SloRules.UnitsAfterCheck | octolyzer/analyse_slo.py:169-181 | after the check, units are pixels exactly when no scale was given or it was outside [3, 20] |
| SloRules.InferLocation | octolyzer/analyse_slo.py:278-296 | a supplied location is kept; otherwise "Optic disc" exactly when the disc centre exists and 0.1w < x < 0.9w, else "Macula" |
| SloRules.InferEye | octolyzer/analyse_slo.py:298-347 | a supplied eye is kept; an inferred one is "Left" or "Right" |
| SloRules.FoveaAndDiscEye | octolyzer/analyse_slo.py:302-306 | with fovea and disc found, the eye is "Right" exactly when the fovea lies left of the disc |
| SloRules.DiscOnlyEye | octolyzer/analyse_slo.py:311-326 | with no fovea the eye is "Left" for a disc left of centre and "Right" for one right of centre; it stays unset at exactly 0.45w, 0.5w and 0.55w |
| SloRules.DiscOnlyMirror | octolyzer/analyse_slo.py:311-326 | mirroring the disc position mirrors the disc-only decision |
| SloRules.VesselRule | octolyzer/analyse_slo.py:330-336 | with no disc the eye is "Left" exactly when the left half holds at least as many vessel pixels as the right half, otherwise "Right" |
| SloRules.VesselRuleMirror | octolyzer/analyse_slo.py:330-336 | with no disc, mirroring an image of even width swaps the decision, except that an even split stays "Left" |
| SloRules.ZoneAvrFlag | octolyzer/analyse_slo.py:475-482 | a zone is flagged exactly when neither calibre is the -1 marker and CRAE exceeds CRVE in CRVE's sign (a positive CRAE over 0 being infinite) |
| SloRules.Avrs | octolyzer/analyse_slo.py:470-479 | one AVR per zone in order; an IndexError exactly when some zone lacks an artery or a vein row |
| SloRules.WarningZones | octolyzer/analyse_slo.py:482 | a zone is listed exactly when its AVR exceeds 1 |
| SloRules.ComputeAvrs | octolyzer/analyse_slo.py:471-482 | the per-zone loop and the flagging equal Avrs and WarningZones, with the same failure |
| SloRules.AvrWarningFor | octolyzer/analyse_slo.py:483-493 | a warning is logged exactly when some zone is flagged; then a disc-centred image lists exactly the flagged zones, a macula-centred one gets the generic check-segmentation warning, and any other location re-logs the previous message |

## Left out

- Plotting (`plot_grid`, `plot_multiple_grids`, `plot_peripapillary_grid`, `plot_thickness_profile`) and the `plot` early return of `measure_grid` are not modelled. They only render figures.
- The rotated square grid (`rotate_point`, `polygon2mask`) is not modelled. It uses floating-point trigonometry.
- Zonal.MeasureGrid: requires `rotate == 0` for the square measure type, because only the axis-aligned chessboard is modelled.
- The `all_mask` rectangle that `draw.rectangle` fills before the cell loop is not modelled. Cells are read as nonzero masks, which gives the same subfield pixels. The possible IndexError of that rectangle on a non-square image is not modelled.
- Floating-point rounding (`np.round`, dtype casts, `linspace` rounding error, the exact float value of 0.45·w) is not modelled. Arithmetic is exact over reals, and the rounding of the reported percentages and means is dropped.
- Zonal.Mean: gives the exact mean rather than `np.round(dtype(mean), round_idx)`, because the dtype cast (a truncation for uint64) and `np.round` are not modelled.
- The value of the 99.5th-percentile clip is not modelled, since it only feeds the plot. Only its failure on a map with no entry other than -1 is kept. Numpy reports that failure as an IndexError.
- The `isinstance(fovea, int)` widening is not modelled. The fovea is always a point.
- Keyword mismatches in `grid_kwds` (a TypeError from `**grid_kwds`) are not modelled. The keywords are a record.
- Interp.InterpMissing: `NearestNDInterpolator` breaks ties between equidistant pixels in its own way. The model promises only some nearest positive pixel. With no positive pixel it reports `NoKnownSamples` instead of scipy's own exception.
- The skimage calls, the `arctan` angle and `construct_line` are not modelled. They are inputs, and lemma hypotheses state what the proofs need of them.
- Printing and `logging.warning` are not modelled; only the returned logging lists are.
- Everything else in `analyse_slo.py` (image loading, segmentation models, feature measurement, DataFrame assembly, file output) is not part of this model. The AVR table lookup is reduced to the first artery and vein calibres per zone.
- SloRules.CheckScale: does not model `bool` passing `isinstance(scale, int)`. A boolean scale would behave as 0 or 1 and be dropped as out of range.

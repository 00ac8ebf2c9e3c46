/** The metadata decisions `analyse` takes about one SLO image (scale,
    measurement units, fixation location and laterality) and the per-zone
    arteriole-to-venule ratio. Image coordinates are reals here; the
    thresholds 0.1, 0.45, 0.5, 0.55 and 0.9 of the width are exact. */
module SloRules {
  import opened Raster

  // ---------------------------------------------------------------------------
  // Scale and units (analyse_slo.py lines 169-181 and 373-378)
  // ---------------------------------------------------------------------------

  /** The `scale` argument: absent, a float or int, or anything else. */
  datatype ScaleArg = NoScale | Numeric(v: real) | NotNumeric

  /** The messages the scale check logs. */
  datatype ScaleNote = OutOfRange(v: real)

  /** Lines 169-181: a numeric scale outside [3, 20] microns per pixel is
      dropped with a message. A non-numeric one is logged and set to None,
      but the range test that follows then compares None with 20, which
      raises a TypeError. */
  function CheckScale(scale: ScaleArg): (r: Result<(Option<real>, seq<ScaleNote>)>)
    ensures r.Err? <==> scale.NotNumeric?
    ensures r.Err? ==> r.error == TypeError
    ensures r.Ok? ==> (r.value.0.Some? <==> scale.Numeric? && 3.0 <= scale.v <= 20.0)
    ensures r.Ok? && r.value.0.Some? ==> r.value.0.value == scale.v
    ensures r.Ok? ==> (r.value.1 == [] <==> !(scale.Numeric? && r.value.0.None?))
  {
    match scale
    case NoScale => Ok((None, []))
    case NotNumeric => Err(TypeError)
    case Numeric(v) =>
      if v > 20.0 || v < 3.0 then Ok((None, [OutOfRange(v)]))
      else Ok((Some(v), []))
  }

  /** Lines 373-378: `measurement_units`. */
  function Units(scale: Option<real>): (u: string)
    ensures u == "px" <==> scale.None?
  {
    if scale.None? then "px" else "microns"
  }

  /** The units reported after the check are pixels exactly when no scale
      was given or the given one was out of range. */
  lemma UnitsAfterCheck(scale: ScaleArg)
    requires !scale.NotNumeric?
    ensures var u := Units(CheckScale(scale).value.0);
      u == "px" <==> scale.NoScale? || scale.v < 3.0 || scale.v > 20.0
  {
  }

  // ---------------------------------------------------------------------------
  // Location (lines 278-296)
  // ---------------------------------------------------------------------------

  /** Lines 278-296: a supplied location is kept; otherwise the image is
      disc-centred when the optic disc centre lies strictly inside the middle
      80% of the width, and macula-centred otherwise. */
  function InferLocation(location: Option<string>, odX: Option<real>, width: nat): (loc: string)
    ensures location.Some? ==> loc == location.value
    ensures location.None? ==>
      (loc == "Optic disc" <==> odX.Some? && 0.1 * width as real < odX.value < 0.9 * width as real)
    ensures location.None? ==> loc == "Optic disc" || loc == "Macula"
  {
    if location.Some? then location.value
    else if odX.Some? && 0.1 * width as real < odX.value < 0.9 * width as real then "Optic disc"
    else "Macula"
  }

  // ---------------------------------------------------------------------------
  // Laterality (lines 298-347)
  // ---------------------------------------------------------------------------

  function Sum(xs: seq<int>): int {
    if xs == [] then 0 else Sum(xs[..|xs| - 1]) + xs[|xs| - 1]
  }

  /** `slo_vbinmap[:, :N//2].sum()` for an image of width N. */
  function LeftVessels(vessels: seq<seq<int>>, width: nat): int {
    if vessels == [] then 0
    else LeftVessels(vessels[1..], width) + Sum(vessels[0][..Min(width / 2, |vessels[0]|)])
  }

  /** `slo_vbinmap[:, N//2:].sum()`. */
  function RightVessels(vessels: seq<seq<int>>, width: nat): int {
    if vessels == [] then 0
    else RightVessels(vessels[1..], width) + Sum(vessels[0][Min(width / 2, |vessels[0]|)..])
  }

  /** Lines 298-347: a supplied eye is kept. Otherwise, with both the fovea
      (coordinates not summing to 0) and the disc found, the fovea lying left
      of the disc means a right eye. With the disc but no fovea, the disc's
      position in the width decides; three exact positions (0.45, 0.5 and
      0.55 of the width) decide nothing. With no disc the half of the image
      holding more vessel pixels (ties to the left half) is the disc side. */
  function InferEye(eye: Option<string>, fovea: (int, int), odX: Option<real>, width: nat,
                    vessels: seq<seq<int>>): (r: Option<string>)
    ensures eye.Some? ==> r == eye
    ensures eye.None? && r.Some? ==> r.value == "Left" || r.value == "Right"
  {
    if eye.Some? then eye
    else
      var w := width as real;
      if fovea.0 + fovea.1 != 0 && odX.Some? then
        if (fovea.0 as real) < odX.value then Some("Right") else Some("Left")
      else if odX.Some? then
        var x := odX.value;
        if x < 0.45 * w then Some("Left")
        else if x > 0.55 * w then Some("Right")
        else if 0.45 * w < x < 0.55 * w then
          if x < 0.5 * w then Some("Left")
          else if x > 0.5 * w then Some("Right")
          else None
        else None
      else if LeftVessels(vessels, width) >= RightVessels(vessels, width) then Some("Left")
      else Some("Right")
  }

  /** With no disc found, the eye is left exactly when the left half of the
      vessel map holds at least as many vessel pixels as the right half,
      whatever the fovea. */
  lemma VesselRule(fovea: (int, int), width: nat, vessels: seq<seq<int>>)
    ensures InferEye(None, fovea, None, width, vessels)
         == if LeftVessels(vessels, width) >= RightVessels(vessels, width) then Some("Left") else Some("Right")
  {
  }

  /** The left and right eye swapped; nothing else changes. */
  function SwapEye(eye: Option<string>): Option<string> {
    if eye == Some("Left") then Some("Right")
    else if eye == Some("Right") then Some("Left")
    else eye
  }

  /** With no fovea, the disc alone decides: a disc left of centre means a
      left eye, right of centre a right eye, and only the exact centre and the
      two band edges leave the eye unknown. */
  lemma DiscOnlyEye(odX: real, width: nat, vessels: seq<seq<int>>)
    ensures var w := width as real;
      var r := InferEye(None, (0, 0), Some(odX), width, vessels);
      (r == Some("Left") <==> odX < 0.5 * w && odX != 0.45 * w) &&
      (r == Some("Right") <==> odX > 0.5 * w && odX != 0.55 * w) &&
      (r == None <==> odX == 0.45 * w || odX == 0.5 * w || odX == 0.55 * w)
  {
  }

  /** Mirroring the image left to right mirrors the disc-only decision. */
  lemma DiscOnlyMirror(odX: real, width: nat, vessels: seq<seq<int>>)
    ensures InferEye(None, (0, 0), Some(width as real - odX), width, vessels)
         == SwapEye(InferEye(None, (0, 0), Some(odX), width, vessels))
  {
    DiscOnlyEye(odX, width, vessels);
    DiscOnlyEye(width as real - odX, width, vessels);
  }

  /** With fovea and disc both found, the eye is right exactly when the fovea
      lies left of the disc. */
  lemma FoveaAndDiscEye(fovea: (int, int), odX: real, width: nat, vessels: seq<seq<int>>)
    requires fovea.0 + fovea.1 != 0
    ensures InferEye(None, fovea, Some(odX), width, vessels) ==
      if (fovea.0 as real) < odX then Some("Right") else Some("Left")
  {
  }

  // Mirroring a vessel map.

  function Reverse(xs: seq<int>): (r: seq<int>)
    ensures |r| == |xs|
    ensures forall i :: 0 <= i < |xs| ==> r[i] == xs[|xs| - 1 - i]
  {
    if xs == [] then [] else [xs[|xs| - 1]] + Reverse(xs[..|xs| - 1])
  }

  /** Every row mirrored. */
  function MirrorRows(vessels: seq<seq<int>>): (m: seq<seq<int>>)
    ensures |m| == |vessels|
    ensures forall i :: 0 <= i < |vessels| ==> m[i] == Reverse(vessels[i])
  {
    if vessels == [] then [] else [Reverse(vessels[0])] + MirrorRows(vessels[1..])
  }

  lemma {:induction false} SumAppend(a: seq<int>, b: seq<int>)
    ensures Sum(a + b) == Sum(a) + Sum(b)
    decreases |b|
  {
    if b == [] {
      assert a + b == a;
    } else {
      assert (a + b)[..|a + b| - 1] == a + b[..|b| - 1];
      SumAppend(a, b[..|b| - 1]);
    }
  }

  lemma {:induction false} SumReverse(xs: seq<int>)
    ensures Sum(Reverse(xs)) == Sum(xs)
    decreases |xs|
  {
    if xs != [] {
      var init := xs[..|xs| - 1];
      SumReverse(init);
      SumAppend([xs[|xs| - 1]], Reverse(init));
      assert Reverse(xs) == [xs[|xs| - 1]] + Reverse(init);
      assert Sum([xs[|xs| - 1]]) == xs[|xs| - 1] by {
        assert [xs[|xs| - 1]][..0] == [];
      }
    }
  }

  lemma ReverseAppend(left: seq<int>, right: seq<int>)
    ensures Reverse(left + right) == Reverse(right) + Reverse(left)
  {
    var k, n := |left|, |right|;
    var rev, both := Reverse(left + right), Reverse(right) + Reverse(left);
    forall i | 0 <= i < k + n ensures rev[i] == both[i] {
      if i < n {
        assert both[i] == right[n - 1 - i] == (left + right)[k + n - 1 - i];
      } else {
        assert both[i] == left[k + n - 1 - i] == (left + right)[k + n - 1 - i];
      }
    }
  }

  /** A row split into two halves of equal length: the mirrored row's left
      half is the mirrored right half, and the other way round. */
  lemma MirrorHalves(left: seq<int>, right: seq<int>)
    requires |left| == |right|
    ensures Sum(Reverse(left + right)[..|left|]) == Sum(right)
    ensures Sum(Reverse(left + right)[|left|..]) == Sum(left)
  {
    ReverseAppend(left, right);
    var rev := Reverse(left + right);
    assert rev[..|left|] == Reverse(right);
    assert rev[|left|..] == Reverse(left);
    SumReverse(right);
    SumReverse(left);
  }

  /** An image whose rows all have the given width. */
  predicate Rectangular(vessels: seq<seq<int>>, width: nat) {
    forall i :: 0 <= i < |vessels| ==> |vessels[i]| == width
  }

  lemma {:induction false} MirrorCounts(vessels: seq<seq<int>>, width: nat)
    requires width % 2 == 0 && Rectangular(vessels, width)
    ensures LeftVessels(MirrorRows(vessels), width) == RightVessels(vessels, width)
    ensures RightVessels(MirrorRows(vessels), width) == LeftVessels(vessels, width)
    decreases |vessels|
  {
    if vessels != [] {
      var m := MirrorRows(vessels);
      var row := vessels[0];
      assert m[0] == Reverse(row) && m[1..] == MirrorRows(vessels[1..]);
      assert Min(width / 2, |row|) == width / 2 == |row| / 2;
      MirrorCounts(vessels[1..], width);
      assert row == row[..width / 2] + row[width / 2..];
      MirrorHalves(row[..width / 2], row[width / 2..]);
      assert LeftVessels(m, width) == LeftVessels(m[1..], width) + Sum(Reverse(row)[..width / 2]);
      assert RightVessels(m, width) == RightVessels(m[1..], width) + Sum(Reverse(row)[width / 2..]);
    }
  }

  /** With no disc, mirroring an image of even width swaps the decision,
      except that an even split stays with the left eye. */
  lemma VesselRuleMirror(fovea: (int, int), width: nat, vessels: seq<seq<int>>)
    requires width % 2 == 0 && Rectangular(vessels, width)
    ensures var before := InferEye(None, fovea, None, width, vessels);
      var after := InferEye(None, fovea, None, width, MirrorRows(vessels));
      if LeftVessels(vessels, width) == RightVessels(vessels, width)
      then before == after == Some("Left")
      else after == SwapEye(before)
  {
    MirrorCounts(vessels, width);
  }

  // ---------------------------------------------------------------------------
  // Arteriole-to-venule ratio (lines 470-493)
  // ---------------------------------------------------------------------------

  /** A float64 quotient: division by zero gives an infinity, or NaN for 0/0. */
  datatype Quotient = Finite(v: real) | PosInf | NegInf | NotANumber

  function Divide(a: real, b: real): (q: Quotient)
    ensures q.Finite? <==> b != 0.0
    ensures q.Finite? ==> q.v * b == a
  {
    if b != 0.0 then Finite(a / b)
    else if a > 0.0 then PosInf
    else if a < 0.0 then NegInf
    else NotANumber
  }

  /** Lines 475-478: a zone whose CRAE or CRVE is the -1 marker has AVR -1. */
  function ZoneAvr(crae: real, crve: real): Quotient {
    if crae == -1.0 || crve == -1.0 then Finite(-1.0) else Divide(crae, crve)
  }

  /** `avrs > 1` on a float64 array (NaN compares false). */
  predicate ExceedsOne(q: Quotient) {
    q.PosInf? || (q.Finite? && q.v > 1.0)
  }

  /** A zone is flagged exactly when both calibres were measured and the
      arteriolar one is wider, in the vein calibre's sign; a positive CRAE
      over a zero CRVE counts as infinite. */
  lemma ZoneAvrFlag(crae: real, crve: real)
    ensures ExceedsOne(ZoneAvr(crae, crve)) <==>
      crae != -1.0 && crve != -1.0 &&
      ((crve > 0.0 && crae > crve) || (crve < 0.0 && crae < crve) || (crve == 0.0 && crae > 0.0))
  {
    if crae != -1.0 && crve != -1.0 && crve != 0.0 {
      var q := crae / crve;
      assert q * crve == crae;
      if crve > 0.0 {
        RatioAbove(crae, crve);
      } else {
        RatioAbove(-crae, -crve);
        assert -crae / -crve == q;
      }
    }
  }

  lemma RatioAbove(a: real, b: real)
    requires b > 0.0
    ensures a / b > 1.0 <==> a > b
  {
    var q := a / b;
    assert q * b == a;
    if q > 1.0 {
      assert q * b > 1.0 * b;
    } else {
      assert q * b <= 1.0 * b;
    }
  }

  /** The calibres of one zone's first artery and first vein rows, when the
      table has them. */
  datatype ZoneCalibres = ZoneCalibres(zone: string, crae: Option<real>, crve: Option<real>)

  /** Lines 470-479 as a specification: the AVR of every zone in order; a zone
      with no artery or no vein row fails at `.iloc[0]`. */
  function Avrs(zones: seq<ZoneCalibres>): (r: Result<seq<Quotient>>)
    ensures r.Ok? ==> |r.value| == |zones|
    ensures r.Err? <==> exists i :: 0 <= i < |zones| && (zones[i].crae.None? || zones[i].crve.None?)
    ensures r.Err? ==> r.error == IndexError
  {
    if zones == [] then Ok([])
    else
      var z := zones[|zones| - 1];
      match Avrs(zones[..|zones| - 1])
      case Err(e) => Err(e)
      case Ok(front) =>
        if z.crae.None? || z.crve.None? then Err(IndexError)
        else Ok(front + [ZoneAvr(z.crae.value, z.crve.value)])
  }

  /** Line 482: `all_grids[avrs > 1]`, the flagged zones in order. */
  function WarningZones(zones: seq<ZoneCalibres>, avrs: seq<Quotient>): (w: seq<string>)
    requires |avrs| == |zones|
    ensures |w| <= |zones|
    ensures forall z :: z in w <==> exists i :: 0 <= i < |zones| && zones[i].zone == z && ExceedsOne(avrs[i])
  {
    if zones == [] then []
    else
      var n := |zones| - 1;
      WarningZones(zones[..n], avrs[..n]) + (if ExceedsOne(avrs[n]) then [zones[n].zone] else [])
  }

  /** Lines 471-482: the per-zone loop appends one AVR per zone, then the
      zones whose AVR exceeds 1 are collected for the warning. */
  method ComputeAvrs(zones: seq<ZoneCalibres>) returns (r: Result<(seq<Quotient>, seq<string>)>)
    ensures r.Err? <==> Avrs(zones).Err?
    ensures r.Err? ==> r.error == IndexError
    ensures r.Ok? ==> r.value.0 == Avrs(zones).value && r.value.1 == WarningZones(zones, r.value.0)
  {
    var avrs: seq<Quotient> := [];
    var i := 0;
    while i < |zones|
      invariant 0 <= i <= |zones|
      invariant Avrs(zones[..i]) == Ok(avrs)
    {
      var z := zones[i];
      assert zones[..i + 1][..i] == zones[..i];
      if z.crae.None? || z.crve.None? {
        assert Avrs(zones).Err?;
        return Err(IndexError);
      }
      avrs := avrs + [ZoneAvr(z.crae.value, z.crve.value)];
      i := i + 1;
    }
    assert zones[..i] == zones;
    var flagged: seq<string> := [];
    var j := 0;
    while j < |zones|
      invariant 0 <= j <= |zones|
      invariant flagged == WarningZones(zones[..j], avrs[..j])
    {
      assert zones[..j + 1][..j] == zones[..j] && avrs[..j + 1][..j] == avrs[..j];
      if ExceedsOne(avrs[j]) {
        flagged := flagged + [zones[j].zone];
      }
      j := j + 1;
    }
    assert zones[..j] == zones && avrs[..j] == avrs;
    return Ok((avrs, flagged));
  }

  /** Lines 483-493: the warning logged when some zone is flagged; with a
      location other than the two known ones `msg` keeps its previous text. */
  datatype AvrWarning = NoWarning | CheckSegmentation | ZonesExceed(zones: seq<string>) | PreviousMessage

  function AvrWarningFor(location: string, flagged: seq<string>): (w: AvrWarning)
    ensures w.NoWarning? <==> flagged == []
    ensures w.ZonesExceed? ==> w.zones == flagged && location == "Optic disc"
    ensures flagged != [] && location == "Optic disc" ==> w == ZonesExceed(flagged)
    ensures flagged != [] && location == "Macula" ==> w == CheckSegmentation
    ensures flagged != [] && location != "Macula" && location != "Optic disc" ==> w == PreviousMessage
  {
    if flagged == [] then NoWarning
    else if location == "Macula" then CheckSegmentation
    else if location == "Optic disc" then ZonesExceed(flagged)
    else PreviousMessage
  }
}

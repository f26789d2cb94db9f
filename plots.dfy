/** The arithmetic of the plotting module: the attribute-aware error rules
    applied before plotting, the R-squared shown on the scatter plots, the
    PNG fallback path and the subplot grid. */
module Plots {
  import opened Wrappers
  import opened Text
  import opened Stats
  import opened Records

  /** The stabiliser added to the reference value in a percent error. */
  const Eps: real := 0.000001

  /** How `compute_errors` treats an attribute. */
  datatype AttributeKind = Height | Area | Tilt | Azimuth | Other

  function KindOf(attribute: string): AttributeKind {
    if attribute in ["min_height", "max_height", "height"] then Height
    else if attribute in ["surface_area", "area", "footprint_area"] then Area
    else if attribute == "tilt" then Tilt
    else if attribute == "azimuth" then Azimuth
    else Other
  }

  function Abs(x: real): (r: real)
    ensures r >= 0.0 && (r == x || r == -x)
  {
    if x < 0.0 then -x else x
  }

  /** `|calculated - reference| % 360`, folded onto [0, 180]. */
  function AngularDistance(calculated: real, reference: real): (d: real)
    ensures 0.0 <= d <= 180.0
  {
    var a := Abs(calculated - reference);
    var raw := a - 360.0 * ((a / 360.0).Floor as real);
    if raw > 180.0 then 360.0 - raw else raw
  }

  /** `d` is the length of the shorter arc between two directions whose
      difference is `x` degrees: `x` is `d` or `-d` up to whole turns. */
  ghost predicate IsShortestArc(x: real, d: real) {
    0.0 <= d <= 180.0 && exists k: int :: x == Turns(k) + d || x == Turns(k) - d
  }

  /** `k` whole turns, in degrees. */
  function Turns(k: int): real {
    360.0 * (k as real)
  }

  /** The azimuth difference is the shorter arc between the two directions. */
  lemma AngularDistanceIsShortestArc(calculated: real, reference: real)
    ensures IsShortestArc(calculated - reference, AngularDistance(calculated, reference))
  {
    var x := calculated - reference;
    var a := Abs(x);
    var f := (a / 360.0).Floor;
    var raw := a - 360.0 * (f as real);
    assert a == 360.0 * (f as real) + raw;
    var d := AngularDistance(calculated, reference);
    if raw > 180.0 {
      assert a == 360.0 * ((f + 1) as real) - d;
      if x >= 0.0 {
        assert x == Turns(f + 1) - d;
      } else {
        assert x == Turns(-f - 1) + d;
      }
    } else {
      if x >= 0.0 {
        assert x == Turns(f) + d;
      } else {
        assert x == Turns(-f) - d;
      }
    }
  }

  /** Only one length in [0, 180] is the shorter arc for a given difference. */
  lemma ShortestArcUnique(x: real, d1: real, d2: real)
    requires IsShortestArc(x, d1) && IsShortestArc(x, d2)
    ensures d1 == d2
  {
    var k1: int :| x == Turns(k1) + d1 || x == Turns(k1) - d1;
    var k2: int :| x == Turns(k2) + d2 || x == Turns(k2) - d2;
    var m := k1 - k2;
    // In every case d1 - d2 or d1 + d2 is a whole number of turns.
    assert d1 - d2 == 360.0 * (m as real) || d1 - d2 == -360.0 * (m as real)
        || d1 + d2 == 360.0 * (m as real) || d1 + d2 == -360.0 * (m as real);
  }

  /** The azimuth difference is symmetric and zero for equal directions. */
  lemma AngularDistanceSymmetric(a: real, b: real)
    ensures AngularDistance(a, b) == AngularDistance(b, a)
    ensures AngularDistance(a, a) == 0.0
  {
  }

  /** `difference / (reference + eps) * 100`; missing when an operand is
      missing or the divisor is zero (a non-finite result). */
  function StabilisedPercent(difference: Option<real>, reference: Option<real>): (r: Option<real>)
    ensures r.Some? ==> difference.Some? && reference.Some? && reference.value + Eps != 0.0
  {
    if difference.Some? && reference.Some? && reference.value + Eps != 0.0
    then Some(difference.value / (reference.value + Eps) * 100.0)
    else None
  }

  /** The difference and percent error `compute_errors` assigns to one row. */
  function ErrorsFor(kind: AttributeKind, calculated: Option<real>, reference: Option<real>): (Option<real>, Option<real>) {
    match kind
    case Height => (Difference(calculated, reference), StabilisedPercent(Difference(calculated, reference), reference))
    case Area => (Difference(calculated, reference), StabilisedPercent(Difference(calculated, reference), reference))
    case Tilt => (Difference(calculated, reference), None)
    case Azimuth =>
      (if calculated.Some? && reference.Some? then Some(AngularDistance(calculated.value, reference.value)) else None, None)
    case Other => (Difference(calculated, reference), None)
  }

  /** `compute_errors(df, attribute)`: overwrites `difference` and
      `percent_error` of every row according to the attribute's kind. */
  function ComputeErrors(rows: seq<ValidationRecord>, attribute: string): (r: seq<ValidationRecord>)
    ensures |r| == |rows|
    ensures forall i :: 0 <= i < |rows| ==>
      r[i].featureId == rows[i].featureId && r[i].classname == rows[i].classname
      && r[i].attributeName == rows[i].attributeName
      && r[i].calculated == rows[i].calculated && r[i].thematic == rows[i].thematic
  {
    seq(|rows|, i requires 0 <= i < |rows| =>
      var e := ErrorsFor(KindOf(attribute), rows[i].calculated, rows[i].thematic);
      rows[i].(difference := e.0, percentError := e.1))
  }

  /** Heights and areas: the linear difference and the percent error
      relative to `reference + eps`. */
  lemma ComputeErrorsRelative(rows: seq<ValidationRecord>, attribute: string, i: nat)
    requires attribute in ["min_height", "max_height", "height", "surface_area", "area", "footprint_area"]
    requires i < |rows|
    ensures var v := ComputeErrors(rows, attribute)[i];
      v.difference == Difference(v.calculated, v.thematic)
      && (v.calculated.Some? && v.thematic.Some? && v.thematic.value + Eps != 0.0 ==>
            v.percentError == Some((v.calculated.value - v.thematic.value) / (v.thematic.value + Eps) * 100.0))
      && (v.calculated.None? || v.thematic.None? ==> v.percentError.None?)
  {
  }

  /** Every other attribute except azimuth: the linear difference and no
      percent error. */
  lemma ComputeErrorsLinear(rows: seq<ValidationRecord>, attribute: string, i: nat)
    requires KindOf(attribute) in {Tilt, Other}
    requires i < |rows|
    ensures var v := ComputeErrors(rows, attribute)[i];
      v.difference == Difference(v.calculated, v.thematic) && v.percentError.None?
  {
  }

  /** Azimuth: the difference is the shorter arc, in [0, 180], and there is
      no percent error. */
  lemma ComputeErrorsAzimuth(rows: seq<ValidationRecord>, i: nat)
    requires i < |rows|
    ensures var v := ComputeErrors(rows, "azimuth")[i];
      v.percentError.None?
      && (v.difference.Some? <==> v.calculated.Some? && v.thematic.Some?)
      && (v.difference.Some? ==>
            0.0 <= v.difference.value <= 180.0
            && IsShortestArc(v.calculated.value - v.thematic.value, v.difference.value))
  {
    var v := ComputeErrors(rows, "azimuth")[i];
    if v.calculated.Some? && v.thematic.Some? {
      AngularDistanceIsShortestArc(v.calculated.value, v.thematic.value);
    }
  }

  /** A percent error appears only for heights and areas. */
  lemma PercentOnlyForHeightsAndAreas(rows: seq<ValidationRecord>, attribute: string)
    ensures forall i :: 0 <= i < |rows| && ComputeErrors(rows, attribute)[i].percentError.Some? ==>
      KindOf(attribute) in {Height, Area}
  {
  }

  /** The R-squared printed on a scatter plot: 0 when the total sum of
      squares is zero, never a division by zero, and at most 1. */
  function ScatterRSquared(rows: seq<ValidationRecord>): (r: real)
    ensures TotalSumOfSquares(References(rows)) == 0.0 ==> r == 0.0
    ensures TotalSumOfSquares(References(rows)) != 0.0 ==>
      r == 1.0 - ResidualSumOfSquares(Pairs(rows)) / TotalSumOfSquares(References(rows))
    ensures r <= 1.0
  {
    var total := TotalSumOfSquares(References(rows));
    var residual := ResidualSumOfSquares(Pairs(rows));
    if total != 0.0 then
      assert residual / total >= 0.0;
      1.0 - residual / total
    else 0.0
  }

  /** `save_path.lower().endswith('.ipe')`, with ASCII lower-casing. */
  predicate EndsWithIpe(path: string) {
    HasSuffix(ToLower(path), ".ipe")
  }

  /** The PNG path written when IPE output is requested but unavailable. */
  function PngFallbackPath(path: string): (r: string)
    ensures HasSuffix(r, ".png")
    ensures EndsWithIpe(path) ==> |r| == |path| && r[..|r| - 4] == path[..|path| - 4]
    ensures !EndsWithIpe(path) ==> r == path + ".png"
  {
    if EndsWithIpe(path) then path[..|path| - 4] + ".png" else path + ".png"
  }

  /** Where a figure is saved: nowhere without a path; the PNG fallback when
      IPE is requested without IPE support; otherwise the path as given. */
  function SaveTarget(savePath: string, figFormat: Option<string>, hasIpe: bool): (r: Option<string>)
    ensures r.None? <==> savePath == ""
    ensures r.Some? && figFormat == Some("ipe") && !hasIpe ==> HasSuffix(r.value, ".png")
    ensures r.Some? && figFormat == Some("ipe") && !hasIpe ==> r.value == PngFallbackPath(savePath)
    ensures r.Some? && !(figFormat == Some("ipe") && !hasIpe) ==> r.value == savePath
  {
    if savePath == "" then None
    else if figFormat == Some("ipe") && !hasIpe then Some(PngFallbackPath(savePath))
    else Some(savePath)
  }

  /** Rows and columns of the comparison grid for `n` attributes; no figure
      for none. */
  function GridShape(n: nat): (r: Option<(nat, nat)>)
    ensures r.None? <==> n == 0
    ensures r.Some? ==> r.value.1 == 2 && r.value.0 * 2 >= n && (r.value.0 - 1) * 2 < n
  {
    if n == 0 then None else Some(((n + 1) / 2, 2))
  }

  /** The indices of the grid cells switched off: from `n` to the last. */
  function HiddenCells(n: nat): (r: seq<nat>)
    requires n > 0
    ensures |r| <= 1 && (|r| == 1 <==> n % 2 == 1)
    ensures forall c: nat :: c in r <==> n <= c < GridShape(n).value.0 * GridShape(n).value.1
  {
    var cells := GridShape(n).value.0 * GridShape(n).value.1;
    var r := seq(cells - n, i requires 0 <= i < cells - n => n + i);
    assert forall c: nat :: n <= c < cells ==> c in r by {
      forall c: nat | n <= c < cells ensures c in r {
        assert r[c - n] == c;
      }
    }
    r
  }
}

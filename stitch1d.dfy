/** Stitch1D: joins two single-spectrum histograms, a left-hand side (LHS)
  * and a right-hand side (RHS), over the region where their x ranges
  * overlap. The model covers the choice of the overlap region, the rebin
  * parameters, the checks exec makes before it rebins, the bin indexes of
  * the overlap ends, the scale factor and the choice of mean over the
  * overlap. Rebin, Integration, MultiplyRange and WeightedMean are child
  * algorithms: their results enter as inputs. */
module Stitch1D {
  import opened Wrappers

  /** The slack added to a user-given overlap end (1e-9). */
  const RangeTolerance: real := 0.000000001

  /** The x region both workspaces can cover: from the first boundary of the
    * RHS to the last boundary of the LHS. */
  function XIntersection(lhsX: seq<real>, rhsX: seq<real>): (r: (real, real))
    requires |lhsX| >= 1 && |rhsX| >= 1
    ensures r.0 in rhsX && r.1 in lhsX
    ensures r.0 == rhsX[0] && r.1 == lhsX[|lhsX| - 1]
  {
    (rhsX[0], lhsX[|lhsX| - 1])
  }

  /** getStartOverlap: the StartOverlap property (None when left at its
    * default) less the tolerance, replaced by the intersection minimum when
    * unset or outside [min, max]. */
  function StartOverlap(prop: Option<real>, min: real, max: real): (r: real)
    ensures prop.None? ==> r == min
    ensures prop.Some? && min <= prop.value - RangeTolerance <= max ==> r == prop.value - RangeTolerance
    ensures prop.Some? && !(min <= prop.value - RangeTolerance <= max) ==> r == min
  {
    var v := if prop.Some? then prop.value - RangeTolerance else 0.0;
    var beyondRange := v < min || v > max;
    if prop.None? || beyondRange then min else v
  }

  /** getEndOverlap: the EndOverlap property plus the tolerance, replaced by
    * the intersection maximum when unset or outside [min, max]. */
  function EndOverlap(prop: Option<real>, min: real, max: real): (r: real)
    ensures prop.None? ==> r == max
    ensures prop.Some? && min <= prop.value + RangeTolerance <= max ==> r == prop.value + RangeTolerance
    ensures prop.Some? && !(min <= prop.value + RangeTolerance <= max) ==> r == max
  {
    var v := if prop.Some? then prop.value + RangeTolerance else 0.0;
    var beyondRange := v < min || v > max;
    if prop.None? || beyondRange then max else v
  }

  /** Whatever the properties say, both ends of the overlap lie in the
    * intersection when it is not empty. */
  lemma OverlapWithinIntersection(startProp: Option<real>, endProp: Option<real>, min: real, max: real)
    requires min <= max
    ensures min <= StartOverlap(startProp, min, max) <= max
    ensures min <= EndOverlap(endProp, min, max) <= max
  {}

  /** std::min_element, by value. */
  function MinElement(s: seq<real>): (r: real)
    requires |s| >= 1
    ensures r in s && forall k :: 0 <= k < |s| ==> r <= s[k]
  {
    if |s| == 1 then s[0]
    else var m := MinElement(s[1..]); if s[0] <= m then s[0] else m
  }

  /** std::max_element, by value. */
  function MaxElement(s: seq<real>): (r: real)
    requires |s| >= 1
    ensures r in s && forall k :: 0 <= k < |s| ==> r >= s[k]
  {
    if |s| == 1 then s[0]
    else var m := MaxElement(s[1..]); if s[0] >= m then s[0] else m
  }

  /** getRebinParams: with Params left empty (its default), the whole range
    * from the smallest LHS boundary to the largest RHS boundary in 100
    * steps; with a single value, that value as the step over the same
    * range; otherwise the given parameters. */
  function RebinParams(params: seq<real>, lhsX: seq<real>, rhsX: seq<real>): (r: seq<real>)
    requires |lhsX| >= 1 && |rhsX| >= 1
    ensures |params| == 0 ==>
      r == [MinElement(lhsX), (MaxElement(rhsX) - MinElement(lhsX)) / 100.0, MaxElement(rhsX)]
    ensures |params| == 1 ==> r == [MinElement(lhsX), params[0], MaxElement(rhsX)]
    ensures |params| >= 2 ==> r == params
    ensures |r| >= 1
  {
    var minLHSX := MinElement(lhsX);
    var maxRHSX := MaxElement(rhsX);
    if |params| == 0 then [minLHSX, (maxRHSX - minLHSX) / 100.0, maxRHSX]
    else if |params| == 1 then [minLHSX, params[0], maxRHSX]
    else params
  }

  /** Computed parameters span exactly the data: they start at or below
    * every LHS boundary and end at or above every RHS boundary. */
  lemma RebinParamsCoverData(params: seq<real>, lhsX: seq<real>, rhsX: seq<real>)
    requires |lhsX| >= 1 && |rhsX| >= 1 && |params| <= 1
    ensures var r := RebinParams(params, lhsX, rhsX);
      |r| == 3 && r[0] in lhsX && r[2] in rhsX
      && (forall k :: 0 <= k < |lhsX| ==> r[0] <= lhsX[k])
      && (forall k :: 0 <= k < |rhsX| ==> r[2] >= rhsX[k])
  {}

  /** The range checks exec makes once the overlap and the parameters are
    * known, in order. The messages also quote the values, which is not
    * modelled. */
  function RangeCheck(startOverlap: real, endOverlap: real, params: seq<real>): (r: Option<Error>)
    requires |params| >= 1
    ensures r.None? <==> startOverlap <= endOverlap && params[0] <= startOverlap && endOverlap <= params[|params| - 1]
    ensures r.Some? ==> r.value.RuntimeError?
  {
    if startOverlap > endOverlap then
      Some(RuntimeError("Stitch1D cannot have a StartOverlap > EndOverlap."))
    else if startOverlap < params[0] then
      Some(RuntimeError("Stitch1D StartOverlap is outside the available X range after rebinning."))
    else if endOverlap > params[|params| - 1] then
      Some(RuntimeError("Stitch1D EndOverlap is outside the available X range after rebinning."))
    else None
  }

  /** findStartEndIndexes: the bins of the rebinned LHS holding the two ends
    * of the overlap (binIndexOf is the workspace's own lookup); an error
    * when both fall in the same bin. */
  function StartEndIndexes(startOverlap: real, endOverlap: real, binIndexOf: real -> int): (r: Result<(int, int)>)
    ensures r.Err? <==> binIndexOf(startOverlap) == binIndexOf(endOverlap)
    ensures r.Ok? ==> r.value == (binIndexOf(startOverlap), binIndexOf(endOverlap)) && r.value.0 != r.value.1
    ensures r.Err? ==> r.error.RuntimeError?
  {
    var a1 := binIndexOf(startOverlap);
    var a2 := binIndexOf(endOverlap);
    if a1 == a2 then
      Err(RuntimeError(SameBinMessage))
    else Ok((a1, a2))
  }

  const SameBinMessage := "start and end overlap appear in the same bin"

  /** Some error value of some spectrum is non-zero. */
  predicate SomeNonzero(e: seq<seq<real>>)
  {
    exists i, j :: 0 <= i < |e| && 0 <= j < |e[i]| && e[i][j] != 0.0
  }

  /** hasNonzeroErrors: spectrum by spectrum, a search for the first non-zero
    * error; true as soon as one is found. */
  method HasNonzeroErrors(e: seq<seq<real>>) returns (r: bool)
    ensures r <==> SomeNonzero(e)
  {
    var i := 0;
    while i < |e|
      invariant 0 <= i <= |e|
      invariant forall p, q :: 0 <= p < i && 0 <= q < |e[p]| ==> e[p][q] == 0.0
    {
      var j := 0;
      while j < |e[i]|
        invariant 0 <= j <= |e[i]|
        invariant forall q :: 0 <= q < j ==> e[i][q] == 0.0
      {
        if e[i][j] != 0.0 {
          return true;
        }
        j := j + 1;
      }
      i := i + 1;
    }
    return false;
  }

  /** The scale factor exec reports: the manual one when requested;
    * otherwise the ratio of the overlap integrals, LHS over RHS when the RHS
    * is scaled and RHS over LHS when the LHS is. The division has no zero
    * guard. */
  function ScaleFactor(manual: Option<real>, scaleRHS: bool, lhsIntegral: real, rhsIntegral: real): (r: Double)
    ensures manual.Some? ==> r == Finite(manual.value)
    ensures manual.None? && scaleRHS ==> r == Divide(lhsIntegral, rhsIntegral)
    ensures manual.None? && !scaleRHS ==> r == Divide(rhsIntegral, lhsIntegral)
  {
    if manual.Some? then Finite(manual.value)
    else if scaleRHS then Divide(lhsIntegral, rhsIntegral)
    else Divide(rhsIntegral, lhsIntegral)
  }

  /** Scaling the RHS and scaling the LHS use reciprocal factors, and the
    * scaled side's overlap integral then matches the other side's. */
  lemma ScaleFactorsReciprocal(lhsIntegral: real, rhsIntegral: real)
    requires lhsIntegral != 0.0 && rhsIntegral != 0.0
    ensures ScaleFactor(None, true, lhsIntegral, rhsIntegral).v * ScaleFactor(None, false, lhsIntegral, rhsIntegral).v == 1.0
    ensures ScaleFactor(None, true, lhsIntegral, rhsIntegral).v * rhsIntegral == lhsIntegral
    ensures ScaleFactor(None, false, lhsIntegral, rhsIntegral).v * lhsIntegral == rhsIntegral
  {
    Reciprocal(lhsIntegral, rhsIntegral, lhsIntegral / rhsIntegral, rhsIntegral / lhsIntegral);
  }

  lemma Reciprocal(l: real, r: real, f: real, g: real)
    requires l != 0.0 && r != 0.0 && f * r == l && g * l == r
    ensures f * g == 1.0
  {
    var c := l * r;
    calc {
      (f * g) * c;
      == f * (g * (l * r));
      == f * ((g * l) * r);
      == f * (r * (g * l));
      == (f * r) * (g * l);
      == { assert f * r == l; }
      l * (g * l);
      == { assert g * l == r; }
      l * r;
    }
    assert c != 0.0;
    assert (f * g - 1.0) * c == 0.0;
  }

  /** The overlap mean is the weighted mean when both overlap regions carry
    * some non-zero error, the plain mean otherwise. */
  datatype Mean = WeightedMean | PlainMean

  function OverlapMean(overlap1E: seq<seq<real>>, overlap2E: seq<seq<real>>): (r: Mean)
    ensures r == WeightedMean <==> SomeNonzero(overlap1E) && SomeNonzero(overlap2E)
  {
    if SomeNonzero(overlap1E) && SomeNonzero(overlap2E) then WeightedMean else PlainMean
  }

  /** What exec reads: the first x boundaries of both sides, the optional
    * overlap ends and Params, the bin lookup of the rebinned LHS, the scale
    * choice, the overlap integrals Integration returns, and the errors of
    * the two masked overlap regions MultiplyRange returns. */
  datatype Inputs = Inputs(
    lhsX: seq<real>, rhsX: seq<real>,
    startOverlap: Option<real>, endOverlap: Option<real>, params: seq<real>,
    rebinnedLHSBinIndexOf: real -> int,
    scaleRHS: bool, manualScaleFactor: Option<real>,
    lhsIntegral: real, rhsIntegral: real,
    overlap1E: seq<seq<real>>, overlap2E: seq<seq<real>>)

  /** The decisions exec takes before it assembles the output. */
  datatype Plan = Plan(startOverlap: real, endOverlap: real, params: seq<real>,
                       startBin: int, endBin: int, scaleFactor: Double, mean: Mean)

  /** exec: the overlap, the range checks, the parameters, the overlap bins,
    * the scale factor and the mean, or the first error raised. */
  function Exec(inp: Inputs): (r: Result<Plan>)
    requires |inp.lhsX| >= 1 && |inp.rhsX| >= 1
    ensures r.Ok? ==> r.value.params == RebinParams(inp.params, inp.lhsX, inp.rhsX)
    ensures r.Ok? ==> r.value.scaleFactor == ScaleFactor(inp.manualScaleFactor, inp.scaleRHS, inp.lhsIntegral, inp.rhsIntegral)
    ensures r.Ok? ==>
      var (min, max) := XIntersection(inp.lhsX, inp.rhsX);
      && r.value.startOverlap == StartOverlap(inp.startOverlap, min, max)
      && r.value.endOverlap == EndOverlap(inp.endOverlap, min, max)
      && r.value.startBin == inp.rebinnedLHSBinIndexOf(r.value.startOverlap)
      && r.value.endBin == inp.rebinnedLHSBinIndexOf(r.value.endOverlap)
      && r.value.mean == OverlapMean(inp.overlap1E, inp.overlap2E)
  {
    var (min, max) := XIntersection(inp.lhsX, inp.rhsX);
    var start := StartOverlap(inp.startOverlap, min, max);
    var end := EndOverlap(inp.endOverlap, min, max);
    var params := RebinParams(inp.params, inp.lhsX, inp.rhsX);
    match RangeCheck(start, end, params)
    case Some(e) => Err(e)
    case None =>
      match StartEndIndexes(start, end, inp.rebinnedLHSBinIndexOf)
      case Err(e) => Err(e)
      case Ok((a1, a2)) =>
        Ok(Plan(start, end, params, a1, a2,
                ScaleFactor(inp.manualScaleFactor, inp.scaleRHS, inp.lhsIntegral, inp.rhsIntegral),
                OverlapMean(inp.overlap1E, inp.overlap2E)))
  }

  /** exec succeeds exactly when the overlap is ordered, lies inside the
    * rebin range and spans more than one bin; a successful plan's overlap
    * lies inside the intersection when the intersection is not empty. */
  lemma ExecSucceeds(inp: Inputs)
    requires |inp.lhsX| >= 1 && |inp.rhsX| >= 1
    ensures var (min, max) := XIntersection(inp.lhsX, inp.rhsX);
      var start := StartOverlap(inp.startOverlap, min, max);
      var end := EndOverlap(inp.endOverlap, min, max);
      var params := RebinParams(inp.params, inp.lhsX, inp.rhsX);
      (Exec(inp).Ok? <==>
         start <= end && params[0] <= start && end <= params[|params| - 1]
         && inp.rebinnedLHSBinIndexOf(start) != inp.rebinnedLHSBinIndexOf(end))
      && (Exec(inp).Ok? ==> Exec(inp).value.startBin != Exec(inp).value.endBin)
      && (Exec(inp).Err? ==> Exec(inp).error.RuntimeError?)
      && (Exec(inp).Ok? && min <= max ==>
            min <= Exec(inp).value.startOverlap <= Exec(inp).value.endOverlap <= max)
  {
    var (min, max) := XIntersection(inp.lhsX, inp.rhsX);
    if min <= max {
      OverlapWithinIntersection(inp.startOverlap, inp.endOverlap, min, max);
    }
  }
}

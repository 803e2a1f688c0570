/** IndirectILLReduction: the decisions of the QENS reduction of IN16B
  * data. It covers which runs are QENS, where the monitor range lies, which
  * bins are masked, and the channel-to-energy formula. It also covers how
  * the left and right wings are unmirrored, the input validation and the
  * run-string rewrite for summed runs. A workspace is one spectrum
  * (`seq<real>`), a run's logs a map from log name to value, and the
  * MatchPeaks child algorithm a function parameter. */
module IndirectILLReduction {
  import opened Wrappers

  const MaxDeltaEnergyLog := "Doppler.maximum_delta_energy"
  const DeltaEnergyLog := "Doppler.delta_energy"
  const VelocityProfileLog := "Doppler.velocity_profile"

  /** The sample logs of a run. */
  type Logs = map<string, real>

  function Max(a: int, b: int): int { if a >= b then a else b }
  function Min(a: int, b: int): int { if a <= b then a else b }

  // ---------------------------------------------------------------------
  // check_QENS
  // ---------------------------------------------------------------------

  /** check_QENS: the nested tests on the Doppler logs. A run is QENS
    * unless its maximum delta energy is recorded as 0 or its velocity
    * profile is recorded as non-zero; missing logs count as QENS. */
  function CheckQENS(logs: Logs): (qens: bool)
    ensures !qens <==>
      || (MaxDeltaEnergyLog in logs && logs[MaxDeltaEnergyLog] == 0.0)
      || (VelocityProfileLog in logs && logs[VelocityProfileLog] != 0.0)
  {
    if MaxDeltaEnergyLog !in logs then
      if VelocityProfileLog !in logs then true
      else logs[VelocityProfileLog] == 0.0
    else if logs[MaxDeltaEnergyLog] == 0.0 then false
    else if VelocityProfileLog !in logs then true
    else logs[VelocityProfileLog] == 0.0
  }

  // ---------------------------------------------------------------------
  // monitor_range
  // ---------------------------------------------------------------------

  /** numpy's nanargmax on values without NaN: the first position of the
    * largest value. */
  function ArgMax(s: seq<real>): (i: nat)
    requires |s| > 0
    ensures i < |s|
    ensures forall j :: 0 <= j < |s| ==> s[j] <= s[i]
    ensures forall j :: 0 <= j < i ==> s[j] < s[i]
  {
    if |s| == 1 then 0
    else
      var i := ArgMax(s[..|s| - 1]);
      if s[|s| - 1] > s[i] then |s| - 1 else i
  }

  /** Python's slice `s[a:b]` for non-negative bounds. */
  function Slice(s: seq<real>, a: nat, b: nat): (r: seq<real>)
    ensures |r| == if Min(a, |s|) <= Min(b, |s|) then Min(b, |s|) - Min(a, |s|) else 0
    ensures forall k :: 0 <= k < |r| ==> r[k] == s[a + k]
  {
    var lo := Min(a, |s|);
    var hi := Min(b, |s|);
    if lo <= hi then s[lo..hi] else []
  }

  const EmptyArgMaxMessage := "argmax of an empty sequence"

  /** monitor_range: the x value one before the monitor's maximum in the
    * first half of the x axis, and the x value one after its maximum in the
    * second half. */
  function MonitorRange(x: seq<real>, y: seq<real>): (r: Result<(real, real)>)
  {
    var size := |x|;
    var mid := size / 2;
    var left := Slice(y, 0, mid);
    var right := Slice(y, mid, size);
    if |left| == 0 || |right| == 0 then Err(InvalidArgument(EmptyArgMaxMessage))
    else
      match PyIndex(x, ArgMax(left) - 1)
      case Err(e) => Err(e)
      case Ok(xmin) =>
        match PyIndex(x, ArgMax(right) + 1 + mid)
        case Err(e) => Err(e)
        case Ok(xmax) => Ok((xmin, xmax))
  }

  /** On histogram data (one more x value than y values) with at least
    * three x values, monitor_range always answers. Its upper value is the
    * x value just after the largest count of the upper half. Its lower value
    * is the x value just before the largest count of the lower half. When
    * that count is the very first one, index -1 wraps to the last x value. */
  lemma MonitorRangeOfHistogram(x: seq<real>, y: seq<real>)
    requires |y| == |x| - 1 && |x| >= 3
    ensures var mid := |x| / 2;
      var r := MonitorRange(x, y);
      var il := ArgMax(Slice(y, 0, mid));
      var ir := mid + ArgMax(Slice(y, mid, |x|));
      && r.Ok?
      && il < mid && mid <= ir < |y|
      && r.value == (if il == 0 then x[|x| - 1] else x[il - 1], x[ir + 1])
      && (forall j :: 0 <= j < mid ==> y[j] <= y[il])
      && (forall j :: 0 <= j < il ==> y[j] < y[il])
      && (forall j :: mid <= j < |y| ==> y[j] <= y[ir])
      && (forall j :: mid <= j < ir ==> y[j] < y[ir])
  {
    var mid := |x| / 2;
    assert 0 < mid < |y|;
    assert Min(mid, |y|) == mid && Min(|x|, |y|) == |y|;
    ArgMaxOfSlice(y, 0, mid);
    ArgMaxOfSlice(y, mid, |x|);
    var il := ArgMax(Slice(y, 0, mid));
    var ir := ArgMax(Slice(y, mid, |x|));
    MonitorRangeValue(x, y, mid, il, ir);
  }

  lemma MonitorRangeValue(x: seq<real>, y: seq<real>, mid: nat, il: nat, ir: nat)
    requires |y| == |x| - 1 && mid == |x| / 2 && 0 < mid < |y|
    requires il == ArgMax(Slice(y, 0, mid)) && il < mid
    requires ir == ArgMax(Slice(y, mid, |x|)) && mid + ir < |y|
    ensures MonitorRange(x, y) == Ok((if il == 0 then x[|x| - 1] else x[il - 1], x[mid + ir + 1]))
  {
    var xmin := if il == 0 then x[|x| - 1] else x[il - 1];
    assert PyIndex(x, il as int - 1) == Ok(xmin);
    assert PyIndex(x, ir + 1 + mid) == Ok(x[mid + ir + 1]);
  }

  /** The first largest value of `y[a:b]` (b at most one past the end),
    * as a position in y. */
  lemma ArgMaxOfSlice(y: seq<real>, a: nat, b: nat)
    requires a < b <= |y| + 1 && a < |y|
    ensures var s := Slice(y, a, b);
      var i := a + ArgMax(s);
      && |s| > 0 && a <= i < Min(b, |y|)
      && (forall j :: a <= j < Min(b, |y|) ==> y[j] <= y[i])
      && (forall j :: a <= j < i ==> y[j] < y[i])
  {
    var s := Slice(y, a, b);
    var k := ArgMax(s);
    assert forall j :: a <= j < Min(b, |y|) ==> y[j] == s[j - a];
  }

  // ---------------------------------------------------------------------
  // mask_reduced_ws
  // ---------------------------------------------------------------------

  /** mask_reduced_ws: the x intervals handed to MaskBins. The leading bins
    * up to x[xstart] are masked only for a positive xstart, the trailing
    * bins from x[xend + 1] only when xend is before the last x value. */
  function MaskRanges(x: seq<real>, xstart: int, xend: int): (r: Result<seq<(real, real)>>)
    ensures r.Err? <==> (xstart > 0 && xstart >= |x|) || (xend < |x| - 1 && xend + 1 < -|x|)
    ensures r.Ok? ==> |r.value| == (if xstart > 0 then 1 else 0) + (if xend < |x| - 1 then 1 else 0)
    ensures r.Ok? && xstart > 0 ==> r.value[0] == (x[0], x[xstart])
    ensures r.Ok? && xend < |x| - 1 && 0 <= xend + 1 ==> r.value[|r.value| - 1] == (x[xend + 1], x[|x| - 1])
  {
    var leading: Result<seq<(real, real)>> :=
      if xstart > 0 then
        match PyIndex(x, 0)
        case Err(e) => Err(e)
        case Ok(lo) =>
          match PyIndex(x, xstart)
          case Err(e) => Err(e)
          case Ok(hi) => Ok([(lo, hi)])
      else Ok([]);
    match leading
    case Err(e) => Err(e)
    case Ok(masks) =>
      if xend < |x| - 1 then
        match PyIndex(x, xend + 1)
        case Err(e) => Err(e)
        case Ok(lo) =>
          match PyIndex(x, -1)
          case Err(e) => Err(e)
          case Ok(hi) => Ok(masks + [(lo, hi)])
      else Ok(masks)
  }

  /** Limits that span the whole axis mask nothing. */
  lemma MaskNothingForFullRange(x: seq<real>)
    ensures MaskRanges(x, 0, |x| - 1) == Ok([])
  {
  }

  // ---------------------------------------------------------------------
  // energy_formula
  // ---------------------------------------------------------------------

  /** Micro eV to milli eV. */
  const Scale: real := 0.001

  /** The text '(x-mid)*slope' as its two numbers. */
  datatype Formula = Formula(mid: real, slope: real)

  /** The energy transfer the formula gives channel x. */
  function Energy(f: Formula, x: real): real
  {
    (x - f.mid) * f.slope
  }

  /** The Doppler energy: the maximum delta energy, else the delta energy,
    * else 0. */
  function DeltaEnergy(logs: Logs): (d: real)
    ensures MaxDeltaEnergyLog in logs ==> d == logs[MaxDeltaEnergyLog]
    ensures MaxDeltaEnergyLog !in logs && DeltaEnergyLog in logs ==> d == logs[DeltaEnergyLog]
    ensures MaxDeltaEnergyLog !in logs && DeltaEnergyLog !in logs ==> d == 0.0
  {
    if MaxDeltaEnergyLog in logs then logs[MaxDeltaEnergyLog]
    else if DeltaEnergyLog in logs then logs[DeltaEnergyLog]
    else 0.0
  }

  /** energy_formula: the middle channel of `size` x values and the slope
    * that maps the channel range onto plus and minus the Doppler energy.
    * A single x value puts the middle at 0 and the division fails. */
  function EnergyFormula(size: nat, logs: Logs): (r: Result<Formula>)
    ensures r.Err? <==> size == 1
  {
    var mid := ((size as int) - 1) as real / 2.0;
    if mid == 0.0 then Err(ZeroDivisionError)
    else Ok(Formula(mid, DeltaEnergy(logs) / mid * Scale))
  }

  /** The formula sends the middle channel to 0, the first channel to
    * minus the Doppler energy and the last to plus the Doppler energy, in
    * milli eV. */
  lemma EnergyFormulaSpansDelta(size: nat, logs: Logs)
    requires size >= 2
    ensures var f := EnergyFormula(size, logs).value;
      var d := DeltaEnergy(logs);
      && Energy(f, f.mid) == 0.0
      && Energy(f, 0.0) == -d * Scale
      && Energy(f, (size - 1) as real) == d * Scale
  {
    var f := EnergyFormula(size, logs).value;
    var d := DeltaEnergy(logs);
    var mid := f.mid;
    assert (size - 1) as real == 2.0 * mid;
    assert f.slope * mid == d * Scale by { DivMul(d, mid, Scale); }
    assert Energy(f, 0.0) == -(f.slope * mid);
    assert Energy(f, (size - 1) as real) == mid * f.slope;
  }

  lemma DivMul(d: real, m: real, s: real)
    requires m != 0.0
    ensures d / m * s * m == d * s
  {
  }

  // ---------------------------------------------------------------------
  // perform_unmirror
  // ---------------------------------------------------------------------

  /** The bin range MatchPeaks writes to its table. */
  datatype BinRange = BinRange(minBin: int, maxBin: int)

  /** What a MatchPeaks call gives: the shifted spectrum and its table. */
  datatype Matched = Matched(output: seq<real>, bins: BinRange)

  /** The reduced workspace and its two wings. */
  datatype Wings = Wings(red: seq<real>, left: seq<real>, right: seq<real>)

  const SizeMismatchMessage := "sizes do not match"

  /** Plus followed by Scale by 0.5: the mean of the two wings, bin by
    * bin; Plus refuses spectra of different sizes. */
  function HalfSum(a: seq<real>, b: seq<real>): (r: Result<seq<real>>)
    ensures r.Ok? <==> |a| == |b|
    ensures r.Ok? ==> |r.value| == |a| && forall k :: 0 <= k < |a| ==> r.value[k] == (a[k] + b[k]) * 0.5
  {
    if |a| != |b| then Err(InvalidArgument(SizeMismatchMessage))
    else Ok(seq(|a|, k requires 0 <= k < |a| => (a[k] + b[k]) * 0.5))
  }

  /** The shifting step of perform_unmirror: the wings after the option's
    * MatchPeaks calls, and the bin range to keep. MatchPeaks is called with
    * (input, reference, centre the reference). */
  function ShiftWings(option: int, w: Wings, leftVan: seq<real>, rightVan: seq<real>,
                      matchPeaks: (seq<real>, Option<seq<real>>, bool) -> Matched): (Wings, int, int)
  {
    if option == 2 then (w.(red := w.left), 0, |w.red|)
    else if option == 3 then (w.(red := w.right), 0, |w.red|)
    else if option == 4 then
      var m := matchPeaks(w.right, Some(w.left), false);
      (w.(right := m.output), m.bins.minBin, m.bins.maxBin)
    else if option == 5 then
      var m := matchPeaks(w.right, Some(rightVan), false);
      (w.(right := m.output), m.bins.minBin, m.bins.maxBin)
    else if option == 6 then
      var ml := matchPeaks(w.left, None, false);
      var mr := matchPeaks(w.right, None, false);
      (w.(left := ml.output, right := mr.output),
       Max(ml.bins.minBin, mr.bins.minBin), Min(ml.bins.maxBin, mr.bins.maxBin))
    else if option == 7 then
      var ml1 := matchPeaks(w.left, Some(leftVan), true);
      var mr1 := matchPeaks(w.right, Some(rightVan), true);
      var ml2 := matchPeaks(ml1.output, None, false);
      var mr2 := matchPeaks(mr1.output, None, false);
      (w.(left := ml2.output, right := mr2.output),
       Max(Max(ml1.bins.minBin, mr1.bins.minBin), Max(ml2.bins.minBin, mr2.bins.minBin)),
       Min(Min(ml1.bins.maxBin, mr1.bins.maxBin), Min(ml2.bins.maxBin, mr2.bins.maxBin)))
    else (w, 0, |w.red|)
  }

  /** Option 5 exactly as written: the right wing shifted onto the
    * vanadium's right wing is stored in the left workspace. */
  function ShiftOption5AsWritten(w: Wings, rightVan: seq<real>,
                                 matchPeaks: (seq<real>, Option<seq<real>>, bool) -> Matched): (r: (Wings, int, int))
    ensures r.0.left == matchPeaks(w.right, Some(rightVan), false).output
    ensures r.0.right == w.right && r.0.red == w.red
  {
    var m := matchPeaks(w.right, Some(rightVan), false);
    (w.(left := m.output), m.bins.minBin, m.bins.maxBin)
  }

  /** As written, option 5's output does not depend on the left wing at
    * all: two runs that differ only in their left wing unmirror alike. */
  lemma Option5AsWrittenIgnoresLeft(w: Wings, left': seq<real>, rightVan: seq<real>,
                                    matchPeaks: (seq<real>, Option<seq<real>>, bool) -> Matched)
    ensures var a := ShiftOption5AsWritten(w, rightVan, matchPeaks).0;
      var b := ShiftOption5AsWritten(w.(left := left'), rightVan, matchPeaks).0;
      HalfSum(a.left, a.right) == HalfSum(b.left, b.right)
  {
  }

  /** perform_unmirror: shift the wings, then sum them for option 1 and
    * for the options above 3. Options 0 to 3 keep the whole bin range. */
  function Unmirror(option: int, w: Wings, leftVan: seq<real>, rightVan: seq<real>,
                    matchPeaks: (seq<real>, Option<seq<real>>, bool) -> Matched): (r: Result<(Wings, int, int)>)
    ensures 0 <= option <= 3 && r.Ok? ==> r.value.1 == 0 && r.value.2 == |w.red|
    ensures option == 1 ==> (r.Ok? <==> |w.left| == |w.right|)
    ensures option == 0 ==> r == Ok((w, 0, |w.red|))
    ensures option == 2 ==> r == Ok((w.(red := w.left), 0, |w.red|))
    ensures option == 3 ==> r == Ok((w.(red := w.right), 0, |w.red|))
    ensures option == 1 || option > 3 ==>
      var s := ShiftWings(option, w, leftVan, rightVan, matchPeaks).0;
      r.Ok? <==> |s.left| == |s.right|
    ensures (option == 1 || option > 3) && r.Ok? ==>
      var s := ShiftWings(option, w, leftVan, rightVan, matchPeaks).0;
      && r.value.0.left == s.left && r.value.0.right == s.right
      && |r.value.0.red| == |s.left|
      && forall k :: 0 <= k < |s.left| ==> r.value.0.red[k] == (s.left[k] + s.right[k]) * 0.5
    ensures option < 0 ==> r == Ok((w, 0, |w.red|))
    ensures option > 7 && r.Ok? ==>
      && r.value.0.left == w.left && r.value.0.right == w.right
      && r.value.1 == 0 && r.value.2 == |w.red|
  {
    var (s, startBin, endBin) := ShiftWings(option, w, leftVan, rightVan, matchPeaks);
    if option > 3 || option == 1 then
      match HalfSum(s.left, s.right)
      case Err(e) => Err(e)
      case Ok(sum) => Ok((s.(red := sum), startBin, endBin))
    else Ok((s, startBin, endBin))
  }

  /** With matching wings, option 5 averages the left wing with the right
    * wing shifted onto the vanadium: both wings contribute. */
  lemma Option5AveragesBothWings(w: Wings, leftVan: seq<real>, rightVan: seq<real>,
                                 matchPeaks: (seq<real>, Option<seq<real>>, bool) -> Matched)
    requires |matchPeaks(w.right, Some(rightVan), false).output| == |w.left|
    ensures var shifted := matchPeaks(w.right, Some(rightVan), false).output;
      var r := Unmirror(5, w, leftVan, rightVan, matchPeaks);
      && r.Ok?
      && forall k :: 0 <= k < |w.left| ==> r.value.0.red[k] == (w.left[k] + shifted[k]) * 0.5
  {
  }

  /** The bins kept after centring both wings (options 6 and 7) lie within
    * every bin range MatchPeaks reported. */
  lemma UnmirrorBinsIntersect(option: int, w: Wings, leftVan: seq<real>, rightVan: seq<real>,
                              matchPeaks: (seq<real>, Option<seq<real>>, bool) -> Matched)
    requires option == 6
    ensures var (_, startBin, endBin) := ShiftWings(option, w, leftVan, rightVan, matchPeaks);
      var ml := matchPeaks(w.left, None, false);
      var mr := matchPeaks(w.right, None, false);
      && startBin >= ml.bins.minBin && startBin >= mr.bins.minBin
      && (startBin == ml.bins.minBin || startBin == mr.bins.minBin)
      && endBin <= ml.bins.maxBin && endBin <= mr.bins.maxBin
      && (endBin == ml.bins.maxBin || endBin == mr.bins.maxBin)
  {
  }

  /** Option 7 keeps a range inside all four reported bin ranges. */
  lemma UnmirrorOption7Intersects(w: Wings, leftVan: seq<real>, rightVan: seq<real>,
                                  matchPeaks: (seq<real>, Option<seq<real>>, bool) -> Matched)
    ensures var (_, startBin, endBin) := ShiftWings(7, w, leftVan, rightVan, matchPeaks);
      var ml1 := matchPeaks(w.left, Some(leftVan), true);
      var mr1 := matchPeaks(w.right, Some(rightVan), true);
      var ml2 := matchPeaks(ml1.output, None, false);
      var mr2 := matchPeaks(mr1.output, None, false);
      && startBin >= ml1.bins.minBin && startBin >= mr1.bins.minBin
      && startBin >= ml2.bins.minBin && startBin >= mr2.bins.minBin
      && endBin <= ml1.bins.maxBin && endBin <= mr1.bins.maxBin
      && endBin <= ml2.bins.maxBin && endBin <= mr2.bins.maxBin
  {
  }

  /** The named workspaces perform_unmirror rewrites. */
  class Workspaces {
    var red: seq<real>
    var left: seq<real>
    var right: seq<real>

    constructor (red: seq<real>, left: seq<real>, right: seq<real>)
      ensures this.red == red && this.left == left && this.right == right
    {
      this.red := red;
      this.left := left;
      this.right := right;
    }

    /** perform_unmirror on the workspaces: after the MatchPeaks calls the
      * wings stay shifted even when the sum then fails. */
    method PerformUnmirror(option: int, leftVan: seq<real>, rightVan: seq<real>,
                           matchPeaks: (seq<real>, Option<seq<real>>, bool) -> Matched)
      returns (r: Result<(int, int)>)
      modifies this
      ensures var u := Unmirror(option, Wings(old(red), old(left), old(right)), leftVan, rightVan, matchPeaks);
        && (r.Ok? <==> u.Ok?)
        && (u.Ok? ==> r.value == (u.value.1, u.value.2) && Wings(red, left, right) == u.value.0)
        && (u.Err? ==> Wings(red, left, right) == ShiftWings(option, Wings(old(red), old(left), old(right)), leftVan, rightVan, matchPeaks).0)
      ensures (option == 1 || option > 3) && r.Ok? ==>
        |red| == |left| == |right| && forall k :: 0 <= k < |red| ==> red[k] == (left[k] + right[k]) * 0.5
    {
      var w := Wings(red, left, right);
      var (s, startBin, endBin) := ShiftWings(option, w, leftVan, rightVan, matchPeaks);
      red, left, right := s.red, s.left, s.right;
      if option > 3 || option == 1 {
        var sum := HalfSum(left, right);
        if sum.Err? {
          return Err(sum.error);
        }
        red := sum.value;
      }
      r := Ok((startBin, endBin));
    }
  }

  // ---------------------------------------------------------------------
  // The final masking range of _reduce_run
  // ---------------------------------------------------------------------

  /** The monitor ranges of the two wings, in bins. */
  datatype MonitorRanges = MonitorRanges(xminLeft: int, xmaxLeft: int, xminRight: int, xmaxRight: int)

  /** The range handed to mask_reduced_ws at the end of _reduce_run. After
    * a shift, the range is the overlap of both monitor ranges and the kept
    * bins. Two wings that are not unmirrored span from the left start to
    * the right end moved by half the axis. Unmirrored wings take the overlap
    * of the monitor ranges. A single wing takes the monitor's own range. */
  function FinalMaskRange(startBin: int, endBin: int, m: MonitorRanges, mirrorSense: int, option: int,
                          blocksize: int, lastX: real, monitor: (int, int)): (r: (int, int))
    ensures startBin != 0 || endBin != 0 ==>
      && r.0 == Max(Max(m.xminLeft, m.xminRight), startBin)
      && r.1 == Min(Min(m.xmaxLeft, m.xmaxRight), endBin)
    ensures startBin == 0 && endBin == 0 && mirrorSense == 14 && option == 0 ==>
      r == (m.xminLeft, m.xmaxRight + Trunc(lastX / 2.0))
    ensures startBin == 0 && endBin == 0 && mirrorSense == 14 && option > 0 ==>
      r == (Max(m.xminLeft, m.xminRight), Min(m.xmaxLeft, m.xmaxRight))
    ensures startBin == 0 && endBin == 0 && mirrorSense == 16 ==> r == monitor
    ensures startBin == 0 && endBin == 0 && mirrorSense != 14 && mirrorSense != 16 ==> r == (0, blocksize)
  {
    if startBin != 0 || endBin != 0 then
      (Max(Max(m.xminLeft, m.xminRight), startBin), Min(Min(m.xmaxLeft, m.xmaxRight), endBin))
    else if mirrorSense == 14 && option == 0 then
      (m.xminLeft, m.xmaxRight + Trunc(lastX / 2.0))
    else if mirrorSense == 14 && option > 0 then
      (Max(m.xminLeft, m.xminRight), Min(m.xmaxLeft, m.xmaxRight))
    else if mirrorSense == 16 then monitor
    else (0, blocksize)
  }

  /** After a shift, the final range lies within both monitor ranges and
    * within the bin range the unmirroring kept. */
  lemma FinalRangeWithinAll(startBin: int, endBin: int, m: MonitorRanges, mirrorSense: int, option: int,
                            blocksize: int, lastX: real, monitor: (int, int))
    requires startBin != 0 || endBin != 0
    ensures var r := FinalMaskRange(startBin, endBin, m, mirrorSense, option, blocksize, lastX, monitor);
      && r.0 >= m.xminLeft && r.0 >= m.xminRight && r.0 >= startBin
      && r.1 <= m.xmaxLeft && r.1 <= m.xmaxRight && r.1 <= endBin
  {
  }

  // ---------------------------------------------------------------------
  // validateInputs and setUp
  // ---------------------------------------------------------------------

  const VanadiumRunProperty := "VanadiumRun"
  const VanadiumRequiredMessage := "option requires a vanadium run"

  /** Options 5 and 7 align the wings on a vanadium run. */
  predicate NeedsVanadium(option: int)
  {
    option == 5 || option == 7
  }

  /** validateInputs: the only possible issue is a missing vanadium run for
    * an option that needs one. */
  function ValidateInputs(option: int, vanadiumRun: string): (issues: map<string, string>)
    ensures VanadiumRunProperty in issues <==> NeedsVanadium(option) && vanadiumRun == ""
    ensures issues.Keys <= {VanadiumRunProperty}
  {
    if NeedsVanadium(option) && vanadiumRun == "" then map[VanadiumRunProperty := VanadiumRequiredMessage]
    else map[]
  }

  /** Every ',' of the run string becomes '+', which makes Load sum the
    * runs instead of listing them. */
  function CommasToPluses(s: string): (r: string)
    ensures |r| == |s|
    ensures forall k :: 0 <= k < |s| ==> r[k] == (if s[k] == ',' then '+' else s[k])
  {
    if |s| == 0 then []
    else CommasToPluses(s[..|s| - 1]) + [if s[|s| - 1] == ',' then '+' else s[|s| - 1]]
  }

  /** setUp: the run string Load receives. */
  function RunString(run: string, sumRuns: bool): (r: string)
    ensures !sumRuns ==> r == run
    ensures sumRuns ==> forall k :: 0 <= k < |r| ==> r[k] != ','
  {
    if sumRuns then CommasToPluses(run) else run
  }

  /** Summing a run string leaves every other character in place, and a
    * string that is summed already is left alone. */
  lemma {:induction false} CommasToPlusesIdempotent(s: string)
    ensures CommasToPluses(CommasToPluses(s)) == CommasToPluses(s)
    ensures forall k :: 0 <= k < |s| && s[k] != ',' ==> CommasToPluses(s)[k] == s[k]
  {
    var once := CommasToPluses(s);
    var twice := CommasToPluses(once);
    assert forall k :: 0 <= k < |s| ==> twice[k] == once[k];
  }
}

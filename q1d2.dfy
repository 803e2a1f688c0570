/** Q1D2: part of the 1-D reduction chain for small-angle scattering. Each
  * spectrum's counts are placed into output Q bins together with a
  * normalisation (solid angle × pixel adjustment × wavelength adjustment ×
  * unmasked fraction) and its error; at the end every bin is divided by its
  * normalisation. The Q value of each input bin comes from the instrument
  * geometry and is given. */
module Q1D2 {
  import opened Wrappers
  import opened MatrixWorkspaces

  /** 10^n */
  function Pow10(n: nat): (r: real)
    ensures r >= 1.0
  {
    if n == 0 then 1.0 else 10.0 * Pow10(n - 1)
  }

  /** Solid angles below this are rejected (1e-200). */
  const MinSolidAngle: real := 1.0 / Pow10(200)

  // ---- examineInput ----

  /** The compatibility the inputs need, stated on its own: a non-empty data
    * workspace; a wavelength adjustment with one spectrum, the data's bin
    * count and the data's boundaries, or else distribution data; a pixel
    * adjustment with one bin per spectrum and one spectrum per data
    * spectrum. */
  predicate Compatible(data: MatrixWorkspace, waveAdj: Option<MatrixWorkspace>,
                       pixelAdj: Option<MatrixWorkspace>)
    requires data.IsHistogram() && (waveAdj.Some? ==> waveAdj.value.IsHistogram())
  {
    data.NRows() >= 1
    && (waveAdj.Some? ==>
          waveAdj.value.NRows() == 1 && |waveAdj.value.y[0]| == |data.y[0]|
          && waveAdj.value.x[0] == data.x[0])
    && (waveAdj.None? ==> data.distribution)
    && (pixelAdj.Some? ==> pixelAdj.value.Blocksize() == 1 && pixelAdj.value.NRows() == data.NRows())
  }

  // The messages examineInput raises.
  const EmptyDataMessage := "Empty data workspace passed, can not continue"
  const WaveAdjSpectraMessage := "The WavelengthAdj workspace must have one spectrum"
  const WaveAdjBinCountMessage := "The WavelengthAdj workspace's bins must match those of the detector bank workspace"
  const WaveAdjBinsMessage := "The WavelengthAdj workspace must have matching bins with the detector bank workspace"
  const NotDistributionMessage := "The data workspace must be a distrbution if there is no Wavelength dependent adjustment"
  const PixelAdjBinsMessage := "The PixelAdj workspace must point to a workspace with single bin spectra, as only the first bin is used"
  const PixelAdjSpectraMessage := "The PixelAdj workspace must have one spectrum for each spectrum in the detector bank workspace"

  /** The wavelength-adjustment guards of examineInput, in order: the
    * first one that fails, or none. */
  function WaveAdjCheck(data: MatrixWorkspace, waveAdj: Option<MatrixWorkspace>): (r: Option<Error>)
    requires data.IsHistogram() && data.NRows() >= 1 && (waveAdj.Some? ==> waveAdj.value.IsHistogram())
    ensures r.None? <==>
      (waveAdj.Some? ==>
          waveAdj.value.NRows() == 1 && |waveAdj.value.y[0]| == |data.y[0]|
          && waveAdj.value.x[0] == data.x[0])
      && (waveAdj.None? ==> data.distribution)
    ensures r.Some? ==> r.value.InvalidArgument?
  {
    if waveAdj.Some? then
      if waveAdj.value.NRows() != 1 then
        Some(InvalidArgument(WaveAdjSpectraMessage))
      else if |waveAdj.value.y[0]| != |data.y[0]| then
        Some(InvalidArgument(WaveAdjBinCountMessage))
      else if !SameBoundaries(data.x[0], waveAdj.value.x[0]) then
        Some(InvalidArgument(WaveAdjBinsMessage))
      else None
    else if !data.distribution then
      Some(InvalidArgument(NotDistributionMessage))
    else None
  }

  /** examineInput: the guards in order; on success the number of input
    * bins. Both workspaces carry the histogram validator. */
  function ExamineInput(data: MatrixWorkspace, waveAdj: Option<MatrixWorkspace>,
                        pixelAdj: Option<MatrixWorkspace>): (r: Result<nat>)
    requires data.IsHistogram() && (waveAdj.Some? ==> waveAdj.value.IsHistogram())
    ensures r.Ok? <==> Compatible(data, waveAdj, pixelAdj)
    ensures r.Ok? ==> r.value == |data.y[0]|
    ensures data.NRows() == 0 ==> r == Err(InvalidArgument(EmptyDataMessage))
    ensures r.Err? ==> r.error.InvalidArgument?
  {
    if data.NRows() < 1 then Result<nat>.Err(InvalidArgument(EmptyDataMessage))
    else
      var check := match WaveAdjCheck(data, waveAdj)
        case Some(e) => Some(e)
        case None => PixelAdjCheck(data, pixelAdj);
      if check.Some? then Result<nat>.Err(check.value) else Result<nat>.Ok(|data.y[0]|)
  }

  /** The pixel-adjustment guards of examineInput, in order. */
  function PixelAdjCheck(data: MatrixWorkspace, pixelAdj: Option<MatrixWorkspace>): (r: Option<Error>)
    ensures r.None? <==> (pixelAdj.Some? ==> pixelAdj.value.Blocksize() == 1 && pixelAdj.value.NRows() == data.NRows())
    ensures r.Some? ==> r.value.InvalidArgument?
  {
    if pixelAdj.Some? && pixelAdj.value.Blocksize() != 1 then
      Some(InvalidArgument(PixelAdjBinsMessage))
    else if pixelAdj.Some? && pixelAdj.value.NRows() != data.NRows() then
      Some(InvalidArgument(PixelAdjSpectraMessage))
    else None
  }

  /** The boundary loop of examineInput: walks the data's boundaries and
    * compares each with the adjustment's at the same place. */
  function SameBoundaries(req: seq<real>, test: seq<real>): (r: bool)
    requires |req| == |test|
    ensures r <==> req == test
  {
    if |req| == 0 then true
    else req[0] == test[0] && SameBoundaries(req[1..], test[1..])
  }

  // ---- pixelWeight ----

  /** A spectrum's detector: monitor and masked flags and its solid angle as
    * seen from the sample. */
  datatype Detector = Detector(isMonitor: bool, isMasked: bool, solidAngle: real)

  /** pixelWeight: the solid angle, times the pixel adjustment's value when
    * there is one; the error is the adjustment's error, or 0. A solid angle
    * below 1e-200 raises a logic error. */
  function PixelWeight(solidAngle: real, pixelAdj: Option<MatrixWorkspace>, i: nat): (r: Result<(real, real)>)
    requires pixelAdj.Some? ==> pixelAdj.value.Valid() && i < pixelAdj.value.NRows() && pixelAdj.value.Blocksize() >= 1
    ensures r.Err? <==> solidAngle < MinSolidAngle
    ensures r.Err? ==> r.error == LogicError("Invalid (zero or negative) solid angle for one detector")
    ensures r.Ok? && pixelAdj.None? ==> r.value == (solidAngle, 0.0)
    ensures r.Ok? && pixelAdj.Some? ==>
      r.value == (solidAngle * pixelAdj.value.y[i][0], pixelAdj.value.e[i][0])
  {
    if solidAngle < MinSolidAngle then Err(LogicError("Invalid (zero or negative) solid angle for one detector"))
    else if pixelAdj.Some? then Ok((solidAngle * pixelAdj.value.y[i][0], pixelAdj.value.e[i][0]))
    else Ok((solidAngle, 0.0))
  }

  /** Every accepted weight is positive when the pixel adjustment is. */
  lemma PixelWeightPositive(solidAngle: real, pixelAdj: Option<MatrixWorkspace>, i: nat)
    requires pixelAdj.Some? ==> pixelAdj.value.Valid() && i < pixelAdj.value.NRows() && pixelAdj.value.Blocksize() >= 1
    requires pixelAdj.Some? ==> pixelAdj.value.y[i][0] > 0.0
    ensures PixelWeight(solidAngle, pixelAdj, i).Ok? ==> PixelWeight(solidAngle, pixelAdj, i).value.0 > 0.0
  {
    assert MinSolidAngle > 0.0;
    if PixelWeight(solidAngle, pixelAdj, i).Ok? && pixelAdj.Some? {
      MulPositive(solidAngle, pixelAdj.value.y[i][0]);
    }
  }

  /** y/(c·d) is the x with x·(c·d) = y. */
  lemma DivByProduct(x: real, y: real, c: real, d: real)
    requires c != 0.0 && d != 0.0 && x * (c * d) == y
    ensures y / (c * d) == x
  {
    assert c * d != 0.0;
  }

  lemma MulPositive(a: real, b: real)
    requires a > 0.0 && b > 0.0
    ensures a * b > 0.0
  {}

  // ---- addWaveAdj ----

  /** The squared error of b·c as addWaveAdj computes it: the old squared
    * error is kept and the propagated terms are added to it. */
  function ProductError2AsWritten(b: real, e2: real, c: real, dc: real): real
  {
    e2 + e2 * c * c + dc * dc * b * b
  }

  /** The squared error of a = b·c by first-order propagation:
    * Da² = (Db·c)² + (Dc·b)². */
  function ProductError2(b: real, e2: real, c: real, dc: real): real
  {
    e2 * c * c + dc * dc * b * b
  }

  /** addWaveAdj: when the wavelength adjustment is present, each bin's
    * normalisation b becomes b·c and its squared error gets the propagated
    * terms added (computed with the old b); without it nothing changes. */
  method AddWaveAdj(binNorms: Option<seq<real>>, binNormEs: Option<seq<real>>,
                    norm: array<real>, normETo2: array<real>)
    requires norm != normETo2 && norm.Length == normETo2.Length
    requires binNorms.Some? && binNormEs.Some? ==>
      |binNorms.value| >= normETo2.Length && |binNormEs.value| >= normETo2.Length
    modifies norm, normETo2
    ensures binNorms.None? || binNormEs.None? ==> unchanged(norm) && unchanged(normETo2)
    ensures binNorms.Some? && binNormEs.Some? ==>
      forall k :: 0 <= k < norm.Length ==>
        norm[k] == old(norm[k]) * binNorms.value[k]
        && normETo2[k] == ProductError2AsWritten(old(norm[k]), old(normETo2[k]), binNorms.value[k], binNormEs.value[k])
  {
    if binNorms.Some? && binNormEs.Some? {
      var c := binNorms.value;
      var dc := binNormEs.value;
      var k := 0;
      while k < normETo2.Length
        invariant 0 <= k <= normETo2.Length
        invariant forall j :: 0 <= j < k ==>
          norm[j] == old(norm[j]) * c[j]
          && normETo2[j] == ProductError2AsWritten(old(norm[j]), old(normETo2[j]), c[j], dc[j])
        invariant forall j :: k <= j < norm.Length ==> norm[j] == old(norm[j]) && normETo2[j] == old(normETo2[j])
      {
        normETo2[k] := normETo2[k] + normETo2[k] * c[k] * c[k] + dc[k] * dc[k] * norm[k] * norm[k];
        norm[k] := norm[k] * c[k];
        k := k + 1;
      }
    }
  }

  /** The normalisation and its squared error after the wavelength
    * adjustment, with the squared error propagated for a = b·c. */
  function WaveAdjusted(norm: seq<real>, e2: seq<real>, binNorms: Option<seq<real>>, binNormEs: Option<seq<real>>)
    : (r: (seq<real>, seq<real>))
    requires |norm| == |e2|
    requires binNorms.Some? && binNormEs.Some? ==> |binNorms.value| >= |norm| && |binNormEs.value| >= |norm|
    ensures |r.0| == |norm| && |r.1| == |norm|
  {
    if binNorms.Some? && binNormEs.Some? then
      (seq(|norm|, k requires 0 <= k < |norm| => norm[k] * binNorms.value[k]),
       seq(|norm|, k requires 0 <= k < |norm| => ProductError2(norm[k], e2[k], binNorms.value[k], binNormEs.value[k])))
    else (norm, e2)
  }

  /** addWaveAdj with the squared error assigned rather than added to, as
    * the propagation rule in its own comment requires. */
  method AddWaveAdjPropagated(binNorms: Option<seq<real>>, binNormEs: Option<seq<real>>,
                              norm: array<real>, normETo2: array<real>)
    requires norm != normETo2 && norm.Length == normETo2.Length
    requires binNorms.Some? && binNormEs.Some? ==>
      |binNorms.value| >= normETo2.Length && |binNormEs.value| >= normETo2.Length
    modifies norm, normETo2
    ensures (norm[..], normETo2[..]) == WaveAdjusted(old(norm[..]), old(normETo2[..]), binNorms, binNormEs)
  {
    ghost var n0, e0 := norm[..], normETo2[..];
    if binNorms.Some? && binNormEs.Some? {
      var k := 0;
      while k < normETo2.Length
        invariant 0 <= k <= normETo2.Length
        invariant forall j :: 0 <= j < k ==>
          norm[j] == n0[j] * binNorms.value[j]
          && normETo2[j] == ProductError2(n0[j], e0[j], binNorms.value[j], binNormEs.value[j])
        invariant forall j :: k <= j < norm.Length ==> norm[j] == n0[j] && normETo2[j] == e0[j]
      {
        var b, c, dc := norm[k], binNorms.value[k], binNormEs.value[k];
        normETo2[k] := normETo2[k] * c * c + dc * dc * b * b;
        norm[k] := b * c;
        k := k + 1;
      }
      var r := WaveAdjusted(n0, e0, binNorms, binNormEs);
      forall j | 0 <= j < norm.Length
        ensures norm[j] == r.0[j] && normETo2[j] == r.1[j]
      {
        assert r.0[j] == n0[j] * binNorms.value[j];
      }
      assert norm[..] == r.0 && normETo2[..] == r.1;
    }
  }

  /** Scaling by exactly 1 with no error keeps the error as it is under the
    * propagation rule, but doubles it as written. */
  lemma AddWaveAdjDoublesError(b: real, e2: real)
    ensures ProductError2(b, e2, 1.0, 0.0) == e2
    ensures ProductError2AsWritten(b, e2, 1.0, 0.0) == 2.0 * e2
  {}

  /** Under the propagation rule relative squared errors add: when
    * Db² = rb·b² and Dc² = rc·c², then Da² = (rb + rc)·(b·c)². */
  lemma ProductError2Relative(b: real, e2: real, c: real, dc: real, rb: real, rc: real)
    requires e2 == rb * (b * b) && dc * dc == rc * (c * c)
    ensures ProductError2(b, e2, c, dc) == (rb + rc) * ((b * c) * (b * c))
  {}

  // ---- normToBinWidth ----

  /** The masked-bin list of a spectrum: (bin index, masked fraction), each
    * bin at most once. */
  predicate WellFormedMask(mask: seq<(nat, real)>, n: nat)
  {
    (forall t :: 0 <= t < |mask| ==> mask[t].0 < n)
    && (forall s, t :: 0 <= s < t < |mask| ==> mask[s].0 != mask[t].0)
  }

  /** The factor a bin's normalisation is multiplied by: 1 minus its masked
    * fraction, 1 for a bin that is not masked. */
  function UnmaskedFraction(mask: seq<(nat, real)>, k: nat): real
  {
    if |mask| == 0 then 1.0
    else if mask[|mask| - 1].0 == k then 1.0 - mask[|mask| - 1].1
    else UnmaskedFraction(mask[..|mask| - 1], k)
  }

  /** A bin that is not in the list has factor 1. */
  lemma {:induction false} UnmaskedFractionFresh(mask: seq<(nat, real)>, k: nat)
    requires forall t :: 0 <= t < |mask| ==> mask[t].0 != k
    ensures UnmaskedFraction(mask, k) == 1.0
  {
    if |mask| > 0 {
      UnmaskedFractionFresh(mask[..|mask| - 1], k);
    }
  }

  /** A bin listed once has factor 1 minus its masked fraction. */
  lemma {:induction false} UnmaskedFractionListed(mask: seq<(nat, real)>, t: nat)
    requires t < |mask| && WellFormedMask(mask, mask[t].0 + 1)
    ensures UnmaskedFraction(mask, mask[t].0) == 1.0 - mask[t].1
  {
    var n := |mask| - 1;
    if t < n {
      assert mask[n].0 != mask[t].0;
      assert mask[..n][t] == mask[t];
      UnmaskedFractionListed(mask[..n], t);
    }
  }

  /** The arrays hold the original values scaled by the factors of the
    * entries of `mask`. */
  ghost predicate MaskApplied(n0: seq<real>, e0: seq<real>, n: seq<real>, e: seq<real>, mask: seq<(nat, real)>)
  {
    |n| == |n0| && |e| == |e0| && |n0| == |e0|
    && forall k :: 0 <= k < |n| ==>
         n[k] == n0[k] * UnmaskedFraction(mask, k)
         && e[k] == e0[k] * (UnmaskedFraction(mask, k) * UnmaskedFraction(mask, k))
  }

  /** normToBinWidth: each masked bin's normalisation is multiplied by its
    * unmasked fraction and its squared error by the square of it; the other
    * bins are unchanged. */
  method NormToBinWidth(mask: seq<(nat, real)>, theNorms: array<real>, errorSquared: array<real>)
    requires theNorms != errorSquared && theNorms.Length == errorSquared.Length
    requires WellFormedMask(mask, theNorms.Length)
    modifies theNorms, errorSquared
    ensures MaskApplied(old(theNorms[..]), old(errorSquared[..]), theNorms[..], errorSquared[..], mask)
    ensures (theNorms[..], errorSquared[..]) == MaskScaled(old(theNorms[..]), old(errorSquared[..]), mask)
  {
    ghost var n0, e0 := theNorms[..], errorSquared[..];
    var t := 0;
    while t < |mask|
      invariant 0 <= t <= |mask|
      invariant MaskApplied(n0, e0, theNorms[..], errorSquared[..], mask[..t])
    {
      var bin := mask[t].0;
      var factor := 1.0 - mask[t].1;
      ghost var n, e := theNorms[..], errorSquared[..];
      var norm, err := theNorms[bin], errorSquared[bin];
      theNorms[bin] := norm * factor;
      errorSquared[bin] := err * (factor * factor);
      MaskStep(n0, e0, n, e, theNorms[..], errorSquared[..], mask, t, bin, factor, norm, err);
      t := t + 1;
    }
    assert mask[..|mask|] == mask;
    MaskAppliedIsScaled(n0, e0, theNorms[..], errorSquared[..], mask);
  }

  /** The normalisation and its squared error after the masked fractions are
    * applied, as values. */
  function MaskScaled(norm: seq<real>, e2: seq<real>, mask: seq<(nat, real)>): (r: (seq<real>, seq<real>))
    requires |norm| == |e2|
    ensures |r.0| == |norm| && |r.1| == |norm|
  {
    (seq(|norm|, k requires 0 <= k < |norm| => norm[k] * UnmaskedFraction(mask, k)),
     seq(|e2|, k requires 0 <= k < |e2| => e2[k] * (UnmaskedFraction(mask, k) * UnmaskedFraction(mask, k))))
  }

  lemma MaskAppliedIsScaled(n0: seq<real>, e0: seq<real>, n: seq<real>, e: seq<real>, mask: seq<(nat, real)>)
    requires MaskApplied(n0, e0, n, e, mask)
    ensures (n, e) == MaskScaled(n0, e0, mask)
  {
    var r := MaskScaled(n0, e0, mask);
    forall k | 0 <= k < |n|
      ensures n[k] == r.0[k] && e[k] == r.1[k]
    {
      var f := UnmaskedFraction(mask, k);
      assert n[k] == n0[k] * f && r.0[k] == n0[k] * f;
      assert e[k] == e0[k] * (f * f) && r.1[k] == e0[k] * (f * f);
    }
    assert n == r.0 && e == r.1;
  }

  /** One more entry of the list applied. */
  lemma MaskStep(n0: seq<real>, e0: seq<real>, n: seq<real>, e: seq<real>,
                  n1: seq<real>, e1: seq<real>, mask: seq<(nat, real)>, t: nat,
                  bin: nat, f: real, norm: real, err: real)
    requires t < |mask| && WellFormedMask(mask, |n|)
    requires bin == mask[t].0 && f == 1.0 - mask[t].1
    requires MaskApplied(n0, e0, n, e, mask[..t])
    requires norm == n[bin] && err == e[bin]
    requires n1 == n[bin := norm * f] && e1 == e[bin := err * (f * f)]
    ensures MaskApplied(n0, e0, n1, e1, mask[..t + 1])
  {
    var m := mask[..t + 1];
    assert m[..t] == mask[..t];
    assert forall s :: 0 <= s < t ==> mask[..t][s].0 != bin;
    UnmaskedFractionFresh(mask[..t], bin);
    forall k | 0 <= k < |n| && k != bin
      ensures UnmaskedFraction(m, k) == UnmaskedFraction(mask[..t], k)
    {}
    assert UnmaskedFraction(m, bin) == f;
  }

  // ---- placing counts into Q bins ----

  /** Boundaries in ascending order. */
  predicate Ascending(q: seq<real>)
  {
    forall i, j :: 0 <= i < j < |q| ==> q[i] <= q[j]
  }

  /** Values in non-increasing order (Q falls as the wavelength grows). */
  predicate NonIncreasing(q: seq<real>)
  {
    forall i, j :: 0 <= i < j < |q| ==> q[i] >= q[j]
  }

  /** std::upper_bound over q[0..hi): the first position whose boundary is
    * above v, or hi. */
  function UpperBound(q: seq<real>, hi: nat, v: real): (p: nat)
    requires hi <= |q|
    ensures p <= hi
    ensures forall i :: 0 <= i < p ==> q[i] <= v
    ensures p < hi ==> q[p] > v
  {
    if hi == 0 then 0
    else
      var p := UpperBound(q, hi - 1, v);
      if p < hi - 1 then p else if q[hi - 1] > v then hi - 1 else hi
  }

  /** The output bin holding v: the k with q[k] ≤ v < q[k+1], if any. */
  function BinOf(q: seq<real>, v: real): (r: Option<nat>)
    requires Ascending(q)
    ensures r.Some? ==> r.value + 1 < |q| && q[r.value] <= v < q[r.value + 1]
    ensures r.None? <==> |q| == 0 || v < q[0] || v >= q[|q| - 1]
  {
    if |q| < 2 then None
    else if v >= q[|q| - 2] then (if v < q[|q| - 1] then Some(|q| - 2) else None)
    else BinOf(q[..|q| - 1], v)
  }

  /** Adds vals[j] to acc at the bin of qIn[j], for every j whose Q falls in
    * the output range; the others are dropped. */
  function Binned(qOut: seq<real>, qIn: seq<real>, vals: seq<real>, acc: seq<real>): (r: seq<real>)
    requires Ascending(qOut) && |qIn| == |vals| && |acc| + 1 == |qOut|
    ensures |r| == |acc|
  {
    if |qIn| == 0 then acc
    else
      var prev := Binned(qOut, qIn[..|qIn| - 1], vals[..|qIn| - 1], acc);
      match BinOf(qOut, qIn[|qIn| - 1])
      case None => prev
      case Some(k) => prev[k := prev[k] + vals[|qIn| - 1]]
  }

  function Sum(s: seq<real>): real
  {
    if |s| == 0 then 0.0 else Sum(s[..|s| - 1]) + s[|s| - 1]
  }

  /** Sum of the values whose Q falls in the output range. */
  function InRangeSum(qOut: seq<real>, qIn: seq<real>, vals: seq<real>): real
    requires Ascending(qOut) && |qIn| == |vals|
  {
    if |qIn| == 0 then 0.0
    else InRangeSum(qOut, qIn[..|qIn| - 1], vals[..|qIn| - 1])
         + (if BinOf(qOut, qIn[|qIn| - 1]).Some? then vals[|qIn| - 1] else 0.0)
  }

  lemma {:induction false} SumUpdate(s: seq<real>, k: nat, d: real)
    requires k < |s|
    ensures Sum(s[k := s[k] + d]) == Sum(s) + d
  {
    if k < |s| - 1 {
      assert s[k := s[k] + d][..|s| - 1] == s[..|s| - 1][k := s[k] + d];
      SumUpdate(s[..|s| - 1], k, d);
    } else {
      assert s[k := s[k] + d][..|s| - 1] == s[..|s| - 1];
    }
  }

  /** Binning conserves what falls in range: the bins gain exactly the sum
    * of the in-range values. */
  lemma {:induction false} BinnedConserves(qOut: seq<real>, qIn: seq<real>, vals: seq<real>, acc: seq<real>)
    requires Ascending(qOut) && |qIn| == |vals| && |acc| + 1 == |qOut|
    ensures Sum(Binned(qOut, qIn, vals, acc)) == Sum(acc) + InRangeSum(qOut, qIn, vals)
  {
    if |qIn| > 0 {
      var n := |qIn| - 1;
      BinnedConserves(qOut, qIn[..n], vals[..n], acc);
      var prev := Binned(qOut, qIn[..n], vals[..n], acc);
      match BinOf(qOut, qIn[n])
      case None =>
      case Some(k) => SumUpdate(prev, k, vals[n]);
    }
  }

  /** With the search bounded by `loc`, upper_bound finds the bin of v as
    * long as the boundary at loc is already above v. */
  lemma PlacementFindsBin(qOut: seq<real>, loc: nat, v: real)
    requires Ascending(qOut) && |qOut| >= 2 && loc <= |qOut|
    requires loc < |qOut| ==> v < qOut[loc]
    ensures var p := UpperBound(qOut, loc, v);
      (p == 0 || p == |qOut| <==> BinOf(qOut, v).None?)
      && (p != 0 && p != |qOut| ==> BinOf(qOut, v) == Some(p - 1))
  {
    var p := UpperBound(qOut, loc, v);
    if p < |qOut| {
      assert qOut[p] > v;
    }
    if p != 0 && p != |qOut| {
      var b := BinOf(qOut, v);
      assert qOut[p - 1] <= v;
    }
  }

  /** The four running sums of the output: counts, normalisation, squared
    * count errors and squared normalisation errors, one per output bin. */
  datatype Sums = Sums(y: seq<real>, norm: seq<real>, e2: seq<real>, normE2: seq<real>)
  {
    predicate Sized(n: nat) { |y| == n && |norm| == n && |e2| == n && |normE2| == n }
  }

  function Squares(s: seq<real>): (r: seq<real>)
    ensures |r| == |s| && forall i :: 0 <= i < |s| ==> r[i] == s[i] * s[i]
  {
    seq(|s|, i requires 0 <= i < |s| => s[i] * s[i])
  }

  /** One spectrum added to the sums: its counts, its normalisation, its
    * squared errors and its normalisation's squared errors, each by Q bin. */
  function AddSpectrum(qOut: seq<real>, qIn: seq<real>, yIn: seq<real>, e2In: seq<real>,
                       norm: seq<real>, normETo2: seq<real>, s: Sums): (r: Sums)
    requires Ascending(qOut) && |qOut| >= 2 && s.Sized(|qOut| - 1)
    requires |yIn| == |qIn| && |e2In| == |qIn| && |norm| == |qIn| && |normETo2| == |qIn|
    ensures r.Sized(|qOut| - 1)
  {
    Sums(Binned(qOut, qIn, yIn, s.y), Binned(qOut, qIn, norm, s.norm),
         Binned(qOut, qIn, e2In, s.e2), Binned(qOut, qIn, normETo2, s.normE2))
  }

  /** One value added in place to one bin of an array. */
  method AddAt(a: array<real>, k: nat, v: real)
    requires k < a.Length
    modifies a
    ensures a[..] == old(a[..])[k := old(a[..])[k] + v]
  {
    a[k] := a[k] + v;
  }

  /** One step of the placement loop: the value with Q = v goes to its bin,
    * found by upper_bound below `loc`; the returned bound lies above v. */
  method PlaceValue(qOut: seq<real>, loc: nat, v: real, y: real, n: real, e2: real, ne2: real,
                    yOut: array<real>, normSum: array<real>, eOutTo2: array<real>, normError2: array<real>)
    returns (newLoc: nat)
    requires Ascending(qOut) && |qOut| >= 2 && loc <= |qOut|
    requires loc < |qOut| ==> v < qOut[loc]
    requires yOut.Length == normSum.Length == eOutTo2.Length == normError2.Length == |qOut| - 1
    requires yOut != normSum && yOut != eOutTo2 && yOut != normError2
    requires normSum != eOutTo2 && normSum != normError2 && eOutTo2 != normError2
    modifies yOut, normSum, eOutTo2, normError2
    ensures newLoc <= |qOut| && (newLoc < |qOut| ==> v < qOut[newLoc])
    ensures BinOf(qOut, v).None? ==>
      yOut[..] == old(yOut[..]) && normSum[..] == old(normSum[..])
      && eOutTo2[..] == old(eOutTo2[..]) && normError2[..] == old(normError2[..])
    ensures BinOf(qOut, v).Some? ==> var k := BinOf(qOut, v).value;
      yOut[..] == old(yOut[..])[k := old(yOut[..])[k] + y]
      && normSum[..] == old(normSum[..])[k := old(normSum[..])[k] + n]
      && eOutTo2[..] == old(eOutTo2[..])[k := old(eOutTo2[..])[k] + e2]
      && normError2[..] == old(normError2[..])[k := old(normError2[..])[k] + ne2]
  {
    PlacementFindsBin(qOut, loc, v);
    newLoc := UpperBound(qOut, loc, v);
    if newLoc != 0 && newLoc != |qOut| {
      var bin := newLoc - 1;
      AddAt(yOut, bin, y);
      AddAt(normSum, bin, n);
      AddAt(eOutTo2, bin, e2);
      AddAt(normError2, bin, ne2);
      newLoc := newLoc + 1;
    }
  }

  /** Adding the value at position j to the bins built from the values before
    * it changes only the bin that value falls in, if any. */
  lemma BinnedStep(qOut: seq<real>, qIn: seq<real>, vals: seq<real>, acc: seq<real>, j: nat)
    requires Ascending(qOut) && |qIn| == |vals| && |acc| + 1 == |qOut| && j < |qIn|
    ensures var p := Binned(qOut, qIn[..j], vals[..j], acc);
      var r := Binned(qOut, qIn[..j + 1], vals[..j + 1], acc);
      var b := BinOf(qOut, qIn[j]);
      (b.None? ==> r == p) && (b.Some? ==> r == p[b.value := p[b.value] + vals[j]])
  {
    assert qIn[..j + 1][..j] == qIn[..j] && vals[..j + 1][..j] == vals[..j];
  }

  /** One pass of the placement loop: the j-th input value joins the bins
    * built from the values before it. */
  method PlaceNext(qOut: seq<real>, qIn: seq<real>, yIn: seq<real>, e2In: seq<real>,
                   norm: seq<real>, normETo2: seq<real>, j: nat, loc: nat,
                   ghost y0: seq<real>, ghost n0: seq<real>, ghost e0: seq<real>, ghost ne0: seq<real>,
                   yOut: array<real>, normSum: array<real>, eOutTo2: array<real>, normError2: array<real>)
    returns (newLoc: nat)
    requires Ascending(qOut) && |qOut| >= 2 && NonIncreasing(qIn) && j < |qIn| && loc <= |qOut|
    requires |yIn| == |qIn| && |e2In| == |qIn| && |norm| == |qIn| && |normETo2| == |qIn|
    requires |y0| + 1 == |qOut| && |n0| + 1 == |qOut| && |e0| + 1 == |qOut| && |ne0| + 1 == |qOut|
    requires yOut.Length == normSum.Length == eOutTo2.Length == normError2.Length == |qOut| - 1
    requires yOut != normSum && yOut != eOutTo2 && yOut != normError2
    requires normSum != eOutTo2 && normSum != normError2 && eOutTo2 != normError2
    requires loc < |qOut| ==> j > 0 && qIn[j - 1] < qOut[loc]
    requires yOut[..] == Binned(qOut, qIn[..j], yIn[..j], y0)
    requires normSum[..] == Binned(qOut, qIn[..j], norm[..j], n0)
    requires eOutTo2[..] == Binned(qOut, qIn[..j], e2In[..j], e0)
    requires normError2[..] == Binned(qOut, qIn[..j], normETo2[..j], ne0)
    modifies yOut, normSum, eOutTo2, normError2
    ensures newLoc <= |qOut| && (newLoc < |qOut| ==> qIn[j] < qOut[newLoc])
    ensures yOut[..] == Binned(qOut, qIn[..j + 1], yIn[..j + 1], y0)
    ensures normSum[..] == Binned(qOut, qIn[..j + 1], norm[..j + 1], n0)
    ensures eOutTo2[..] == Binned(qOut, qIn[..j + 1], e2In[..j + 1], e0)
    ensures normError2[..] == Binned(qOut, qIn[..j + 1], normETo2[..j + 1], ne0)
  {
    BinnedStep(qOut, qIn, yIn, y0, j);
    BinnedStep(qOut, qIn, norm, n0, j);
    BinnedStep(qOut, qIn, e2In, e0, j);
    BinnedStep(qOut, qIn, normETo2, ne0, j);
    newLoc := PlaceValue(qOut, loc, qIn[j], yIn[j], norm[j], e2In[j], normETo2[j], yOut, normSum, eOutTo2, normError2);
  }

  /** The bin-placement loop of exec for one spectrum: the search for each
    * value starts below the bin the previous value went to, which finds the
    * right bin because Q does not increase along the spectrum. */
  method PlaceSpectrum(qOut: seq<real>, qIn: seq<real>, yIn: seq<real>, eIn: seq<real>,
                       norm: seq<real>, normETo2: seq<real>,
                       yOut: array<real>, normSum: array<real>, eOutTo2: array<real>, normError2: array<real>)
    requires Ascending(qOut) && |qOut| >= 2 && NonIncreasing(qIn)
    requires |yIn| == |qIn| && |eIn| == |qIn| && |norm| == |qIn| && |normETo2| == |qIn|
    requires yOut.Length == normSum.Length == eOutTo2.Length == normError2.Length == |qOut| - 1
    requires yOut != normSum && yOut != eOutTo2 && yOut != normError2
    requires normSum != eOutTo2 && normSum != normError2 && eOutTo2 != normError2
    modifies yOut, normSum, eOutTo2, normError2
    ensures Sums(yOut[..], normSum[..], eOutTo2[..], normError2[..])
         == AddSpectrum(qOut, qIn, yIn, Squares(eIn), norm, normETo2,
                        Sums(old(yOut[..]), old(normSum[..]), old(eOutTo2[..]), old(normError2[..])))
  {
    var e2In := Squares(eIn);
    PlaceAll(qOut, qIn, yIn, e2In, norm, normETo2, yOut, normSum, eOutTo2, normError2);
  }

  /** The loop of PlaceSpectrum, each output array against its own sum. */
  method PlaceAll(qOut: seq<real>, qIn: seq<real>, yIn: seq<real>, e2In: seq<real>,
                  norm: seq<real>, normETo2: seq<real>,
                  yOut: array<real>, normSum: array<real>, eOutTo2: array<real>, normError2: array<real>)
    requires Ascending(qOut) && |qOut| >= 2 && NonIncreasing(qIn)
    requires |yIn| == |qIn| && |e2In| == |qIn| && |norm| == |qIn| && |normETo2| == |qIn|
    requires yOut.Length == normSum.Length == eOutTo2.Length == normError2.Length == |qOut| - 1
    requires yOut != normSum && yOut != eOutTo2 && yOut != normError2
    requires normSum != eOutTo2 && normSum != normError2 && eOutTo2 != normError2
    modifies yOut, normSum, eOutTo2, normError2
    ensures yOut[..] == Binned(qOut, qIn, yIn, old(yOut[..]))
    ensures normSum[..] == Binned(qOut, qIn, norm, old(normSum[..]))
    ensures eOutTo2[..] == Binned(qOut, qIn, e2In, old(eOutTo2[..]))
    ensures normError2[..] == Binned(qOut, qIn, normETo2, old(normError2[..]))
  {
    ghost var y0, n0, e0, ne0 := yOut[..], normSum[..], eOutTo2[..], normError2[..];
    var loc: nat := |qOut|;
    var j := 0;
    while j < |qIn|
      invariant 0 <= j <= |qIn| && loc <= |qOut|
      invariant loc < |qOut| ==> j > 0 && qIn[j - 1] < qOut[loc]
      invariant yOut[..] == Binned(qOut, qIn[..j], yIn[..j], y0)
      invariant normSum[..] == Binned(qOut, qIn[..j], norm[..j], n0)
      invariant eOutTo2[..] == Binned(qOut, qIn[..j], e2In[..j], e0)
      invariant normError2[..] == Binned(qOut, qIn[..j], normETo2[..j], ne0)
    {
      loc := PlaceNext(qOut, qIn, yIn, e2In, norm, normETo2, j, loc, y0, n0, e0, ne0,
                       yOut, normSum, eOutTo2, normError2);
      j := j + 1;
    }
    BinnedWhole(qOut, qIn, yIn, y0);
    BinnedWhole(qOut, qIn, norm, n0);
    BinnedWhole(qOut, qIn, e2In, e0);
    BinnedWhole(qOut, qIn, normETo2, ne0);
  }

  lemma BinnedWhole(qOut: seq<real>, qIn: seq<real>, vals: seq<real>, acc: seq<real>)
    requires Ascending(qOut) && |qIn| == |vals| && |acc| + 1 == |qOut|
    ensures Binned(qOut, qIn[..|qIn|], vals[..|qIn|], acc) == Binned(qOut, qIn, vals, acc)
  {
    assert qIn[..|qIn|] == qIn && vals[..|qIn|] == vals;
  }

  // ---- exec ----

  /** The inputs of one run: the data workspace, the optional wavelength and
    * pixel adjustments, each spectrum's detector (None when the spectrum has
    * none), the Q of each input bin as the geometry gives it, each
    * spectrum's masked-bin list and the output Q boundaries built from the
    * OutputBinning parameters. */
  datatype Run = Run(data: MatrixWorkspace, waveAdj: Option<MatrixWorkspace>, pixelAdj: Option<MatrixWorkspace>,
                     detectors: seq<Option<Detector>>, qIns: seq<seq<real>>, masks: seq<seq<(nat, real)>>,
                     qOut: seq<real>)
  {
    /** What the histogram validators, the instrument and the rebin
      * parameters guarantee; Q falls along each spectrum because the
      * wavelength boundaries rise. */
    predicate WellFormed()
    {
      data.IsHistogram() && (waveAdj.Some? ==> waveAdj.value.IsHistogram())
      && (pixelAdj.Some? ==> pixelAdj.value.Valid())
      && |detectors| == data.NRows() && |qIns| == data.NRows() && |masks| == data.NRows()
      && (forall i :: 0 <= i < |qIns| ==> |qIns[i]| == data.Blocksize() && NonIncreasing(qIns[i]))
      && (forall i :: 0 <= i < |masks| ==> WellFormedMask(masks[i], data.Blocksize()))
      && Ascending(qOut) && |qOut| >= 2
    }

    /** Well formed and accepted by examineInput. */
    predicate Ready()
    {
      WellFormed() && Compatible(data, waveAdj, pixelAdj)
    }

    /** binNorms: the wavelength adjustment's values, when there is one. */
    function BinNorms(): (r: Option<seq<real>>)
      requires Ready()
      ensures r.Some? <==> waveAdj.Some?
      ensures r.Some? ==> |r.value| == data.Blocksize()
    {
      if waveAdj.Some? then Some(waveAdj.value.y[0]) else None
    }

    /** binNormEs: the wavelength adjustment's errors, when there is one. */
    function BinNormEs(): (r: Option<seq<real>>)
      requires Ready()
      ensures r.Some? <==> waveAdj.Some?
      ensures r.Some? ==> |r.value| == data.Blocksize()
    {
      if waveAdj.Some? then Some(waveAdj.value.e[0]) else None
    }
  }

  /** A spectrum takes part when it has a detector that is neither a monitor
    * nor masked. */
  predicate Included(det: Option<Detector>)
  {
    det.Some? && !det.value.isMonitor && !det.value.isMasked
  }

  /** The normalisation of spectrum i and its squared error, bin by bin: the
    * pixel weight, then the wavelength adjustment, then the unmasked
    * fractions. */
  function SpectrumNorms(run: Run, i: nat, w: real, werr: real): (r: (seq<real>, seq<real>))
    requires run.Ready() && i < run.data.NRows()
    ensures |r.0| == run.data.Blocksize() && |r.1| == run.data.Blocksize()
  {
    var n := run.data.Blocksize();
    var adjusted := WaveAdjusted(seq(n, _ => w), seq(n, _ => werr * werr), run.BinNorms(), run.BinNormEs());
    MaskScaled(adjusted.0, adjusted.1, run.masks[i])
  }

  /** Output sums all zero. */
  function ZeroSums(n: nat): (r: Sums)
    ensures r.Sized(n)
  {
    Sums(seq(n, _ => 0.0), seq(n, _ => 0.0), seq(n, _ => 0.0), seq(n, _ => 0.0))
  }

  /** Spectrum i added to the sums: skipped when it has no usable detector,
    * an error when its solid angle is rejected. */
  function AddOne(run: Run, i: nat, s: Sums): (r: Result<Sums>)
    requires run.Ready() && i < run.data.NRows() && s.Sized(|run.qOut| - 1)
    ensures r.Ok? ==> r.value.Sized(|run.qOut| - 1)
  {
    if !Included(run.detectors[i]) then Ok(s)
    else
      match PixelWeight(run.detectors[i].value.solidAngle, run.pixelAdj, i)
      case Err(e) => Result<Sums>.Err(e)
      case Ok(w) =>
        var norms := SpectrumNorms(run, i, w.0, w.1);
        Ok(AddSpectrum(run.qOut, run.qIns[i], run.data.y[i], Squares(run.data.e[i]), norms.0, norms.1, s))
  }

  /** The sums after the first `count` spectra, or the first error. */
  function Accumulate(run: Run, count: nat): (r: Result<Sums>)
    requires run.Ready() && count <= run.data.NRows()
    ensures r.Ok? ==> r.value.Sized(|run.qOut| - 1)
  {
    if count == 0 then Ok(ZeroSums(|run.qOut| - 1))
    else
      match Accumulate(run, count - 1)
      case Err(e) => Result<Sums>.Err(e)
      case Ok(s) => AddOne(run, count - 1, s)
  }

  /** The squared error of an output bin, with a = b/c: Db²/c² + Dc²·(a/c)². */
  function BinError2(b: real, c: real, e2: real, normE2: real): real
    requires c != 0.0
  {
    e2 / (c * c) + normE2 * (b / c / c) * (b / c / c)
  }

  /** The error of an output bin: with a = b/c,
    * Da² = Db²/c² + Dc²·(a/c)²; infinite or NaN when c is 0. */
  function BinError(b: real, c: real, e2: real, normE2: real, sqrt: real -> real): (r: Double)
    ensures r.NonFinite? <==> c == 0.0
  {
    if c == 0.0 then NonFinite else Finite(sqrt(BinError2(b, c, e2, normE2)))
  }

  /** The output spectrum: each bin's counts divided by its normalisation,
    * and its error. */
  function Normalised(s: Sums, sqrt: real -> real): (r: (seq<Double>, seq<Double>))
    requires s.Sized(|s.y|)
    ensures |r.0| == |s.y| && |r.1| == |s.y|
  {
    (seq(|s.y|, k requires 0 <= k < |s.y| => Divide(s.y[k], s.norm[k])),
     seq(|s.y|, k requires 0 <= k < |s.y| => BinError(s.y[k], s.norm[k], s.e2[k], s.normE2[k], sqrt)))
  }

  /** What exec produces: the output Y and E, or the exception it raises. */
  function Reduction(run: Run, sqrt: real -> real): (r: Result<(seq<Double>, seq<Double>)>)
    requires run.WellFormed()
    ensures r.Ok? ==> |r.value.0| == |run.qOut| - 1 && |r.value.1| == |run.qOut| - 1
  {
    match ExamineInput(run.data, run.waveAdj, run.pixelAdj)
    case Err(e) => Result<(seq<Double>, seq<Double>)>.Err(e)
    case Ok(_) =>
      match Accumulate(run, run.data.NRows())
      case Err(e) => Result<(seq<Double>, seq<Double>)>.Err(e)
      case Ok(s) => Ok(Normalised(s, sqrt))
  }

  /** The weights of spectrum i in two fresh arrays: every bin starts at the
    * pixel weight and its squared error, then addWaveAdj and normToBinWidth
    * adjust them. */
  method SpectrumWeights(run: Run, i: nat, w: real, werr: real) returns (norm: array<real>, normETo2: array<real>)
    requires run.Ready() && i < run.data.NRows()
    ensures fresh(norm) && fresh(normETo2) && norm != normETo2
    ensures (norm[..], normETo2[..]) == SpectrumNorms(run, i, w, werr)
  {
    var n := |run.data.y[0]|;
    norm := new real[n](_ => w);
    normETo2 := new real[n](_ => werr * werr);
    assert norm[..] == seq(n, _ => w) && normETo2[..] == seq(n, _ => werr * werr);
    AddWaveAdjPropagated(run.BinNorms(), run.BinNormEs(), norm, normETo2);
    NormToBinWidth(run.masks[i], norm, normETo2);
  }

  /** The final loop of exec: every bin divided by its normalisation and its
    * error propagated. */
  method Normalise(yOut: array<real>, normSum: array<real>, eOutTo2: array<real>, normError2: array<real>,
                   sqrt: real -> real) returns (ys: seq<Double>, es: seq<Double>)
    requires normSum.Length == yOut.Length && eOutTo2.Length == yOut.Length && normError2.Length == yOut.Length
    ensures (ys, es) == Normalised(Sums(yOut[..], normSum[..], eOutTo2[..], normError2[..]), sqrt)
  {
    ghost var s := Sums(yOut[..], normSum[..], eOutTo2[..], normError2[..]);
    ys, es := [], [];
    var k := 0;
    while k < yOut.Length
      invariant 0 <= k <= yOut.Length
      invariant ys == Normalised(s, sqrt).0[..k] && es == Normalised(s, sqrt).1[..k]
    {
      ys := ys + [Divide(yOut[k], normSum[k])];
      es := es + [BinError(yOut[k], normSum[k], eOutTo2[k], normError2[k], sqrt)];
      k := k + 1;
    }
    assert Normalised(s, sqrt).0[..k] == Normalised(s, sqrt).0;
    assert Normalised(s, sqrt).1[..k] == Normalised(s, sqrt).1;
  }

  /** One pass of exec's spectrum loop: the arrays holding the sums after
    * the first i spectra come to hold those after i + 1, or the error
    * spectrum i's solid angle raises is returned. */
  method AccumulateSpectrum(run: Run, i: nat, yOut: array<real>, normSum: array<real>,
                            eOutTo2: array<real>, normError2: array<real>) returns (failure: Option<Error>)
    requires run.Ready() && i < run.data.NRows()
    requires yOut.Length == normSum.Length == eOutTo2.Length == normError2.Length == |run.qOut| - 1
    requires yOut != normSum && yOut != eOutTo2 && yOut != normError2
    requires normSum != eOutTo2 && normSum != normError2 && eOutTo2 != normError2
    requires Accumulate(run, i) == Ok(Sums(yOut[..], normSum[..], eOutTo2[..], normError2[..]))
    modifies yOut, normSum, eOutTo2, normError2
    ensures failure.Some? ==> Accumulate(run, i + 1) == Err(failure.value)
    ensures failure.None? ==> Accumulate(run, i + 1) == Ok(Sums(yOut[..], normSum[..], eOutTo2[..], normError2[..]))
  {
    var det := run.detectors[i];
    if det.Some? && !det.value.isMonitor && !det.value.isMasked {
      var weight := PixelWeight(det.value.solidAngle, run.pixelAdj, i);
      if weight.Err? {
        return Some(weight.error);
      }
      var norm, normETo2 := SpectrumWeights(run, i, weight.value.0, weight.value.1);
      PlaceSpectrum(run.qOut, run.qIns[i], run.data.y[i], run.data.e[i], norm[..], normETo2[..],
                    yOut, normSum, eOutTo2, normError2);
    }
    return None;
  }

  /** The four output arrays of exec, zero-filled. */
  method ZeroOutputs(n: nat) returns (yOut: array<real>, normSum: array<real>, eOutTo2: array<real>, normError2: array<real>)
    ensures fresh(yOut) && fresh(normSum) && fresh(eOutTo2) && fresh(normError2)
    ensures yOut != normSum && yOut != eOutTo2 && yOut != normError2
    ensures normSum != eOutTo2 && normSum != normError2 && eOutTo2 != normError2
    ensures Sums(yOut[..], normSum[..], eOutTo2[..], normError2[..]) == ZeroSums(n)
  {
    yOut := new real[n](_ => 0.0);
    normSum := new real[n](_ => 0.0);
    eOutTo2 := new real[n](_ => 0.0);
    normError2 := new real[n](_ => 0.0);
    assert Sums(yOut[..], normSum[..], eOutTo2[..], normError2[..]) == ZeroSums(n);
  }

  /** exec: examineInput, then every spectrum with a usable detector placed
    * into the output Q bins with its normalisation, then the division by the
    * normalisation. */
  method Exec(run: Run, sqrt: real -> real) returns (r: Result<(seq<Double>, seq<Double>)>)
    requires run.WellFormed()
    ensures r == Reduction(run, sqrt)
  {
    var checked := ExamineInput(run.data, run.waveAdj, run.pixelAdj);
    if checked.Err? {
      return Result<(seq<Double>, seq<Double>)>.Err(checked.error);
    }
    assert run.Ready();
    var yOut, normSum, eOutTo2, normError2 := ZeroOutputs(|run.qOut| - 1);
    var numSpec := run.data.NRows();
    var i := 0;
    while i < numSpec
      invariant 0 <= i <= numSpec
      invariant Accumulate(run, i) == Ok(Sums(yOut[..], normSum[..], eOutTo2[..], normError2[..]))
    {
      var failure := AccumulateSpectrum(run, i, yOut, normSum, eOutTo2, normError2);
      if failure.Some? {
        AccumulateErrPersists(run, i + 1, numSpec);
        return Result<(seq<Double>, seq<Double>)>.Err(failure.value);
      }
      i := i + 1;
    }
    var ys, es := Normalise(yOut, normSum, eOutTo2, normError2, sqrt);
    r := Ok((ys, es));
  }

  /** Once a spectrum raises, so does the whole run, with that error. */
  lemma {:induction false} AccumulateErrPersists(run: Run, k: nat, m: nat)
    requires run.Ready() && k <= m <= run.data.NRows()
    requires Accumulate(run, k).Err?
    ensures Accumulate(run, m) == Accumulate(run, k)
  {
    if m > k {
      AccumulateErrPersists(run, k, m - 1);
    }
  }

  /** A spectrum whose detector is usable but whose solid angle is rejected. */
  predicate Rejected(run: Run, i: nat)
    requires i < |run.detectors|
  {
    Included(run.detectors[i]) && run.detectors[i].value.solidAngle < MinSolidAngle
  }

  /** The first `count` spectra raise exactly when one of them is rejected. */
  lemma {:induction false} AccumulateErrIff(run: Run, count: nat)
    requires run.Ready() && count <= run.data.NRows()
    ensures Accumulate(run, count).Err? <==> exists i :: 0 <= i < count && Rejected(run, i)
  {
    if count > 0 {
      AccumulateErrIff(run, count - 1);
      if Rejected(run, count - 1) {
        assert Accumulate(run, count).Err?;
      }
    }
  }

  /** exec raises exactly when examineInput rejects the inputs or a usable
    * detector has a solid angle below 1e-200. */
  lemma ReductionFails(run: Run, sqrt: real -> real)
    requires run.WellFormed()
    ensures Reduction(run, sqrt).Err? <==>
      !Compatible(run.data, run.waveAdj, run.pixelAdj)
      || exists i :: 0 <= i < run.data.NRows() && Rejected(run, i)
  {
    if Compatible(run.data, run.waveAdj, run.pixelAdj) {
      AccumulateErrIff(run, run.data.NRows());
    }
  }

  /** The counts of the usable spectra among the first `count` that fall in
    * the output Q range. */
  function CountsInRange(run: Run, count: nat): real
    requires run.WellFormed() && count <= run.data.NRows()
  {
    if count == 0 then 0.0
    else CountsInRange(run, count - 1)
         + (if Included(run.detectors[count - 1])
            then InRangeSum(run.qOut, run.qIns[count - 1], run.data.y[count - 1]) else 0.0)
  }

  lemma {:induction false} SumZeros(n: nat)
    ensures Sum(seq(n, _ => 0.0)) == 0.0
  {
    if n > 0 {
      assert seq(n, _ => 0.0)[..n - 1] == seq(n - 1, _ => 0.0);
      SumZeros(n - 1);
    }
  }

  /** No count is lost or invented: the output counts add up to the counts
    * of the usable spectra that fall in the output range. */
  lemma {:induction false} AccumulateConservesCounts(run: Run, count: nat)
    requires run.Ready() && count <= run.data.NRows()
    ensures Accumulate(run, count).Ok? ==> Sum(Accumulate(run, count).value.y) == CountsInRange(run, count)
  {
    if count == 0 {
      SumZeros(|run.qOut| - 1);
    } else {
      AccumulateConservesCounts(run, count - 1);
      var i := count - 1;
      if Accumulate(run, count).Ok? && Included(run.detectors[i]) {
        var s := Accumulate(run, i).value;
        BinnedConserves(run.qOut, run.qIns[i], run.data.y[i], s.y);
      }
    }
  }

  /** The error formula of the final loop is the one its comment derives:
    * with a = b/c, Da²·c² = Db² + (Dc·a)². */
  lemma BinErrorFormula(b: real, c: real, e2: real, normE2: real)
    requires c != 0.0
    ensures BinError2(b, c, e2, normE2) * (c * c) == e2 + (normE2 * (b / c)) * (b / c)
  {
    assert (b / c / c) * c == b / c;
    assert (b / c / c) * (b / c / c) * (c * c) == (b / c) * (b / c);
    assert (e2 / (c * c)) * (c * c) == e2;
  }

  /** Relative errors add under division: when Db² = rb·b² and Dc² = rc·c²,
    * then Da² = (rb + rc)·a² for a = b/c. */
  lemma BinErrorRelative(b: real, c: real, e2: real, normE2: real, rb: real, rc: real)
    requires c != 0.0 && e2 == rb * (b * b) && normE2 == rc * (c * c)
    ensures BinError2(b, c, e2, normE2) == (rb + rc) * ((b / c) * (b / c))
  {
    assert (b / c) * c == b;
    assert rb * ((b / c) * (b / c)) * (c * c) == e2;
    DivByProduct(rb * ((b / c) * (b / c)), e2, c, c);
    assert normE2 * (b / c / c) * (b / c / c) == rc * ((b / c) * (b / c));
  }
}

/** IntegrateNormalizedMDHistoWorkspace: the HKL grid it asks the
  * normalisation for, the conversion of the normalised histograms back to
  * events (skipping near-zero cells), and the background-subtracted peak
  * intensities computed from four sphere integrations. */
module IntegrateNormalizedMDHistoWorkspace {
  import opened Wrappers
  import opened MDHisto
  import opened MDEvents
  import ConvertMDHistoToMDEventWorkspace

  /** Cells whose |signal| is below this produce no event. */
  const SignalThreshold: real := 0.000000000000001   // 1e-15

  const DefaultMaxHKL: int := 10
  const DefaultSteps: int := 4

  /** Events of the cells before `n` whose |signal| is at least the threshold. */
  function KeptEvents(ws: HistoWorkspace, n: nat): seq<MDEvent>
    requires ws.Valid() && n <= ws.NPoints()
  {
    if n == 0 then []
    else if Abs(ws.signal[n - 1]) < SignalThreshold then KeptEvents(ws, n - 1)
    else KeptEvents(ws, n - 1) + [ConvertMDHistoToMDEventWorkspace.CellEvent(ws, n - 1)]
  }

  /** Number of cells before `n` that are kept. */
  function KeptCount(s: seq<real>, n: nat): nat
    requires n <= |s|
  {
    if n == 0 then 0
    else KeptCount(s, n - 1) + (if Abs(s[n - 1]) < SignalThreshold then 0 else 1)
  }

  /** Sum of the signals of the cells before `n` that are kept. */
  function KeptSignal(s: seq<real>, n: nat): real
    requires n <= |s|
  {
    if n == 0 then 0.0
    else KeptSignal(s, n - 1) + (if Abs(s[n - 1]) < SignalThreshold then 0.0 else s[n - 1])
  }

  /** Appends one event per cell whose |signal| reaches the threshold. */
  method AddEventsData(ws: HistoWorkspace, outWs: MDEventWorkspace)
    requires ws.Valid()
    modifies outWs
    ensures outWs.events == old(outWs.events) + KeptEvents(ws, ws.NPoints())
    ensures outWs.dimensions == old(outWs.dimensions)
    ensures outWs.experimentInfos == old(outWs.experimentInfos)
    ensures outWs.coordinateSystem == old(outWs.coordinateSystem)
  {
    var n := ws.NPoints();
    var i := 0;
    while i < n
      invariant 0 <= i <= n
      invariant outWs.events == old(outWs.events) + KeptEvents(ws, i)
      invariant outWs.dimensions == old(outWs.dimensions)
      invariant outWs.experimentInfos == old(outWs.experimentInfos)
      invariant outWs.coordinateSystem == old(outWs.coordinateSystem)
    {
      var signal := ws.signal[i];
      if Abs(signal) < SignalThreshold {
        i := i + 1;
        continue;
      }
      var centre := Centre(ws, i);
      outWs.InsertMDEvent(MDEvent(signal, ws.errorSquared[i], 0, 0, centre));
      i := i + 1;
    }
  }

  /** Output dimension constructor arguments: (name, id, units, min, max, nbins). */
  function OutputDimensions(dims: seq<Dimension>): seq<DimensionArgs>
  {
    seq(|dims|, i requires 0 <= i < |dims| =>
      DimensionArgs(dims[i].name, dims[i].id, dims[i].units,
                    dims[i].minimum, dims[i].maximum, dims[i].nbins))
  }

  /** convertToMDEvents up to the SliceMD step: rejects anything but a
    * histogram workspace, then builds the event workspace from the kept cells. */
  method ConvertToMDEvents(input: Workspace) returns (r: Result<MDEventWorkspace>)
    requires input.MDHistoWS? ==> input.histo.Valid()
    ensures r.Err? <==> !input.MDHistoWS?
    ensures r.Err? ==> r.error == RuntimeError("InputWorkspace is not a MDHistoWorkspace")
    ensures r.Ok? ==> var h, out := input.histo, r.value;
      fresh(out) && out.numDims == |h.dims| && out.eventType == "MDLeanEvent"
      && out.experimentInfos == (if |h.experimentInfos| > 0 then [h.experimentInfos[0]] else [])
      && out.coordinateSystem == h.coordinateSystem
      && out.dimensions == OutputDimensions(h.dims)
      && out.events == KeptEvents(h, h.NPoints())
  {
    if !input.MDHistoWS? {
      return Err(RuntimeError("InputWorkspace is not a MDHistoWorkspace"));
    }
    var ws := input.histo;
    var nDimensions := |ws.dims|;
    var outWs := new MDEventWorkspace(nDimensions, "MDLeanEvent");
    if |ws.experimentInfos| > 0 {
      outWs.AddExperimentInfo(ws.experimentInfos[0]);
    }
    outWs.SetCoordinateSystem(ws.coordinateSystem);
    var i := 0;
    while i < nDimensions
      invariant 0 <= i <= nDimensions
      invariant outWs.dimensions == OutputDimensions(ws.dims)[..i]
      invariant outWs.events == []
      invariant outWs.experimentInfos == (if |ws.experimentInfos| > 0 then [ws.experimentInfos[0]] else [])
      invariant outWs.coordinateSystem == ws.coordinateSystem
    {
      var dim := ws.dims[i];
      outWs.AddDimension(DimensionArgs(dim.name, dim.id, dim.units, dim.minimum, dim.maximum, dim.nbins));
      assert OutputDimensions(ws.dims)[..i + 1] == OutputDimensions(ws.dims)[..i] + [OutputDimensions(ws.dims)[i]];
      i := i + 1;
    }
    assert OutputDimensions(ws.dims)[..nDimensions] == OutputDimensions(ws.dims);
    AddEventsData(ws, outWs);
    return Ok(outWs);
  }

  /** Exactly the kept cells produce events: the event count is the number of
    * cells at or above the threshold, every event's |signal| reaches it, and
    * the events carry the kept cells' total signal. */
  lemma {:induction false} KeptEventsCountAndSignal(ws: HistoWorkspace, n: nat)
    requires ws.Valid() && n <= ws.NPoints()
    ensures |KeptEvents(ws, n)| == KeptCount(ws.signal, n)
    ensures forall e :: e in KeptEvents(ws, n) ==> Abs(e.signal) >= SignalThreshold
    ensures Sum(ConvertMDHistoToMDEventWorkspace.Signals(KeptEvents(ws, n))) == KeptSignal(ws.signal, n)
  {
    if n > 0 {
      KeptEventsCountAndSignal(ws, n - 1);
      var prev := KeptEvents(ws, n - 1);
      if Abs(ws.signal[n - 1]) >= SignalThreshold {
        var e := ConvertMDHistoToMDEventWorkspace.CellEvent(ws, n - 1);
        var all := prev + [e];
        assert ConvertMDHistoToMDEventWorkspace.Signals(all)[..|all| - 1]
               == ConvertMDHistoToMDEventWorkspace.Signals(prev);
      }
    }
  }

  /** When no cell is below the threshold the events are exactly those of the
    * plain conversion, one per cell. */
  lemma {:induction false} NoSkipMatchesPlainConversion(ws: HistoWorkspace, n: nat)
    requires ws.Valid() && n <= ws.NPoints()
    requires forall i :: 0 <= i < |ws.signal| ==> Abs(ws.signal[i]) >= SignalThreshold
    ensures KeptEvents(ws, n) == ConvertMDHistoToMDEventWorkspace.CellEvents(ws)[..n]
  {
    if n > 0 {
      NoSkipMatchesPlainConversion(ws, n - 1);
      var all := ConvertMDHistoToMDEventWorkspace.CellEvents(ws);
      assert all[..n] == all[..n - 1] + [all[n - 1]];
    }
  }

  // ---- grid and radii ----

  datatype GridSpec = GridSpec(boxSize: real, numBins: int, boxEdge: real)

  /** boxSize = 1/steps, numBins = int(2·maxHKL/boxSize) + 1,
    * boxEdge = maxHKL + boxSize/2; no grid when steps is 0. */
  function Grid(maxHKL: int, steps: int): Option<GridSpec>
  {
    if steps == 0 then None
    else
      var boxSize := 1.0 / (steps as real);
      Some(GridSpec(boxSize, Trunc((maxHKL as real) * 2.0 / boxSize) + 1,
                    (maxHKL as real) + boxSize / 2.0))
  }

  function Cube(x: real): real { x * x * x }

  /** Interior radius, background radius and the volume ratio of the
    * interior sphere to the background shell. */
  function RadInt(g: GridSpec): real requires g.numBins != 0 { g.boxEdge / (g.numBins as real) }
  function RadBkg(g: GridSpec): real requires g.numBins != 0 { 3.0 * RadInt(g) }
  function Ratio(radInt: real, radBkg: real): Double
  {
    Divide(Cube(radInt), Cube(radBkg) - Cube(radInt))
  }

  lemma TruncOfInt(k: int)
    ensures Trunc(k as real) == k
  {}

  /** The grid has 2·maxHKL·steps + 1 bins (odd, never zero), the interior
    * radius is half a box, and the background shell is 26 interior volumes. */
  lemma GridGeometry(maxHKL: int, steps: int)
    requires steps != 0
    ensures Grid(maxHKL, steps).Some?
    ensures var g := Grid(maxHKL, steps).value;
      g.numBins == 2 * maxHKL * steps + 1
      && RadInt(g) == g.boxSize / 2.0
      && Ratio(RadInt(g), RadBkg(g)) == Finite(1.0 / 26.0)
  {
    var g := Grid(maxHKL, steps).value;
    var s := steps as real;
    var m := maxHKL as real;
    assert g.boxSize == 1.0 / s;
    assert m * 2.0 / (1.0 / s) == ((2 * maxHKL * steps) as real);
    TruncOfInt(2 * maxHKL * steps);
    assert g.numBins == 2 * maxHKL * steps + 1;
    var nb := g.numBins as real;
    assert nb == 2.0 * m * s + 1.0;
    assert g.boxEdge == m + 1.0 / (2.0 * s);
    assert g.boxEdge * (2.0 * s) == nb;
    assert nb != 0.0;
    var r := RadInt(g);
    assert r * nb == g.boxEdge;
    assert r == 1.0 / (2.0 * s);
    assert r != 0.0;
    CubeRatio(r);
  }

  lemma CubeRatio(r: real)
    requires r != 0.0
    ensures Ratio(r, 3.0 * r) == Finite(1.0 / 26.0)
  {
    var c := r * r * r;
    assert c != 0.0;
    assert (3.0 * r) * (3.0 * r) == 9.0 * (r * r);
    assert Cube(3.0 * r) == 27.0 * c;
    assert Cube(3.0 * r) - Cube(r) == 26.0 * c;
    DivCancel(1.0, 26.0, c);
    assert c * 1.0 == c;
  }

  lemma MulNonZero(a: real, b: real)
    requires a != 0.0 && b != 0.0
    ensures a * b != 0.0
  {}

  /** (k·a)/(k·b) == a/b */
  lemma DivCancel(a: real, b: real, k: real)
    requires b != 0.0 && k != 0.0
    ensures (k * a) / (k * b) == a / b
  {
    var x := a / b;
    assert x * b == a;
    assert x * (k * b) == k * a;
  }

  /** The default MaxHKL 10 and Steps 4 give 81 bins with edges at ±10.125. */
  lemma DefaultGrid()
    ensures Grid(DefaultMaxHKL, DefaultSteps) == Some(GridSpec(0.25, 81, 10.125))
  {
    GridGeometry(DefaultMaxHKL, DefaultSteps);
  }

  // ---- background subtraction ----

  datatype Peak = Peak(intensity: real, sigmaIntensity: real)

  /** The per-peak quantities of the loop: interior values, shell-minus-interior
    * background values, and the squared sigmas. */
  datatype Quantities = Quantities(sample: real, norm: real, bkgSample: real, bkgNorm: real,
                                   e2sample: real, e2norm: real, e2bkgSample: real, e2bkgNorm: real)

  function PeakQuantities(interior: Peak, plusBkg: Peak, normInt: Peak, normBkg: Peak): Quantities
  {
    var e2sample := interior.sigmaIntensity * interior.sigmaIntensity;
    var e2norm := normInt.sigmaIntensity * normInt.sigmaIntensity;
    Quantities(interior.intensity, normInt.intensity,
               plusBkg.intensity - interior.intensity, normBkg.intensity - normInt.intensity,
               e2sample, e2norm,
               plusBkg.sigmaIntensity * plusBkg.sigmaIntensity - e2sample,
               normBkg.sigmaIntensity * normBkg.sigmaIntensity - e2norm)
  }

  function Intensity(q: Quantities, ratio: real): real
    requires q.norm != 0.0 && q.bkgNorm != 0.0
  {
    (q.sample / q.norm - ratio * q.bkgSample / q.bkgNorm) * 1000000.0
  }

  /** The argument of the square root in the sigma update, with the source's
    * operator precedence: `e2sample/norm*norm` is (e2sample/norm)·norm. */
  function SigmaArgumentAsWritten(q: Quantities, ratio: real): real
    requires q.norm != 0.0 && q.bkgNorm != 0.0
  {
    q.e2sample / q.norm * q.norm
    + q.e2norm * (q.sample / (q.norm * q.norm)) * (q.sample / (q.norm * q.norm))
    + ratio * ratio * (q.e2bkgSample / q.bkgNorm * q.bkgNorm
                       + q.e2bkgNorm * (q.bkgSample / (q.bkgNorm * q.bkgNorm)) * (q.bkgSample / (q.bkgNorm * q.bkgNorm)))
  }

  /** First-order variance of s/n given the squared errors of s and n. */
  function RatioVariance(e2s: real, e2n: real, s: real, n: real): real
    requires n != 0.0
  {
    e2s / (n * n) + e2n * (s / (n * n)) * (s / (n * n))
  }

  /** The variance of sample/norm − ratio·bkgSample/bkgNorm by first-order
    * error propagation, which the sigma expression evidently means. */
  function SigmaArgumentIntended(q: Quantities, ratio: real): real
    requires q.norm != 0.0 && q.bkgNorm != 0.0
  {
    RatioVariance(q.e2sample, q.e2norm, q.sample, q.norm)
    + ratio * ratio * RatioVariance(q.e2bkgSample, q.e2bkgNorm, q.bkgSample, q.bkgNorm)
  }

  /** The peak after the loop body: unchanged when either norm is zero. The
    * sigma is the square root of the propagated variance (the written
    * expression, SigmaArgumentAsWritten, drops the division by norm²). */
  function UpdatedPeak(p: Peak, q: Quantities, ratio: real, sqrt: real -> real): Peak
  {
    if q.bkgNorm != 0.0 && q.norm != 0.0 then
      Peak(Intensity(q, ratio), sqrt(SigmaArgumentIntended(q, ratio)) * 1000000.0)
    else p
  }

  /** The peak loop of exec: each predicted peak gets the background-subtracted
    * intensity and its sigma from the four integrations of the same peak. */
  method SubtractBackground(peaks: array<Peak>, interior: seq<Peak>, plusBkg: seq<Peak>,
                            normInt: seq<Peak>, normBkg: seq<Peak>, ratio: real, sqrt: real -> real)
    requires |interior| == |plusBkg| == |normInt| == |normBkg| == peaks.Length
    modifies peaks
    ensures forall i :: 0 <= i < peaks.Length ==>
      peaks[i] == UpdatedPeak(old(peaks[i]),
                              PeakQuantities(interior[i], plusBkg[i], normInt[i], normBkg[i]), ratio, sqrt)
  {
    var i := 0;
    while i < peaks.Length
      invariant 0 <= i <= peaks.Length
      invariant forall k :: 0 <= k < i ==>
        peaks[k] == UpdatedPeak(old(peaks[k]),
                                PeakQuantities(interior[k], plusBkg[k], normInt[k], normBkg[k]), ratio, sqrt)
      invariant forall k :: i <= k < peaks.Length ==> peaks[k] == old(peaks[k])
    {
      var q := PeakQuantities(interior[i], plusBkg[i], normInt[i], normBkg[i]);
      if q.bkgNorm != 0.0 && q.norm != 0.0 {
        var intensity := Intensity(q, ratio);
        var sigma := sqrt(SigmaArgumentIntended(q, ratio)) * 1000000.0;
        peaks[i] := Peak(intensity, sigma);
      }
      i := i + 1;
    }
  }

  /** Background subtraction is exact for a flat background: when the shell
    * holds the same signal per norm as the interior, the intensity is
    * (1 − ratio)·sample/norm·1e6. */
  lemma FlatBackground(q: Quantities, ratio: real)
    requires q.norm != 0.0 && q.bkgNorm != 0.0
    requires q.bkgSample / q.bkgNorm == q.sample / q.norm
    ensures Intensity(q, ratio) == (1.0 - ratio) * (q.sample / q.norm) * 1000000.0
  {
    assert ratio * q.bkgSample / q.bkgNorm == ratio * (q.bkgSample / q.bkgNorm);
  }

  /** The written sigma expression differs from the propagated variance: with
    * sample error² 1, norm 2 and every other term 0 it gives 1 instead of 1/4,
    * whatever the background-to-interior ratio. */
  lemma SigmaAsWrittenCounterexample(ratio: real)
    ensures SigmaArgumentAsWritten(Quantities(0.0, 2.0, 0.0, 1.0, 1.0, 0.0, 0.0, 0.0), ratio) == 1.0
    ensures SigmaArgumentIntended(Quantities(0.0, 2.0, 0.0, 1.0, 1.0, 0.0, 0.0, 0.0), ratio) == 0.25
  {}

  lemma DivIsUnique(a: real, b: real, x: real)
    requires b != 0.0 && x * b == a
    ensures a / b == x
  {}
  lemma DivMul(a: real, b: real)
    requires b != 0.0
    ensures (a / b) * b == a
  {}
  lemma Ring(x: real, e2: real, n: real, c: real)
    requires x * (n * n) == e2
    ensures x * ((c * n) * (c * n)) == c * c * e2
  {}
  lemma DivCancelSquares(e2: real, n: real, c: real)
    requires n != 0.0 && c != 0.0
    ensures (c * n) * (c * n) != 0.0 && n * n != 0.0
    ensures (c * c * e2) / ((c * n) * (c * n)) == e2 / (n * n)
  {
    MulNonZero(n, n);
    MulNonZero(c, n);
    MulNonZero(c * n, c * n);
    DivMul(e2, n * n);
    Ring(e2 / (n * n), e2, n, c);
    DivIsUnique(c * c * e2, (c * n) * (c * n), e2 / (n * n));
  }
  lemma Ring2(y: real, r: real, s: real, n: real, c: real)
    requires y * c == r && r * (n * n) == s
    ensures y * ((c * n) * (c * n)) == c * s
  {}
  lemma ScaledRatio(s: real, n: real, c: real)
    requires n != 0.0 && c != 0.0
    ensures (c * n) * (c * n) != 0.0 && n * n != 0.0
    ensures (c * s) / ((c * n) * (c * n)) == (s / (n * n)) / c
  {
    MulNonZero(n, n);
    MulNonZero(c, n);
    MulNonZero(c * n, c * n);
    DivMul(s, n * n);
    DivMul(s / (n * n), c);
    Ring2((s / (n * n)) / c, s / (n * n), s, n, c);
    DivIsUnique(c * s, (c * n) * (c * n), (s / (n * n)) / c);
  }
  lemma Ring3(e: real, y: real, r: real, c: real)
    requires y * c == r
    ensures (c * c * e) * y * y == e * r * r
  {}
  lemma PropagatedScale(e2n: real, s: real, n: real, c: real)
    requires n != 0.0 && c != 0.0
    ensures (c * n) * (c * n) != 0.0 && n * n != 0.0
    ensures (c * c * e2n) * ((c * s) / ((c * n) * (c * n))) * ((c * s) / ((c * n) * (c * n)))
            == e2n * (s / (n * n)) * (s / (n * n))
  {
    ScaledRatio(s, n, c);
    DivMul(s / (n * n), c);
    Ring3(e2n, (s / (n * n)) / c, s / (n * n), c);
  }

  /** The propagated variance of s/n depends only on the ratio: scaling s and
    * n by c ≠ 0 and their squared errors by c² leaves it unchanged. */
  lemma RatioVarianceScaleInvariant(e2s: real, e2n: real, s: real, n: real, c: real)
    requires n != 0.0 && c != 0.0
    ensures c * n != 0.0
    ensures RatioVariance(c * c * e2s, c * c * e2n, c * s, c * n) == RatioVariance(e2s, e2n, s, n)
  {
    MulNonZero(c, n);
    DivCancelSquares(e2s, n, c);
    PropagatedScale(e2n, s, n, c);
  }

  /** Hence the intended sigma argument is unchanged when the interior sample
    * and its norm (with their squared sigmas) are rescaled together. */
  lemma IntendedSigmaScaleInvariant(q: Quantities, ratio: real, c: real)
    requires q.norm != 0.0 && q.bkgNorm != 0.0 && c != 0.0
    ensures c * q.norm != 0.0
    ensures var q2 := q.(sample := c * q.sample, norm := c * q.norm,
                          e2sample := c * c * q.e2sample, e2norm := c * c * q.e2norm);
      SigmaArgumentIntended(q2, ratio) == SigmaArgumentIntended(q, ratio)
  {
    RatioVarianceScaleInvariant(q.e2sample, q.e2norm, q.sample, q.norm, c);
  }
}

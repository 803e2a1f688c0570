/** ConvertMDHistoToMDEventWorkspace: one event per histogram cell, carrying
  * the cell's signal, its squared error and its centre, in a new event
  * workspace with the same dimensions. */
module ConvertMDHistoToMDEventWorkspace {
  import opened Wrappers
  import opened MDHisto
  import opened MDEvents

  /** The event inserted for cell i: run 0, detector 0. */
  function CellEvent(ws: HistoWorkspace, i: nat): MDEvent
    requires ws.Valid() && i < ws.NPoints()
  {
    MDEvent(ws.signal[i], ws.errorSquared[i], 0, 0, Centre(ws, i))
  }

  /** The events of all cells, in linear-index order. */
  function CellEvents(ws: HistoWorkspace): seq<MDEvent>
    requires ws.Valid()
  {
    seq(ws.NPoints(), i requires 0 <= i < ws.NPoints() => CellEvent(ws, i))
  }

  /** Output dimension constructor arguments: (id, name, units, min, max, nbins). */
  function OutputDimensions(dims: seq<Dimension>): seq<DimensionArgs>
  {
    seq(|dims|, i requires 0 <= i < |dims| =>
      DimensionArgs(dims[i].id, dims[i].name, dims[i].units,
                    dims[i].minimum, dims[i].maximum, dims[i].nbins))
  }

  function Signals(events: seq<MDEvent>): seq<real>
  {
    seq(|events|, i requires 0 <= i < |events| => events[i].signal)
  }

  /** Appends the event of every cell, in order. */
  method AddEventsData(ws: HistoWorkspace, outWs: MDEventWorkspace)
    requires ws.Valid()
    modifies outWs
    ensures outWs.events == old(outWs.events) + CellEvents(ws)
    ensures outWs.dimensions == old(outWs.dimensions)
    ensures outWs.experimentInfos == old(outWs.experimentInfos)
    ensures outWs.coordinateSystem == old(outWs.coordinateSystem)
  {
    var n := ws.NPoints();
    var i := 0;
    while i < n
      invariant 0 <= i <= n
      invariant outWs.events == old(outWs.events) + CellEvents(ws)[..i]
      invariant outWs.dimensions == old(outWs.dimensions)
      invariant outWs.experimentInfos == old(outWs.experimentInfos)
      invariant outWs.coordinateSystem == old(outWs.coordinateSystem)
    {
      var signal := ws.signal[i];
      var errorSquared := ws.errorSquared[i];
      var centre := Centre(ws, i);
      outWs.InsertMDEvent(MDEvent(signal, errorSquared, 0, 0, centre));
      assert CellEvents(ws)[..i + 1] == CellEvents(ws)[..i] + [CellEvent(ws, i)];
      i := i + 1;
    }
    assert CellEvents(ws)[..n] == CellEvents(ws);
  }

  /** The algorithm: rejects anything but a histogram workspace, then builds
    * the event workspace (first experiment info if any, coordinate system,
    * dimensions in order, one event per cell). */
  method Exec(input: Workspace) returns (r: Result<MDEventWorkspace>)
    requires input.MDHistoWS? ==> input.histo.Valid()
    ensures r.Err? <==> !input.MDHistoWS?
    ensures r.Err? ==> r.error == RuntimeError("InputWorkspace is not a MDHistoWorkspace")
    ensures r.Ok? ==> var h, out := input.histo, r.value;
      fresh(out) && out.numDims == |h.dims| && out.eventType == "MDLeanEvent"
      && out.experimentInfos == (if |h.experimentInfos| > 0 then [h.experimentInfos[0]] else [])
      && out.coordinateSystem == h.coordinateSystem
      && out.dimensions == OutputDimensions(h.dims)
      && out.events == CellEvents(h)
  {
    if !input.MDHistoWS? {
      return Err(RuntimeError("InputWorkspace is not a MDHistoWorkspace"));
    }
    var ws := input.histo;
    var nDimensions := |ws.dims|;
    var outWs := new MDEventWorkspace(nDimensions, "MDLeanEvent");
    if |ws.experimentInfos| > 0 {
      outWs.AddExperimentInfo(ws.experimentInfos[0]);
    }
    outWs.SetCoordinateSystem(ws.coordinateSystem);
    var i := 0;
    while i < nDimensions
      invariant 0 <= i <= nDimensions
      invariant outWs.dimensions == OutputDimensions(ws.dims)[..i]
      invariant outWs.events == []
      invariant outWs.experimentInfos == (if |ws.experimentInfos| > 0 then [ws.experimentInfos[0]] else [])
      invariant outWs.coordinateSystem == ws.coordinateSystem
    {
      var dim := ws.dims[i];
      outWs.AddDimension(DimensionArgs(dim.id, dim.name, dim.units, dim.minimum, dim.maximum, dim.nbins));
      assert OutputDimensions(ws.dims)[..i + 1] == OutputDimensions(ws.dims)[..i] + [OutputDimensions(ws.dims)[i]];
      i := i + 1;
    }
    assert OutputDimensions(ws.dims)[..nDimensions] == OutputDimensions(ws.dims);
    AddEventsData(ws, outWs);
    return Ok(outWs);
  }

  /** One event per cell: the event count is the number of cells, and the
    * events' signals are exactly the cells' signals in order, so the total
    * signal is conserved. */
  lemma SignalConserved(ws: HistoWorkspace)
    requires ws.Valid()
    ensures |CellEvents(ws)| == ws.NPoints()
    ensures Signals(CellEvents(ws)) == ws.signal
    ensures Sum(Signals(CellEvents(ws))) == Sum(ws.signal)
  {
    var ev := CellEvents(ws);
    assert forall i :: 0 <= i < |ev| ==> Signals(ev)[i] == ws.signal[i];
  }

  /** Each event carries its cell's squared error, run 0 and detector 0, and
    * sits strictly inside the workspace box. */
  lemma {:induction false} EventsInsideBox(ws: HistoWorkspace, i: nat)
    requires ws.Valid() && i < ws.NPoints()
    ensures var e := CellEvents(ws)[i];
      e.errorSquared == ws.errorSquared[i] && e.runIndex == 0 && e.detectorId == 0
      && |e.centre| == |ws.dims|
      && forall d :: 0 <= d < |ws.dims| ==>
           ws.dims[d].minimum < e.centre[d] < ws.dims[d].maximum
  {
    CentreInsideBox(ws, i);
  }

  /** Each output dimension keeps the range and bin count of its input
    * dimension, in the same order. */
  lemma DimensionsKeepRanges(dims: seq<Dimension>)
    ensures |OutputDimensions(dims)| == |dims|
    ensures forall i :: 0 <= i < |dims| ==>
      OutputDimensions(dims)[i].minimum == dims[i].minimum
      && OutputDimensions(dims)[i].maximum == dims[i].maximum
      && OutputDimensions(dims)[i].nbins == dims[i].nbins
  {}

  /** Three dimensions of 11 bins give 1331 events. */
  lemma ElevenCubed(ws: HistoWorkspace)
    requires ws.Valid() && |ws.dims| == 3
    requires forall d :: 0 <= d < 3 ==> ws.dims[d].nbins == 11
    ensures |CellEvents(ws)| == 1331
  {
    assert ws.Shape() == [11, 11, 11];
    assert [11, 11, 11][..2] == [11, 11];
    assert [11, 11][..1] == [11];
    assert [11][..0] == [];
  }
}

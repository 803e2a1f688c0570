/** The multi-dimensional histogram workspace as the modelled algorithms read
  * it: dimensions with a range and a bin count, one signal / squared error /
  * event count per cell, cells laid out with dimension 0 varying fastest. */
module MDHisto {

  /** One axis of a histogram workspace. */
  datatype Dimension = Dimension(id: string, name: string, units: string,
                                 minimum: real, maximum: real, nbins: nat)
  {
    predicate Valid() { nbins >= 1 && minimum < maximum }
    function BinWidth(): real requires nbins >= 1 { (maximum - minimum) / (nbins as real) }
    /** An axis with one bin is an integrated dimension. */
    predicate Integrated() { nbins <= 1 }
  }

  datatype ExperimentInfo = ExperimentInfo(runNumber: int)

  datatype HistoWorkspace = HistoWorkspace(
    dims: seq<Dimension>,
    signal: seq<real>,
    errorSquared: seq<real>,
    numEvents: seq<real>,
    experimentInfos: seq<ExperimentInfo>,
    coordinateSystem: int)
  {
    predicate Valid()
    {
      (forall d :: 0 <= d < |dims| ==> dims[d].Valid())
      && |signal| == NPoints() && |errorSquared| == NPoints() && |numEvents| == NPoints()
    }
    function Shape(): seq<nat> { seq(|dims|, d requires 0 <= d < |dims| => dims[d].nbins) }
    function NPoints(): nat { Product(Shape()) }
  }

  /** The workspace kinds an algorithm property may hold. */
  datatype Workspace = MDHistoWS(histo: HistoWorkspace) | OtherWorkspace(kind: string)

  /** Product of the bin counts. */
  function Product(s: seq<nat>): nat
  {
    if |s| == 0 then 1 else Product(s[..|s| - 1]) * s[|s| - 1]
  }

  /** stride[i] is the product of the bin counts of the dimensions before i. */
  function Strides(nbins: seq<nat>): seq<nat>
  {
    seq(|nbins|, i requires 0 <= i < |nbins| => Product(nbins[..i]))
  }

  predicate AllPositive(s: seq<nat>) { forall k :: 0 <= k < |s| ==> s[k] >= 1 }

  /** Linear index of a multi-index. */
  function Linear(md: seq<nat>, strides: seq<nat>): nat
    requires |md| == |strides|
  {
    if |md| == 0 then 0
    else Linear(md[..|md| - 1], strides[..|md| - 1]) + md[|md| - 1] * strides[|md| - 1]
  }

  /** Multi-index of a linear index: the last dimension is divided out first,
    * the remainder passed on to the dimensions before it. */
  function MDIndexOf(index: nat, strides: seq<nat>): (md: seq<nat>)
    requires AllPositive(strides)
    ensures |md| == |strides|
  {
    if |strides| == 0 then []
    else
      var t := strides[|strides| - 1];
      MDIndexOf(index % t, strides[..|strides| - 1]) + [index / t]
  }

  lemma {:induction false} ProductPositive(s: seq<nat>)
    requires AllPositive(s)
    ensures Product(s) >= 1
  {
    if |s| > 0 {
      ProductPositive(s[..|s| - 1]);
      MulPositive(Product(s[..|s| - 1]), s[|s| - 1]);
    }
  }

  lemma MulPositive(a: nat, b: nat)
    requires a >= 1 && b >= 1
    ensures a * b >= 1
  {}

  lemma {:induction false} StridesFacts(nbins: seq<nat>)
    requires AllPositive(nbins)
    ensures AllPositive(Strides(nbins))
    ensures |nbins| > 0 ==> Strides(nbins)[..|nbins| - 1] == Strides(nbins[..|nbins| - 1])
    ensures |nbins| > 0 ==> Strides(nbins)[0] == 1
  {
    var st := Strides(nbins);
    forall k | 0 <= k < |nbins| ensures st[k] >= 1 {
      ProductPositive(nbins[..k]);
    }
    if |nbins| > 0 {
      var p := nbins[..|nbins| - 1];
      forall k | 0 <= k < |p| ensures st[k] == Strides(p)[k] {
        assert p[..k] == nbins[..k];
      }
      assert nbins[..0] == [];
    }
  }

  lemma DivMod(index: nat, t: nat)
    requires t >= 1
    ensures index % t + (index / t) * t == index
    ensures index % t < t
  {}

  lemma DivBound(index: nat, t: nat, n: nat)
    requires t >= 1 && index < t * n
    ensures index / t < n
  {
    if index / t >= n {
      assert (index / t) * t >= n * t;
      DivMod(index, t);
    }
  }

  lemma DivModUnique(a: nat, b: nat, t: nat)
    requires 0 <= a < t
    ensures (a + b * t) / t == b && (a + b * t) % t == a
  {
    var q, r := (a + b * t) / t, (a + b * t) % t;
    DivMod(a + b * t, t);
    assert q * t + r == a + b * t;
    if q > b {
      MulMono(b + 1, q, t);
      assert false;
    } else if q < b {
      MulMono(q + 1, b, t);
      assert false;
    }
  }

  lemma MulMono(a: nat, b: nat, t: nat)
    requires a <= b
    ensures a * t <= b * t
  {}

  /** Round trip from linear index to multi-index and back: every component is
    * within its bin count and the strides recombine it into the same index. */
  lemma {:induction false} MDIndexRoundTrip(index: nat, nbins: seq<nat>)
    requires AllPositive(nbins)
    requires index < Product(nbins)
    ensures AllPositive(Strides(nbins))
    ensures var md := MDIndexOf(index, Strides(nbins));
      |md| == |nbins|
      && (forall k :: 0 <= k < |nbins| ==> md[k] < nbins[k])
      && Linear(md, Strides(nbins)) == index
  {
    StridesFacts(nbins);
    var st := Strides(nbins);
    var md := MDIndexOf(index, st);
    var n := |nbins|;
    if n > 0 {
      var p := nbins[..n - 1];
      var t := st[n - 1];
      assert t == Product(p);
      assert AllPositive(p);
      DivMod(index, t);
      MDIndexRoundTrip(index % t, p);
      DivBound(index, t, nbins[n - 1]);
      var rest := MDIndexOf(index % t, st[..n - 1]);
      assert md == rest + [index / t];
      assert md[..n - 1] == rest;
      forall k | 0 <= k < n ensures md[k] < nbins[k] {
        if k < n - 1 { assert md[k] == rest[k]; }
      }
    }
  }

  /** The other direction: a multi-index within the bin counts has a linear
    * index below the number of cells, and decomposing it gives it back. */
  lemma {:induction false} LinearRoundTrip(md: seq<nat>, nbins: seq<nat>)
    requires AllPositive(nbins) && |md| == |nbins|
    requires forall k :: 0 <= k < |nbins| ==> md[k] < nbins[k]
    ensures AllPositive(Strides(nbins))
    ensures Linear(md, Strides(nbins)) < Product(nbins)
    ensures MDIndexOf(Linear(md, Strides(nbins)), Strides(nbins)) == md
  {
    StridesFacts(nbins);
    var st := Strides(nbins);
    var n := |nbins|;
    if n > 0 {
      var p := nbins[..n - 1];
      var t := st[n - 1];
      assert t == Product(p);
      assert AllPositive(p);
      var pre := md[..n - 1];
      LinearRoundTrip(pre, p);
      var a := Linear(pre, st[..n - 1]);
      var b := md[n - 1];
      assert Linear(md, st) == a + b * t;
      MulMono(b, nbins[n - 1] - 1, t);
      assert (nbins[n - 1] - 1) * t + t == t * nbins[n - 1];
      DivModUnique(a, b, t);
      assert md == pre + [b];
    }
  }

  /** Centre of cell `i`: along each dimension, the middle of the bin that
    * the cell's multi-index selects. */
  function Centre(ws: HistoWorkspace, i: nat): (c: seq<real>)
    requires ws.Valid() && i < ws.NPoints()
  {
    AllPositiveShape(ws);
    StridesFacts(ws.Shape());
    var md := MDIndexOf(i, Strides(ws.Shape()));
    seq(|ws.dims|, d requires 0 <= d < |ws.dims| =>
      ws.dims[d].minimum + ((md[d] as real) + 0.5) * ws.dims[d].BinWidth())
  }

  lemma AllPositiveShape(ws: HistoWorkspace)
    requires ws.Valid()
    ensures AllPositive(ws.Shape())
  {}

  lemma BinCentreInside(lo: real, hi: real, n: nat, k: nat)
    requires lo < hi && k < n
    ensures lo < lo + ((k as real) + 0.5) * ((hi - lo) / (n as real)) < hi
  {
    assert (n as real) > 0.0;
    var w := (hi - lo) / (n as real);
    assert w > 0.0;
    var m := (n as real) * w;
    assert m == hi - lo;
    var x := ((k as real) + 0.5) * w;
    assert (k as real) + 0.5 < n as real;
    RealMulStrict((k as real) + 0.5, n as real, w);
    assert x < m;
    assert x > 0.0;
  }

  lemma RealMulStrict(a: real, b: real, w: real)
    requires a < b && w > 0.0
    ensures a * w < b * w
  {
    assert (b - a) * w > 0.0;
  }

  /** Every cell centre lies strictly inside the workspace's box. */
  lemma CentreInsideBox(ws: HistoWorkspace, i: nat)
    requires ws.Valid() && i < ws.NPoints()
    ensures |Centre(ws, i)| == |ws.dims|
    ensures forall d :: 0 <= d < |ws.dims| ==>
      ws.dims[d].minimum < Centre(ws, i)[d] < ws.dims[d].maximum
  {
    AllPositiveShape(ws);
    MDIndexRoundTrip(i, ws.Shape());
    var md := MDIndexOf(i, Strides(ws.Shape()));
    forall d | 0 <= d < |ws.dims|
      ensures ws.dims[d].minimum < Centre(ws, i)[d] < ws.dims[d].maximum
    {
      BinCentreInside(ws.dims[d].minimum, ws.dims[d].maximum, ws.dims[d].nbins, md[d]);
    }
  }

  /** Sum of a sequence of reals. */
  function Sum(s: seq<real>): real
  {
    if |s| == 0 then 0.0 else Sum(s[..|s| - 1]) + s[|s| - 1]
  }
}

/** The event workspace the conversions fill: dimensions added one by one,
  * events appended through an inserter. */
module MDEvents {
  import opened MDHisto

  /** The arguments given to the output dimension's constructor, in the order
    * the caller passes them (the constructor itself is not part of this model). */
  datatype DimensionArgs = DimensionArgs(first: string, second: string, units: string,
                                         minimum: real, maximum: real, nbins: nat)

  /** The arguments of one inserted event: signal, squared error, run index,
    * detector id and coordinates. */
  datatype MDEvent = MDEvent(signal: real, errorSquared: real, runIndex: int,
                             detectorId: int, centre: seq<real>)

  class MDEventWorkspace {
    const numDims: nat
    const eventType: string
    var dimensions: seq<DimensionArgs>
    var events: seq<MDEvent>
    var experimentInfos: seq<ExperimentInfo>
    var coordinateSystem: int

    /** An empty workspace of `nd` dimensions (MDEventFactory::CreateMDWorkspace). */
    constructor (nd: nat, eventType: string)
      ensures numDims == nd && this.eventType == eventType
      ensures dimensions == [] && events == [] && experimentInfos == [] && coordinateSystem == 0
    {
      numDims := nd;
      this.eventType := eventType;
      dimensions := [];
      events := [];
      experimentInfos := [];
      coordinateSystem := 0;
    }

    method AddDimension(d: DimensionArgs)
      modifies this
      ensures dimensions == old(dimensions) + [d]
      ensures events == old(events) && experimentInfos == old(experimentInfos)
      ensures coordinateSystem == old(coordinateSystem)
    {
      dimensions := dimensions + [d];
    }

    method AddExperimentInfo(ei: ExperimentInfo)
      modifies this
      ensures experimentInfos == old(experimentInfos) + [ei]
      ensures events == old(events) && dimensions == old(dimensions)
      ensures coordinateSystem == old(coordinateSystem)
    {
      experimentInfos := experimentInfos + [ei];
    }

    method SetCoordinateSystem(c: int)
      modifies this
      ensures coordinateSystem == c
      ensures events == old(events) && dimensions == old(dimensions)
      ensures experimentInfos == old(experimentInfos)
    {
      coordinateSystem := c;
    }

    method InsertMDEvent(e: MDEvent)
      modifies this
      ensures events == old(events) + [e]
      ensures dimensions == old(dimensions) && experimentInfos == old(experimentInfos)
      ensures coordinateSystem == old(coordinateSystem)
    {
      events := events + [e];
    }
  }
}

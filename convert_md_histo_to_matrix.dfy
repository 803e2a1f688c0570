/** Flattening of a multi-dimensional histogram workspace into a matrix
  * workspace: a 1-D profile along one axis through the box's centre, or a
  * 2-D image over the first two non-integrated dimensions. */
module ConvertMDHistoToMatrixWorkspace {
  import opened Wrappers
  import opened MDHisto
  import opened MDProduct

  // ---- the 1-D profile (exec) ----

  /** Name of the profile axis: the first non-integrated dimension, or
    * dimension 0 when every dimension is integrated. */
  function AlongDim(dims: seq<Dimension>): (r: Result<string>)
    ensures r.Err? <==> |dims| == 0
    ensures |NonIntegrated(dims)| > 0 ==> r == Ok(NonIntegrated(dims)[0].name)
    ensures |dims| > 0 && |NonIntegrated(dims)| == 0 ==> r == Ok(dims[0].name)
  {
    var nonInteg := NonIntegrated(dims);
    if |nonInteg| > 0 then Ok(nonInteg[0].name)
    else if |dims| == 0 then Err(OutOfRange("Dimension index out of range"))
    else Ok(dims[0].name)
  }

  /** Index of the last dimension whose id equals `name` (the loop keeps
    * overwriting it), 0 when there is none. */
  function LastIdMatch(dims: seq<Dimension>, name: string): (r: nat)
    ensures (exists k :: 0 <= k < |dims| && dims[k].id == name) ==>
              r < |dims| && dims[r].id == name
              && forall k :: r < k < |dims| ==> dims[k].id != name
    ensures (forall k :: 0 <= k < |dims| ==> dims[k].id != name) ==> r == 0
  {
    if |dims| == 0 then 0
    else if dims[|dims| - 1].id == name then |dims| - 1
    else LastIdMatch(dims[..|dims| - 1], name)
  }

  function Midpoint(d: Dimension): real { (d.maximum + d.minimum) / 2.0 }

  /** The ends of the line along one dimension: the dimension whose id
    * equals the profile name runs from its minimum to its maximum, every
    * other one is pinned at its midpoint. */
  predicate LineEndsAlong(dim: Dimension, alongDim: string, start: real, end: real)
  {
    if dim.id == alongDim then start == dim.minimum && end == dim.maximum
    else start == Midpoint(dim) && end == start
  }

  /** The start/end loop over every dimension. */
  method LineEnds(dims: seq<Dimension>, alongDim: string)
    returns (start: seq<real>, end: seq<real>, id: nat)
    ensures |start| == |end| == |dims|
    ensures forall d :: 0 <= d < |dims| ==> LineEndsAlong(dims[d], alongDim, start[d], end[d])
    ensures id == LastIdMatch(dims, alongDim)
  {
    start := [];
    end := [];
    id := 0;
    var d := 0;
    while d < |dims|
      invariant 0 <= d <= |dims| && |start| == |end| == d
      invariant forall k :: 0 <= k < d ==> LineEndsAlong(dims[k], alongDim, start[k], end[k])
      invariant id == LastIdMatch(dims[..d], alongDim)
    {
      LastIdMatchStep(dims, alongDim, d);
      if dims[d].id == alongDim {
        start := start + [dims[d].minimum];
        end := end + [dims[d].maximum];
        id := d;
      } else {
        var mid := Midpoint(dims[d]);
        start := start + [mid];
        end := end + [mid];
      }
      d := d + 1;
    }
    LastIdMatchWhole(dims, alongDim);
  }

  lemma LastIdMatchWhole(dims: seq<Dimension>, name: string)
    ensures LastIdMatch(dims[..|dims|], name) == LastIdMatch(dims, name)
  {
    assert dims[..|dims|] == dims;
  }

  lemma LastIdMatchStep(dims: seq<Dimension>, name: string, d: nat)
    requires d < |dims|
    ensures LastIdMatch(dims[..d + 1], name)
         == if dims[d].id == name then d else LastIdMatch(dims[..d], name)
  {
    assert dims[..d + 1][..d] == dims[..d];
  }

  /** On valid dimensions the line is degenerate along exactly the
    * dimensions whose id differs from the profile name. */
  lemma LineEndsDiffer(dims: seq<Dimension>, alongDim: string, start: seq<real>, end: seq<real>, d: nat)
    requires d < |dims| && dims[d].Valid() && |start| == |end| == |dims|
    requires LineEndsAlong(dims[d], alongDim, start[d], end[d])
    ensures start[d] < end[d] <==> dims[d].id == alongDim
    ensures start[d] == end[d] <==> dims[d].id != alongDim
  {}

  /** When ids coincide with names, the profile runs along the first
    * non-integrated dimension. */
  lemma ProfileAlongFirstNonIntegrated(dims: seq<Dimension>)
    requires forall k :: 0 <= k < |dims| ==> dims[k].id == dims[k].name
    requires |NonIntegrated(dims)| > 0
    ensures AlongDim(dims).Ok?
    ensures exists k :: 0 <= k < |dims| && dims[k].id == AlongDim(dims).value && !dims[k].Integrated()
  {
    var nd := NonIntegrated(dims)[0];
    assert nd in dims;
    var k :| 0 <= k < |dims| && dims[k] == nd;
    assert dims[k].id == AlongDim(dims).value;
  }

  // ---- the normalization property ----

  datatype Normalization = NoNormalization | VolumeNormalization | NumEventsNormalization

  /** The property's string mapped to a policy; any unknown string is treated
    * as no normalization. */
  function NormalizationOf(s: string): (r: Normalization)
    ensures s == "VolumeNormalization" <==> r == VolumeNormalization
    ensures s == "NumEventsNormalization" <==> r == NumEventsNormalization
    ensures s != "VolumeNormalization" && s != "NumEventsNormalization" <==> r == NoNormalization
  {
    if s == "NoNormalization" then NoNormalization
    else if s == "VolumeNormalization" then VolumeNormalization
    else if s == "NumEventsNormalization" then NumEventsNormalization
    else NoNormalization
  }

  /** The allowed values of the property. */
  function NormalizationName(n: Normalization): string
  {
    match n
    case NoNormalization => "NoNormalization"
    case VolumeNormalization => "VolumeNormalization"
    case NumEventsNormalization => "NumEventsNormalization"
  }

  /** Every policy survives the trip through its property string. */
  lemma NormalizationNameRoundTrip(n: Normalization)
    ensures NormalizationOf(NormalizationName(n)) == n
  {}

  // ---- transform to the original workspace ----

  /** Which coordinate transform maps the line into the original workspace:
    * the null (identity) transform, or the transform at an index. */
  datatype TransformChoice = NullTransform(numDims: nat) | TransformToOriginal(index: nat)

  function ChooseTransform(numberTransformsToOriginal: nat, numDims: nat): (r: TransformChoice)
    ensures numberTransformsToOriginal == 0 <==> r == NullTransform(numDims)
    ensures numberTransformsToOriginal > 0 ==> r == TransformToOriginal(numberTransformsToOriginal - 1)
  {
    if numberTransformsToOriginal > 0 then TransformToOriginal(numberTransformsToOriginal - 1)
    else NullTransform(numDims)
  }

  /** start + dir·x */
  function PointOnLine(start: seq<real>, dir: seq<real>, x: real): (p: seq<real>)
    requires |start| == |dir|
    ensures |p| == |start|
  {
    seq(|start|, d requires 0 <= d < |start| => start[d] + dir[d] * x)
  }

  /** The x loop of exec: each profile position is mapped into the original
    * workspace and its coordinate along the profile dimension kept. */
  method ProfileX(xs: seq<real>, start: seq<real>, dir: seq<real>,
                  transform: seq<real> -> seq<real>, id: nat) returns (out: array<real>)
    requires |start| == |dir| && id < |start|
    requires forall v: seq<real> {:trigger transform(v)} :: |v| == |start| ==> id < |transform(v)|
    ensures fresh(out) && out.Length == |xs|
    ensures forall i :: 0 <= i < |xs| ==> out[i] == transform(PointOnLine(start, dir, xs[i]))[id]
  {
    out := new real[|xs|];
    var i := 0;
    while i < |xs|
      invariant 0 <= i <= |xs|
      invariant forall k :: 0 <= k < i ==> out[k] == transform(PointOnLine(start, dir, xs[k]))[id]
    {
      var wsCoord := PointOnLine(start, dir, xs[i]);
      var inTarget := transform(wsCoord);
      out[i] := inTarget[id];
      i := i + 1;
    }
  }

  /** The unit vector along dimension `id`. */
  function Axis(n: nat, id: nat): seq<real>
  {
    seq(n, d requires 0 <= d < n => if d == id then 1.0 else 0.0)
  }

  /** With the null transform and the line running along the profile
    * dimension, the output X is the line's start plus the plotted position. */
  lemma NullTransformProfile(start: seq<real>, id: nat, x: real)
    requires id < |start|
    ensures PointOnLine(start, Axis(|start|, id), x)[id] == start[id] + x
    ensures forall d :: 0 <= d < |start| && d != id ==> PointOnLine(start, Axis(|start|, id), x)[d] == start[d]
  {}

  /** end − start */
  function Diff(start: seq<real>, end: seq<real>): (r: seq<real>)
    requires |start| == |end|
    ensures |r| == |start|
  {
    seq(|start|, d requires 0 <= d < |start| => end[d] - start[d])
  }

  function SumSquares(v: seq<real>): real
  {
    if |v| == 0 then 0.0 else SumSquares(v[..|v| - 1]) + v[|v| - 1] * v[|v| - 1]
  }

  /** The vector divided by its length. */
  function Normalised(v: seq<real>, length: real): (r: seq<real>)
    requires length != 0.0
    ensures |r| == |v|
  {
    seq(|v|, d requires 0 <= d < |v| => v[d] / length)
  }

  /** Walking the line's length along its unit direction from start arrives
    * at end: the direction exec uses does point from start to end. */
  lemma UnitDirectionReachesEnd(start: seq<real>, end: seq<real>, length: real)
    requires |start| == |end| && length != 0.0
    ensures PointOnLine(start, Normalised(Diff(start, end), length), length) == end
  {
    var dir := Normalised(Diff(start, end), length);
    forall d | 0 <= d < |start|
      ensures PointOnLine(start, dir, length)[d] == end[d]
    {
      assert dir[d] * length == end[d] - start[d];
    }
  }

  /** The 1-D output: one spectrum whose X comes from the transform loop and
    * whose Y and E are the line plot's, labelled with the profile name. An X
    * value is NonFinite when the line has zero length, where normalising
    * the direction divides 0 by 0. */
  datatype Profile = Profile(x: seq<Double>, y: seq<real>, e: seq<real>, xLabel: string, yLabel: string)

  /** exec: the line plot itself (X, Y, E along the line) comes from the
    * workspace and is given; the rest is this algorithm's bookkeeping. The
    * direction of the line is end − start divided by its length, the
    * square root of its sum of squares. */
  method Exec(ws: HistoWorkspace, normalizationProperty: string,
              plotX: seq<real>, plotY: seq<real>, plotE: seq<real>,
              sqrt: real -> real, transform: seq<real> -> seq<real>)
    returns (r: Result<Profile>, start: seq<real>, end: seq<real>, norm: Normalization)
    requires |ws.dims| > 0 ==> forall v: seq<real> {:trigger transform(v)} :: |v| == |ws.dims| ==>
      LastIdMatch(ws.dims, AlongDim(ws.dims).value) < |transform(v)|
    ensures r.Err? <==> |ws.dims| == 0
    ensures r.Ok? ==>
      var along := AlongDim(ws.dims).value;
      var id := LastIdMatch(ws.dims, along);
      norm == NormalizationOf(normalizationProperty)
      && |start| == |end| == |ws.dims|
      && (forall d :: 0 <= d < |ws.dims| ==>
            if ws.dims[d].id == along then start[d] == ws.dims[d].minimum && end[d] == ws.dims[d].maximum
            else start[d] == Midpoint(ws.dims[d]) && end[d] == start[d])
      && r.value.y == plotY && r.value.e == plotE
      && |r.value.x| == |plotX|
      && var length := sqrt(SumSquares(Diff(start, end)));
      (length == 0.0 ==> forall i :: 0 <= i < |plotX| ==> r.value.x[i] == NonFinite)
      && (length != 0.0 ==> forall i :: 0 <= i < |plotX| ==>
            r.value.x[i] == Finite(transform(PointOnLine(start, Normalised(Diff(start, end), length), plotX[i]))[id]))
      && r.value.xLabel == along && r.value.yLabel == "Signal"
  {
    norm := NormalizationOf(normalizationProperty);
    var alongDim := AlongDim(ws.dims);
    if alongDim.Err? {
      return Err(alongDim.error), [], [], norm;
    }
    var along := alongDim.value;
    var id;
    start, end, id := LineEnds(ws.dims, along);
    assert id < |ws.dims| by {
      if exists k :: 0 <= k < |ws.dims| && ws.dims[k].id == along {
      } else {
        assert id == 0;
      }
    }
    var diff := Diff(start, end);
    var length := sqrt(SumSquares(diff));
    if length == 0.0 {
      r := Ok(Profile(seq(|plotX|, i => NonFinite), plotY, plotE, along, "Signal"));
    } else {
      var dir := Normalised(diff, length);
      var xs := ProfileX(plotX, start, dir, transform, id);
      var x := xs[..];
      r := Ok(Profile(seq(|x|, i requires 0 <= i < |x| => Finite(x[i])), plotY, plotE, along, "Signal"));
    }
  }

  // ---- the 2-D image (make2DWorkspace) ----

  /** The factor a cell's signal and squared error are both multiplied by:
    * the inverse volume, 1/n for n events (1 for an empty cell), or none. */
  function Factor(norm: Normalization, inverseVolume: real, numEvents: real): real
  {
    match norm
    case NoNormalization => 1.0
    case VolumeNormalization => inverseVolume
    case NumEventsNormalization => if numEvents != 0.0 then 1.0 / numEvents else 1.0
  }

  /** The signal and squared error of one cell after normalization. */
  function Normalized(norm: Normalization, signal: real, errorSquared: real,
                      inverseVolume: real, numEvents: real): (real, real)
  {
    if norm == NoNormalization then (signal, errorSquared)
    else
      var f := Factor(norm, inverseVolume, numEvents);
      (signal * f, errorSquared * f)
  }

  /** Without normalization the cell is copied; with volume normalization it
    * is restored by dividing by the inverse volume. */
  lemma NoAndVolumeNormalization(signal: real, errorSquared: real, inverseVolume: real, numEvents: real)
    ensures Normalized(NoNormalization, signal, errorSquared, inverseVolume, numEvents) == (signal, errorSquared)
    ensures inverseVolume != 0.0 ==>
      var (s, e) := Normalized(VolumeNormalization, signal, errorSquared, inverseVolume, numEvents);
      s / inverseVolume == signal && e / inverseVolume == errorSquared
  {}

  /** Event-count normalization is undone by multiplying back by the count;
    * an empty cell is left as it is. */
  lemma NumEventsNormalizationInverse(signal: real, errorSquared: real, inverseVolume: real, numEvents: real)
    ensures var (s, e) := Normalized(NumEventsNormalization, signal, errorSquared, inverseVolume, numEvents);
      (numEvents != 0.0 ==> s * numEvents == signal && e * numEvents == errorSquared)
      && (numEvents == 0.0 ==> s == signal && e == errorSquared)
  {
    if numEvents != 0.0 {
      var f := 1.0 / numEvents;
      assert f * numEvents == 1.0;
      assert signal * f * numEvents == signal * (f * numEvents);
      assert errorSquared * f * numEvents == errorSquared * (f * numEvents);
    }
  }

  /** Bin boundaries of a dimension: min + k·width. */
  function Edge(d: Dimension, k: nat): real requires d.nbins >= 1
  {
    d.minimum + (k as real) * d.BinWidth()
  }

  /** The x loop of make2DWorkspace: x starts at the minimum and grows by the
    * bin width, giving nbins + 1 edges. */
  method BinEdges(d: Dimension) returns (xs: array<real>)
    requires d.nbins >= 1
    ensures fresh(xs) && xs.Length == d.nbins + 1
    ensures forall k :: 0 <= k < xs.Length ==> xs[k] == Edge(d, k)
  {
    xs := new real[d.nbins + 1];
    var dx := d.BinWidth();
    var x := d.minimum;
    var k := 0;
    while k < xs.Length
      invariant 0 <= k <= xs.Length
      invariant x == Edge(d, k)
      invariant forall i :: 0 <= i < k ==> xs[i] == Edge(d, i)
    {
      xs[k] := x;
      x := x + dx;
      k := k + 1;
    }
  }

  /** The edges of a valid dimension run from its minimum to its maximum. */
  lemma EdgesSpanDimension(d: Dimension)
    requires d.Valid()
    ensures Edge(d, 0) == d.minimum && Edge(d, d.nbins) == d.maximum
  {
    var n := d.nbins as real;
    assert n * ((d.maximum - d.minimum) / n) == d.maximum - d.minimum;
  }

  /** Linear index of image cell (i, j). */
  function CellIndex(i: nat, j: nat, xStride: nat, yStride: nat): nat
  {
    i * yStride + j * xStride
  }

  /** A multi-index that is i along dimension y, j along x and 0 elsewhere. */
  function PlaneIndex(n: nat, x: nat, y: nat, i: nat, j: nat): seq<nat>
  {
    seq(n, k requires 0 <= k < n => if k == y then i else if k == x then j else 0)
  }

  lemma {:induction false} LinearOfPlaneIndex(n: nat, x: nat, y: nat, i: nat, j: nat, st: seq<nat>)
    requires x != y && |st| == n
    ensures Linear(PlaneIndex(n, x, y, i, j), st)
            == (if y < n then i * st[y] else 0) + (if x < n then j * st[x] else 0)
  {
    if n > 0 {
      var md := PlaneIndex(n, x, y, i, j);
      assert md[..n - 1] == PlaneIndex(n - 1, x, y, i, j);
      LinearOfPlaneIndex(n - 1, x, y, i, j, st[..n - 1]);
    }
  }

  /** Every image cell reads a cell of the workspace: the index of (i, j) is
    * below the number of cells whenever i and j are below the bin counts of
    * two distinct dimensions. */
  lemma CellIndexInRange(shape: seq<nat>, x: nat, y: nat, i: nat, j: nat)
    requires AllPositive(shape) && x < |shape| && y < |shape| && x != y
    requires i < shape[y] && j < shape[x]
    ensures AllPositive(Strides(shape))
    ensures CellIndex(i, j, Strides(shape)[x], Strides(shape)[y]) < Product(shape)
  {
    var md := PlaneIndex(|shape|, x, y, i, j);
    LinearRoundTrip(md, shape);
    LinearOfPlaneIndex(|shape|, x, y, i, j, Strides(shape));
  }

  /** The image: ny rows of nx values, its shared x edges and the y axis. */
  datatype ImageAxes = ImageAxes(xLabel: string, yAxis: seq<real>, yLabel: string, yUnitLabel: string)

  predicate ImageCell(ws: HistoWorkspace, norm: Normalization, inverseVolume: real,
                      sqrt: real -> real, lin: nat, y: real, e: real)
  {
    lin < |ws.signal| && lin < |ws.errorSquared| && lin < |ws.numEvents|
    && var (s, e2) := Normalized(norm, ws.signal[lin], ws.errorSquared[lin], inverseVolume, ws.numEvents[lin]);
    y == s && e == sqrt(e2)
  }

  /** The two image axes: the first two non-integrated dimensions, their
    * positions in the workspace and their strides. */
  datatype ImagePlan = ImagePlan(xDim: Dimension, yDim: Dimension, xIndex: nat, yIndex: nat,
                                 xStride: nat, yStride: nat)

  function PlanOf(ws: HistoWorkspace): (p: ImagePlan)
    requires ws.Valid() && |NonIntegrated(ws.dims)| >= 2
    ensures p.xDim == NonIntegrated(ws.dims)[0] && p.yDim == NonIntegrated(ws.dims)[1]
    ensures IndexById(ws.dims, p.xDim.id) == Some(p.xIndex) && IndexById(ws.dims, p.yDim.id) == Some(p.yIndex)
    ensures p.xIndex < |ws.dims| && p.yIndex < |ws.dims|
    ensures p.xStride == Strides(ws.Shape())[p.xIndex] && p.yStride == Strides(ws.Shape())[p.yIndex]
  {
    var xDim := NonIntegrated(ws.dims)[0];
    var yDim := NonIntegrated(ws.dims)[1];
    IndexOfPresent(ws.dims, xDim);
    IndexOfPresent(ws.dims, yDim);
    var xIndex := IndexById(ws.dims, xDim.id).value;
    var yIndex := IndexById(ws.dims, yDim.id).value;
    ImagePlan(xDim, yDim, xIndex, yIndex, Strides(ws.Shape())[xIndex], Strides(ws.Shape())[yIndex])
  }

  /** A dimension of the workspace is found by its id, at the first
    * position holding that id. */
  lemma IndexOfPresent(dims: seq<Dimension>, d: Dimension)
    requires d in dims
    ensures IndexById(dims, d.id).Some?
  {
    var k :| 0 <= k < |dims| && dims[k] == d;
  }

  /** With unique ids the two image axes are found at their own, distinct
    * positions. */
  lemma PlanOfUniqueIds(ws: HistoWorkspace)
    requires ws.Valid() && UniqueIds(ws.dims) && |NonIntegrated(ws.dims)| >= 2
    ensures var p := PlanOf(ws);
      p.xIndex != p.yIndex && ws.dims[p.xIndex] == p.xDim && ws.dims[p.yIndex] == p.yDim
  {
    var p := PlanOf(ws);
    NonIntegratedIsSubsequence(ws.dims);
    IndexInDims(ws.dims, p.xDim);
    IndexInDims(ws.dims, p.yDim);
  }

  /** Every cell (i, j) of the image reads inside the workspace's arrays.
    * getDimensionIndexById takes the first dimension with the id, so with
    * repeated ids the strides may belong to other dimensions and the loop
    * of make2DWorkspace then reads past the end of the signal array. */
  predicate ImageReadsInside(ws: HistoWorkspace, p: ImagePlan)
  {
    forall i: nat, j: nat :: i < p.yDim.nbins && j < p.xDim.nbins ==>
      CellIndex(i, j, p.xStride, p.yStride) < ws.NPoints()
  }

  /** With unique ids every image cell reads inside the workspace. */
  lemma UniqueIdsImageInside(ws: HistoWorkspace)
    requires ws.Valid() && UniqueIds(ws.dims) && |NonIntegrated(ws.dims)| >= 2
    ensures ImageReadsInside(ws, PlanOf(ws))
  {
    var p := PlanOf(ws);
    PlanOfUniqueIds(ws);
    AllPositiveShape(ws);
    forall i: nat, j: nat | i < p.yDim.nbins && j < p.xDim.nbins
      ensures CellIndex(i, j, p.xStride, p.yStride) < ws.NPoints()
    {
      CellIndexInRange(ws.Shape(), p.xIndex, p.yIndex, i, j);
    }
  }

  /** A dimension of a workspace with unique ids is found by its id at its
    * own position. */
  lemma IndexInDims(dims: seq<Dimension>, d: Dimension)
    requires UniqueIds(dims) && d in dims
    ensures IndexById(dims, d.id).Some? && dims[IndexById(dims, d.id).value] == d
  {
    var k :| 0 <= k < |dims| && dims[k] == d;
    IndexOfMember(dims, k);
  }

  /** Rows [0, rows) of the image hold the normalized cells. */
  ghost predicate ImageFilled(ws: HistoWorkspace, norm: Normalization, inverseVolume: real,
                              sqrt: real -> real, ys: array2<real>, es: array2<real>,
                              rows: nat, xStride: nat, yStride: nat)
    reads ys, es
  {
    rows <= ys.Length0 && ys.Length0 == es.Length0 && ys.Length1 == es.Length1
    && forall a, b :: 0 <= a < rows && 0 <= b < ys.Length1 ==>
         ImageCell(ws, norm, inverseVolume, sqrt, CellIndex(a, b, xStride, yStride), ys[a, b], es[a, b])
  }

  /** make2DWorkspace: the first two non-integrated dimensions are x and y;
    * cell (i, j) of the image reads the workspace at i·yStride + j·xStride,
    * normalizes it, and stores the signal and the square root of the squared
    * error. The inverse volume is the workspace's and is given. */
  method Make2DWorkspace(ws: HistoWorkspace, normalizationProperty: string,
                         inverseVolume: real, sqrt: real -> real)
    returns (xs: array<real>, ys: array2<real>, es: array2<real>, axes: ImageAxes)
    requires ws.Valid() && |NonIntegrated(ws.dims)| >= 2
    requires ImageReadsInside(ws, PlanOf(ws))
    ensures fresh(xs) && fresh(ys) && fresh(es)
    ensures var p := PlanOf(ws);
      xs.Length == p.xDim.nbins + 1
      && (forall k :: 0 <= k < xs.Length ==> xs[k] == Edge(p.xDim, k))
      && ys.Length0 == p.yDim.nbins && ys.Length1 == p.xDim.nbins
      && ImageFilled(ws, NormalizationOf(normalizationProperty), inverseVolume, sqrt, ys, es,
                     p.yDim.nbins, p.xStride, p.yStride)
      && axes.xLabel == p.xDim.name && axes.yLabel == p.yDim.name && axes.yUnitLabel == "Signal"
      && |axes.yAxis| == p.yDim.nbins
      && (forall i :: 0 <= i < p.yDim.nbins ==> axes.yAxis[i] == Edge(p.yDim, i))
  {
    var p := PlanImage(ws);
    var xDim, yDim := p.xDim, p.yDim;
    var nx, ny := xDim.nbins, yDim.nbins;
    var norm := NormalizationOf(normalizationProperty);

    xs := BinEdges(xDim);
    ghost var edges := xs[..];
    ys := new real[ny, nx];
    es := new real[ny, nx];
    var i := 0;
    while i < ny
      invariant 0 <= i <= ny
      invariant ImageFilled(ws, norm, inverseVolume, sqrt, ys, es, i, p.xStride, p.yStride)
      invariant xs[..] == edges
    {
      FillRow(ws, norm, inverseVolume, sqrt, ys, es, i, p);
      i := i + 1;
    }
    var yAxis := seq(ny, k requires 0 <= k < ny => Edge(yDim, k));
    axes := ImageAxes(xDim.name, yAxis, yDim.name, "Signal");
  }

  /** The set-up of make2DWorkspace: the non-integrated dimensions, the
    * indices of the first two by id, and their strides. */
  method PlanImage(ws: HistoWorkspace) returns (p: ImagePlan)
    requires ws.Valid() && |NonIntegrated(ws.dims)| >= 2
    ensures p == PlanOf(ws)
  {
    var nonInteg := NonIntegrated(ws.dims);
    var xDim := nonInteg[0];
    var yDim := nonInteg[1];
    var xIndex := DimensionIndexById(ws.dims, xDim);
    var yIndex := DimensionIndexById(ws.dims, yDim);
    var xStride := CalcStride(ws, xIndex);
    var yStride := CalcStride(ws, yIndex);
    p := ImagePlan(xDim, yDim, xIndex, yIndex, xStride, yStride);
  }

  /** The inner loop of make2DWorkspace: row i of the image. */
  method FillRow(ws: HistoWorkspace, norm: Normalization, inverseVolume: real, sqrt: real -> real,
                 ys: array2<real>, es: array2<real>, i: nat, p: ImagePlan)
    requires ws.Valid() && ys != es && ImageReadsInside(ws, p)
    requires ys.Length0 == es.Length0 == p.yDim.nbins && i < ys.Length0
    requires ys.Length1 == es.Length1 == p.xDim.nbins
    modifies ys, es
    ensures forall a, b :: 0 <= a < ys.Length0 && 0 <= b < ys.Length1 && a != i ==>
      ys[a, b] == old(ys[a, b]) && es[a, b] == old(es[a, b])
    ensures forall b :: 0 <= b < ys.Length1 ==>
      ImageCell(ws, norm, inverseVolume, sqrt, CellIndex(i, b, p.xStride, p.yStride), ys[i, b], es[i, b])
    ensures ImageFilled(ws, norm, inverseVolume, sqrt, ys, es, i, p.xStride, p.yStride) ==>
            ImageFilled(ws, norm, inverseVolume, sqrt, ys, es, i + 1, p.xStride, p.yStride)
  {
    var j := 0;
    while j < ys.Length1
      invariant 0 <= j <= ys.Length1
      invariant forall a, b :: 0 <= a < ys.Length0 && 0 <= b < ys.Length1 && a != i ==>
        ys[a, b] == old(ys[a, b]) && es[a, b] == old(es[a, b])
      invariant forall b :: 0 <= b < j ==>
        ImageCell(ws, norm, inverseVolume, sqrt, CellIndex(i, b, p.xStride, p.yStride), ys[i, b], es[i, b])
    {
      var linearIndex := i * p.yStride + j * p.xStride;
      assert linearIndex == CellIndex(i, j, p.xStride, p.yStride) < ws.NPoints();
      var v := Normalized(norm, ws.signal[linearIndex], ws.errorSquared[linearIndex],
                          inverseVolume, ws.numEvents[linearIndex]);
      ys[i, j] := v.0;
      es[i, j] := sqrt(v.1);
      j := j + 1;
    }
  }

  /** getDimensionIndexById for a dimension of the workspace. */
  method DimensionIndexById(dims: seq<Dimension>, d: Dimension) returns (index: nat)
    requires d in dims
    ensures IndexById(dims, d.id) == Some(index)
    ensures index < |dims| && dims[index].id == d.id
  {
    var k :| 0 <= k < |dims| && dims[k] == d;
    assert IndexById(dims, d.id).Some?;
    index := IndexById(dims, d.id).value;
  }

  /** The non-integrated dimensions of a workspace with unique ids have
    * unique ids. */
  lemma {:induction false} NonIntegratedIsSubsequence(dims: seq<Dimension>)
    requires UniqueIds(dims)
    ensures forall a, b :: 0 <= a < b < |NonIntegrated(dims)| ==>
              NonIntegrated(dims)[a].id != NonIntegrated(dims)[b].id
  {
    if |dims| > 0 {
      var p := dims[..|dims| - 1];
      assert UniqueIds(p);
      NonIntegratedIsSubsequence(p);
      var last := dims[|dims| - 1];
      forall k | 0 <= k < |NonIntegrated(p)| ensures NonIntegrated(p)[k].id != last.id {
        assert NonIntegrated(p)[k] in p;
      }
    }
  }
}

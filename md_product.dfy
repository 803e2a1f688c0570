/** A fit function over a 2-D histogram workspace that is the product of one
  * 1-D member function per non-integrated dimension, each evaluated once at
  * the bin centres of its dimension and cached. */
module MDProduct {
  import opened Wrappers
  import opened MDHisto

  /** The dimensions with more than one bin, in workspace order. */
  function NonIntegrated(dims: seq<Dimension>): (r: seq<Dimension>)
    ensures forall k :: 0 <= k < |r| ==> r[k] in dims && !r[k].Integrated()
    ensures |r| <= |dims|
  {
    if |dims| == 0 then []
    else
      var rest := NonIntegrated(dims[..|dims| - 1]);
      assert forall k :: 0 <= k < |rest| ==> rest[k] in dims;
      if dims[|dims| - 1].Integrated() then rest else rest + [dims[|dims| - 1]]
  }

  predicate UniqueIds(dims: seq<Dimension>)
  {
    forall a, b :: 0 <= a < b < |dims| ==> dims[a].id != dims[b].id
  }

  /** Index of the first dimension with the given id. */
  function IndexById(dims: seq<Dimension>, id: string): (r: Option<nat>)
    ensures r.Some? ==> r.value < |dims| && dims[r.value].id == id
    ensures r.Some? ==> forall k :: 0 <= k < r.value ==> dims[k].id != id
    ensures r.None? <==> forall k :: 0 <= k < |dims| ==> dims[k].id != id
  {
    if |dims| == 0 then None
    else
      var r := IndexById(dims[..|dims| - 1], id);
      if r.Some? then r
      else if dims[|dims| - 1].id == id then Some(|dims| - 1)
      else None
  }

  /** The points the member function of `d` is sampled at, one per bin. */
  function SamplePoints(d: Dimension): seq<real>
    requires d.nbins >= 1
  {
    seq(d.nbins, j requires 0 <= j < d.nbins =>
      d.minimum + d.BinWidth() / 2.0 + (j as real) * d.BinWidth())
  }

  /** Sample point j is the middle of bin j: the same coordinate the workspace
    * gives a cell centre along that dimension, strictly inside the bin. */
  lemma SamplePointsAreBinCentres(d: Dimension, j: nat)
    requires d.Valid() && j < d.nbins
    ensures SamplePoints(d)[j] == d.minimum + ((j as real) + 0.5) * d.BinWidth()
    ensures d.minimum + (j as real) * d.BinWidth() < SamplePoints(d)[j]
                                                   < d.minimum + ((j + 1) as real) * d.BinWidth()
  {
    var w := d.BinWidth();
    assert (d.nbins as real) > 0.0;
    assert w > 0.0;
    assert d.BinWidth() / 2.0 + (j as real) * w == ((j as real) + 0.5) * w;
    assert ((j + 1) as real) * w == (j as real) * w + w;
  }

  /** A member function's values at the sample points of its dimension. */
  function CacheFor(f: real -> real, d: Dimension): seq<real>
    requires d.nbins >= 1
  {
    seq(d.nbins, j requires 0 <= j < d.nbins => f(SamplePoints(d)[j]))
  }

  /** Product, over member functions, of the cached value at the cell's index
    * along the member's dimension. */
  function ProductValue(cache: seq<seq<real>>, dimIndex: seq<nat>, md: seq<nat>): real
    requires |cache| == |dimIndex|
    requires forall i :: 0 <= i < |dimIndex| ==> dimIndex[i] < |md| && md[dimIndex[i]] < |cache[i]|
  {
    if |cache| == 0 then 1.0
    else
      var n := |cache| - 1;
      ProductValue(cache[..n], dimIndex[..n], md) * cache[n][md[dimIndex[n]]]
  }

  datatype Domain = MDDomain(linearIndices: seq<nat>) | OtherDomain

  class MDProduct {
    /** The member functions, as functions of one coordinate. */
    const members: seq<real -> real>
    var nonIntegDims: seq<Dimension>
    var functionCache: seq<seq<real>>
    var dimIndex: seq<nat>
    var strides: seq<nat>
    /** Bin counts of the workspace last attached. */
    ghost var shape: seq<nat>

    ghost predicate Valid()
      reads this
    {
      AllPositive(shape) && strides == Strides(shape) && AllPositive(strides)
      && |functionCache| == |dimIndex| == |nonIntegDims|
      && forall i :: 0 <= i < |dimIndex| ==> dimIndex[i] < |shape|
    }

    /** Every cache has an entry for each bin of the dimension its index
      * points at. getDimensionIndexById takes the first dimension with the
      * id, so with repeated ids that dimension may have more bins than the
      * one the cache was built for, and function then reads past the end of
      * the cache. */
    ghost predicate CacheCoversShape()
      reads this
    {
      |functionCache| == |dimIndex|
      && forall i :: 0 <= i < |dimIndex| ==>
           dimIndex[i] < |shape| && shape[dimIndex[i]] <= |functionCache[i]|
    }

    constructor (members: seq<real -> real>)
      ensures Valid() && this.members == members
      ensures nonIntegDims == [] && functionCache == [] && dimIndex == [] && strides == []
    {
      this.members := members;
      nonIntegDims, functionCache, dimIndex, strides := [], [], [], [];
      shape := [];
    }

    /** Attaches a histogram workspace: caches each member function at the bin
      * centres of its non-integrated dimension, records where that dimension
      * sits in the workspace, and computes the strides of all dimensions. */
    method SetWorkspace(ws: Workspace) returns (r: Result<()>)
      requires Valid()
      requires ws.MDHistoWS? ==> ws.histo.Valid()
      modifies this
      ensures !ws.MDHistoWS? ==> r == Err(InvalidArgument("Expected IMDHistoWorkspace"))
      ensures !ws.MDHistoWS? ==> unchanged(this)
      ensures ws.MDHistoWS? && |members| < |NonIntegrated(ws.histo.dims)| ==> r.Err? && r.error.OutOfRange?
      ensures ws.MDHistoWS? && |members| >= |NonIntegrated(ws.histo.dims)| ==> r.Ok?
      ensures r.Ok? ==> Valid() && ws.MDHistoWS?
      ensures r.Ok? ==> var h := ws.histo;
        nonIntegDims == NonIntegrated(h.dims)
        && strides == Strides(h.Shape())
        && (forall i :: 0 <= i < |nonIntegDims| ==>
              IndexById(h.dims, nonIntegDims[i].id) == Some(dimIndex[i])
              && functionCache[i] == CacheFor(members[i], nonIntegDims[i]))
      ensures r.Ok? && UniqueIds(ws.histo.dims) ==> CacheCoversShape()
    {
      if !ws.MDHistoWS? {
        return Err(InvalidArgument("Expected IMDHistoWorkspace"));
      }
      var h := ws.histo;
      AllPositiveShape(h);
      var nonInteg := NonIntegrated(h.dims);
      nonIntegDims := nonInteg;
      var built := BuildCache(h, nonInteg, members);
      if built.Err? {
        return Err(built.error);
      }
      functionCache, dimIndex := built.value.0, built.value.1;
      strides := BuildStrides(h);
      shape := h.Shape();
      StridesFacts(shape);
      if UniqueIds(h.dims) {
        forall i | 0 <= i < |dimIndex|
          ensures shape[dimIndex[i]] <= |functionCache[i]|
        {
          LocateNonIntegrated(h.dims, nonInteg, i);
        }
      }
      return Ok(());
    }

    /** Decomposes a linear cell index into one bin index per dimension,
      * dividing by the strides from the last dimension to the first. */
    method CalcMDIndex(linearIndex: nat) returns (mdIndex: seq<nat>)
      requires AllPositive(strides)
      ensures mdIndex == MDIndexOf(linearIndex, strides)
    {
      var n := |strides|;
      var index := linearIndex;
      var tail: seq<nat> := [];
      var k := n;
      assert strides[..n] == strides;
      while k > 0
        invariant 0 <= k <= n && |tail| == n - k
        invariant AllPositive(strides[..k])
        invariant MDIndexOf(index, strides[..k]) + tail == MDIndexOf(linearIndex, strides)
      {
        var stride := strides[k - 1];
        assert strides[..k][..k - 1] == strides[..k - 1];
        tail := [index / stride] + tail;
        index := index % stride;
        k := k - 1;
      }
      mdIndex := tail;
    }

    /** Values of the product function on the cells of an MD domain. */
    method Function(domain: Domain) returns (r: Result<seq<real>>)
      requires Valid()
      requires domain.MDDomain? ==> forall k :: 0 <= k < |domain.linearIndices| ==>
                 domain.linearIndices[k] < Product(shape)
      requires domain.MDDomain? && |nonIntegDims| == 2 && |members| == 2 ==> CacheCoversShape()
      ensures |nonIntegDims| != 2 ==> r == Err(InvalidArgument("Function works in 2 dimensions only."))
      ensures |nonIntegDims| == 2 && |members| != 2 ==>
                r == Err(RuntimeError("MDProduct has different dimensionality than domain."))
      ensures |nonIntegDims| == 2 && |members| == 2 && !domain.MDDomain? ==>
                r == Err(InvalidArgument("Unexpected domain in IFunctionMD"))
      ensures |nonIntegDims| == 2 && |members| == 2 && domain.MDDomain? ==> r.Ok?
      ensures r.Ok? ==> domain.MDDomain? && |r.value| == |domain.linearIndices|
      ensures r.Ok? ==> forall k :: 0 <= k < |r.value| ==> Evaluated(domain.linearIndices[k], r.value[k])
    {
      var n := |nonIntegDims|;
      if n != 2 {
        return Err(InvalidArgument("Function works in 2 dimensions only."));
      }
      if |members| != n {
        return Err(RuntimeError("MDProduct has different dimensionality than domain."));
      }
      if !domain.MDDomain? {
        return Err(InvalidArgument("Unexpected domain in IFunctionMD"));
      }
      var values := EvaluateCells(domain.linearIndices);
      return Ok(values);
    }

    /** v is the product of the cached member values at the bin of cell. */
    ghost predicate Evaluated(cell: nat, v: real)
      reads this
    {
      AllPositive(strides) && |functionCache| == |dimIndex|
      && var md := MDIndexOf(cell, strides);
      |md| == |shape|
      && (forall i :: 0 <= i < |dimIndex| ==> dimIndex[i] < |md| && md[dimIndex[i]] < |functionCache[i]|)
      && v == ProductValue(functionCache, dimIndex, md)
    }

    /** The loop of function over the cells of the domain. */
    method EvaluateCells(cells: seq<nat>) returns (values: seq<real>)
      requires Valid() && CacheCoversShape()
      requires forall k :: 0 <= k < |cells| ==> cells[k] < Product(shape)
      ensures |values| == |cells|
      ensures forall k :: 0 <= k < |cells| ==> Evaluated(cells[k], values[k])
    {
      values := [];
      var c := 0;
      while c < |cells|
        invariant 0 <= c <= |cells| && |values| == c
        invariant forall k :: 0 <= k < c ==> Evaluated(cells[k], values[k])
      {
        var mdIndex := CalcMDIndex(cells[c]);
        MDIndexRoundTrip(cells[c], shape);
        var v := CellValue(functionCache, dimIndex, mdIndex);
        values := values + [v];
        c := c + 1;
      }
    }
  }

  lemma IndexOfMember(dims: seq<Dimension>, at: nat)
    requires UniqueIds(dims) && at < |dims|
    ensures IndexById(dims, dims[at].id) == Some(at)
  {}

  /** A non-integrated dimension is found by its id at its own position. */
  lemma LocateNonIntegrated(dims: seq<Dimension>, nonInteg: seq<Dimension>, i: nat)
    requires UniqueIds(dims) && nonInteg == NonIntegrated(dims) && i < |nonInteg|
    ensures IndexById(dims, nonInteg[i].id).Some?
    ensures var at := IndexById(dims, nonInteg[i].id).value; at < |dims| && dims[at] == nonInteg[i]
  {
    assert nonInteg[i] in dims;
    var at :| 0 <= at < |dims| && dims[at] == nonInteg[i];
    IndexOfMember(dims, at);
  }

  /** The loop of setWorkspace over the non-integrated dimensions: sample
    * points, cached member values and the dimension's workspace index. It
    * fails when there are fewer member functions than dimensions. */
  method BuildCache(h: HistoWorkspace, nonInteg: seq<Dimension>, members: seq<real -> real>)
    returns (r: Result<(seq<seq<real>>, seq<nat>)>)
    requires h.Valid() && nonInteg == NonIntegrated(h.dims)
    ensures r.Err? <==> |members| < |nonInteg|
    ensures r.Err? ==> r.error.OutOfRange?
    ensures r.Ok? ==> var (cache, index) := r.value;
      |cache| == |index| == |nonInteg|
      && forall k :: 0 <= k < |nonInteg| ==>
           IndexById(h.dims, nonInteg[k].id) == Some(index[k])
           && index[k] < |h.dims| && h.dims[index[k]].id == nonInteg[k].id
           && cache[k] == CacheFor(members[k], nonInteg[k])
  {
    var nd := |nonInteg|;
    var cache: seq<seq<real>> := [];
    var index: seq<nat> := [];
    var i := 0;
    while i < nd
      invariant 0 <= i <= nd && |cache| == i && |index| == i && i <= |members|
      invariant forall k :: 0 <= k < i ==>
        IndexById(h.dims, nonInteg[k].id) == Some(index[k])
        && index[k] < |h.dims| && h.dims[index[k]].id == nonInteg[k].id
        && k < |members| && cache[k] == CacheFor(members[k], nonInteg[k])
    {
      var dim := nonInteg[i];
      assert dim in h.dims;
      var found := IndexById(h.dims, dim.id);
      if i >= |members| {
        return Err(OutOfRange("Function index out of range"));
      }
      var y := EvaluateAtBinCentres(members[i], dim);
      cache := cache + [y];
      index := index + [found.value];
      i := i + 1;
    }
    return Ok((cache, index));
  }

  /** Fills the sample points of one dimension and evaluates the member
    * function there. */
  method EvaluateAtBinCentres(f: real -> real, dim: Dimension) returns (y: seq<real>)
    requires dim.nbins >= 1
    ensures y == CacheFor(f, dim)
  {
    var n := dim.nbins;
    var w := dim.BinWidth();
    var x0 := dim.minimum + w / 2.0;
    var x: seq<real> := [];
    var j := 0;
    while j < n
      invariant 0 <= j <= n && |x| == j
      invariant forall k :: 0 <= k < j ==> x[k] == SamplePoints(dim)[k]
    {
      x := x + [x0 + (j as real) * w];
      j := j + 1;
    }
    y := seq(n, k requires 0 <= k < n => f(x[k]));
  }

  /** The strides of every dimension of the workspace. */
  method BuildStrides(h: HistoWorkspace) returns (st: seq<nat>)
    ensures st == Strides(h.Shape())
  {
    var nDims := |h.dims|;
    st := [];
    var i := 0;
    while i < nDims
      invariant 0 <= i <= nDims && st == Strides(h.Shape())[..i]
    {
      var s := CalcStride(h, i);
      st := st + [s];
      i := i + 1;
    }
  }

  /** Product of the cached values a cell selects. */
  method CellValue(cache: seq<seq<real>>, dimIndex: seq<nat>, md: seq<nat>) returns (v: real)
    requires |cache| == |dimIndex|
    requires forall i :: 0 <= i < |dimIndex| ==> dimIndex[i] < |md| && md[dimIndex[i]] < |cache[i]|
    ensures v == ProductValue(cache, dimIndex, md)
  {
    v := 1.0;
    var ifun := 0;
    while ifun < |dimIndex|
      invariant 0 <= ifun <= |dimIndex|
      invariant v == ProductValue(cache[..ifun], dimIndex[..ifun], md)
    {
      assert cache[..ifun + 1][..ifun] == cache[..ifun];
      assert dimIndex[..ifun + 1][..ifun] == dimIndex[..ifun];
      v := v * cache[ifun][md[dimIndex[ifun]]];
      ifun := ifun + 1;
    }
    assert cache[..|dimIndex|] == cache;
    assert dimIndex[..|dimIndex|] == dimIndex;
  }

  /** Product of the bin counts of the dimensions before `dim`. */
  method CalcStride(ws: HistoWorkspace, dim: nat) returns (stride: nat)
    requires dim <= |ws.dims|
    ensures stride == Product(ws.Shape()[..dim])
    ensures dim < |ws.dims| ==> stride == Strides(ws.Shape())[dim]
  {
    stride := 1;
    var i := 0;
    while i < dim
      invariant 0 <= i <= dim && stride == Product(ws.Shape()[..i])
    {
      assert ws.Shape()[..i + 1][..i] == ws.Shape()[..i];
      stride := stride * ws.dims[i].nbins;
      i := i + 1;
    }
  }

  /** With two member functions the value of a cell is the product of the
    * first member at the cell's bin centre along its dimension and the second
    * member at the cell's bin centre along the other. */
  lemma {:induction false} TwoMemberValue(cache: seq<seq<real>>, dimIndex: seq<nat>, md: seq<nat>)
    requires |cache| == |dimIndex| == 2
    requires forall i :: 0 <= i < 2 ==> dimIndex[i] < |md| && md[dimIndex[i]] < |cache[i]|
    ensures ProductValue(cache, dimIndex, md)
              == cache[0][md[dimIndex[0]]] * cache[1][md[dimIndex[1]]]
  {
    assert cache[..1][..0] == [];
    assert dimIndex[..1][..0] == [];
    assert ProductValue(cache[..1], dimIndex[..1], md) == 1.0 * cache[0][md[dimIndex[0]]];
  }

  /** The cached value a cell reads is its member function at the cell centre:
    * the cache index is the cell's bin along the member's dimension, and the
    * sample point there is the workspace's own centre coordinate. */
  lemma CacheReadsCellCentre(h: HistoWorkspace, i: nat, d: nat)
    requires h.Valid() && i < h.NPoints() && d < |h.dims|
    ensures AllPositive(Strides(h.Shape()))
    ensures var md := MDIndexOf(i, Strides(h.Shape()));
      md[d] < h.dims[d].nbins
      && SamplePoints(h.dims[d])[md[d]] == Centre(h, i)[d]
  {
    AllPositiveShape(h);
    MDIndexRoundTrip(i, h.Shape());
    var md := MDIndexOf(i, Strides(h.Shape()));
    SamplePointsAreBinCentres(h.dims[d], md[d]);
  }
}

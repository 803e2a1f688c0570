/** A coordinate transform from `inD` input coordinates to one output: the
  * squared distance to a centre, counting only the selected dimensions. */
module CoordTransformDistance {

  /** Squared distance from `centre` to `x` over the dimensions whose flag is set. */
  function DistanceSquared(centre: seq<real>, used: seq<bool>, x: seq<real>): real
    requires |centre| == |used| == |x|
  {
    if |x| == 0 then 0.0
    else
      var n := |x| - 1;
      DistanceSquared(centre[..n], used[..n], x[..n])
        + (if used[n] then (x[n] - centre[n]) * (x[n] - centre[n]) else 0.0)
  }

  class CoordTransformDistance {
    const inD: nat
    const outD: nat
    const center: array<real>
    const dimensionsUsed: array<bool>

    ghost predicate Valid()
      reads this
    {
      center.Length == inD && dimensionsUsed.Length == inD && outD == 1
    }

    /** Copies the first `inD` entries of both arrays into arrays of its own. */
    constructor (inD: nat, center: array<real>, dimensionsUsed: array<bool>)
      requires center.Length >= inD && dimensionsUsed.Length >= inD
      ensures Valid() && this.inD == inD
      ensures fresh(this.center) && fresh(this.dimensionsUsed)
      ensures this.center[..] == center[..inD]
      ensures this.dimensionsUsed[..] == dimensionsUsed[..inD]
    {
      this.inD := inD;
      outD := 1;
      this.center := new real[inD];
      this.dimensionsUsed := new bool[inD];
      new;
      var d := 0;
      while d < inD
        invariant 0 <= d <= inD
        invariant this.center[..d] == center[..d]
        invariant this.dimensionsUsed[..d] == dimensionsUsed[..d]
      {
        this.center[d] := center[d];
        this.dimensionsUsed[d] := dimensionsUsed[d];
        d := d + 1;
      }
    }

    /** A new transform with the same dimension count, centre and flags. */
    method Clone() returns (c: CoordTransformDistance)
      requires Valid()
      ensures fresh(c) && fresh(c.center) && fresh(c.dimensionsUsed) && c.Valid()
      ensures c.inD == inD && c.center[..] == center[..]
      ensures c.dimensionsUsed[..] == dimensionsUsed[..]
    {
      c := new CoordTransformDistance(inD, center, dimensionsUsed);
      assert center[..inD] == center[..];
      assert dimensionsUsed[..inD] == dimensionsUsed[..];
    }

    /** Writes the squared distance of the first `inD` inputs to the centre
      * into `output[0]` and leaves the rest of `output` alone. */
    method Apply(input: array<real>, output: array<real>)
      requires Valid()
      requires input.Length >= inD && output.Length >= 1 && output != center
      modifies output
      ensures output[0] == DistanceSquared(center[..], dimensionsUsed[..], old(input[..inD]))
      ensures output[1..] == old(output[1..])
    {
      var distanceSquared := 0.0;
      var d := 0;
      while d < inD
        invariant 0 <= d <= inD
        invariant distanceSquared == DistanceSquared(center[..d], dimensionsUsed[..d], input[..d])
      {
        if dimensionsUsed[d] {
          var dist := input[d] - center[d];
          distanceSquared := distanceSquared + dist * dist;
        }
        assert center[..d + 1][..d] == center[..d];
        assert dimensionsUsed[..d + 1][..d] == dimensionsUsed[..d];
        assert input[..d + 1][..d] == input[..d];
        d := d + 1;
      }
      assert center[..inD] == center[..];
      assert dimensionsUsed[..inD] == dimensionsUsed[..];
      output[0] := distanceSquared;
    }

    /** The transform's type tag. */
    function Id(): (r: string)
      ensures r == "CoordTransformDistance"
    {
      "CoordTransformDistance"
    }
  }

  /** A transform and its clone give the same output for the same input. */
  method CloneAppliesAlike(t: CoordTransformDistance, input: array<real>) returns (a: real, b: real)
    requires t.Valid() && input.Length >= t.inD
    ensures a == b
    ensures a == DistanceSquared(t.center[..], t.dimensionsUsed[..], input[..t.inD])
  {
    var c := t.Clone();
    var out1 := new real[1];
    var out2 := new real[1];
    t.Apply(input, out1);
    c.Apply(input, out2);
    a, b := out1[0], out2[0];
  }

  lemma {:induction false} DistanceNonNegative(centre: seq<real>, used: seq<bool>, x: seq<real>)
    requires |centre| == |used| == |x|
    ensures DistanceSquared(centre, used, x) >= 0.0
  {
    if |x| > 0 {
      var n := |x| - 1;
      DistanceNonNegative(centre[..n], used[..n], x[..n]);
      SquareNonNegative(x[n] - centre[n]);
    }
  }

  lemma SquareNonNegative(v: real)
    ensures v * v >= 0.0
  {}

  lemma {:induction false} DistanceZeroAtCentre(centre: seq<real>, used: seq<bool>)
    requires |centre| == |used|
    ensures DistanceSquared(centre, used, centre) == 0.0
  {
    if |centre| > 0 {
      var n := |centre| - 1;
      DistanceZeroAtCentre(centre[..n], used[..n]);
    }
  }

  lemma {:induction false} DistanceZeroWhenNoneUsed(centre: seq<real>, used: seq<bool>, x: seq<real>)
    requires |centre| == |used| == |x|
    requires forall d :: 0 <= d < |used| ==> !used[d]
    ensures DistanceSquared(centre, used, x) == 0.0
  {
    if |x| > 0 {
      var n := |x| - 1;
      DistanceZeroWhenNoneUsed(centre[..n], used[..n], x[..n]);
    }
  }

  /** Coordinates of unused dimensions never influence the output. */
  lemma {:induction false} DistanceIgnoresUnused(centre: seq<real>, used: seq<bool>, x: seq<real>, y: seq<real>)
    requires |centre| == |used| == |x| == |y|
    requires forall d :: 0 <= d < |used| && used[d] ==> x[d] == y[d]
    ensures DistanceSquared(centre, used, x) == DistanceSquared(centre, used, y)
  {
    if |x| > 0 {
      var n := |x| - 1;
      DistanceIgnoresUnused(centre[..n], used[..n], x[..n], y[..n]);
    }
  }

  /** Centre (1,2,3), third dimension unused, input (4,6,100): 3² + 4² = 25. */
  lemma DistanceExample()
    ensures DistanceSquared([1.0, 2.0, 3.0], [true, true, false], [4.0, 6.0, 100.0]) == 25.0
  {
    assert [1.0, 2.0, 3.0][..2] == [1.0, 2.0];
    assert [true, true, false][..2] == [true, true];
    assert [4.0, 6.0, 100.0][..2] == [4.0, 6.0];
    assert [1.0, 2.0][..1] == [1.0];
    assert [true, true][..1] == [true];
    assert [4.0, 6.0][..1] == [4.0];
  }
}

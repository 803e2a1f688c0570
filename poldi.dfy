/** PoldiDetectorAdapter: the POLDI detector seen as a row of elements,
  * each a child detector of the instrument's detector assembly, some of
  * them masked. */
module PoldiDetectorAdapter {

  /** A child detector: its id, whether it is masked and where it sits
    * (in m). */
  datatype Detector = Detector(id: int, masked: bool, x: real, y: real, z: real)

  /** size_t arithmetic wraps modulo 2^64. */
  const SizeTModulus: int := 0x1_0000_0000_0000_0000

  /** The indexes of the unmasked detectors, in order. */
  function NonMasked(detectors: seq<Detector>): (ids: seq<nat>)
  {
    if |detectors| == 0 then []
    else
      var last := |detectors| - 1;
      NonMasked(detectors[..last]) + (if detectors[last].masked then [] else [last])
  }

  /** getNonMaskedDetectorIds: the loop that pushes the index of every
    * detector that is not masked. */
  method GetNonMaskedDetectorIds(detectors: seq<Detector>) returns (ids: seq<nat>)
    ensures ids == NonMasked(detectors)
  {
    ids := [];
    for i := 0 to |detectors|
      invariant ids == NonMasked(detectors[..i])
    {
      assert detectors[..i + 1][..i] == detectors[..i];
      if !detectors[i].masked {
        ids := ids + [i];
      }
    }
    assert detectors[..|detectors|] == detectors;
  }

  /** The available elements are exactly the unmasked indexes, strictly
    * ascending and below the number of detectors. */
  lemma {:induction false} NonMaskedExactly(detectors: seq<Detector>)
    ensures var ids := NonMasked(detectors);
      && (forall k :: 0 <= k < |ids| ==> ids[k] < |detectors| && !detectors[ids[k]].masked)
      && (forall i :: 0 <= i < |detectors| && !detectors[i].masked ==> i in ids)
      && (forall k, k' :: 0 <= k < k' < |ids| ==> ids[k] < ids[k'])
  {
    if |detectors| > 0 {
      var last := |detectors| - 1;
      NonMaskedExactly(detectors[..last]);
    }
  }

  /** There are never more available elements than detectors, and as many
    * exactly when no detector is masked. */
  lemma {:induction false} NonMaskedCount(detectors: seq<Detector>)
    ensures |NonMasked(detectors)| <= |detectors|
    ensures |NonMasked(detectors)| == |detectors| <==> forall i :: 0 <= i < |detectors| ==> !detectors[i].masked
  {
    if |detectors| > 0 {
      var last := |detectors| - 1;
      NonMaskedCount(detectors[..last]);
      assert forall i :: 0 <= i < last ==> detectors[..last][i] == detectors[i];
    }
  }

  // ---- the detector group ----

  /** The ids strictly increase along the sequence. */
  predicate IdsAscending(g: seq<Detector>)
  {
    forall a, b :: 0 <= a < b < |g| ==> g[a].id < g[b].id
  }

  /** No detector of the sequence has the id. */
  predicate IdAbsent(g: seq<Detector>, id: int)
  {
    forall k :: 0 <= k < |g| ==> g[k].id != id
  }

  /** e is a child, and no earlier child has its id. */
  predicate FirstWithId(children: seq<Detector>, e: Detector)
  {
    exists j :: 0 <= j < |children| && children[j] == e
      && forall i :: 0 <= i < j ==> children[i].id != e.id
  }

  /** A DetectorGroup keys its detectors by id: adding one goes to its place
    * in id order, and adding an id already present keeps the detector
    * already there. */
  function AddById(group: seq<Detector>, d: Detector): seq<Detector>
  {
    if |group| == 0 then [d]
    else if d.id < group[0].id then [d] + group
    else if d.id == group[0].id then group
    else [group[0]] + AddById(group[1..], d)
  }

  /** The group built from the children in order; its detectors are read
    * back in id order. */
  function GroupOf(children: seq<Detector>): seq<Detector>
  {
    if |children| == 0 then []
    else AddById(GroupOf(children[..|children| - 1]), children[|children| - 1])
  }

  /** Adding keeps the ids ascending, and adds the detector exactly when its
    * id is new. */
  lemma {:induction false} AddByIdKeepsOrder(g: seq<Detector>, d: Detector)
    requires IdsAscending(g)
    ensures IdsAscending(AddById(g, d))
    ensures forall e :: e in AddById(g, d) <==> e in g || (e == d && IdAbsent(g, d.id))
  {
    if |g| > 0 && d.id > g[0].id {
      var rest := g[1..];
      AddByIdKeepsOrder(rest, d);
      assert IdAbsent(g, d.id) <==> IdAbsent(rest, d.id);
      assert g == [g[0]] + rest;
      var r := AddById(rest, d);
      forall k | 0 <= k < |r|
        ensures g[0].id < r[k].id
      {
        assert r[k] in r;
      }
    }
  }

  /** The group's detectors have strictly ascending ids. */
  lemma {:induction false} GroupOfAscending(children: seq<Detector>)
    ensures IdsAscending(GroupOf(children))
  {
    if |children| > 0 {
      var n := |children| - 1;
      GroupOfAscending(children[..n]);
      AddByIdKeepsOrder(GroupOf(children[..n]), children[n]);
    }
  }

  /** Each detector of the group is the first child with its id. */
  lemma {:induction false} GroupOfFirst(children: seq<Detector>)
    ensures forall e :: e in GroupOf(children) ==> FirstWithId(children, e)
  {
    if |children| > 0 {
      var n := |children| - 1;
      var p, x := children[..n], children[n];
      var g := GroupOf(p);
      GroupOfFirst(p);
      GroupOfAscending(p);
      GroupOfComplete(p);
      AddByIdKeepsOrder(g, x);
      forall e | e in GroupOf(children)
        ensures FirstWithId(children, e)
      {
        if e in g {
          assert FirstWithId(p, e);
          var j :| 0 <= j < |p| && p[j] == e && forall i :: 0 <= i < j ==> p[i].id != e.id;
          assert children[j] == e;
        } else {
          assert e == x && IdAbsent(g, x.id);
          forall i | 0 <= i < n
            ensures children[i].id != e.id
          {
            assert p[i] == children[i];
            assert !IdAbsent(g, p[i].id);
          }
          assert children[n] == e;
        }
      }
    }
  }

  /** Every child's id is in the group. */
  lemma {:induction false} GroupOfComplete(children: seq<Detector>)
    ensures forall i :: 0 <= i < |children| ==> !IdAbsent(GroupOf(children), children[i].id)
  {
    if |children| > 0 {
      var n := |children| - 1;
      var p, x := children[..n], children[n];
      var g := GroupOf(p);
      GroupOfComplete(p);
      GroupOfAscending(p);
      AddByIdKeepsOrder(g, x);
      var g' := GroupOf(children);
      forall i | 0 <= i < |children|
        ensures !IdAbsent(g', children[i].id)
      {
        if i < n {
          assert p[i] == children[i];
          assert !IdAbsent(g, p[i].id);
          var k :| 0 <= k < |g| && g[k].id == p[i].id;
          assert g[k] in g';
        } else if IdAbsent(g, x.id) {
          assert x in g';
        } else {
          var k :| 0 <= k < |g| && g[k].id == x.id;
          assert g[k] in g';
        }
      }
    }
  }

  /** The adapter's state, filled once by the constructor. */
  class Adapter {
    var detectors: seq<Detector>
    var availableDetectors: seq<nat>
    var efficiency: real
    var samplePosition: (real, real, real)
    var beamDirection: (real, real, real)

    predicate Valid()
      reads this
    {
      availableDetectors == NonMasked(detectors)
    }

    /** The constructor: the assembly's children, grouped by id, become the
      * elements, the first "efficiency" parameter the efficiency; the sample
      * sits at the origin and the beam points along +z. */
    constructor (children: seq<Detector>, efficiencyParameter: seq<real>)
      requires |efficiencyParameter| > 0
      ensures Valid()
      ensures detectors == GroupOf(children) && efficiency == efficiencyParameter[0]
      ensures samplePosition == (0.0, 0.0, 0.0) && beamDirection == (0.0, 0.0, 1.0)
    {
      var group := GroupOf(children);
      detectors := group;
      var ids := GetNonMaskedDetectorIds(group);
      availableDetectors := ids;
      efficiency := efficiencyParameter[0];
      samplePosition := (0.0, 0.0, 0.0);
      beamDirection := (0.0, 0.0, 1.0);
    }

    function AllElementCount(): nat
      reads this
    {
      |detectors|
    }

    /** elementCount: the number of unmasked elements. */
    function ElementCount(): (n: nat)
      reads this
      requires Valid()
      ensures n <= AllElementCount()
      ensures n == AllElementCount() <==> forall i :: 0 <= i < |detectors| ==> !detectors[i].masked
    {
      NonMaskedCount(detectors);
      |availableDetectors|
    }

    /** centralElement: `(size - 1) / 2` in size_t, so an adapter without
      * detectors reports 2^63 - 1. */
    function CentralElement(): (c: nat)
      reads this
      ensures 0 < |detectors| <= SizeTModulus ==> c < |detectors| && c == (|detectors| - 1) / 2
      ensures |detectors| == 0 ==> c == (SizeTModulus - 1) / 2
    {
      ((|detectors| - 1) % SizeTModulus) / 2
    }

    /** The squared distance of an element from the origin. */
    function NormSquared(elementIndex: nat): real
      reads this
      requires elementIndex < |detectors|
    {
      var d := detectors[elementIndex];
      d.x * d.x + d.y * d.y + d.z * d.z
    }

    /** distanceFromSample: the element's distance from the origin in mm.
      * The square root is a parameter. */
    function DistanceFromSample(elementIndex: nat, sqrt: real -> real): (mm: real)
      reads this
      requires elementIndex < |detectors|
      ensures var s := sqrt(NormSquared(elementIndex));
        s >= 0.0 && s * s == NormSquared(elementIndex) ==> mm >= 0.0 && mm * mm == 1000000.0 * NormSquared(elementIndex)
    {
      var s := sqrt(NormSquared(elementIndex));
      SquareScaled(s, NormSquared(elementIndex));
      s * 1000.0
    }
  }

  lemma SquareScaled(s: real, n: real)
    ensures s >= 0.0 && s * s == n ==> (s * 1000.0) * (s * 1000.0) == 1000000.0 * n
  {
  }

  /** An adapter built from detectors has every available element below
    * the element count, and the centre inside the row. */
  lemma AvailableBelowCount(a: Adapter)
    requires a.Valid()
    ensures forall k :: 0 <= k < |a.availableDetectors| ==> a.availableDetectors[k] < a.AllElementCount()
    ensures 0 < a.AllElementCount() <= SizeTModulus ==> a.CentralElement() < a.AllElementCount()
  {
    NonMaskedExactly(a.detectors);
  }
}

/** PoldiDetectorFactory: which detector a POLDI experiment used. */
module PoldiDetectorFactory {

  /** A Gregorian date. */
  datatype Date = Date(year: int, month: int, day: int)

  /** Date order: by year, then month, then day. */
  predicate Before(a: Date, b: Date)
  {
    a.year < b.year
    || (a.year == b.year && a.month < b.month)
    || (a.year == b.year && a.month == b.month && a.day < b.day)
  }

  /** The date the new detector came into use, set by the constructor. */
  const NewDetectorDate := Date(2016, 1, 1)

  /** What createDetector hands back: a helium detector, or a null
    * pointer. */
  datatype Detector = HeliumDetector | NullDetector

  /** createDetector(string): the type name is unused. */
  function CreateDetectorByName(detectorType: string): (d: Detector)
    ensures d == HeliumDetector
  {
    HeliumDetector
  }

  /** createDetector(date): the helium detector for experiments before the
    * new detector's date, a null pointer from that date on. */
  function CreateDetector(experimentDate: Date): (d: Detector)
    ensures d == HeliumDetector <==> Before(experimentDate, NewDetectorDate)
  {
    if Before(experimentDate, NewDetectorDate) then HeliumDetector else NullDetector
  }

  /** Before is a strict total order, so the cutoff splits every timeline
    * once: a date after a null one is null too. */
  lemma BeforeIsStrictTotal(a: Date, b: Date, c: Date)
    ensures !Before(a, a)
    ensures Before(a, b) && Before(b, c) ==> Before(a, c)
    ensures a == b || Before(a, b) || Before(b, a)
  {
  }

  /** Once the factory returns null, every later date does too. */
  lemma NullStaysNull(d: Date, later: Date)
    requires CreateDetector(d) == NullDetector && Before(d, later)
    ensures CreateDetector(later) == NullDetector
  {
    BeforeIsStrictTotal(later, d, NewDetectorDate);
    BeforeIsStrictTotal(d, later, NewDetectorDate);
    BeforeIsStrictTotal(later, NewDetectorDate, d);
  }

  /** The last day of 2015 still gets the helium detector, the first day
    * of 2016 does not. */
  lemma CutoffDays()
    ensures CreateDetector(Date(2015, 12, 31)) == HeliumDetector
    ensures CreateDetector(Date(2016, 1, 1)) == NullDetector
  {
  }
}

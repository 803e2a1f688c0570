/** CheckSpaceGroup: sorts the peaks of a peaks workspace by comparing what
  * was observed with what a space group allows. An observed peak the group
  * forbids is an absence violation; an allowed peak that was not observed
  * is an additional absence. The space group's reflection condition is a
  * parameter. */
module CheckSpaceGroup {

  /** An indexed, integrated peak: its HKL, intensity and intensity sigma. */
  datatype Peak = Peak(h: real, k: real, l: real, intensity: real, sigmaIntensity: real)

  /** The default of the ObservedThreshold property. */
  const DefaultObservedThreshold: real := 3.0

  /** isPeakObserved: the intensity reaches threshold times its sigma. */
  predicate IsPeakObserved(peak: Peak, obsThreshold: real)
  {
    peak.intensity >= peak.sigmaIntensity * obsThreshold
  }

  /** Rounding to the nearest integer, halves away from zero, as V3D::round
    * does component by component. */
  function Round(x: real): (r: int)
    ensures x - 0.5 <= r as real <= x + 0.5
    ensures r as real == x + 0.5 ==> x > 0.0
    ensures r as real == x - 0.5 ==> x < 0.0
  {
    if x >= 0.0 then (x + 0.5).Floor else -((0.5 - x).Floor)
  }

  /** isPeakAllowed: the space group's reflection condition on the rounded
    * HKL. */
  predicate IsPeakAllowed(peak: Peak, isAllowedReflection: (int, int, int) -> bool)
  {
    isAllowedReflection(Round(peak.h), Round(peak.k), Round(peak.l))
  }

  /** Where exec puts a peak. */
  datatype Verdict = AbsenceViolation | AdditionalAbsence | Consistent

  function VerdictOf(peak: Peak, obsThreshold: real, isAllowedReflection: (int, int, int) -> bool): (v: Verdict)
    ensures v == AbsenceViolation <==>
      IsPeakObserved(peak, obsThreshold) && !IsPeakAllowed(peak, isAllowedReflection)
    ensures v == AdditionalAbsence <==>
      !IsPeakObserved(peak, obsThreshold) && IsPeakAllowed(peak, isAllowedReflection)
  {
    var isObserved := IsPeakObserved(peak, obsThreshold);
    var isAllowed := IsPeakAllowed(peak, isAllowedReflection);
    if isObserved && !isAllowed then AbsenceViolation
    else if !isObserved && isAllowed then AdditionalAbsence
    else Consistent
  }

  /** The peaks with the given verdict, in input order. */
  function Select(peaks: seq<Peak>, v: Verdict, obsThreshold: real, isAllowedReflection: (int, int, int) -> bool): (r: seq<Peak>)
    ensures |r| <= |peaks|
    ensures forall p :: p in r <==> p in peaks && VerdictOf(p, obsThreshold, isAllowedReflection) == v
  {
    if |peaks| == 0 then []
    else
      var prev := Select(peaks[..|peaks| - 1], v, obsThreshold, isAllowedReflection);
      var last := peaks[|peaks| - 1];
      assert peaks == peaks[..|peaks| - 1] + [last];
      if VerdictOf(last, obsThreshold, isAllowedReflection) == v then prev + [last] else prev
  }

  /** exec: one pass over the peaks, adding each absence violation and each
    * additional absence to its own output workspace. */
  method Exec(peaks: seq<Peak>, obsThreshold: real, isAllowedReflection: (int, int, int) -> bool)
    returns (absenceViolations: seq<Peak>, additionalAbsences: seq<Peak>)
    ensures absenceViolations == Select(peaks, AbsenceViolation, obsThreshold, isAllowedReflection)
    ensures additionalAbsences == Select(peaks, AdditionalAbsence, obsThreshold, isAllowedReflection)
  {
    absenceViolations := [];
    additionalAbsences := [];
    for i := 0 to |peaks|
      invariant absenceViolations == Select(peaks[..i], AbsenceViolation, obsThreshold, isAllowedReflection)
      invariant additionalAbsences == Select(peaks[..i], AdditionalAbsence, obsThreshold, isAllowedReflection)
    {
      assert peaks[..i + 1][..i] == peaks[..i];
      var peak := peaks[i];
      var isObserved := IsPeakObserved(peak, obsThreshold);
      var isAllowed := IsPeakAllowed(peak, isAllowedReflection);
      if isObserved && !isAllowed {
        absenceViolations := absenceViolations + [peak];
      } else if !isObserved && isAllowed {
        additionalAbsences := additionalAbsences + [peak];
      }
    }
    assert peaks[..|peaks|] == peaks;
  }

  /** No peak lands in both outputs. */
  lemma OutputsDisjoint(peaks: seq<Peak>, obsThreshold: real, isAllowedReflection: (int, int, int) -> bool)
    ensures forall p :: !(p in Select(peaks, AbsenceViolation, obsThreshold, isAllowedReflection)
                          && p in Select(peaks, AdditionalAbsence, obsThreshold, isAllowedReflection))
  {}

  /** Every peak has exactly one verdict: the two outputs and the consistent
    * peaks together account for all of the input. */
  lemma {:induction false} VerdictsPartition(peaks: seq<Peak>, obsThreshold: real, isAllowedReflection: (int, int, int) -> bool)
    ensures |Select(peaks, AbsenceViolation, obsThreshold, isAllowedReflection)|
          + |Select(peaks, AdditionalAbsence, obsThreshold, isAllowedReflection)|
          + |Select(peaks, Consistent, obsThreshold, isAllowedReflection)| == |peaks|
  {
    if |peaks| > 0 {
      VerdictsPartition(peaks[..|peaks| - 1], obsThreshold, isAllowedReflection);
    }
  }

  /** `pos` lists, in increasing order, input positions of `whole` that hold
    * the elements of `part` one by one. */
  predicate Embeds(pos: seq<nat>, whole: seq<Peak>, part: seq<Peak>)
  {
    |pos| == |part|
    && (forall j :: 0 <= j < |pos| ==> pos[j] < |whole| && whole[pos[j]] == part[j])
    && (forall j, j' :: 0 <= j < j' < |pos| ==> pos[j] < pos[j'])
  }

  lemma EmbedsTake(pos: seq<nat>, init: seq<Peak>, last: Peak, part: seq<Peak>)
    requires Embeds(pos, init, part)
    ensures Embeds(pos + [|init|], init + [last], part + [last])
  {
    var whole := init + [last];
    var pos' := pos + [|init|];
    var part' := part + [last];
    forall j | 0 <= j < |pos'|
      ensures pos'[j] < |whole| && whole[pos'[j]] == part'[j]
    {
      if j < |pos| {
        assert pos'[j] == pos[j] && part'[j] == part[j];
      }
    }
  }

  lemma EmbedsSkip(pos: seq<nat>, init: seq<Peak>, last: Peak, part: seq<Peak>)
    requires Embeds(pos, init, part)
    ensures Embeds(pos, init + [last], part)
  {
    var whole := init + [last];
    forall j | 0 <= j < |pos|
      ensures pos[j] < |whole| && whole[pos[j]] == part[j]
    {
      assert whole[pos[j]] == init[pos[j]];
    }
  }

  /** The outputs keep input order: each is a subsequence of the input,
    * given by increasing input positions. */
  lemma {:induction false} SelectKeepsOrder(peaks: seq<Peak>, v: Verdict, obsThreshold: real, isAllowedReflection: (int, int, int) -> bool)
    ensures exists pos: seq<nat> :: Embeds(pos, peaks, Select(peaks, v, obsThreshold, isAllowedReflection))
  {
    var r := Select(peaks, v, obsThreshold, isAllowedReflection);
    if |peaks| == 0 {
      assert Embeds([], peaks, r);
    } else {
      var init := peaks[..|peaks| - 1];
      var last := peaks[|peaks| - 1];
      assert peaks == init + [last];
      SelectKeepsOrder(init, v, obsThreshold, isAllowedReflection);
      var prev := Select(init, v, obsThreshold, isAllowedReflection);
      var pos: seq<nat> :| Embeds(pos, init, prev);
      if VerdictOf(last, obsThreshold, isAllowedReflection) == v {
        EmbedsTake(pos, init, last, prev);
        assert Embeds(pos + [|init|], peaks, r);
      } else {
        EmbedsSkip(pos, init, last, prev);
        assert Embeds(pos, peaks, r);
      }
    }
  }

  /** Raising the threshold can only turn an observed peak into an
    * unobserved one (for a non-negative sigma). */
  lemma ObservedMonotone(peak: Peak, lower: real, higher: real)
    requires peak.sigmaIntensity >= 0.0 && lower <= higher
    ensures IsPeakObserved(peak, higher) ==> IsPeakObserved(peak, lower)
  {
    assert peak.sigmaIntensity * lower <= peak.sigmaIntensity * higher;
  }
}

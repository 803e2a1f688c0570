/** JumpFit: the parts of the indirect JumpFit interface that compute. These
  * are the width spectra found among the text-axis labels of the input
  * workspace, the name of a single fit's output, and the input string of
  * the PlotPeakByLogValue fit. */
module JumpFit {
  import opened Wrappers

  /** Some substring occurs in the label. */
  predicate HasSubstring(axisLabel: string, substrings: seq<string>)
  {
    exists j :: 0 <= j < |substrings| && Contains(axisLabel, substrings[j])
  }

  /** One pass of the loop over the axis: the label at axis index i is
    * searched for only while fewer than maximumNumber labels are kept, and
    * a found label maps to i, overwriting an earlier index. */
  function AddLabel(kept: map<string, nat>, axisLabel: string, i: nat, substrings: seq<string>, maximumNumber: nat): map<string, nat>
  {
    if |kept| < maximumNumber && HasSubstring(axisLabel, substrings) then kept[axisLabel := i] else kept
  }

  /** The labels kept after the first n axis indexes. */
  function LabelsUpTo(axis: seq<string>, substrings: seq<string>, maximumNumber: nat, n: nat): map<string, nat>
    requires n <= |axis|
  {
    if n == 0 then map[]
    else AddLabel(LabelsUpTo(axis, substrings, maximumNumber, n - 1), axis[n - 1], n - 1, substrings, maximumNumber)
  }

  /** findAxisLabelsWithSubstrings. */
  method FindAxisLabelsWithSubstrings(axis: seq<string>, substrings: seq<string>, maximumNumber: nat)
    returns (labels: map<string, nat>)
    ensures labels == LabelsUpTo(axis, substrings, maximumNumber, |axis|)
  {
    labels := map[];
    var i := 0;
    while i < |axis|
      invariant 0 <= i <= |axis|
      invariant labels == LabelsUpTo(axis, substrings, maximumNumber, i)
    {
      var axisLabel := axis[i];
      var substringIndex := 0;
      var foundIndex: Option<nat> := None;
      while substringIndex < |substrings| && foundIndex.None? && |labels| < maximumNumber
        invariant 0 <= substringIndex <= |substrings|
        invariant foundIndex.Some? ==> |labels| < maximumNumber && HasSubstring(axisLabel, substrings)
        invariant foundIndex.None? ==> forall k :: 0 <= k < substringIndex ==> !Contains(axisLabel, substrings[k])
      {
        foundIndex := FindSub(axisLabel, substrings[substringIndex], 0);
        substringIndex := substringIndex + 1;
      }
      if foundIndex.Some? {
        labels := labels[axisLabel := i];
      }
      i := i + 1;
    }
  }

  /** The result never holds more than maximumNumber labels. */
  lemma {:induction false} LabelsCapped(axis: seq<string>, substrings: seq<string>, maximumNumber: nat, n: nat)
    requires n <= |axis|
    ensures |LabelsUpTo(axis, substrings, maximumNumber, n)| <= maximumNumber
  {
    if n > 0 {
      LabelsCapped(axis, substrings, maximumNumber, n - 1);
    }
  }

  /** Every kept label contains one of the substrings and maps to an axis
    * index that carries that label. */
  lemma {:induction false} KeptLabelsMatch(axis: seq<string>, substrings: seq<string>, maximumNumber: nat, n: nat)
    requires n <= |axis|
    ensures var kept := LabelsUpTo(axis, substrings, maximumNumber, n);
      forall axisLabel :: axisLabel in kept ==>
        HasSubstring(axisLabel, substrings) && kept[axisLabel] < n && axis[kept[axisLabel]] == axisLabel
  {
    if n > 0 {
      KeptLabelsMatch(axis, substrings, maximumNumber, n - 1);
    }
  }

  /** Labels are never dropped, so the number kept never decreases. */
  lemma {:induction false} LabelsGrow(axis: seq<string>, substrings: seq<string>, maximumNumber: nat, k: nat, n: nat)
    requires k <= n <= |axis|
    ensures LabelsUpTo(axis, substrings, maximumNumber, k).Keys <= LabelsUpTo(axis, substrings, maximumNumber, n).Keys
    ensures |LabelsUpTo(axis, substrings, maximumNumber, k)| <= |LabelsUpTo(axis, substrings, maximumNumber, n)|
    decreases n - k
  {
    if k < n {
      LabelsGrow(axis, substrings, maximumNumber, k, n - 1);
      var before := LabelsUpTo(axis, substrings, maximumNumber, k).Keys;
      var after := LabelsUpTo(axis, substrings, maximumNumber, n).Keys;
      assert before <= after;
      SubsetCard(before, after);
    }
  }

  lemma SubsetCard<T>(a: set<T>, b: set<T>)
    requires a <= b
    ensures |a| <= |b|
  {
    if a != {} {
      var x :| x in a;
      SubsetCard(a - {x}, b - {x});
    }
  }

  /** Once maximumNumber labels are kept, later labels change nothing: no
    * new label is added and no kept index is overwritten. */
  lemma {:induction false} FullIsFinal(axis: seq<string>, substrings: seq<string>, maximumNumber: nat, k: nat, n: nat)
    requires k <= n <= |axis|
    requires |LabelsUpTo(axis, substrings, maximumNumber, k)| >= maximumNumber
    ensures LabelsUpTo(axis, substrings, maximumNumber, n) == LabelsUpTo(axis, substrings, maximumNumber, k)
    decreases n - k
  {
    if k < n {
      FullIsFinal(axis, substrings, maximumNumber, k, n - 1);
    }
  }

  /** While the cap is not reached, every matching label is kept, under the
    * last axis index that carries it. */
  lemma {:induction false} UnfilledKeepsLastIndex(axis: seq<string>, substrings: seq<string>, maximumNumber: nat, n: nat)
    requires n <= |axis|
    requires |LabelsUpTo(axis, substrings, maximumNumber, n)| < maximumNumber
    ensures var kept := LabelsUpTo(axis, substrings, maximumNumber, n);
      forall i :: 0 <= i < n && HasSubstring(axis[i], substrings) ==> axis[i] in kept && kept[axis[i]] >= i
  {
    if n > 0 {
      LabelsGrow(axis, substrings, maximumNumber, n - 1, n);
      UnfilledKeepsLastIndex(axis, substrings, maximumNumber, n - 1);
      var prev := LabelsUpTo(axis, substrings, maximumNumber, n - 1);
      var kept := LabelsUpTo(axis, substrings, maximumNumber, n);
      forall i | 0 <= i < n && HasSubstring(axis[i], substrings)
        ensures axis[i] in kept && kept[axis[i]] >= i
      {
        if i < n - 1 {
          assert axis[i] in prev && prev[axis[i]] >= i;
          if axis[i] != axis[n - 1] || !HasSubstring(axis[n - 1], substrings) {
            assert kept[axis[i]] == prev[axis[i]];
          }
        }
      }
    }
  }

  /** The labels findAllWidths looks for, and how many widths it keeps. */
  const WidthSubstrings: seq<string> := [".Width", ".FWHM"]
  const MaximumWidths: nat := 3

  /** findAllWidths: a workspace whose spectrum axis is not a text axis has
    * no widths. */
  method FindAllWidths(textAxis: Option<seq<string>>) returns (spectraList: map<string, nat>)
    ensures textAxis.None? ==> spectraList == map[]
    ensures textAxis.Some? ==> spectraList == LabelsUpTo(textAxis.value, WidthSubstrings, MaximumWidths, |textAxis.value|)
  {
    if textAxis.Some? {
      spectraList := FindAxisLabelsWithSubstrings(textAxis.value, WidthSubstrings, MaximumWidths);
    } else {
      spectraList := map[];
    }
  }

  /** At most three width spectra are offered. */
  lemma AtMostThreeWidths(axis: seq<string>)
    ensures |LabelsUpTo(axis, WidthSubstrings, MaximumWidths, |axis|)| <= 3
  {
    LabelsCapped(axis, WidthSubstrings, MaximumWidths, |axis|);
  }

  const JumpFitSuffix := "_JumpFit"

  /** The input name up to its last '_' (the whole name when it has none). */
  function BaseName(inputName: string): (base: string)
    ensures |base| <= |inputName| && base == inputName[..|base|]
    ensures |base| < |inputName| ==> inputName[|base|] == '_'
    ensures forall k :: |base| < k < |inputName| ==> inputName[k] != '_'
    ensures |base| == |inputName| ==> forall k :: 0 <= k < |inputName| ==> inputName[k] != '_'
  {
    match FindLast(inputName, '_')
    case None => inputName
    case Some(cut) => inputName[..cut]
  }

  /** createSingleFitOutputName: the input name without its last '_' part,
    * then the fit type and "_JumpFit". */
  function CreateSingleFitOutputName(inputName: string, fitType: string): (name: string)
  {
    BaseName(inputName) + "_" + fitType + JumpFitSuffix
  }

  /** The output name gives back the fit type and the base name: two output
    * names agree only for the same base name and fit type. */
  lemma OutputNameDeterminesParts(inputName: string, fitType: string, inputName': string, fitType': string)
    requires CreateSingleFitOutputName(inputName, fitType) == CreateSingleFitOutputName(inputName', fitType')
    requires |BaseName(inputName)| == |BaseName(inputName')|
    ensures BaseName(inputName) == BaseName(inputName') && fitType == fitType'
  {
    var name := CreateSingleFitOutputName(inputName, fitType);
    var b, b' := BaseName(inputName), BaseName(inputName');
    assert b == name[..|b|] == b';
    assert fitType == name[|b| + 1..|name| - |JumpFitSuffix|] == fitType';
  }

  /** A name such as "sample_red" loses its reduction suffix. */
  lemma OutputNameOfReducedSample()
    ensures CreateSingleFitOutputName("irs26176_red", "HallRoss") == "irs26176_HallRoss_JumpFit"
  {
    var name := "irs26176_red";
    var base := BaseName(name);
    assert name[8] == '_' && name[9] == 'r' && name[10] == 'e' && name[11] == 'd';
    assert |base| == 8;
    assert base == "irs26176";
  }

  /** The PlotPeakByLogValue input "<sample>,i<index>". */
  function FitInput(sample: string, width: nat): string
  {
    sample + ",i" + NatToString(width)
  }

  const MissingWidthMessage := "map::at"

  /** singleFitAlgorithm's Input property: the selected width must be one
    * of the width spectra. */
  function SingleFitInput(sample: string, spectraList: map<string, nat>, widthText: string): (r: Result<string>)
    ensures r.Err? <==> widthText !in spectraList
    ensures r.Ok? ==> r.value == FitInput(sample, spectraList[widthText])
  {
    if widthText !in spectraList then Err(OutOfRange(MissingWidthMessage))
    else Ok(FitInput(sample, spectraList[widthText]))
  }

  /** The input string names the spectrum: for one sample, different width
    * spectra give different inputs. */
  lemma FitInputDeterminesWidth(sample: string, w: nat, w': nat)
    requires FitInput(sample, w) == FitInput(sample, w')
    ensures w == w'
  {
    var s := FitInput(sample, w);
    assert NatToString(w) == s[|sample| + 2..] == NatToString(w');
    NatToStringInjective(w, w');
  }
}

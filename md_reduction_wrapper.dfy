/** MDReductionWrapper: the run bookkeeping of a direct-geometry reduction
  * that accumulates reduced runs into merged MD files. A run number is
  * mapped to the MD file it belongs to (its number and run range), the file
  * gets a name, and the run gets a psi angle. The configuration lists
  * ('MD:Run Range Starts', 'MD:Run Range Ends', 'MD:Number of Runs to Merge',
  * 'MD:Filenames', 'MD:Psi Starts', 'MD:Psi Increments') are parameters. */
module MDReductionWrapper {
  import opened Wrappers

  /** The tuple (MD file number, first run, last run) the script returns. */
  datatype FileRange = FileRange(fileNumber: int, start: int, end: int)

  /** (-1, -1, -1): the run is in no requested range. */
  const NotInRange := FileRange(-1, -1, -1)

  const IncompatibleSizesMessage := "sizes are incompatible"

  /** Python's `a // b`: the quotient rounded towards minus infinity
    * (Dafny's `/` is Euclidean, which differs for a negative divisor). */
  function FloorDiv(a: int, b: int): (q: int)
    requires b != 0
    ensures b > 0 ==> b * q <= a < b * q + b
    ensures b < 0 ==> b * q + b < a <= b * q
  {
    if b > 0 || a % b == 0 then a / b else a / b - 1
  }

  // ---------------------------------------------------------------------
  // get_file_number: explicit start and end of each range
  // ---------------------------------------------------------------------

  /** Range i holds the run (both ends inclusive). */
  predicate Encloses(run: int, start: int, end: int)
  {
    start <= run && run <= end
  }

  /** The answer of get_file_number's loop from index `from` on. The end
    * of a range is only read once the run is at or after its start, so a
    * short list of ends fails only when such a start is reached. */
  function FirstEnclosing(run: int, starts: seq<int>, ends: seq<int>, from: nat): (r: Result<FileRange>)
    requires from <= |starts|
    decreases |starts| - from
  {
    if from == |starts| then Ok(NotInRange)
    else if run >= starts[from] && from >= |ends| then Err(IndexError(ListIndexMessage))
    else if run >= starts[from] && run <= ends[from] then Ok(FileRange(from, starts[from], ends[from]))
    else FirstEnclosing(run, starts, ends, from + 1)
  }

  /** get_file_number: the loop over the range starts. */
  method GetFileNumber(run: int, starts: seq<int>, ends: seq<int>) returns (r: Result<FileRange>)
    ensures r == FirstEnclosing(run, starts, ends, 0)
  {
    var i := 0;
    while i < |starts|
      invariant 0 <= i <= |starts|
      invariant FirstEnclosing(run, starts, ends, i) == FirstEnclosing(run, starts, ends, 0)
    {
      if run >= starts[i] {
        if i >= |ends| {
          return Err(IndexError(ListIndexMessage));
        }
        if run <= ends[i] {
          return Ok(FileRange(i, starts[i], ends[i]));
        }
      }
      i := i + 1;
    }
    return Ok(NotInRange);
  }

  /** With an end for every start, get_file_number never fails; it returns
    * the first range holding the run, or (-1, -1, -1) exactly when no range
    * holds it. */
  lemma {:induction false} FirstEnclosingIsFirst(run: int, starts: seq<int>, ends: seq<int>, from: nat)
    requires from <= |starts| <= |ends|
    ensures var r := FirstEnclosing(run, starts, ends, from);
      && r.Ok?
      && (r.value == NotInRange <==> forall j :: from <= j < |starts| ==> !Encloses(run, starts[j], ends[j]))
      && (r.value != NotInRange ==>
            && from <= r.value.fileNumber < |starts|
            && r.value.start == starts[r.value.fileNumber]
            && r.value.end == ends[r.value.fileNumber]
            && Encloses(run, r.value.start, r.value.end)
            && forall j :: from <= j < r.value.fileNumber ==> !Encloses(run, starts[j], ends[j]))
    decreases |starts| - from
  {
    if from < |starts| {
      FirstEnclosingIsFirst(run, starts, ends, from + 1);
    }
  }

  // ---------------------------------------------------------------------
  // get_file_number_alternative: starts and numbers of runs to merge
  // ---------------------------------------------------------------------

  /** The loop of the two list branches: the first range i with
    * `starts[i] <= run < starts[i] + counts[i]`, reported with its last run
    * `starts[i] + counts[i] - 1`. */
  function FirstCovering(run: int, starts: seq<int>, counts: seq<int>, from: nat): (r: FileRange)
    requires from <= |starts| == |counts|
    decreases |starts| - from
  {
    if from == |starts| then NotInRange
    else if run >= starts[from] && run < starts[from] + counts[from]
    then FileRange(from, starts[from], starts[from] + counts[from] - 1)
    else FirstCovering(run, starts, counts, from + 1)
  }

  /** The loop of get_file_number_alternative's list branches. */
  method FirstCoveringRange(run: int, starts: seq<int>, counts: seq<int>) returns (r: FileRange)
    requires |starts| == |counts|
    ensures r == FirstCovering(run, starts, counts, 0)
  {
    var i := 0;
    while i < |starts|
      invariant 0 <= i <= |starts|
      invariant FirstCovering(run, starts, counts, i) == FirstCovering(run, starts, counts, 0)
    {
      if run >= starts[i] && run < starts[i] + counts[i] {
        return FileRange(i, starts[i], starts[i] + counts[i] - 1);
      }
      i := i + 1;
    }
    return NotInRange;
  }

  /** A range given by its start and number of runs is the range with the
    * inclusive end `start + count - 1`: the list branches of the alternative
    * answer exactly as get_file_number would with those ends. */
  lemma {:induction false} CoveringIsEnclosing(run: int, starts: seq<int>, counts: seq<int>, ends: seq<int>, from: nat)
    requires from <= |starts| == |counts| == |ends|
    requires forall i :: 0 <= i < |ends| ==> ends[i] == starts[i] + counts[i] - 1
    ensures FirstEnclosing(run, starts, ends, from) == Ok(FirstCovering(run, starts, counts, from))
    decreases |starts| - from
  {
    if from < |starts| {
      CoveringIsEnclosing(run, starts, counts, ends, from + 1);
    }
  }

  /** The single-range branch exactly as written: file numbers count from
    * 1 and the range is `[fn * n, (fn + 1) * n]`, with no offset by the
    * start. */
  function SingleRangeAsWritten(run: int, start: int, n: int): (r: Result<FileRange>)
    ensures r.Err? <==> run >= start && n == 0
    ensures run < start ==> r == Ok(NotInRange)
  {
    if run < start then Ok(NotInRange)
    else if n == 0 then Err(ZeroDivisionError)
    else
      var fn := FloorDiv(run, n) - FloorDiv(start, n);
      Ok(FileRange(fn + 1, fn * n, (fn + 1) * n))
  }

  /** Run 105 of a range starting at run 100, merged in tens: the script
    * files it as number 1 (numbers are documented as 0 ... N-1) under the
    * range 0 .. 10, which does not hold run 105. */
  lemma SingleRangeAsWrittenCounterexample()
    ensures SingleRangeAsWritten(105, 100, 10) == Ok(FileRange(1, 0, 10))
    ensures !Encloses(105, 0, 10)
  {
    assert FloorDiv(105, 10) == 10;
    assert FloorDiv(100, 10) == 10;
  }

  /** The single-range branch as documented: files are blocks of n runs
    * aligned on multiples of n, numbered from 0 at the block of the start,
    * and each reported with its first and last run. */
  function SingleRange(run: int, start: int, n: int): (r: Result<FileRange>)
    ensures r.Err? <==> run >= start && n == 0
    ensures run < start ==> r == Ok(NotInRange)
  {
    if run < start then Ok(NotInRange)
    else if n == 0 then Err(ZeroDivisionError)
    else
      var block := FloorDiv(run, n);
      Ok(FileRange(block - FloorDiv(start, n), block * n, block * n + n - 1))
  }

  /** For a positive n, a run at or after the start falls in a file with a
    * number from 0 whose range holds the run and spans n runs; the start's
    * own file is number 0. */
  lemma SingleRangeHoldsRun(run: int, start: int, n: int)
    requires n > 0 && run >= start
    ensures var r := SingleRange(run, start, n);
      && r.Ok?
      && r.value.fileNumber >= 0
      && Encloses(run, r.value.start, r.value.end)
      && r.value.end - r.value.start == n - 1
      && (run == start ==> r.value.fileNumber == 0)
  {
    var q, p := FloorDiv(run, n), FloorDiv(start, n);
    if q < p {
      assert n * q + n <= n * p by { MulMonotone(n, q + 1, p); }
      assert false;
    }
  }

  /** Multiplying by a positive number keeps the order. */
  lemma MulMonotone(n: int, a: int, b: int)
    requires n > 0 && a <= b
    ensures n * a <= n * b
  {
  }

  /** get_file_number_alternative: the branch is chosen by the two list
    * sizes; any other combination raises. */
  function FileNumberAlternative(run: int, starts: seq<int>, counts: seq<int>): (r: Result<FileRange>)
  {
    if |starts| == 1 && |counts| == 1 then SingleRange(run, starts[0], counts[0])
    else if |starts| > 1 && |counts| == 1 then Ok(FirstCovering(run, starts, seq(|starts|, _ => counts[0]), 0))
    else if |starts| == |counts| then Ok(FirstCovering(run, starts, counts, 0))
    else Err(RuntimeError(IncompatibleSizesMessage))
  }

  /** get_file_number_alternative, with the single-range branch as
    * documented. */
  method GetFileNumberAlternative(run: int, starts: seq<int>, counts: seq<int>) returns (r: Result<FileRange>)
    ensures r == FileNumberAlternative(run, starts, counts)
  {
    if |starts| == 1 && |counts| == 1 {
      r := SingleRange(run, starts[0], counts[0]);
    } else if |starts| > 1 && |counts| == 1 {
      var found := FirstCoveringRange(run, starts, seq(|starts|, _ => counts[0]));
      r := Ok(found);
    } else if |starts| == |counts| {
      var found := FirstCoveringRange(run, starts, counts);
      r := Ok(found);
    } else {
      r := Err(RuntimeError(IncompatibleSizesMessage));
    }
  }

  /** The alternative fails exactly for incompatible list sizes, or for a
    * single range merged in blocks of 0 runs once the run reaches its
    * start; two empty lists are compatible and give (-1, -1, -1). */
  lemma FileNumberAlternativeFails(run: int, starts: seq<int>, counts: seq<int>)
    ensures var r := FileNumberAlternative(run, starts, counts);
      && (r.Err? <==>
            || !((|counts| == 1 && |starts| >= 1) || |starts| == |counts|)
            || (|starts| == 1 && |counts| == 1 && run >= starts[0] && counts[0] == 0))
      && (|starts| == 0 && |counts| == 0 ==> r == Ok(NotInRange))
  {
  }

  // ---------------------------------------------------------------------
  // get_file_name
  // ---------------------------------------------------------------------

  const NameSuffix := "_SQW.nxs"

  /** The name built from a range, such as "123_456_SQW.nxs": the start's
    * decimal digits, an underscore, the end's digits and the suffix. */
  function DefaultFileName(start: int, end: int): (name: string)
    ensures var s, e := IntToString(start), IntToString(end);
      |name| == |s| + 1 + |e| + |NameSuffix|
      && name[..|s|] == s && name[|s|] == '_'
      && name[|s| + 1..|s| + 1 + |e|] == e
      && name[|s| + 1 + |e|..] == NameSuffix
  {
    IntToString(start) + "_" + IntToString(end) + NameSuffix
  }

  /** get_file_name: the default name when 'MD:Filenames' is unset or
    * empty, else the configured name at the file number. */
  function GetFileName(names: Option<seq<string>>, fileNumber: int, start: int, end: int): (r: Result<string>)
    ensures names.None? || |names.value| == 0 ==> r == Ok(DefaultFileName(start, end))
    ensures names.Some? && |names.value| > 0 ==> r == PyIndex(names.value, fileNumber)
  {
    if names.None? || |names.value| == 0 then Ok(DefaultFileName(start, end))
    else PyIndex(names.value, fileNumber)
  }

  lemma IntToStringHasNoUnderscore(i: int)
    ensures forall k :: 0 <= k < |IntToString(i)| ==> IntToString(i)[k] != '_'
  {
    var s := IntToString(i);
    if i < 0 {
      var t := NatToString(-i);
      assert forall k :: 1 <= k < |s| ==> s[k] == t[k - 1];
    }
  }

  /** Different ranges get different default names: the name gives back
    * its start and end. */
  lemma DefaultFileNameInjective(start: int, end: int, start': int, end': int)
    requires DefaultFileName(start, end) == DefaultFileName(start', end')
    ensures start == start' && end == end'
  {
    var s, e := IntToString(start), IntToString(end);
    var s', e' := IntToString(start'), IntToString(end');
    var name := DefaultFileName(start, end);
    IntToStringHasNoUnderscore(start);
    IntToStringHasNoUnderscore(start');
    assert name[|s|] == '_';
    assert name == s' + "_" + e' + NameSuffix;
    assert name[|s'|] == '_';
    assert forall k :: 0 <= k < |s| ==> name[k] == s[k];
    assert forall k :: 0 <= k < |s'| ==> name[k] == s'[k];
    assert |s| == |s'|;
    assert s == name[..|s|] == s';
    IntToStringInjective(start, start');
    var tail := name[|s| + 1..];
    assert tail == e + NameSuffix == e' + NameSuffix;
    assert e == tail[..|tail| - |NameSuffix|] == e';
    IntToStringInjective(end, end');
  }

  // ---------------------------------------------------------------------
  // get_psi
  // ---------------------------------------------------------------------

  /** The psi angle of a run that is `run - start` runs into its file. */
  function PsiOf(psiStart: real, increment: real, run: int, start: int): real
  {
    psiStart + (run - start) as real * increment
  }

  /** get_psi: one start and one increment are shared by all files; equal
    * lists give each file its own; several starts may share one increment;
    * other sizes raise. The end of the range is not used. */
  function GetPsi(fileNumber: int, run: int, start: int, psiStarts: seq<real>, psiIncrements: seq<real>): (r: Result<real>)
    ensures |psiStarts| == 1 && |psiIncrements| == 1 ==> r == Ok(PsiOf(psiStarts[0], psiIncrements[0], run, start))
    ensures !(|psiStarts| == |psiIncrements| || (|psiStarts| > 1 && |psiIncrements| == 1)) ==> r.Err?
    ensures (|psiStarts| > 1 || |psiIncrements| > 1) && 0 <= fileNumber < |psiStarts| && |psiIncrements| in {1, |psiStarts|}
      ==> r == Ok(PsiOf(psiStarts[fileNumber], psiIncrements[if |psiIncrements| == 1 then 0 else fileNumber], run, start))
  {
    if |psiStarts| == 1 && |psiIncrements| == 1 then
      Ok(PsiOf(psiStarts[0], psiIncrements[0], run, start))
    else if |psiStarts| == |psiIncrements| then
      match PyIndex(psiStarts, fileNumber)
      case Err(e) => Err(e)
      case Ok(psiStart) =>
        match PyIndex(psiIncrements, fileNumber)
        case Err(e) => Err(e)
        case Ok(increment) => Ok(PsiOf(psiStart, increment, run, start))
    else if |psiStarts| > 1 && |psiIncrements| == 1 then
      match PyIndex(psiStarts, fileNumber)
      case Err(e) => Err(e)
      case Ok(psiStart) => Ok(PsiOf(psiStart, psiIncrements[0], run, start))
    else Err(RuntimeError(IncompatibleSizesMessage))
  }

  /** Within one file, psi starts at the file's psi start for its first run
    * and moves by the file's increment from one run to the next. */
  lemma PsiSteps(psiStart: real, increment: real, run: int, start: int)
    ensures PsiOf(psiStart, increment, start, start) == psiStart
    ensures PsiOf(psiStart, increment, run + 1, start) == PsiOf(psiStart, increment, run, start) + increment
  {
    assert (run + 1 - start) as real * increment == (run - start) as real * increment + increment;
  }
}

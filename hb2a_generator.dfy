/** hb2a_generator: builds the instrument definition of the HB2A powder
  * diffractometer from a gap file. Each line of the file ends in the gap
  * between neighbouring tubes; the running sums of the gaps are the tubes'
  * angles, all on one radius, and the source sits upstream on the beam
  * axis. The XML text itself is not modelled: the values it carries are. */
module HB2AGenerator {
  import opened Wrappers

  // ---------------------------------------------------------------------
  // parseGapFile
  // ---------------------------------------------------------------------

  /** Python 2's whitespace for str.strip and str.split. */
  predicate IsWhitespace(c: char)
  {
    c == ' ' || c == '\t' || c == '\n' || c == '\r' || c == '\U{000B}' || c == '\U{000C}'
  }

  /** A line is blank when stripping leaves nothing. */
  predicate Blank(line: string)
  {
    forall k :: 0 <= k < |line| ==> IsWhitespace(line[k])
  }

  /** The end of the last word of a line: one past its last character
    * that is not whitespace. */
  function LastWordEnd(line: string, end: nat): (e: nat)
    requires end <= |line| && exists k :: 0 <= k < end && !IsWhitespace(line[k])
    ensures 0 < e <= end && !IsWhitespace(line[e - 1])
    ensures forall k :: e <= k < end ==> IsWhitespace(line[k])
  {
    if !IsWhitespace(line[end - 1]) then end else LastWordEnd(line, end - 1)
  }

  /** The last whitespace-separated field of a line that is not blank:
    * a word preceded by whitespace or the line's start and followed only by
    * whitespace. */
  function LastField(line: string): (field: string)
    requires !Blank(line)
    ensures |field| > 0
    ensures forall k :: 0 <= k < |field| ==> !IsWhitespace(field[k])
    ensures var e := LastWordEnd(line, |line|);
      |field| <= e && field == line[e - |field|..e]
      && (e == |field| || IsWhitespace(line[e - |field| - 1]))
      && forall k :: e <= k < |line| ==> IsWhitespace(line[k])
  {
    TrailingWord(line, LastWordEnd(line, |line|))
  }

  /** The word that ends at `end`, a non-whitespace character before it. */
  function TrailingWord(line: string, end: nat): (word: string)
    requires 0 < end <= |line| && !IsWhitespace(line[end - 1])
    ensures 0 < |word| <= end && word == line[end - |word|..end]
    ensures forall k :: 0 <= k < |word| ==> !IsWhitespace(word[k])
    ensures end - |word| == 0 || IsWhitespace(line[end - |word| - 1])
    decreases end
  {
    if end == 1 || IsWhitespace(line[end - 2]) then [line[end - 1]]
    else TrailingWord(line, end - 1) + [line[end - 1]]
  }

  /** The gaps of the lines, blank lines skipped, in file order. The text
    * to number conversion `float` is a parameter (None: ValueError). */
  function GapsOf(lines: seq<string>, parseFloat: string -> Option<real>): (r: Result<seq<real>>)
    ensures r.Ok? ==> |r.value| <= |lines|
  {
    if |lines| == 0 then Ok([])
    else
      match GapsOf(lines[..|lines| - 1], parseFloat)
      case Err(e) => Err(e)
      case Ok(gaps) =>
        var line := lines[|lines| - 1];
        if Blank(line) then Ok(gaps)
        else
          match parseFloat(LastField(line))
          case None => Err(InvalidArgument(NotANumberMessage))
          case Some(gap) => Ok(gaps + [gap])
  }

  const NotANumberMessage := "could not convert string to float"

  /** parseGapFile on the lines the file holds. */
  method ParseGapFile(lines: seq<string>, parseFloat: string -> Option<real>) returns (r: Result<seq<real>>)
    ensures r == GapsOf(lines, parseFloat)
  {
    var gaps: seq<real> := [];
    for i := 0 to |lines|
      invariant GapsOf(lines[..i], parseFloat) == Ok(gaps)
    {
      assert lines[..i + 1][..i] == lines[..i];
      var line := lines[i];
      if Blank(line) {
        continue;
      }
      var gap := parseFloat(LastField(line));
      if gap.None? {
        GapErrorPersists(lines, parseFloat, i + 1);
        assert GapsOf(lines[..i + 1], parseFloat) == Err(InvalidArgument(NotANumberMessage));
        return Err(InvalidArgument(NotANumberMessage));
      }
      gaps := gaps + [gap.value];
    }
    assert lines[..|lines|] == lines;
    return Ok(gaps);
  }

  /** Once a line fails to convert, the whole file fails. */
  lemma {:induction false} GapErrorPersists(lines: seq<string>, parseFloat: string -> Option<real>, n: nat)
    requires n <= |lines| && GapsOf(lines[..n], parseFloat).Err?
    ensures GapsOf(lines, parseFloat) == GapsOf(lines[..n], parseFloat)
    decreases |lines| - n
  {
    if n < |lines| {
      assert lines[..n + 1][..n] == lines[..n];
      GapErrorPersists(lines, parseFloat, n + 1);
    } else {
      assert lines[..n] == lines;
    }
  }

  /** The number of lines that are not blank. */
  function NonBlankCount(lines: seq<string>): nat
  {
    if |lines| == 0 then 0
    else NonBlankCount(lines[..|lines| - 1]) + (if Blank(lines[|lines| - 1]) then 0 else 1)
  }

  /** A parsed file has one gap per line that is not blank. */
  lemma {:induction false} OneGapPerLine(lines: seq<string>, parseFloat: string -> Option<real>)
    requires GapsOf(lines, parseFloat).Ok?
    ensures |GapsOf(lines, parseFloat).value| == NonBlankCount(lines)
  {
    if |lines| > 0 {
      OneGapPerLine(lines[..|lines| - 1], parseFloat);
    }
  }

  // ---------------------------------------------------------------------
  // importDetInfo and the tube list
  // ---------------------------------------------------------------------

  function Sum(s: seq<real>): real
  {
    if |s| == 0 then 0.0 else Sum(s[..|s| - 1]) + s[|s| - 1]
  }

  /** Tube i sits at angle gaps[0] + ... + gaps[i] on the radius. */
  function Positions(gaps: seq<real>, radius: real): (ps: seq<(real, real)>)
    ensures |ps| == |gaps|
  {
    seq(|gaps|, i requires 0 <= i < |gaps| => (Sum(gaps[..i + 1]), radius))
  }

  /** A tube location of the bank: its radius, angle and number. */
  datatype Tube = Tube(r: real, t: real, number: nat)

  /** The tubes numbered 1 to 44 of the bank. */
  const TubeCount: nat := 44

  const MismatchMessage := "Number of detector must be same as number of gaps."

  /** The generator's attributes; `srcDistance` is None until set. */
  class Generator {
    var numDets: int
    var detPosList: seq<(real, real)>
    var srcDistance: Option<real>

    constructor ()
      ensures numDets == 0 && detPosList == [] && srcDistance == None
    {
      numDets := 0;
      detPosList := [];
      srcDistance := None;
    }

    /** importDetInfo: the running sum of the gaps, each paired with the
      * radius. */
    method ImportDetInfo(numdet: int, detgaplist: seq<real>, detradius: real) returns (r: Result<()>)
      modifies this
      ensures r.Err? <==> numdet != |detgaplist|
      ensures r.Err? ==> unchanged(this)
      ensures r.Ok? ==> numDets == numdet && detPosList == Positions(detgaplist, detradius) && srcDistance == old(srcDistance)
    {
      if numdet != |detgaplist| {
        return Err(NotImplementedError(MismatchMessage));
      }
      numDets := numdet;
      detPosList := [];
      var pos := 0.0;
      for igap := 0 to numdet
        invariant numDets == numdet && srcDistance == old(srcDistance)
        invariant pos == Sum(detgaplist[..igap])
        invariant |detPosList| == igap
        invariant forall i :: 0 <= i < igap ==> detPosList[i] == (Sum(detgaplist[..i + 1]), detradius)
      {
        assert detgaplist[..igap + 1][..igap] == detgaplist[..igap];
        pos := pos + detgaplist[igap];
        detPosList := detPosList + [(pos, detradius)];
      }
      assert detgaplist[..numdet] == detgaplist;
      assert forall i :: 0 <= i < numdet ==> detPosList[i] == Positions(detgaplist, detradius)[i];
      r := Ok(());
    }

    method SetSourceDistance(srcdist: real)
      modifies this
      ensures srcDistance == Some(srcdist) && numDets == old(numDets) && detPosList == old(detPosList)
    {
      srcDistance := Some(srcdist);
    }

    /** _genSource: the source's z coordinate, upstream of the sample. */
    function SourceZ(): (z: Result<real>)
      reads this
      ensures srcDistance.None? <==> z.Err?
      ensures z.Ok? ==> z.value == -srcDistance.value
    {
      if srcDistance.None? then Err(RuntimeError(NoSourceMessage)) else Ok(-srcDistance.value)
    }

    /** _genDetectors: the tube locations. */
    function TubeLocations(): (r: Result<seq<Tube>>)
      reads this
    {
      Tubes(detPosList)
    }
  }

  const NoSourceMessage := "no attribute '_srcDistance'"

  /** Tubes 1 to 44 take positions 0 to 43; fewer positions raise
    * IndexError. */
  function Tubes(detPosList: seq<(real, real)>): (r: Result<seq<Tube>>)
    ensures r.Ok? <==> |detPosList| >= TubeCount
    ensures r.Ok? ==> |r.value| == TubeCount && forall k :: 0 <= k < TubeCount ==>
      r.value[k] == Tube(detPosList[k].1, detPosList[k].0, k + 1)
  {
    if |detPosList| < TubeCount then Err(IndexError(ListIndexMessage))
    else Ok(seq(TubeCount, k requires 0 <= k < TubeCount => Tube(detPosList[k].1, detPosList[k].0, k + 1)))
  }

  /** The angles only grow along the bank when no gap is negative. */
  lemma {:induction false} SumGrows(gaps: seq<real>, i: nat, j: nat)
    requires i <= j <= |gaps|
    requires forall k :: 0 <= k < |gaps| ==> gaps[k] >= 0.0
    ensures Sum(gaps[..i]) <= Sum(gaps[..j])
    decreases j - i
  {
    if i < j {
      SumGrows(gaps, i, j - 1);
      assert gaps[..j][..j - 1] == gaps[..j - 1];
    }
  }

  /** Consecutive tubes are one gap apart. */
  lemma PositionsStepByGap(gaps: seq<real>, radius: real, i: nat)
    requires 0 < i < |gaps|
    ensures Positions(gaps, radius)[i].0 == Positions(gaps, radius)[i - 1].0 + gaps[i]
    ensures Positions(gaps, radius)[i].1 == radius
  {
    assert gaps[..i + 1][..i] == gaps[..i];
  }

  // ---------------------------------------------------------------------
  // main
  // ---------------------------------------------------------------------

  /** What main produces: the usage text, or an instrument with the source
    * position and the tube list. */
  datatype Outcome = Usage | Instrument(sourceZ: real, detectorRadius: real, tubes: seq<Tube>)

  const DefaultSourceDistance: real := 2.0
  const DefaultDetectorRadius: real := 2.0

  /** main: the script arguments, the gap file's lines and `float`. */
  method RunScript(argv: seq<string>, gapLines: seq<string>, parseFloat: string -> Option<real>) returns (r: Result<Outcome>)
    ensures |argv| < 3 ==> r == Ok(Usage)
    ensures r.Ok? && r.value.Instrument? ==> |argv| >= 3
    ensures |argv| >= 3 && |argv| < 5 ==> r == Build(DefaultSourceDistance, DefaultDetectorRadius, GapsOf(gapLines, parseFloat))
    ensures |argv| >= 5 && parseFloat(argv[3]).Some? && parseFloat(argv[4]).Some? ==>
      r == Build(parseFloat(argv[3]).value, parseFloat(argv[4]).value, GapsOf(gapLines, parseFloat))
    ensures |argv| >= 5 && (parseFloat(argv[3]).None? || parseFloat(argv[4]).None?) ==>
      r == Err(InvalidArgument(NotANumberMessage))
  {
    if |argv| < 3 {
      return Ok(Usage);
    }
    var sourcedistance, detrad;
    if |argv| < 5 {
      sourcedistance, detrad := DefaultSourceDistance, DefaultDetectorRadius;
    } else {
      var s, d := parseFloat(argv[3]), parseFloat(argv[4]);
      if s.None? || d.None? {
        return Err(InvalidArgument(NotANumberMessage));
      }
      sourcedistance, detrad := s.value, d.value;
    }
    var detgaplist := ParseGapFile(gapLines, parseFloat);
    if detgaplist.Err? {
      return Err(detgaplist.error);
    }
    var generator := new Generator();
    var imported := generator.ImportDetInfo(|detgaplist.value|, detgaplist.value, detrad);
    generator.SetSourceDistance(sourcedistance);
    var tubes := generator.TubeLocations();
    if tubes.Err? {
      return Err(tubes.error);
    }
    var z := generator.SourceZ();
    r := Ok(Instrument(z.value, detrad, tubes.value));
  }

  /** The instrument main writes for given distances and parsed gaps. */
  function Build(sourceDistance: real, radius: real, gaps: Result<seq<real>>): (r: Result<Outcome>)
    ensures r.Ok? <==> gaps.Ok? && |gaps.value| >= TubeCount
    ensures r.Ok? ==> r.value.Instrument? && r.value.sourceZ == -sourceDistance && r.value.detectorRadius == radius
  {
    match gaps
    case Err(e) => Err(e)
    case Ok(g) =>
      match Tubes(Positions(g, radius))
      case Err(e) => Err(e)
      case Ok(tubes) => Ok(Instrument(-sourceDistance, radius, tubes))
  }

  /** In a built instrument, tube k + 1 sits at the sum of the first k + 1
    * gaps, on the detector radius. */
  lemma BuiltTubesFollowGaps(sourceDistance: real, radius: real, gaps: seq<real>, k: nat)
    requires |gaps| >= TubeCount && k < TubeCount
    ensures var r := Build(sourceDistance, radius, Ok(gaps));
      r.Ok? && r.value.tubes[k] == Tube(radius, Sum(gaps[..k + 1]), k + 1)
  {
  }
}

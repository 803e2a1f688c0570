/** LoadHFIRPDD: turns a SPICE data table of an HFIR powder diffractometer
  * scan (one row per scan point, one column per anode counter or sample
  * log) into a list of MD events for the counts, a list of MD events for the
  * monitor, and time-series sample logs.
  *
  * The MD workspaces are built by writing events to a temporary file that
  * ImportMDEventWorkspace reads back; the model keeps the event list that
  * file holds. Detector IDs and the parent workspace's logs come from the
  * instrument and the parent workspace and enter as inputs. */
module LoadHFIRPDD {
  import opened Wrappers

  /** A SPICE data table: the column names and the rows of numeric cells. */
  datatype Table = Table(columns: seq<string>, rows: seq<seq<real>>)
  {
    predicate WellFormed()
    {
      forall r :: 0 <= r < |rows| ==> |rows[r]| == |columns|
    }
  }

  // ---------------------------------------------------------------------
  // Anode identifiers: the number after the last of the letters a, n, o,
  // d, e, read with atoi and cast to size_t.

  const AnodePrefix: string := "anode"

  /** The column name starts with "anode". */
  predicate IsAnodeColumn(name: string)
  {
    |name| >= 5 && name[0] == 'a' && name[1] == 'n' && name[2] == 'o' && name[3] == 'd' && name[4] == 'e'
  }

  /** The delimiters of boost::is_any_of("anode"). */
  predicate IsAnodeLetter(c: char)
  {
    c == 'a' || c == 'n' || c == 'o' || c == 'd' || c == 'e'
  }

  /** The last term boost::split yields: what follows the last delimiter. */
  function LastTerm(s: string): (r: string)
    ensures |r| <= |s| && r == s[|s| - |r|..]
    ensures forall k :: 0 <= k < |r| ==> !IsAnodeLetter(r[k])
    ensures |r| < |s| ==> IsAnodeLetter(s[|s| - |r| - 1])
  {
    if |s| == 0 then ""
    else if IsAnodeLetter(s[|s| - 1]) then ""
    else LastTerm(s[..|s| - 1]) + [s[|s| - 1]]
  }

  /** The white space atoi skips (isspace in the C locale). */
  predicate IsSpace(c: char)
  {
    c == ' ' || c == '\t' || c == '\n' || c == '\r' || c == '\U{000B}' || c == '\U{000C}'
  }

  predicate IsDigit(c: char)
  {
    '0' <= c <= '9'
  }

  /** Number of leading characters of s satisfying the white-space test. */
  function LeadingSpaces(s: string): (n: nat)
    ensures n <= |s|
    ensures forall k :: 0 <= k < n ==> IsSpace(s[k])
    ensures n < |s| ==> !IsSpace(s[n])
  {
    if |s| == 0 || !IsSpace(s[0]) then 0 else 1 + LeadingSpaces(s[1..])
  }

  /** Number of leading decimal digits of s. */
  function LeadingDigits(s: string): (n: nat)
    ensures n <= |s|
    ensures forall k :: 0 <= k < n ==> IsDigit(s[k])
    ensures n < |s| ==> !IsDigit(s[n])
  {
    if |s| == 0 || !IsDigit(s[0]) then 0 else 1 + LeadingDigits(s[1..])
  }

  /** The value of a string of decimal digits, most significant first. */
  function DigitsValue(s: string): (v: nat)
    requires forall k :: 0 <= k < |s| ==> IsDigit(s[k])
  {
    if |s| == 0 then 0
    else DigitsValue(s[..|s| - 1]) * 10 + DigitValue(s[|s| - 1])
  }

  function DigitValue(c: char): (d: nat)
    requires IsDigit(c)
    ensures d < 10
  {
    c as int - 48
  }

  /** The value of the digits s starts with (0 when it starts with none). */
  function LeadingValue(s: string): nat
  {
    DigitsValue(s[..LeadingDigits(s)])
  }

  /** atoi: white space, an optional sign, then as many digits as follow;
    * 0 when no digit follows. */
  function Atoi(s: string): (r: int)
    ensures LeadingSpaces(s) == |s| ==> r == 0
  {
    if |s| > 0 && IsSpace(s[0]) then Atoi(s[1..])
    else if |s| > 0 && s[0] == '-' then -(LeadingValue(s[1..]) as int)
    else if |s| > 0 && s[0] == '+' then LeadingValue(s[1..])
    else LeadingValue(s)
  }

  const SizeTModulus: int := 0x1_0000_0000_0000_0000

  /** static_cast<size_t> of an int: a negative value wraps around. */
  function ToSizeT(i: int): (r: nat)
    requires i > -SizeTModulus
    ensures i >= 0 ==> r == i
    ensures i < 0 ==> r == i + SizeTModulus
  {
    if i < 0 then i + SizeTModulus else i
  }

  /** The anode number readTableInfo takes from an "anode..." column name.
    * atoi's overflow is not modelled: a number with more digits than
    * an int holds is read exactly. */
  function AnodeId(colname: string): (r: nat)
  {
    var v := Atoi(LastTerm(colname));
    if v <= -SizeTModulus then 0 else ToSizeT(v)
  }

  lemma DigitCharValue(d: nat)
    requires d < 10
    ensures DigitValue(DigitChar(d)) == d
  {
    var digits := ['0', '1', '2', '3', '4', '5', '6', '7', '8', '9'];
    assert DigitChar(d) == digits[d];
  }

  lemma {:induction false} NatToStringValue(n: nat)
    ensures DigitsValue(NatToString(n)) == n
  {
    var s := NatToString(n);
    if n >= 10 {
      NatToStringValue(n / 10);
      DigitCharValue(n % 10);
      assert s[..|s| - 1] == NatToString(n / 10);
    } else {
      DigitCharValue(n);
    }
  }

  /** A column named "anode" followed by the decimal digits of n gets the
    * anode number n. */
  lemma AnodeIdOfNumberedColumn(n: nat)
    ensures AnodeId(AnodePrefix + NatToString(n)) == n
  {
    var digits := NatToString(n);
    LastTermOfDigits(digits);
    AtoiOfDigits(digits);
    NatToStringValue(n);
    AnodeIdFromParts(AnodePrefix + digits, digits, n);
  }

  lemma AnodeIdFromParts(name: string, digits: string, n: nat)
    requires LastTerm(name) == digits && Atoi(digits) == n
    ensures AnodeId(name) == n
  {
  }

  /** The digits after "anode" are the last term of the name. */
  lemma LastTermOfDigits(digits: string)
    requires forall k :: 0 <= k < |digits| ==> '0' <= digits[k] <= '9'
    ensures LastTerm(AnodePrefix + digits) == digits
  {
    NoDelimiterInDigits(digits);
    var p := AnodePrefix;
    assert p[|p| - 1] == 'e';
    LastTermOfSuffix(p, digits);
  }

  lemma NoDelimiterInDigits(digits: string)
    requires forall k :: 0 <= k < |digits| ==> '0' <= digits[k] <= '9'
    ensures forall k :: 0 <= k < |digits| ==> !IsAnodeLetter(digits[k])
  {
  }

  lemma AtoiOfDigits(s: string)
    requires |s| >= 1 && forall k :: 0 <= k < |s| ==> IsDigit(s[k])
    ensures Atoi(s) == DigitsValue(s)
  {
    DigitsAllLeading(s);
    assert s[..|s|] == s;
  }

  lemma {:induction false} DigitsAllLeading(s: string)
    requires forall k :: 0 <= k < |s| ==> IsDigit(s[k])
    ensures LeadingDigits(s) == |s|
  {
    if |s| > 0 {
      DigitsAllLeading(s[1..]);
    }
  }

  lemma {:induction false} LastTermOfSuffix(p: string, s: string)
    requires |p| >= 1 && IsAnodeLetter(p[|p| - 1])
    requires forall k :: 0 <= k < |s| ==> !IsAnodeLetter(s[k])
    ensures LastTerm(p + s) == s
  {
    var q := p + s;
    if |s| == 0 {
      assert q == p;
    } else {
      var s' := s[..|s| - 1];
      assert q[..|q| - 1] == p + s';
      LastTermOfSuffix(p, s');
      assert q[|q| - 1] == s[|s| - 1];
      assert s' + [s[|s| - 1]] == s;
    }
  }

  // ---------------------------------------------------------------------
  // readTableInfo

  /** The (anode number, column index) pairs of the columns whose name
    * starts with "anode", in column order. */
  function AnodeColumns(cols: seq<string>): (r: seq<(nat, nat)>)
    ensures |r| <= |cols|
    ensures forall k :: 0 <= k < |r| ==>
      r[k].1 < |cols| && IsAnodeColumn(cols[r[k].1])
  {
    if |cols| == 0 then []
    else
      var prev := AnodeColumns(cols[..|cols| - 1]);
      if IsAnodeColumn(cols[|cols| - 1]) then prev + [(AnodeId(cols[|cols| - 1]), |cols| - 1)]
      else prev
  }

  /** Each entry's anode number is the one its column name carries. */
  lemma {:induction false} AnodeColumnsNumbers(cols: seq<string>)
    ensures forall k :: 0 <= k < |AnodeColumns(cols)| ==>
      AnodeColumns(cols)[k].0 == AnodeId(cols[AnodeColumns(cols)[k].1])
  {
    if |cols| > 0 {
      var init := cols[..|cols| - 1];
      AnodeColumnsNumbers(init);
      AnodeColumnsExtends(cols);
      var prev := AnodeColumns(init);
      var r := AnodeColumns(cols);
      forall k | 0 <= k < |r| ensures r[k].0 == AnodeId(cols[r[k].1]) {
        if k < |prev| {
          assert r[k] == prev[k] && init[prev[k].1] == cols[prev[k].1];
        }
      }
    }
  }

  /** The list follows column order, so no column appears twice. */
  lemma {:induction false} AnodeColumnsInColumnOrder(cols: seq<string>)
    ensures forall k, l :: 0 <= k < l < |AnodeColumns(cols)| ==> AnodeColumns(cols)[k].1 < AnodeColumns(cols)[l].1
  {
    if |cols| > 0 {
      var init := cols[..|cols| - 1];
      AnodeColumnsInColumnOrder(init);
      AnodeColumnsExtends(cols);
    }
  }

  /** Every anode column is listed. */
  lemma {:induction false} AnodeColumnsComplete(cols: seq<string>, i: nat)
    requires i < |cols| && IsAnodeColumn(cols[i])
    ensures exists k :: 0 <= k < |AnodeColumns(cols)| && AnodeColumns(cols)[k].1 == i
  {
    var init := cols[..|cols| - 1];
    var prev := AnodeColumns(init);
    var r := AnodeColumns(cols);
    AnodeColumnsExtends(cols);
    if i == |cols| - 1 {
      AnodeColumnsLast(cols);
      assert r[|r| - 1].1 == i;
    } else {
      assert init[i] == cols[i];
      AnodeColumnsComplete(init, i);
      var k :| 0 <= k < |prev| && prev[k].1 == i;
      assert r[k] == r[..|prev|][k];
    }
  }

  /** The columns before the last keep their entries. */
  lemma AnodeColumnsExtends(cols: seq<string>)
    requires |cols| > 0
    ensures |AnodeColumns(cols[..|cols| - 1])| <= |AnodeColumns(cols)|
    ensures AnodeColumns(cols)[..|AnodeColumns(cols[..|cols| - 1])|] == AnodeColumns(cols[..|cols| - 1])
  {
  }

  /** A last column named "anode..." is the last entry. */
  lemma AnodeColumnsLast(cols: seq<string>)
    requires |cols| > 0 && IsAnodeColumn(cols[|cols| - 1])
    ensures |AnodeColumns(cols)| > 0 && AnodeColumns(cols)[|AnodeColumns(cols)| - 1].1 == |cols| - 1
  {
  }

  /** The sample-log index: every column not starting with "anode", mapped
    * to the first column carrying that name (std::map::insert keeps an
    * existing entry). */
  function SampleIndex(cols: seq<string>): (m: map<string, nat>)
    ensures forall name :: name in m ==>
      m[name] < |cols| && cols[m[name]] == name && !IsAnodeColumn(name)
    ensures forall i :: 0 <= i < |cols| && !IsAnodeColumn(cols[i]) ==> cols[i] in m
  {
    if |cols| == 0 then map[]
    else
      var prev := SampleIndex(cols[..|cols| - 1]);
      var name := cols[|cols| - 1];
      if IsAnodeColumn(name) || name in prev then prev
      else prev[name := |cols| - 1]
  }

  /** A repeated log name keeps the index of its first column. */
  lemma {:induction false} SampleIndexFirst(cols: seq<string>, name: string, i: nat)
    requires name in SampleIndex(cols) && i < SampleIndex(cols)[name]
    ensures cols[i] != name
  {
    var prev := SampleIndex(cols[..|cols| - 1]);
    if name in prev {
      assert SampleIndex(cols)[name] == prev[name];
      SampleIndexFirst(cols[..|cols| - 1], name, i);
      assert cols[i] == cols[..|cols| - 1][i];
    } else {
      assert SampleIndex(cols)[name] == |cols| - 1;
      assert cols[..|cols| - 1][i] == cols[i];
    }
  }

  /** Pairs in std::pair's lexicographic order. */
  predicate PairLe(a: (nat, nat), b: (nat, nat))
  {
    a.0 < b.0 || (a.0 == b.0 && a.1 <= b.1)
  }

  predicate SortedPairs(s: seq<(nat, nat)>)
  {
    forall i, j :: 0 <= i < j < |s| ==> PairLe(s[i], s[j])
  }

  function InsertPair(x: (nat, nat), s: seq<(nat, nat)>): (r: seq<(nat, nat)>)
    requires SortedPairs(s)
    ensures SortedPairs(r) && multiset(r) == multiset(s) + multiset{x}
  {
    if |s| == 0 then [x]
    else if PairLe(x, s[0]) then [x] + s
    else
      var rest := InsertPair(x, s[1..]);
      assert s == [s[0]] + s[1..];
      ConsSorted(s[0], x, s[1..], rest);
      [s[0]] + rest
  }

  /** The head of a sorted list stays in front of the tail with x inserted,
    * when x does not go before it. */
  lemma ConsSorted(head: (nat, nat), x: (nat, nat), tail: seq<(nat, nat)>, rest: seq<(nat, nat)>)
    requires SortedPairs([head] + tail) && !PairLe(x, head)
    requires SortedPairs(rest) && multiset(rest) == multiset(tail) + multiset{x}
    ensures SortedPairs([head] + rest)
  {
    var r := [head] + rest;
    forall j | 0 <= j < |rest| ensures PairLe(head, rest[j]) {
      assert rest[j] in multiset(rest);
      if rest[j] == x {
        assert PairLe(head, x);
      } else {
        assert rest[j] in multiset(tail);
        var m :| 0 <= m < |tail| && tail[m] == rest[j];
        assert ([head] + tail)[0] == head && ([head] + tail)[m + 1] == tail[m];
        assert PairLe(([head] + tail)[0], ([head] + tail)[m + 1]);
      }
    }
    forall i, j | 0 <= i < j < |r| ensures PairLe(r[i], r[j]) {
      assert r[j] == rest[j - 1];
      if i > 0 {
        assert r[i] == rest[i - 1];
      }
    }
  }

  /** std::sort of the anode list: sorted, and a permutation of its input. */
  function SortPairs(s: seq<(nat, nat)>): (r: seq<(nat, nat)>)
    ensures SortedPairs(r) && multiset(r) == multiset(s)
  {
    if |s| == 0 then []
    else
      assert s == [s[0]] + s[1..];
      InsertPair(s[0], SortPairs(s[1..]))
  }

  const MissingColumnMessage := "At least 1 of these 3 is not found: Pt., 2theta, time"

  /** What readTableInfo hands back: the Pt., 2theta and time columns, the
    * sorted anode list and the sample-log index. */
  datatype TableInfo = TableInfo(ipt: nat, irotangle: nat, itime: nat,
                                 anodes: seq<(nat, nat)>, sampleIndex: map<string, nat>)

  function TableInfoOf(cols: seq<string>): (r: Result<TableInfo>)
    ensures r.Ok? ==>
      && SortedPairs(r.value.anodes)
      && multiset(r.value.anodes) == multiset(AnodeColumns(cols))
      && (forall k :: 0 <= k < |r.value.anodes| ==> r.value.anodes[k].1 < |cols|)
    ensures r.Ok? ==>
      && r.value.sampleIndex == SampleIndex(cols)
      && r.value.itime < |cols| && r.value.irotangle < |cols| && r.value.ipt < |cols|
  {
    var index := SampleIndex(cols);
    if !("Pt." in index && "2theta" in index && "time" in index) then
      Err(RuntimeError(MissingColumnMessage))
    else
      var anodes := SortPairs(AnodeColumns(cols));
      assert forall k :: 0 <= k < |anodes| ==> anodes[k].1 < |cols| by {
        forall k | 0 <= k < |anodes| ensures anodes[k].1 < |cols| {
          assert anodes[k] in multiset(AnodeColumns(cols));
        }
      }
      Ok(TableInfo(index["Pt."], index["2theta"], index["time"], anodes, index))
  }

  /** readTableInfo: one pass over the column names pushes anode columns
    * and indexes the others; then the three required columns are looked up
    * and the anode list is sorted. */
  method ReadTableInfo(columns: seq<string>) returns (r: Result<TableInfo>)
    ensures r == TableInfoOf(columns)
  {
    var anodelist: seq<(nat, nat)> := [];
    var sampleindexlist: map<string, nat> := map[];
    for icol := 0 to |columns|
      invariant anodelist == AnodeColumns(columns[..icol])
      invariant sampleindexlist == SampleIndex(columns[..icol])
    {
      assert columns[..icol + 1][..icol] == columns[..icol];
      var colname := columns[icol];
      if IsAnodeColumn(colname) {
        anodelist := anodelist + [(AnodeId(colname), icol)];
      } else if colname !in sampleindexlist {
        sampleindexlist := sampleindexlist[colname := icol];
      }
    }
    assert columns[..|columns|] == columns;
    if !("Pt." in sampleindexlist && "2theta" in sampleindexlist && "time" in sampleindexlist) {
      return Err(RuntimeError(MissingColumnMessage));
    }
    r := Ok(TableInfo(sampleindexlist["Pt."], sampleindexlist["2theta"], sampleindexlist["time"],
                      SortPairs(anodelist), sampleindexlist));
  }

  /** readTableInfo fails exactly when one of the columns "Pt.", "2theta"
    * and "time" is missing; the sample index maps each log name to its
    * first column. */
  lemma TableInfoFails(cols: seq<string>)
    ensures TableInfoOf(cols).Err? <==> !("Pt." in cols && "2theta" in cols && "time" in cols)
    ensures TableInfoOf(cols).Err? ==> TableInfoOf(cols).error.RuntimeError?
  {
    var index := SampleIndex(cols);
    if "Pt." in cols {
      var i :| 0 <= i < |cols| && cols[i] == "Pt.";
      assert "Pt." in index;
    }
    if "2theta" in cols {
      var i :| 0 <= i < |cols| && cols[i] == "2theta";
      assert "2theta" in index;
    }
    if "time" in cols {
      var i :| 0 <= i < |cols| && cols[i] == "time";
      assert "time" in index;
    }
  }

  // ---------------------------------------------------------------------
  // Run start and start times (exec, convertToWorkspaces)

  const MissingRunStartMessage := "Run-start time is not defined either in input parent workspace or given by user."

  /** The run start, in nanoseconds: the parent's run_start log when present,
    * otherwise the RunStart property, which must not be empty. */
  function RunStart(parentRunStart: Option<int>, runStartProperty: string, parseTime: string -> int): (r: Result<int>)
    ensures r.Err? <==> parentRunStart.None? && |runStartProperty| == 0
    ensures parentRunStart.Some? ==> r == Ok(parentRunStart.value)
    ensures parentRunStart.None? && |runStartProperty| > 0 ==> r == Ok(parseTime(runStartProperty))
  {
    if parentRunStart.Some? then Ok(parentRunStart.value)
    else if |runStartProperty| == 0 then
      Err(RuntimeError(MissingRunStartMessage))
    else Ok(parseTime(runStartProperty))
  }

  /** A duration in seconds as whole nanoseconds (static_cast<int64_t>). */
  function Nanoseconds(seconds: real): int
  {
    Trunc(seconds * 1000000000.0)
  }

  /** The time taken by the given scan points, in nanoseconds. */
  function ElapsedNs(durations: seq<real>): int
  {
    if |durations| == 0 then 0
    else ElapsedNs(durations[..|durations| - 1]) + Nanoseconds(durations[|durations| - 1])
  }

  /** The start times as a function of the run start and the durations. */
  function StartTimesOf(runstart: int, durations: seq<real>): (r: seq<int>)
    ensures |r| == |durations|
    ensures forall i :: 0 <= i < |durations| ==> r[i] == runstart + ElapsedNs(durations[..i])
  {
    seq(|durations|, i requires 0 <= i < |durations| => runstart + ElapsedNs(durations[..i]))
  }

  /** The loop of convertToWorkspaces over the rows: each row starts when
    * the previous rows' durations have passed. */
  method StartTimes(runstart: int, durations: seq<real>) returns (vectimes: seq<int>)
    ensures vectimes == StartTimesOf(runstart, durations)
  {
    vectimes := [];
    var t := runstart;
    for i := 0 to |durations|
      invariant |vectimes| == i
      invariant t == runstart + ElapsedNs(durations[..i])
      invariant forall k :: 0 <= k < i ==> vectimes[k] == runstart + ElapsedNs(durations[..k])
    {
      vectimes := vectimes + [t];
      assert durations[..i + 1][..i] == durations[..i];
      t := t + Nanoseconds(durations[i]);
    }
  }

  /** With non-negative durations the start times never go back. */
  lemma {:induction false} ElapsedMonotone(durations: seq<real>, i: nat, j: nat)
    requires i <= j <= |durations|
    requires forall k :: 0 <= k < |durations| ==> durations[k] >= 0.0
    ensures ElapsedNs(durations[..i]) <= ElapsedNs(durations[..j])
  {
    if i < j {
      ElapsedMonotone(durations, i, j - 1);
      assert durations[..j][..j - 1] == durations[..j - 1];
      assert Nanoseconds(durations[j - 1]) >= 0;
    }
  }

  // ---------------------------------------------------------------------
  // Events (convertToMDEventWS, createMonitorMDWorkspace)

  /** One scan point as a matrix workspace: per spectrum the count, its
    * error and the detector ID; and the "time" value of its run log. */
  datatype RunWS = RunWS(y: seq<real>, e: seq<real>, detIds: seq<nat>, time: real)
  {
    predicate WellFormed()
    {
      |e| == |y| && |detIds| == |y|
    }
  }

  /** One line of the event file: signal, error, detector ID, run index and
    * the relative run time (the detector position is left out). */
  datatype Event = Event(signal: real, error: real, detectorId: nat, runIndex: nat, time: real)

  /** How far the detector IDs move on after a run with nHist spectra. */
  function IdStep(nHist: nat): (r: nat)
    ensures r >= nHist && r >= 100
  {
    if nHist < 100 then 100 else nHist
  }

  /** The detector-ID offset of run k. */
  function DetOffset(runs: seq<RunWS>, k: nat): nat
    requires k <= |runs|
  {
    if k == 0 then 0 else DetOffset(runs, k - 1) + IdStep(|runs[k - 1].y|)
  }

  /** The relative time of run k: the sum of the earlier runs' times. */
  function RelTime(runs: seq<RunWS>, k: nat): real
    requires k <= |runs|
  {
    if k == 0 then 0.0 else RelTime(runs, k - 1) + runs[k - 1].time
  }

  predicate AllWellFormed(runs: seq<RunWS>)
  {
    forall k :: 0 <= k < |runs| ==> runs[k].WellFormed()
  }

  /** The events of run k: one per spectrum; the signal is the spectrum's
    * count, or the monitor value of run k for the monitor workspace. */
  function RunEvents(runs: seq<RunWS>, k: nat, monitor: Option<seq<real>>): (r: seq<Event>)
    requires k < |runs| && runs[k].WellFormed()
    requires monitor.Some? ==> |monitor.value| > k
    ensures |r| == |runs[k].y|
    ensures forall i :: 0 <= i < |r| ==>
      r[i].runIndex == k && r[i].detectorId == runs[k].detIds[i] + DetOffset(runs, k)
      && r[i].error == runs[k].e[i] && r[i].time == RelTime(runs, k)
      && r[i].signal == (if monitor.Some? then monitor.value[k] else runs[k].y[i])
  {
    seq(|runs[k].y|, i requires 0 <= i < |runs[k].y| =>
      Event(if monitor.Some? then monitor.value[k] else runs[k].y[i],
            runs[k].e[i], runs[k].detIds[i] + DetOffset(runs, k), k, RelTime(runs, k)))
  }

  /** The events of the first n runs, in file order. */
  function EventsUpTo(runs: seq<RunWS>, n: nat, monitor: Option<seq<real>>): seq<Event>
    requires n <= |runs| && AllWellFormed(runs)
    requires monitor.Some? ==> |monitor.value| >= |runs|
  {
    if n == 0 then [] else EventsUpTo(runs, n - 1, monitor) + RunEvents(runs, n - 1, monitor)
  }

  /** The loop that writes the event file: one line per spectrum of each
    * run, with the running detector-ID offset and relative run time. The
    * data and the monitor workspace share it; the monitor one passes the
    * monitor log. */
  method WriteEvents(runs: seq<RunWS>, monitor: Option<seq<real>>) returns (events: seq<Event>)
    requires AllWellFormed(runs)
    requires monitor.Some? ==> |monitor.value| >= |runs|
    ensures events == EventsUpTo(runs, |runs|, monitor)
  {
    events := [];
    var relruntime := 0.0;
    var detindex: nat := 0;
    var pos := 0;
    while pos < |runs|
      invariant 0 <= pos <= |runs|
      invariant events == EventsUpTo(runs, pos, monitor)
      invariant detindex == DetOffset(runs, pos) && relruntime == RelTime(runs, pos)
    {
      var run := runs[pos];
      var nHist := |run.y|;
      ghost var before := events;
      for i := 0 to nHist
        invariant events == before + RunEvents(runs, pos, monitor)[..i]
      {
        var signal := if monitor.Some? then monitor.value[pos] else run.y[i];
        events := events + [Event(signal, run.e[i], run.detIds[i] + detindex, pos, relruntime)];
        TakeOneMore(RunEvents(runs, pos, monitor), i);
      }
      TakeAll(RunEvents(runs, pos, monitor));
      if nHist < 100 {
        detindex := detindex + 100;
      } else {
        detindex := detindex + nHist;
      }
      relruntime := relruntime + run.time;
      pos := pos + 1;
    }
  }

  const MissingMonitorMessage := "Unable to find log 'monitor' in input workspace."

  /** createMonitorMDWorkspace: the data events with the run's monitor
    * count as signal; the "monitor" log is looked up inside the run loop,
    * so only a non-empty run list fails without it. */
  function MonitorEvents(runs: seq<RunWS>, logs: map<string, seq<real>>): (r: Result<seq<Event>>)
    requires AllWellFormed(runs)
    requires "monitor" in logs ==> |logs["monitor"]| >= |runs|
    ensures r.Err? <==> |runs| > 0 && "monitor" !in logs
  {
    if |runs| > 0 && "monitor" !in logs then
      Err(RuntimeError(MissingMonitorMessage))
    else if "monitor" in logs then Ok(EventsUpTo(runs, |runs|, Some(logs["monitor"])))
    else Ok(EventsUpTo(runs, |runs|, None))
  }

  method CreateMonitorMDWorkspace(runs: seq<RunWS>, logs: map<string, seq<real>>) returns (r: Result<seq<Event>>)
    requires AllWellFormed(runs)
    requires "monitor" in logs ==> |logs["monitor"]| >= |runs|
    ensures r == MonitorEvents(runs, logs)
  {
    if |runs| > 0 && "monitor" !in logs {
      return Err(RuntimeError(MissingMonitorMessage));
    }
    var events := WriteEvents(runs, if "monitor" in logs then Some(logs["monitor"]) else None);
    return Ok(events);
  }

  /** The detector-ID offsets never decrease, and each run's offset is past
    * the IDs of every earlier run. */
  lemma {:induction false} DetOffsetGrows(runs: seq<RunWS>, j: nat, k: nat)
    requires j < k <= |runs|
    ensures DetOffset(runs, j) + IdStep(|runs[j].y|) <= DetOffset(runs, k)
  {
    if j + 1 < k {
      DetOffsetGrows(runs, j, k - 1);
    }
  }

  /** When each run's detector IDs stay below its ID step (under 100, or
    * under the number of spectra), events of an earlier run have smaller
    * IDs than events of a later run: IDs of different runs never collide. */
  lemma DetectorIdsSeparateRuns(runs: seq<RunWS>, monitor: Option<seq<real>>, j: nat, k: nat)
    requires AllWellFormed(runs) && (monitor.Some? ==> |monitor.value| >= |runs|)
    requires j < k < |runs|
    requires forall i :: 0 <= i < |runs[j].detIds| ==> runs[j].detIds[i] < IdStep(|runs[j].y|)
    ensures forall a, b :: a in RunEvents(runs, j, monitor) && b in RunEvents(runs, k, monitor) ==>
      a.detectorId < b.detectorId
  {
    DetOffsetGrows(runs, j, k);
    forall a, b | a in RunEvents(runs, j, monitor) && b in RunEvents(runs, k, monitor)
      ensures a.detectorId < b.detectorId
    {
      var p :| 0 <= p < |RunEvents(runs, j, monitor)| && RunEvents(runs, j, monitor)[p] == a;
      var q :| 0 <= q < |RunEvents(runs, k, monitor)| && RunEvents(runs, k, monitor)[q] == b;
    }
  }

  /** The monitor events are the data events with the signal replaced by
    * the monitor value of their run. */
  lemma {:induction false} MonitorMirrorsData(runs: seq<RunWS>, n: nat, monitor: seq<real>)
    requires AllWellFormed(runs) && n <= |runs| && |monitor| >= |runs|
    ensures |EventsUpTo(runs, n, Some(monitor))| == |EventsUpTo(runs, n, None)|
    ensures forall p :: 0 <= p < |EventsUpTo(runs, n, None)| ==>
      EventsUpTo(runs, n, None)[p].runIndex < n &&
      EventsUpTo(runs, n, Some(monitor))[p]
        == EventsUpTo(runs, n, None)[p].(signal := monitor[EventsUpTo(runs, n, None)[p].runIndex])
  {
    if n > 0 {
      MonitorMirrorsData(runs, n - 1, monitor);
      var m: seq<Event> := EventsUpTo(runs, n - 1, Some(monitor));
      var d: seq<Event> := EventsUpTo(runs, n - 1, None);
      var rm: seq<Event> := RunEvents(runs, n - 1, Some(monitor));
      var rd: seq<Event> := RunEvents(runs, n - 1, None);
      assert EventsUpTo(runs, n, Some(monitor)) == m + rm;
      assert EventsUpTo(runs, n, None) == d + rd;
      forall p | 0 <= p < |d + rd|
        ensures (d + rd)[p].runIndex < n && (m + rm)[p] == (d + rd)[p].(signal := monitor[(d + rd)[p].runIndex])
      {
        if p >= |d| {
          assert (m + rm)[p] == rm[p - |d|];
          assert (d + rd)[p] == rd[p - |d|];
        }
      }
    }
  }

  // ---------------------------------------------------------------------
  // Sample logs (parseSampleLogs, appendSampleLogs)

  /** The values of one column, one per row. */
  function Column(rows: seq<seq<real>>, icol: nat): (r: seq<real>)
    requires forall ir :: 0 <= ir < |rows| ==> icol < |rows[ir]|
    ensures |r| == |rows| && forall ir :: 0 <= ir < |rows| ==> r[ir] == rows[ir][icol]
  {
    seq(|rows|, ir requires 0 <= ir < |rows| => rows[ir][icol])
  }

  predicate IndexInTable(table: Table, index: map<string, nat>)
  {
    table.WellFormed() && forall name :: name in index ==> index[name] < |table.columns|
  }

  /** The sample logs: each indexed column as a vector of its row values. */
  function SampleLogs(table: Table, index: map<string, nat>): (m: map<string, seq<real>>)
    requires IndexInTable(table, index)
  {
    map name | name in index :: Column(table.rows, index[name])
  }

  /** parseSampleLogs: a loop over the index reading each column row by row
    * into a new log vector. */
  method ParseSampleLogs(table: Table, index: map<string, nat>) returns (logvecmap: map<string, seq<real>>)
    requires IndexInTable(table, index)
    ensures logvecmap == SampleLogs(table, index)
  {
    logvecmap := map[];
    var todo := index.Keys;
    while todo != {}
      invariant todo <= index.Keys
      invariant logvecmap.Keys == index.Keys - todo
      invariant forall name :: name in logvecmap ==> logvecmap[name] == Column(table.rows, index[name])
      decreases |todo|
    {
      var logname :| logname in todo;
      var icol := index[logname];
      var logvec: seq<real> := [];
      for ir := 0 to |table.rows|
        invariant logvec == Column(table.rows, icol)[..ir]
      {
        logvec := logvec + [table.rows[ir][icol]];
      }
      assert logvec == Column(table.rows, icol);
      logvecmap := logvecmap[logname := logvec];
      todo := todo - {logname};
    }
  }

  /** A log as a time series: its values paired with the start times. */
  function TimeSeries(times: seq<int>, values: seq<real>): (r: seq<(int, real)>)
    requires |values| == |times|
    ensures |r| == |times| && forall i :: 0 <= i < |r| ==> r[i] == (times[i], values[i])
  {
    seq(|times|, i requires 0 <= i < |times| => (times[i], values[i]))
  }

  /** The logs appendSampleLogs adds: those with one value per start time;
    * a log of any other length is skipped. */
  function AppendedLogs(logs: map<string, seq<real>>, times: seq<int>): (m: map<string, seq<(int, real)>>)
  {
    map name | name in logs && |logs[name]| == |times| :: TimeSeries(times, logs[name])
  }

  /** appendSampleLogs: a loop over the logs adding each well-sized one as
    * a time series and skipping the rest. */
  method AppendSampleLogs(logvecmap: map<string, seq<real>>, vectimes: seq<int>) returns (added: map<string, seq<(int, real)>>)
    ensures added == AppendedLogs(logvecmap, vectimes)
  {
    added := map[];
    var todo := logvecmap.Keys;
    while todo != {}
      invariant todo <= logvecmap.Keys
      invariant added.Keys == set name | name in logvecmap.Keys - todo && |logvecmap[name]| == |vectimes|
      invariant forall name :: name in added ==> |logvecmap[name]| == |vectimes| && added[name] == TimeSeries(vectimes, logvecmap[name])
      decreases |todo|
    {
      var logname :| logname in todo;
      todo := todo - {logname};
      var veclogval := logvecmap[logname];
      if |veclogval| != |vectimes| {
        continue;
      }
      added := added[logname := TimeSeries(vectimes, veclogval)];
    }
  }

  /** Logs read from the table have one value per row, so with one start
    * time per row none is skipped. */
  lemma ParsedLogsAllAppended(table: Table, index: map<string, nat>, times: seq<int>)
    requires IndexInTable(table, index) && |times| == |table.rows|
    ensures AppendedLogs(SampleLogs(table, index), times).Keys == index.Keys
    ensures forall name :: name in index ==>
      AppendedLogs(SampleLogs(table, index), times)[name] == TimeSeries(times, Column(table.rows, index[name]))
  {
    var logs := SampleLogs(table, index);
    assert forall name :: name in index ==> |logs[name]| == |times|;
  }

  // ---------------------------------------------------------------------
  // exec

  /** What exec reads: the data table, the parent workspace's run_start (as
    * nanoseconds, when present) and "time" log, the RunStart property and
    * how it parses, and the instrument's detector IDs by workspace index. */
  datatype Inputs = Inputs(table: Table, parentRunStart: Option<int>, parentTime: real,
                           runStartProperty: string, parseTime: string -> int,
                           detectorIds: seq<nat>)

  datatype Output = Output(anodes: seq<(nat, nat)>, startTimes: seq<int>, events: seq<Event>,
                           monitorEvents: seq<Event>, logs: map<string, seq<(int, real)>>)

  /** One matrix workspace per row (loadRunToMatrixWS): spectrum i holds the
    * row's value in the column of the i-th sorted anode, with error 1. Each
    * workspace is created from the parent and so carries the parent's
    * "time" log. */
  function Runs(table: Table, anodes: seq<(nat, nat)>, detectorIds: seq<nat>, parentTime: real): (r: seq<RunWS>)
    requires table.WellFormed() && |anodes| <= |detectorIds|
    requires forall i :: 0 <= i < |anodes| ==> anodes[i].1 < |table.columns|
    ensures |r| == |table.rows| && AllWellFormed(r)
    ensures forall k, i :: 0 <= k < |r| && 0 <= i < |anodes| ==>
      |r[k].y| == |anodes| && r[k].y[i] == table.rows[k][anodes[i].1] && r[k].e[i] == 1.0
  {
    seq(|table.rows|, k requires 0 <= k < |table.rows| =>
      RunWS(seq(|anodes|, i requires 0 <= i < |anodes| => table.rows[k][anodes[i].1]),
            seq(|anodes|, _ => 1.0), detectorIds[..|anodes|], parentTime))
  }

  predicate Loadable(inp: Inputs)
  {
    inp.table.WellFormed() && |AnodeColumns(inp.table.columns)| <= |inp.detectorIds|
  }

  /** exec: the run start, the table layout, the start times from the
    * durations in the time column, the events, the monitor events and the
    * sample logs, or the first error raised. */
  function Load(inp: Inputs): (r: Result<Output>)
    requires Loadable(inp)
  {
    match RunStart(inp.parentRunStart, inp.runStartProperty, inp.parseTime)
    case Err(e) => Err(e)
    case Ok(runstart) =>
      match TableInfoOf(inp.table.columns)
      case Err(e) => Err(e)
      case Ok(info) =>
        assert |info.anodes| == |AnodeColumns(inp.table.columns)| by {
          assert |multiset(info.anodes)| == |multiset(AnodeColumns(inp.table.columns))|;
        }
        var times := StartTimesOf(runstart, Column(inp.table.rows, info.itime));
        var logs := SampleLogs(inp.table, info.sampleIndex);
        var runs := Runs(inp.table, info.anodes, inp.detectorIds, inp.parentTime);
        match MonitorEvents(runs, logs)
        case Err(e) => Err(e)
        case Ok(monitorEvents) =>
          Ok(Output(info.anodes, times, EventsUpTo(runs, |runs|, None), monitorEvents,
                    AppendedLogs(logs, times)))
  }

  method Exec(inp: Inputs) returns (r: Result<Output>)
    requires Loadable(inp)
    ensures r == Load(inp)
  {
    var runstart := RunStart(inp.parentRunStart, inp.runStartProperty, inp.parseTime);
    if runstart.Err? {
      return Err(runstart.error);
    }
    var info := ReadTableInfo(inp.table.columns);
    if info.Err? {
      return Err(info.error);
    }
    var anodes := info.value.anodes;
    assert |anodes| == |AnodeColumns(inp.table.columns)| by {
      assert |multiset(anodes)| == |multiset(AnodeColumns(inp.table.columns))|;
    }
    var vectimes := StartTimes(runstart.value, Column(inp.table.rows, info.value.itime));
    var logvecmap := ParseSampleLogs(inp.table, info.value.sampleIndex);
    var runs := Runs(inp.table, anodes, inp.detectorIds, inp.parentTime);
    var events := WriteEvents(runs, None);
    var monitorEvents := CreateMonitorMDWorkspace(runs, logvecmap);
    if monitorEvents.Err? {
      return Err(monitorEvents.error);
    }
    var logs := AppendSampleLogs(logvecmap, vectimes);
    r := Ok(Output(anodes, vectimes, events, monitorEvents.value, logs));
  }

  /** exec fails exactly when no run start is known, a required column is
    * missing, or there are rows but no "monitor" column. */
  lemma LoadFails(inp: Inputs)
    requires Loadable(inp)
    ensures Load(inp).Err? <==>
      (inp.parentRunStart.None? && |inp.runStartProperty| == 0)
      || !("Pt." in inp.table.columns && "2theta" in inp.table.columns && "time" in inp.table.columns)
      || (|inp.table.rows| > 0 && "monitor" !in inp.table.columns)
  {
    TableInfoFails(inp.table.columns);
    var index := SampleIndex(inp.table.columns);
    if "monitor" in inp.table.columns {
      var i :| 0 <= i < |inp.table.columns| && inp.table.columns[i] == "monitor";
      assert "monitor" in index;
    }
  }

  /** On success every sample log read from the table is kept, with one
    * value per row, and there is one start time per row. */
  lemma LoadKeepsLogs(inp: Inputs)
    requires Loadable(inp) && Load(inp).Ok?
    ensures Load(inp).value.logs.Keys == SampleIndex(inp.table.columns).Keys
    ensures |Load(inp).value.startTimes| == |inp.table.rows|
  {
    var info := TableInfoOf(inp.table.columns).value;
    var runstart := RunStart(inp.parentRunStart, inp.runStartProperty, inp.parseTime).value;
    var times := StartTimesOf(runstart, Column(inp.table.rows, info.itime));
    ParsedLogsAllAppended(inp.table, info.sampleIndex, times);
  }
}

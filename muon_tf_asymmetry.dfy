/** ConvertFitFunctionForMuonTFAsymmetry: in Construct mode, turns a user
  * fit function f into the TF asymmetry function N(1 + f) + ExpDecayMuon for
  * every domain, with the normalisation N of each workspace read from a
  * table, and moves the user's ties into the new function's parameter
  * names. The function factory, the functions themselves and their string
  * forms are not modelled: a user function is a value of the type
  * parameter F. */
module MuonTFAsymmetry {
  import opened Wrappers

  // ---------------------------------------------------------------------
  // getNorms

  /** A row of the normalisation table: workspace name and norm. */
  type NormRow = (string, real)

  /** The norm the table gives a workspace: the value of the last row with
    * that name, 0 when no row has it. */
  function LastNorm(table: seq<NormRow>, name: string): (r: real)
    ensures (forall row :: 0 <= row < |table| ==> table[row].0 != name) ==> r == 0.0
  {
    if |table| == 0 then 0.0
    else if table[|table| - 1].0 == name then table[|table| - 1].1
    else LastNorm(table[..|table| - 1], name)
  }

  /** When some row names the workspace, its norm comes from the last such
    * row. */
  lemma {:induction false} LastNormIsLastMatch(table: seq<NormRow>, name: string, row: nat)
    requires row < |table| && table[row].0 == name
    requires forall later :: row < later < |table| ==> table[later].0 != name
    ensures LastNorm(table, name) == table[row].1
  {
    if row < |table| - 1 {
      LastNormIsLastMatch(table[..|table| - 1], name, row);
    }
  }

  function NormsOf(table: seq<NormRow>, wsNames: seq<string>): (r: seq<real>)
    ensures |r| == |wsNames|
  {
    seq(|wsNames|, p requires 0 <= p < |wsNames| => LastNorm(table, wsNames[p]))
  }

  /** getNorms: a zero per workspace, then every table row overwrites the
    * norm of every workspace of that name. */
  method GetNorms(table: seq<NormRow>, wsNames: seq<string>) returns (norms: array<real>)
    ensures fresh(norms)
    ensures norms[..] == NormsOf(table, wsNames)
  {
    norms := new real[|wsNames|](_ => 0.0);
    for row := 0 to |table|
      invariant norms.Length == |wsNames|
      invariant forall p :: 0 <= p < |wsNames| ==> norms[p] == LastNorm(table[..row], wsNames[p])
    {
      assert table[..row + 1][..row] == table[..row];
      for wsPosition := 0 to |wsNames|
        invariant forall p :: 0 <= p < wsPosition ==> norms[p] == LastNorm(table[..row + 1], wsNames[p])
        invariant forall p :: wsPosition <= p < |wsNames| ==> norms[p] == LastNorm(table[..row], wsNames[p])
      {
        if table[row].0 == wsNames[wsPosition] {
          norms[wsPosition] := table[row].1;
        }
      }
    }
    assert table[..|table|] == table;
  }

  // ---------------------------------------------------------------------
  // Tie rewriting

  /** The path of the user function inside the new one: in member f0 (the
    * product) its member f1 (1 + f) and there its member f1 (f). */
  const TiePrefix: string := "f0.f1.f1."

  /** std::string::insert. */
  function Insert(s: string, at: nat, t: string): (r: string)
    requires at <= |s|
    ensures |r| == |s| + |t|
  {
    s[..at] + t + s[at..]
  }

  /** Where insertPosition + 1 lands: one past the position found, or 0
    * when nothing was found and npos + 1 wrapped around. */
  function AfterFound(found: Option<nat>): nat
  {
    if found.Some? then found.value + 1 else 0
  }

  /** The tie rewrite for a multi-domain function: the prefix goes after
    * the first '.', then after the first '.' that follows the first '='
    * of the modified string. */
  function RewriteTie(tie: string): (r: string)
    ensures |r| == |tie| + 2 * |TiePrefix|
  {
    var firstDot := FindFrom(tie, '.', 0);
    var s1 := Insert(tie, AfterFound(firstDot), TiePrefix);
    var eq := FindFrom(s1, '=', 0);
    var secondDot := if eq.Some? then FindFrom(s1, '.', eq.value) else None;
    Insert(s1, AfterFound(secondDot), TiePrefix)
  }

  /** The first occurrence is where the character is and no earlier one is. */
  lemma FindFromAt(s: string, c: char, from: nat, k: nat)
    requires from <= k < |s| && s[k] == c
    requires forall j :: from <= j < k ==> s[j] != c
    ensures FindFrom(s, c, from) == Some(k)
  {
  }

  /** A tie "a.x=b.y" whose sides each hold a dot gets the prefix after the
    * first dot of each side: "a.f0.f1.f1.x=b.f0.f1.f1.y". */
  lemma RewriteTieSides(a: string, x: string, b: string, y: string)
    requires '.' !in a && '=' !in a && '=' !in x && '.' !in b
    ensures RewriteTie(a + "." + x + "=" + b + "." + y)
         == a + "." + TiePrefix + x + "=" + b + "." + TiePrefix + y
  {
    var tie := a + "." + x + "=" + b + "." + y;
    FirstPrefixAfterFirstDot(a, x, b, y);
    var s1 := a + "." + TiePrefix + x + "=" + b + "." + y;
    SecondPrefixAfterSecondDot(a, x, b, y);
  }

  /** The first insertion lands right after the dot that ends `a`. */
  lemma FirstPrefixAfterFirstDot(a: string, x: string, b: string, y: string)
    requires '.' !in a
    ensures var tie := a + "." + x + "=" + b + "." + y;
      Insert(tie, AfterFound(FindFrom(tie, '.', 0)), TiePrefix)
        == a + "." + TiePrefix + x + "=" + b + "." + y
  {
    var tie := a + "." + x + "=" + b + "." + y;
    assert tie[|a|] == '.';
    assert forall j :: 0 <= j < |a| ==> tie[j] == a[j];
    FindFromAt(tie, '.', 0, |a|);
    assert tie[..|a| + 1] == a + ".";
    assert tie[|a| + 1..] == x + "=" + b + "." + y;
  }

  /** In the once-rewritten tie, the first '=' ends `x` and the next dot
    * ends `b`; the second insertion lands right after that dot. */
  lemma SecondPrefixAfterSecondDot(a: string, x: string, b: string, y: string)
    requires '=' !in a && '=' !in x && '.' !in b
    ensures var s1 := a + "." + TiePrefix + x + "=" + b + "." + y;
      var eq := FindFrom(s1, '=', 0);
      var secondDot := if eq.Some? then FindFrom(s1, '.', eq.value) else None;
      Insert(s1, AfterFound(secondDot), TiePrefix)
        == a + "." + TiePrefix + x + "=" + b + "." + TiePrefix + y
  {
    var s1 := a + "." + TiePrefix + x + "=" + b + "." + y;
    var e := |a| + 1 + |TiePrefix| + |x|;
    assert s1[e] == '=';
    assert forall j :: 0 <= j < e ==> s1[j] != '=' by {
      assert TiePrefix == ['f', '0', '.', 'f', '1', '.', 'f', '1', '.'];
      forall j | 0 <= j < e ensures s1[j] != '=' {
        if j < |a| {
          assert s1[j] == a[j];
        } else if j == |a| {
        } else if j < |a| + 1 + |TiePrefix| {
          assert s1[j] == TiePrefix[j - |a| - 1];
        } else {
          assert s1[j] == x[j - |a| - 1 - |TiePrefix|];
        }
      }
    }
    FindFromAt(s1, '=', 0, e);
    var d := e + 1 + |b|;
    assert s1[d] == '.';
    assert forall j :: e <= j < d ==> s1[j] != '.' by {
      forall j | e <= j < d ensures s1[j] != '.' {
        if j > e {
          assert s1[j] == b[j - e - 1];
        }
      }
    }
    FindFromAt(s1, '.', e, d);
    assert s1[..d + 1] == a + "." + TiePrefix + x + "=" + b + ".";
    assert s1[d + 1..] == y;
  }

  /** A tie without any '.' gets both prefixes at its start: npos + 1 is 0
    * for the first insertion, and the search for a dot after the '=' finds
    * none. */
  lemma RewriteTieWithoutDot(tie: string)
    requires '.' !in tie
    ensures RewriteTie(tie) == TiePrefix + TiePrefix + tie
  {
    assert FindFrom(tie, '.', 0).None?;
    var s1 := Insert(tie, 0, TiePrefix);
    assert s1 == TiePrefix + tie;
    assert TiePrefix == ['f', '0', '.', 'f', '1', '.', 'f', '1', '.'];
    assert forall j :: 0 <= j < |TiePrefix| ==> s1[j] != '=';
    assert forall j :: |TiePrefix| <= j < |s1| ==> s1[j] == tie[j - |TiePrefix|];
    var eq := FindFrom(s1, '=', 0);
    assert eq.Some? ==> FindFrom(s1, '.', eq.value).None?;
    assert Insert(s1, 0, TiePrefix) == TiePrefix + TiePrefix + tie;
  }

  // ---------------------------------------------------------------------
  // getTFAsymmFitFunction and exec

  /** The user's function: its number of domains, its member function for
    * each domain when it has several, and the tie (as text) on each of its
    * parameters, in parameter order. */
  datatype UserFunction<F> = UserFunction(self: F, numDomains: nat, domainFunction: nat -> F,
                                          parameterTies: seq<Option<string>>)

  /** One domain of the output: the product of the normalisation N (a flat
    * background) with 1 + f (a fixed flat background of 1 and the user
    * function), plus an ExpDecayMuon with fixed amplitude 0 and the muon
    * lifetime. */
  datatype DomainFunction<F> = DomainFunction(norm: real, userFunction: F)

  /** The MultiDomainFunction built: its domain functions, whether
    * setDomainIndex was called for each, and the ties added. */
  datatype TFAsymmFunction<F> = TFAsymmFunction(domains: seq<DomainFunction<F>>, domainIndexed: bool, ties: seq<string>)

  /** The ties of the output: the rewritten tie of each tied parameter, in
    * parameter order. */
  function RewrittenTies(parameterTies: seq<Option<string>>): (r: seq<string>)
    ensures |r| <= |parameterTies|
  {
    if |parameterTies| == 0 then []
    else
      var prev := RewrittenTies(parameterTies[..|parameterTies| - 1]);
      var last := parameterTies[|parameterTies| - 1];
      if last.Some? then prev + [RewriteTie(last.value)] else prev
  }

  /** The loop over the original's parameters adding each existing tie,
    * rewritten. */
  method AddTies(parameterTies: seq<Option<string>>) returns (ties: seq<string>)
    ensures ties == RewrittenTies(parameterTies)
  {
    ties := [];
    for index := 0 to |parameterTies|
      invariant ties == RewrittenTies(parameterTies[..index])
    {
      assert parameterTies[..index + 1][..index] == parameterTies[..index];
      var originalTie := parameterTies[index];
      if originalTie.Some? {
        var stringTie := RewriteTie(originalTie.value);
        ties := ties + [stringTie];
      }
    }
    assert parameterTies[..|parameterTies|] == parameterTies;
  }

  /** Every tie of the original gives one tie of the output. */
  lemma {:induction false} RewrittenTiesCount(parameterTies: seq<Option<string>>)
    ensures |RewrittenTies(parameterTies)| == |set i | 0 <= i < |parameterTies| && parameterTies[i].Some?|
  {
    var n := |parameterTies|;
    var tied := set i | 0 <= i < n && parameterTies[i].Some?;
    if n > 0 {
      var init := parameterTies[..n - 1];
      RewrittenTiesCount(init);
      var tiedInit := set i | 0 <= i < n - 1 && init[i].Some?;
      if parameterTies[n - 1].Some? {
        assert tied == tiedInit + {n - 1};
      } else {
        assert tied == tiedInit;
      }
    } else {
      assert tied == {};
    }
  }

  /** getTFAsymmFitFunction: one domain function per domain of the
    * original, with that domain's norm; the original itself when it has a
    * single domain, its domain member otherwise; ties only for several
    * domains. The norms must cover every domain (the source indexes them
    * unchecked). */
  method GetTFAsymmFitFunction<F>(original: UserFunction<F>, norms: seq<real>) returns (r: TFAsymmFunction<F>)
    requires original.numDomains <= |norms|
    ensures |r.domains| == original.numDomains
    ensures forall j :: 0 <= j < original.numDomains ==> r.domains[j].norm == norms[j]
    ensures original.numDomains == 1 ==> r.domains[0].userFunction == original.self
    ensures original.numDomains != 1 ==>
      forall j :: 0 <= j < original.numDomains ==> r.domains[j].userFunction == original.domainFunction(j)
    ensures r.domainIndexed <==> original.numDomains > 1
    ensures original.numDomains > 1 ==> r.ties == RewrittenTies(original.parameterTies)
    ensures original.numDomains <= 1 ==> r.ties == []
  {
    var domains: seq<DomainFunction<F>> := [];
    var indexed := false;
    for j := 0 to original.numDomains
      invariant |domains| == j
      invariant forall k :: 0 <= k < j ==> domains[k].norm == norms[k]
      invariant original.numDomains == 1 && j == 1 ==> domains[0].userFunction == original.self
      invariant original.numDomains != 1 ==>
        forall k :: 0 <= k < j ==> domains[k].userFunction == original.domainFunction(k)
      invariant indexed <==> original.numDomains > 1 && j > 0
    {
      var userFunc;
      if original.numDomains == 1 {
        userFunc := original.self;
      } else {
        userFunc := original.domainFunction(j);
        indexed := true;
      }
      domains := domains + [DomainFunction(norms[j], userFunc)];
    }
    var ties: seq<string> := [];
    if original.numDomains > 1 {
      ties := AddTies(original.parameterTies);
    }
    r := TFAsymmFunction(domains, indexed, ties);
  }

  datatype Mode = Construct | Extract

  /** exec: Construct builds and sets the output function from the norms of
    * the workspace list; Extract does nothing, so no output is set. */
  method Exec<F>(mode: Mode, original: UserFunction<F>, table: seq<NormRow>, wsNames: seq<string>)
    returns (output: Option<TFAsymmFunction<F>>)
    requires mode == Construct ==> original.numDomains <= |wsNames|
    ensures mode == Extract <==> output.None?
    ensures output.Some? ==>
      && |output.value.domains| == original.numDomains
      && forall j :: 0 <= j < original.numDomains ==> output.value.domains[j].norm == LastNorm(table, wsNames[j])
    ensures output.Some? && original.numDomains == 1 ==> output.value.domains[0].userFunction == original.self
    ensures output.Some? && original.numDomains != 1 ==>
      forall j :: 0 <= j < original.numDomains ==> output.value.domains[j].userFunction == original.domainFunction(j)
    ensures output.Some? ==> (output.value.domainIndexed <==> original.numDomains > 1)
    ensures output.Some? && original.numDomains > 1 ==> output.value.ties == RewrittenTies(original.parameterTies)
    ensures output.Some? && original.numDomains <= 1 ==> output.value.ties == []
  {
    if mode == Construct {
      var norms := GetNorms(table, wsNames);
      var f := GetTFAsymmFitFunction(original, norms[..]);
      output := Some(f);
    } else {
      output := None;
    }
  }

  /** validateInputs: every check is commented out, so no input is ever
    * reported as invalid. */
  function ValidateInputs(): (errors: map<string, string>)
    ensures |errors| == 0
  {
    map[]
  }
}

/** Shared helpers: optional values, results carrying the exception a call
  * raises, a floating-point value that may be non-finite, and the few string
  * functions several algorithms use. */
module Wrappers {

  datatype Option<T> = None | Some(value: T)
  {
    predicate IsSome() { Some? }
  }

  /** The exception kinds the modelled code raises, with their message. */
  datatype Error =
    | InvalidArgument(message: string)   // std::invalid_argument / ValueError in Python
    | RuntimeError(message: string)      // std::runtime_error / RuntimeError in Python
    | LogicError(message: string)        // std::logic_error
    | OutOfRange(message: string)        // std::out_of_range
    | IndexError(message: string)        // Python IndexError
    | ZeroDivisionError                  // Python ZeroDivisionError
    | NotImplementedError(message: string)

  datatype Result<T> = Ok(value: T) | Err(error: Error)
  {
    predicate IsOk() { Ok? }
  }

  /** An IEEE double as the C++ code sees it: a finite value, or the infinity
    * or NaN that a division by zero produces. */
  datatype Double = Finite(v: real) | NonFinite

  /** C++ floating division: no zero guard, x/0 is infinite or NaN. */
  function Divide(a: real, b: real): (r: Double)
    ensures r.NonFinite? <==> b == 0.0
    ensures r.Finite? ==> r.v * b == a
  {
    if b == 0.0 then NonFinite else Finite(a / b)
  }

  /** fabs / Python abs on a real. */
  function Abs(x: real): (r: real)
    ensures r >= 0.0 && (r == x || r == -x)
  {
    if x < 0.0 then -x else x
  }

  /** A C++ `int(x)` / `static_cast<int64_t>(x)` of a finite value:
    * truncation toward zero (overflow is not modelled). */
  function Trunc(x: real): (r: int)
    ensures x >= 0.0 ==> r as real <= x < (r + 1) as real
    ensures x < 0.0 ==> (r - 1) as real < x <= r as real
  {
    if x >= 0.0 then x.Floor else -((-x).Floor)
  }

  /** Index of the first occurrence of `c` in `s` at or after `from`, or None
    * (std::string::find_first_of with one character, npos as None). */
  function FindFrom(s: string, c: char, from: nat): (r: Option<nat>)
    decreases |s| - from
    ensures r.Some? ==> from <= r.value < |s| && s[r.value] == c
    ensures r.Some? ==> forall k :: from <= k < r.value ==> s[k] != c
    ensures r.None? ==> forall k :: from <= k < |s| ==> s[k] != c
  {
    if from >= |s| then None
    else if s[from] == c then Some(from)
    else FindFrom(s, c, from + 1)
  }

  /** Index of the last occurrence of `c` in `s`, or None (rfind). */
  function FindLast(s: string, c: char): (r: Option<nat>)
    ensures r.Some? ==> r.value < |s| && s[r.value] == c
    ensures r.Some? ==> forall k :: r.value < k < |s| ==> s[k] != c
    ensures r.None? ==> forall k :: 0 <= k < |s| ==> s[k] != c
  {
    if |s| == 0 then None
    else if s[|s| - 1] == c then Some(|s| - 1)
    else FindLast(s[..|s| - 1], c)
  }

  /** Characters appended after the last occurrence do not move it. */
  lemma {:induction false} FindLastAppend(a: string, b: string, c: char)
    requires c !in b
    ensures FindLast(a + b, c) == FindLast(a, c)
  {
    if |b| > 0 {
      assert (a + b)[..|a + b| - 1] == a + b[..|b| - 1];
      FindLastAppend(a, b[..|b| - 1], c);
    } else {
      assert a + b == a;
    }
  }

  /** The last occurrence in `a + [c] + b`, when `b` holds no `c`. */
  lemma FindLastAt(a: string, b: string, c: char)
    requires c !in b
    ensures FindLast(a + [c] + b, c) == Some(|a|)
  {
    FindLastAppend(a + [c], b, c);
    assert (a + [c])[..|a|] == a;
  }

  /** Decimal digits of a natural number, most significant first. */
  function NatToString(n: nat): (r: string)
    ensures |r| >= 1
    ensures forall k :: 0 <= k < |r| ==> '0' <= r[k] <= '9'
  {
    if n < 10 then [DigitChar(n)] else NatToString(n / 10) + [DigitChar(n % 10)]
  }

  function DigitChar(d: nat): (c: char)
    requires d < 10
    ensures '0' <= c <= '9'
  {
    ['0', '1', '2', '3', '4', '5', '6', '7', '8', '9'][d]
  }

  /** Decimal text of an integer as `str(i)` / `std::to_string` write it. */
  function IntToString(i: int): (r: string)
    ensures |r| >= 1
    ensures (r[0] == '-') <==> i < 0
  {
    if i < 0 then "-" + NatToString(-i) else NatToString(i)
  }

  /** s starts with p. */
  predicate StartsWith(s: string, p: string)
  {
    |p| <= |s| && s[..|p|] == p
  }

  /** s contains t as a contiguous substring (std::string::find != npos). */
  predicate Contains(s: string, t: string)
  {
    FindSub(s, t, 0).Some?
  }

  /** First index at or after `from` where t occurs in s (std::string::find). */
  function FindSub(s: string, t: string, from: nat): (r: Option<nat>)
    decreases |s| - from
    ensures r.Some? ==> from <= r.value && OccursAt(s, t, r.value)
    ensures r.Some? ==> forall k :: from <= k < r.value ==> !OccursAt(s, t, k)
    ensures r.None? ==> forall k :: from <= k ==> !OccursAt(s, t, k)
  {
    if from + |t| > |s| then None
    else if s[from..from + |t|] == t then Some(from)
    else FindSub(s, t, from + 1)
  }

  /** t occurs in s starting at index k. */
  predicate OccursAt(s: string, t: string, k: int)
  {
    0 <= k <= |s| - |t| && s[k..k + |t|] == t
  }

  const ListIndexMessage := "list index out of range"

  /** Python's `s[i]` on a list: negative indexes count from the end, and
    * anything else outside the list raises IndexError. */
  function PyIndex<T>(s: seq<T>, i: int): (r: Result<T>)
    ensures r.Ok? <==> -|s| <= i < |s|
    ensures 0 <= i < |s| ==> r == Ok(s[i])
    ensures -|s| <= i < 0 ==> r == Ok(s[|s| + i])
  {
    if 0 <= i < |s| then Ok(s[i])
    else if -|s| <= i < 0 then Ok(s[|s| + i])
    else Err(IndexError(ListIndexMessage))
  }

  /** Different naturals have different decimal texts. */
  lemma {:induction false} NatToStringInjective(a: nat, b: nat)
    requires NatToString(a) == NatToString(b)
    ensures a == b
  {
    var sa, sb := NatToString(a), NatToString(b);
    assert a < 10 <==> |sa| == 1;
    assert b < 10 <==> |sb| == 1;
    if a < 10 {
      assert sa[0] == sb[0];
      DigitCharInjective(a, b);
    } else {
      assert sa[..|sa| - 1] == NatToString(a / 10);
      assert sb[..|sb| - 1] == NatToString(b / 10);
      NatToStringInjective(a / 10, b / 10);
      assert sa[|sa| - 1] == sb[|sb| - 1];
      DigitCharInjective(a % 10, b % 10);
    }
  }

  /** Different digits have different characters. */
  lemma DigitCharInjective(a: nat, b: nat)
    requires a < 10 && b < 10 && DigitChar(a) == DigitChar(b)
    ensures a == b
  {
  }

  /** Different integers have different decimal texts. */
  lemma IntToStringInjective(a: int, b: int)
    requires IntToString(a) == IntToString(b)
    ensures a == b
  {
    var s := IntToString(a);
    if a < 0 {
      assert s[1..] == NatToString(-a) == NatToString(-b);
      NatToStringInjective(-a, -b);
    } else {
      NatToStringInjective(a, b);
    }
  }

  /** A prefix one element longer. */
  lemma TakeOneMore<T>(s: seq<T>, i: nat)
    requires i < |s|
    ensures s[..i + 1] == s[..i] + [s[i]]
  {
  }

  /** The prefix as long as the sequence is the sequence. */
  lemma TakeAll<T>(s: seq<T>)
    ensures s[..|s|] == s
  {
  }
}

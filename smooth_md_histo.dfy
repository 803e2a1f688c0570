/** Smoothing of a 2-D histogram workspace by repeated rank-one fits: each
  * step flattens the current difference to a matrix, finds its largest cell,
  * fits a spline through that cell's row and another through its column,
  * evaluates their product on the input, adds it to the running sum and
  * recomputes the difference as input − sum. The conversion to a matrix, the
  * evaluation and the workspace arithmetic are child algorithms and are
  * given. */
module SmoothMDHisto {
  import opened Wrappers
  import opened MDHisto
  import opened MatrixWorkspaces

  /** The NIterations property's default. */
  const DefaultNIterations: int := 10

  /** Every cell of the matrix is zero. */
  predicate AllZero(y: seq<seq<real>>)
  {
    forall r, c :: 0 <= r < |y| && 0 <= c < |y[r]| ==> y[r][c] == 0.0
  }

  /** (r1, c1) comes before (r2, c2) in row-major order. */
  predicate Before(r1: nat, c1: nat, r2: nat, c2: nat)
  {
    r1 < r2 || (r1 == r2 && c1 < c2)
  }

  /** (r, c) is the first cell, in row-major order, of largest absolute value,
    * and that value is not zero. */
  predicate IsFirstMax(y: seq<seq<real>>, r: nat, c: nat)
  {
    r < |y| && c < |y[r]| && Abs(y[r][c]) > 0.0
    && (forall r', c' :: 0 <= r' < |y| && 0 <= c' < |y[r']| ==> Abs(y[r'][c']) <= Abs(y[r][c]))
    && (forall r', c' :: 0 <= r' < |y| && 0 <= c' < |y[r']| && Before(r', c', r, c) ==>
          Abs(y[r'][c']) < Abs(y[r][c]))
  }

  /** +1 for a non-negative value, −1 for a negative one. */
  function SignOf(v: real): (s: real)
    ensures s == 1.0 || s == -1.0
    ensures s * Abs(v) == v
  {
    if v >= 0.0 then 1.0 else -1.0
  }

  // ---- findMaxAbsValuePos ----

  /** The cells the scan has visited: every row before `row`, and the first
    * `col` cells of `row`. */
  predicate Scanned(y: seq<seq<real>>, row: nat, col: nat, r: nat, c: nat)
  {
    r < |y| && c < |y[r]| && Before(r, c, row, col)
  }

  /** The scan's variables after visiting the cells before (row, col): either
    * no non-zero cell yet and the sentinel position, or the first largest
    * cell so far. */
  ghost predicate ScanState(y: seq<seq<real>>, row: nat, col: nat,
                            absMax: real, sign: real, maxRow: nat, maxCol: nat, ncols: nat)
  {
    if absMax == 0.0 then
      maxRow == |y| && maxCol == ncols && sign == 1.0
      && forall r: nat, c: nat :: Scanned(y, row, col, r, c) ==> y[r][c] == 0.0
    else
      Scanned(y, row, col, maxRow, maxCol)
      && absMax == Abs(y[maxRow][maxCol]) && sign == SignOf(y[maxRow][maxCol])
      && (forall r: nat, c: nat :: Scanned(y, row, col, r, c) ==> Abs(y[r][c]) <= absMax)
      && (forall r: nat, c: nat :: Scanned(y, row, col, r, c) && Before(r, c, maxRow, maxCol) ==>
            Abs(y[r][c]) < absMax)
  }

  /** findMaxAbsValuePos: scans the cells in row-major order keeping the
    * first strictly larger absolute value; starts from 0 with the sentinel
    * position (nrows, blocksize). Returns sign · sqrt(absMax). */
  method FindMaxAbsValuePos(ws: MatrixWorkspace, sqrt: real -> real)
    returns (maxRow: nat, maxCol: nat, signedSqrtMax: real)
    ensures AllZero(ws.y) ==>
      maxRow == ws.NRows() && maxCol == ws.Blocksize() && signedSqrtMax == sqrt(0.0)
    ensures !AllZero(ws.y) ==>
      IsFirstMax(ws.y, maxRow, maxCol)
      && signedSqrtMax == SignOf(ws.y[maxRow][maxCol]) * sqrt(Abs(ws.y[maxRow][maxCol]))
  {
    var nrows := ws.NRows();
    var ncols := ws.Blocksize();
    var absMax := 0.0;
    var sign := 1.0;
    maxRow := nrows;
    maxCol := ncols;
    var row := 0;
    while row < nrows
      invariant 0 <= row <= nrows
      invariant ScanState(ws.y, row, 0, absMax, sign, maxRow, maxCol, ncols)
    {
      absMax, sign, maxRow, maxCol := ScanRow(ws.y, row, absMax, sign, maxRow, maxCol, ncols);
      row := row + 1;
    }
    assert forall r, c :: 0 <= r < |ws.y| && 0 <= c < |ws.y[r]| ==> Scanned(ws.y, nrows, 0, r, c);
    if absMax == 0.0 {
      assert AllZero(ws.y);
    } else {
      assert !AllZero(ws.y) by {
        assert ws.y[maxRow][maxCol] != 0.0;
      }
    }
    signedSqrtMax := sign * sqrt(absMax);
  }

  /** The inner loop of findMaxAbsValuePos: the cells of one row. */
  method ScanRow(y: seq<seq<real>>, row: nat, absMax0: real, sign0: real,
                 maxRow0: nat, maxCol0: nat, ncols: nat)
    returns (absMax: real, sign: real, maxRow: nat, maxCol: nat)
    requires row < |y| && ScanState(y, row, 0, absMax0, sign0, maxRow0, maxCol0, ncols)
    ensures ScanState(y, row + 1, 0, absMax, sign, maxRow, maxCol, ncols)
  {
    absMax, sign, maxRow, maxCol := absMax0, sign0, maxRow0, maxCol0;
    var ys := y[row];
    var col := 0;
    while col < |ys|
      invariant 0 <= col <= |ys|
      invariant ScanState(y, row, col, absMax, sign, maxRow, maxCol, ncols)
    {
      var d := Abs(ys[col]);
      if d > absMax {
        absMax := d;
        if ys[col] >= 0.0 {
          sign := 1.0;
        } else {
          sign := -1.0;
        }
        maxRow := row;
        maxCol := col;
      }
      col := col + 1;
    }
    assert forall r, c :: Scanned(y, row + 1, 0, r, c) <==> Scanned(y, row, |ys|, r, c);
  }

  /** The first largest cell is determined by the matrix: two cells that both
    * qualify are the same cell. */
  lemma FirstMaxUnique(y: seq<seq<real>>, r1: nat, c1: nat, r2: nat, c2: nat)
    requires IsFirstMax(y, r1, c1) && IsFirstMax(y, r2, c2)
    ensures r1 == r2 && c1 == c2
  {
  }

  /** The scan of findMaxAbsValuePos over the rest of row `row` from `col`,
    * as a function of its variables (absMax, sign, maxRow, maxCol). */
  ghost function ScanRest(y: seq<seq<real>>, row: nat, col: nat, ncols: nat, v: (real, real, nat, nat))
    : (w: (real, real, nat, nat))
    requires row < |y| && col <= |y[row]| && ScanState(y, row, col, v.0, v.1, v.2, v.3, ncols)
    ensures ScanState(y, row + 1, 0, w.0, w.1, w.2, w.3, ncols)
    decreases |y[row]| - col
  {
    if col == |y[row]| then
      assert forall r, c :: Scanned(y, row + 1, 0, r, c) <==> Scanned(y, row, col, r, c);
      v
    else
      var d := Abs(y[row][col]);
      ScanRest(y, row, col + 1, ncols, if d > v.0 then (d, SignOf(y[row][col]), row, col) else v)
  }

  /** The scan over the rows from `row` on. */
  ghost function ScanRows(y: seq<seq<real>>, row: nat, ncols: nat, v: (real, real, nat, nat))
    : (w: (real, real, nat, nat))
    requires row <= |y| && ScanState(y, row, 0, v.0, v.1, v.2, v.3, ncols)
    ensures ScanState(y, |y|, 0, w.0, w.1, w.2, w.3, ncols)
    decreases |y| - row
  {
    if row == |y| then v else ScanRows(y, row + 1, ncols, ScanRest(y, row, 0, ncols, v))
  }

  /** A matrix that is not all zero has a first largest cell. */
  lemma FirstMaxExists(y: seq<seq<real>>)
    requires !AllZero(y)
    ensures exists r: nat, c: nat :: IsFirstMax(y, r, c)
  {
    var r0: nat, c0: nat :| r0 < |y| && c0 < |y[r0]| && y[r0][c0] != 0.0;
    var w := ScanRows(y, 0, 0, (0.0, 1.0, |y|, 0));
    assert forall r, c :: 0 <= r < |y| && 0 <= c < |y[r]| ==> Scanned(y, |y|, 0, r, c);
    assert Scanned(y, |y|, 0, r0, c0);
    assert w.0 != 0.0;
    assert IsFirstMax(y, w.2, w.3);
  }

  /** On a rectangular matrix the early stop of iterate (the position out of
    * range) happens exactly when every cell is zero. */
  lemma StopIffAllZero(ws: MatrixWorkspace, maxRow: nat, maxCol: nat)
    requires ws.Valid()
    requires AllZero(ws.y) ==> maxRow == ws.NRows() && maxCol == ws.Blocksize()
    requires !AllZero(ws.y) ==> IsFirstMax(ws.y, maxRow, maxCol)
    ensures (maxRow >= ws.NRows() || maxCol >= ws.Blocksize()) <==> AllZero(ws.y)
  {
    if !AllZero(ws.y) {
      assert |ws.y[maxRow]| == ws.Blocksize();
    }
  }

  // ---- the row and column fits ----

  /** A B-spline over [startX, endX] with nBreak break points whose
    * parameters are set directly from data (no fit is run). */
  datatype BSpline = BSpline(nBreak: int, startX: real, endX: real, params: seq<Double>)

  /** fit1: a spline with blocksize − 1 break points over the first
    * spectrum's x range whose parameter i is Y[i] / absMax. */
  method Fit1(ws: MatrixWorkspace, wi: nat, absMax: real) returns (f: BSpline)
    requires ws.Valid() && wi < ws.NRows() && ws.Blocksize() > 0
    ensures f.nBreak == ws.Blocksize() - 1
    ensures f.startX == ws.x[0][0] && f.endX == ws.x[0][|ws.x[0]| - 1]
    ensures |f.params| == ws.Blocksize()
    ensures forall i :: 0 <= i < |f.params| ==> f.params[i] == Divide(ws.y[wi][i], absMax)
  {
    var startX := ws.x[0][0];
    var endX := ws.x[0][|ws.x[0]| - 1];
    var ys := ws.y[wi];
    var params: seq<Double> := [];
    var i := 0;
    while i < |ys|
      invariant 0 <= i <= |ys| && |params| == i
      invariant forall k :: 0 <= k < i ==> params[k] == Divide(ys[k], absMax)
    {
      params := params + [Divide(ys[i], absMax)];
      i := i + 1;
    }
    f := BSpline(ws.Blocksize() - 1, startX, endX, params);
  }

  /** getColumn: a one-spectrum workspace whose X is the vertical axis and
    * whose Y and E are column `col` of every spectrum. */
  method GetColumn(ws: MatrixWorkspace, col: nat) returns (c: MatrixWorkspace)
    requires |ws.e| == ws.NRows() && |ws.axis1| >= ws.NRows()
    requires forall i :: 0 <= i < ws.NRows() ==> col < |ws.y[i]| && col < |ws.e[i]|
    ensures c.Valid() && c.NRows() == 1 && c.Blocksize() == ws.NRows()
    ensures |c.x[0]| == ws.NRows()
    ensures forall i :: 0 <= i < ws.NRows() ==>
      c.x[0][i] == ws.axis1[i] && c.y[0][i] == ws.y[i][col] && c.e[0][i] == ws.e[i][col]
  {
    var nx := ws.NRows();
    var xs := new real[nx];
    var ys := new real[nx];
    var es := new real[nx];
    var i := 0;
    while i < nx
      invariant 0 <= i <= nx
      invariant forall k :: 0 <= k < i ==>
        xs[k] == ws.axis1[k] && ys[k] == ws.y[k][col] && es[k] == ws.e[k][col]
    {
      xs[i] := ws.axis1[i];
      ys[i] := ws.y[i][col];
      es[i] := ws.e[i][col];
      i := i + 1;
    }
    c := MatrixWorkspace([xs[..]], [ys[..]], [es[..]], [], false);
  }

  /** The first largest cell of the matrix is also the first largest cell of
    * its own row and of its own column, so both fits are anchored on it. */
  lemma FirstMaxOfRowAndColumn(y: seq<seq<real>>, r: nat, c: nat, column: seq<real>)
    requires IsFirstMax(y, r, c)
    requires |column| == |y| && forall i :: 0 <= i < |y| ==> c < |y[i]| && column[i] == y[i][c]
    ensures IsFirstMax([y[r]], 0, c)
    ensures IsFirstMax([column], 0, r)
  {
    var row := [y[r]];
    forall r', c' | 0 <= r' < 1 && 0 <= c' < |row[r']|
      ensures Abs(row[r'][c']) <= Abs(row[0][c])
      ensures Before(r', c', 0, c) ==> Abs(row[r'][c']) < Abs(row[0][c])
    {
      assert Before(r, c', r, c) <==> c' < c;
    }
    var col := [column];
    forall r', c' | 0 <= r' < 1 && 0 <= c' < |col[r']|
      ensures Abs(col[r'][c']) <= Abs(col[0][r])
      ensures Before(r', c', 0, r) ==> Abs(col[r'][c']) < Abs(col[0][r])
    {
      assert column[c'] == y[c'][c];
      assert Before(c', c, r, c) <==> c' < r;
    }
  }

  lemma DivMulBack(a: real, b: real)
    requires b != 0.0
    ensures (a / b) * b == a
  {}

  lemma MulCancel(t: real, u: real, v: real)
    requires v != 0.0 && t * v == u * v
    ensures t == u
  {}

  lemma SquareOfQuotient(v: real, q: real, sq: real)
    requires q * sq == v && sq * sq == v
    ensures q * q * v == v * v
  {
    calc {
      q * q * v;
      == q * q * (sq * sq);
      == (q * sq) * (q * sq);
      == v * v;
    }
  }

  /** The point of the signed square root: the row parameter at the peak,
    * Y/s, times the column parameter at the peak, Y/|s|, gives back the peak
    * value, for s = sign(Y)·√|Y|. */
  lemma PeakReproduced(v: real, sq: real)
    requires v != 0.0 && sq > 0.0 && sq * sq == Abs(v)
    ensures SignOf(v) * sq != 0.0 && Abs(SignOf(v) * sq) == sq
    ensures (v / (SignOf(v) * sq)) * (v / Abs(SignOf(v) * sq)) == v
  {
    var q := Abs(v) / sq;
    DivMulBack(Abs(v), sq);
    SquareOfQuotient(Abs(v), q, sq);
    MulCancel(q * q, Abs(v), Abs(v));
    if v > 0.0 {
      assert v / (SignOf(v) * sq) == q;
    } else {
      assert v / (SignOf(v) * sq) == q;
      assert v / Abs(SignOf(v) * sq) == -q;
    }
  }

  // ---- iterate and exec ----

  /** The child algorithms iterate runs: ConvertMDHistoToMatrixWorkspace,
    * EvaluateMDFunction on the product of the two splines, and PlusMD and
    * MinusMD, whose outputs are None when they are not histogram
    * workspaces. sqrt is the square root the scan uses. */
  datatype Children = Children(
    toMatrix: HistoWorkspace -> MatrixWorkspace,
    evaluate: (HistoWorkspace, BSpline, BSpline) -> HistoWorkspace,
    plus: (HistoWorkspace, HistoWorkspace) -> Option<HistoWorkspace>,
    minus: (HistoWorkspace, HistoWorkspace) -> Option<HistoWorkspace>,
    sqrt: real -> real)

  /** The matrices the conversion produces are rectangular and carry a
    * vertical axis value per spectrum. */
  ghost predicate ProducesValidMatrices(ch: Children)
  {
    forall h: HistoWorkspace {:trigger ch.toMatrix(h)} ::
      ch.toMatrix(h).Valid() && |ch.toMatrix(h).axis1| >= ch.toMatrix(h).NRows()
  }

  /** The pair threaded through the iterations: the difference and the sum
    * so far (none before the first contribution). */
  datatype Pair = Pair(diff: HistoWorkspace, sum: Option<HistoWorkspace>)

  /** The difference is the input, or the input minus the sum. */
  predicate Consistent(ch: Children, input: HistoWorkspace, p: Pair)
  {
    if p.sum.None? then p.diff == input else ch.minus(input, p.sum.value) == Some(p.diff)
  }

  /** The spline through the row of the matrix at `row` scaled by s. */
  function RowFit(m: MatrixWorkspace, row: nat, s: real): BSpline
    requires m.Valid() && row < m.NRows() && m.Blocksize() > 0
  {
    BSpline(m.Blocksize() - 1, m.x[0][0], m.x[0][|m.x[0]| - 1],
            seq(m.Blocksize(), i requires 0 <= i < m.Blocksize() => Divide(m.y[row][i], s)))
  }

  /** The spline through the column of the matrix at `col` scaled by s: its
    * x values are the vertical axis. */
  function ColumnFit(m: MatrixWorkspace, col: nat, s: real): BSpline
    requires m.Valid() && 0 < m.NRows() <= |m.axis1| && col < m.Blocksize()
  {
    BSpline(m.NRows() - 1, m.axis1[0], m.axis1[m.NRows() - 1],
            seq(m.NRows(), i requires 0 <= i < m.NRows() => Divide(m.y[i][col], s)))
  }

  /** The product the step adds, for the first largest cell (r, c) of m. */
  function Contribution(ch: Children, input: HistoWorkspace, m: MatrixWorkspace, r: nat, c: nat): HistoWorkspace
    requires m.Valid() && r < m.NRows() <= |m.axis1| && c < m.Blocksize()
  {
    var s := SignOf(m.y[r][c]) * ch.sqrt(Abs(m.y[r][c]));
    ch.evaluate(input, RowFit(m, r, s), ColumnFit(m, c, Abs(s)))
  }

  /** The rest of a step once the largest cell (r, c) of m is known: the
    * contribution becomes the sum or is added to it, and the difference is
    * the input minus the new sum. A conversion that does not give a
    * histogram workspace raises. */
  function Step(ch: Children, input: HistoWorkspace, sum: Option<HistoWorkspace>,
                m: MatrixWorkspace, r: nat, c: nat): (res: Result<Pair>)
    requires m.Valid() && r < m.NRows() <= |m.axis1| && c < m.Blocksize()
    ensures res.Ok? ==> Consistent(ch, input, res.value) && res.value.sum.Some?
    ensures res.Ok? && sum.None? ==> res.value.sum == Some(Contribution(ch, input, m, r, c))
    ensures res.Ok? && sum.Some? ==> res.value.sum == ch.plus(sum.value, Contribution(ch, input, m, r, c))
    ensures res.Err? <==>
      var newSum := if sum.None? then Some(Contribution(ch, input, m, r, c))
                    else ch.plus(sum.value, Contribution(ch, input, m, r, c));
      newSum.None? || ch.minus(input, newSum.value).None?
  {
    var out := Contribution(ch, input, m, r, c);
    var newSum := if sum.None? then Some(out) else ch.plus(sum.value, out);
    if newSum.None? then Err(RuntimeError("Wrong workspace type found."))
    else match ch.minus(input, newSum.value)
      case None => Err(RuntimeError("Wrong workspace type found."))
      case Some(d) => Ok(Pair(d, newSum))
  }

  /** What iterate computes: on the matrix of the difference (the input when
    * there is none), (input, no sum) when every cell is zero, otherwise the
    * step at the first largest cell. */
  ghost function IterateOf(ch: Children, input: HistoWorkspace, sum: Option<HistoWorkspace>,
                           diff: Option<HistoWorkspace>): (r: Result<Pair>)
    requires ProducesValidMatrices(ch)
    ensures r.Ok? ==> Consistent(ch, input, r.value)
  {
    var m := ch.toMatrix(if diff.Some? then diff.value else input);
    if AllZero(m.y) then Ok(Pair(input, None))
    else
      FirstMaxExists(m.y);
      var row: nat, col: nat :| IsFirstMax(m.y, row, col);
      Step(ch, input, sum, m, row, col)
  }

  /** iterate stops with (input, no sum) on an all-zero difference, and
    * otherwise takes the step at the one first largest cell. */
  lemma IterateOfSteps(ch: Children, input: HistoWorkspace, sum: Option<HistoWorkspace>,
                       diff: Option<HistoWorkspace>)
    requires ProducesValidMatrices(ch)
    ensures var m := ch.toMatrix(if diff.Some? then diff.value else input);
      var r := IterateOf(ch, input, sum, diff);
      (AllZero(m.y) ==> r == Ok(Pair(input, None)))
      && (!AllZero(m.y) ==>
            exists row: nat, col: nat :: IsFirstMax(m.y, row, col)
              && m.Valid() && row < m.NRows() <= |m.axis1| && col < m.Blocksize()
              && r == Step(ch, input, sum, m, row, col))
  {
    var m := ch.toMatrix(if diff.Some? then diff.value else input);
    if !AllZero(m.y) {
      FirstMaxExists(m.y);
      var row: nat, col: nat :| IsFirstMax(m.y, row, col);
      forall row': nat, col': nat | IsFirstMax(m.y, row', col')
        ensures row' == row && col' == col
      {
        FirstMaxUnique(m.y, row, col, row', col');
      }
      assert IterateOf(ch, input, sum, diff) == Step(ch, input, sum, m, row, col);
    }
  }

  /** What exec computes: the first iterate from nothing, then, while no
    * step has failed, one more iterate fed the previous (diff, sum) until
    * NIterations steps are done (at least one). */
  ghost function ExecOf(ch: Children, input: HistoWorkspace, n: int): (r: Result<Pair>)
    requires ProducesValidMatrices(ch)
    ensures r.Ok? ==> Consistent(ch, input, r.value)
    decreases n
  {
    if n <= 1 then IterateOf(ch, input, None, None) else NextOf(ch, input, ExecOf(ch, input, n - 1))
  }

  /** One iteration of exec's loop: an error stands, a success is iterated
    * from its (diff, sum). */
  ghost function NextOf(ch: Children, input: HistoWorkspace, prev: Result<Pair>): (r: Result<Pair>)
    requires ProducesValidMatrices(ch)
    ensures prev.Err? ==> r == prev
    ensures r.Ok? ==> Consistent(ch, input, r.value)
  {
    if prev.Err? then prev else IterateOf(ch, input, prev.value.sum, Some(prev.value.diff))
  }

  /** A failed step is the result of exec whatever the number of further
    * iterations asked for. */
  lemma {:induction false} ExecErrPersists(ch: Children, input: HistoWorkspace, i: int, n: int)
    requires ProducesValidMatrices(ch)
    requires 1 <= i <= n && ExecOf(ch, input, i).Err?
    ensures ExecOf(ch, input, n) == ExecOf(ch, input, i)
    decreases n - i
  {
    if i < n {
      ExecErrPersists(ch, input, i, n - 1);
    }
  }

  /** Where exec's loop stops, at the last iteration asked for (at least
    * one) or at a failed step, its result is the whole run's. */
  lemma ExecOfAtExit(ch: Children, input: HistoWorkspace, i: int, n: int)
    requires ProducesValidMatrices(ch)
    requires 1 <= i && (n > 1 ==> i <= n) && (n <= 1 ==> i == 1)
    requires i < n ==> ExecOf(ch, input, i).Err?
    ensures ExecOf(ch, input, n) == ExecOf(ch, input, i)
  {
    if i < n {
      ExecErrPersists(ch, input, i, n);
    }
  }

  /** iterate: one smoothing step from (diff, sum); a missing diff stands
    * for the input. An all-zero difference stops with (input, no sum);
    * otherwise the step is taken at the first largest cell. */
  method Iterate(ch: Children, input: HistoWorkspace, sum: Option<HistoWorkspace>,
                 diff: Option<HistoWorkspace>) returns (r: Result<Pair>)
    requires ProducesValidMatrices(ch)
    ensures r == IterateOf(ch, input, sum, diff)
  {
    var d := if diff.Some? then diff.value else input;
    var ws := ch.toMatrix(d);
    var maxRow, maxCol, signedSqrtMax := FindMaxAbsValuePos(ws, ch.sqrt);
    StopIffAllZero(ws, maxRow, maxCol);
    if maxRow >= ws.NRows() || maxCol >= ws.Blocksize() {
      return Ok(Pair(input, None));
    }
    r := StepAt(ch, input, sum, ws, maxRow, maxCol, signedSqrtMax);
    forall row: nat, col: nat | IsFirstMax(ws.y, row, col)
      ensures row == maxRow && col == maxCol
    {
      FirstMaxUnique(ws.y, row, col, maxRow, maxCol);
    }
  }

  /** The part of iterate after the early stop: the two fits, their product
    * evaluated on the input, the new sum and the new difference. */
  method StepAt(ch: Children, input: HistoWorkspace, sum: Option<HistoWorkspace>,
                ws: MatrixWorkspace, maxRow: nat, maxCol: nat, signedSqrtMax: real)
    returns (r: Result<Pair>)
    requires ws.Valid() && maxRow < ws.NRows() <= |ws.axis1| && maxCol < ws.Blocksize()
    requires signedSqrtMax == SignOf(ws.y[maxRow][maxCol]) * ch.sqrt(Abs(ws.y[maxRow][maxCol]))
    ensures r == Step(ch, input, sum, ws, maxRow, maxCol)
  {
    var fun1 := Fit1(ws, maxRow, signedSqrtMax);
    var column := GetColumn(ws, maxCol);
    var fun2 := Fit1(column, 0, Abs(signedSqrtMax));
    assert fun1 == RowFit(ws, maxRow, signedSqrtMax);
    assert fun2 == ColumnFit(ws, maxCol, Abs(signedSqrtMax));
    var out := ch.evaluate(input, fun1, fun2);
    assert out == Contribution(ch, input, ws, maxRow, maxCol);
    var newSum: HistoWorkspace;
    if sum.None? {
      newSum := out;
    } else {
      var isum := ch.plus(sum.value, out);
      if isum.None? {
        r := Err(RuntimeError("Wrong workspace type found."));
        assert r == Step(ch, input, sum, ws, maxRow, maxCol);
        return;
      }
      newSum := isum.value;
    }
    var idiff := ch.minus(input, newSum);
    if idiff.None? {
      r := Err(RuntimeError("Wrong workspace type found."));
    } else {
      r := Ok(Pair(idiff.value, Some(newSum)));
    }
    assert r == Step(ch, input, sum, ws, maxRow, maxCol);
  }

  /** exec: one step from nothing, then NIterations − 1 more, each fed the
    * previous (diff, sum); an error in any step ends the algorithm. */
  method Exec(ch: Children, input: HistoWorkspace, nIterations: int)
    returns (r: Result<Pair>)
    requires ProducesValidMatrices(ch)
    ensures r == ExecOf(ch, input, nIterations)
    ensures r.Ok? ==> Consistent(ch, input, r.value)
  {
    r := Iterate(ch, input, None, None);
    var i := 1;
    while i < nIterations && r.Ok?
      invariant 1 <= i && (nIterations > 1 ==> i <= nIterations) && (nIterations <= 1 ==> i == 1)
      invariant r == ExecOf(ch, input, i)
    {
      var prev := r.value;
      r := Iterate(ch, input, prev.sum, Some(prev.diff));
      i := i + 1;
    }
    ExecOfAtExit(ch, input, i, nIterations);
  }
}

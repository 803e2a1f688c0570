/** The matrix (2-D) workspace several algorithms read and write: one
  * spectrum per row, each with its x values (bin boundaries or points), its
  * values and their errors, plus the values of the vertical axis. */
module MatrixWorkspaces {

  datatype MatrixWorkspace = MatrixWorkspace(
    x: seq<seq<real>>,
    y: seq<seq<real>>,
    e: seq<seq<real>>,
    axis1: seq<real>,
    distribution: bool)
  {
    /** getNumberHistograms */
    function NRows(): nat { |y| }

    /** blocksize: the length of the first spectrum, 0 when there is none. */
    function Blocksize(): nat { if |y| == 0 then 0 else |y[0]| }

    /** Rectangular: every spectrum has the block size, as many errors as
      * values and at least as many x values. */
    predicate Valid()
    {
      |x| == |y| && |e| == |y|
      && forall r :: 0 <= r < |y| ==> |y[r]| == Blocksize() && |e[r]| == |y[r]| && |x[r]| >= |y[r]|
    }

    /** Valid, and every spectrum is a histogram: one more boundary than
      * values. */
    predicate IsHistogram()
    {
      Valid() && forall r :: 0 <= r < |y| ==> |x[r]| == |y[r]| + 1
    }
  }
}

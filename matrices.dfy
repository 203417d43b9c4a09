/**
 * The few numpy array operations the models share, on matrices given as
 * sequences of rows.
 */
module Matrices {

  /** The entries of a rows-by-cols matrix given as a sequence of rows. */
  predicate IsMatrix(m: seq<seq<real>>, rows: nat, cols: nat)
  {
    |m| == rows && forall i :: 0 <= i < rows ==> |m[i]| == cols
  }

  /** Two matrices of one shape with the same entries are equal. */
  lemma {:induction false} MatrixExt(a: seq<seq<real>>, b: seq<seq<real>>, rows: nat, cols: nat)
    requires IsMatrix(a, rows, cols) && IsMatrix(b, rows, cols)
    requires forall i, j :: 0 <= i < rows && 0 <= j < cols ==> a[i][j] == b[i][j]
    ensures a == b
  {
    forall i | 0 <= i < rows
      ensures a[i] == b[i]
    {
      assert forall j :: 0 <= j < cols ==> a[i][j] == b[i][j];
    }
  }

  /** `np.zeros(n)`. */
  function Zeros(n: nat): (r: seq<real>)
    ensures |r| == n
  {
    seq(n, i => 0.0)
  }

  /** `np.zeros((rows, cols))`. */
  function ZeroMatrix(rows: nat, cols: nat): (r: seq<seq<real>>)
    ensures IsMatrix(r, rows, cols)
  {
    seq(rows, i => Zeros(cols))
  }

  /** `np.eye(n)[i]`: the i-th unit row. */
  function UnitRow(n: nat, i: nat): (r: seq<real>)
    ensures |r| == n
  {
    seq(n, j => if j == i then 1.0 else 0.0)
  }

  /** `np.eye(n)`. */
  function Identity(n: nat): (r: seq<seq<real>>)
    ensures IsMatrix(r, n, n)
  {
    seq(n, i requires 0 <= i < n => UnitRow(n, i))
  }

  /** `c * e` for a scalar c. */
  function Scale(c: real, e: seq<seq<real>>, rows: nat, cols: nat): (r: seq<seq<real>>)
    requires IsMatrix(e, rows, cols)
    ensures IsMatrix(r, rows, cols)
  {
    seq(rows, i requires 0 <= i < rows => seq(cols, j requires 0 <= j < cols => c * e[i][j]))
  }
}

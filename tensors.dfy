/** Four-axis numeric arrays as values. The shape is kept beside the cells,
    so an array with an empty leading axis still has its trailing extents. */
module Tensors {

  type Matrix = seq<seq<int>>

  predicate IsMatrix(m: Matrix, rows: nat, cols: nat)
  {
    |m| == rows && forall i :: 0 <= i < rows ==> |m[i]| == cols
  }

  /** A stack of n matrices of shape rows x cols (a three-axis array). */
  predicate IsStack(c: seq<Matrix>, n: nat, rows: nat, cols: nat)
  {
    && |c| == n
    && (forall b :: 0 <= b < n ==> |c[b]| == rows)
    && (forall b, i :: 0 <= b < n && 0 <= i < rows ==> |c[b][i]| == cols)
  }

  /** A numpy array of shape (n0, n1, n2, n3); cells[a][b] is the n2 x n3
      matrix at (a, b). */
  datatype Tensor = Tensor(n0: nat, n1: nat, n2: nat, n3: nat, cells: seq<seq<Matrix>>)
  {
    predicate Valid()
    {
      && |cells| == n0
      && forall a :: 0 <= a < n0 ==>
           && |cells[a]| == n1
           && forall b :: 0 <= b < n1 ==> IsMatrix(cells[a][b], n2, n3)
    }

    /** The entry at (a, b, i, j). */
    function At(a: nat, b: nat, i: nat, j: nat): int
      requires Valid() && a < n0 && b < n1 && i < n2 && j < n3
    {
      cells[a][b][i][j]
    }

    /** The entry at (a, b, i, j), or 0 outside the shape. */
    function Get(a: nat, b: nat, i: nat, j: nat): int
    {
      if Valid() && a < n0 && b < n1 && i < n2 && j < n3 then cells[a][b][i][j] else 0
    }
  }

  /** Tensors with the same shape and the same matrices are equal. */
  lemma TensorExt(t: Tensor, u: Tensor)
    requires t.Valid() && u.Valid()
    requires t.n0 == u.n0 && t.n1 == u.n1 && t.n2 == u.n2 && t.n3 == u.n3
    requires forall a, b :: 0 <= a < t.n0 && 0 <= b < t.n1 ==> t.cells[a][b] == u.cells[a][b]
    ensures t == u
  {
    assert forall a :: 0 <= a < t.n0 ==> t.cells[a] == u.cells[a];
  }

  /** Tensors with the same shape and the same entries are equal. */
  lemma TensorEntryExt(t: Tensor, u: Tensor)
    requires t.Valid() && u.Valid()
    requires t.n0 == u.n0 && t.n1 == u.n1 && t.n2 == u.n2 && t.n3 == u.n3
    requires forall a, b, i, j :: 0 <= a < t.n0 && 0 <= b < t.n1 && 0 <= i < t.n2 && 0 <= j < t.n3 ==>
               t.cells[a][b][i][j] == u.cells[a][b][i][j]
    ensures t == u
  {
    forall a, b | 0 <= a < t.n0 && 0 <= b < t.n1
      ensures t.cells[a][b] == u.cells[a][b]
    {
      assert forall i :: 0 <= i < t.n2 ==> t.cells[a][b][i] == u.cells[a][b][i];
    }
    TensorExt(t, u);
  }

  function Zeros(n: nat): (z: seq<int>)
    ensures |z| == n && forall k :: 0 <= k < n ==> z[k] == 0
  {
    seq(n, _ => 0)
  }
}

/** Trimming (`remove_empty_rows`): each of the first `flows` directions of a
    (batch, x, y, direction) array loses the x rows and y columns whose
    batch-summed values are all zero, and the trimmed directions are stacked
    again into an array shaped like the trimmed direction 0. */
module Trim {
  import opened Common
  import opened Tensors

  /** Cell (x, y) of direction d summed over the batch
      (`np.add.reduce` along axis 0). */
  function BatchSum(t: Tensor, d: nat, x: nat, y: nat): int
  {
    Sum(t.n0, (b: nat) => t.Get(b, x, y, d))
  }

  function BatchSums(t: Tensor, d: nat): (s: Matrix)
    ensures IsMatrix(s, t.n1, t.n2)
    ensures forall x, y :: 0 <= x < t.n1 && 0 <= y < t.n2 ==> s[x][y] == BatchSum(t, d, x, y)
  {
    seq(t.n1, x requires 0 <= x < t.n1 => seq(t.n2, y requires 0 <= y < t.n2 => BatchSum(t, d, x, y)))
  }

  /** `~(s == 0).all(1)`: the rows with a non-zero entry ... */
  function NonEmptyRows(s: Matrix, rows: nat, cols: nat): (mask: seq<bool>)
    requires IsMatrix(s, rows, cols)
    ensures |mask| == rows
  {
    seq(rows, x requires 0 <= x < rows => exists y :: 0 <= y < cols && s[x][y] != 0)
  }

  /** ... and `~(s.T == 0).all(1)`: the columns with a non-zero entry. */
  function NonEmptyCols(s: Matrix, rows: nat, cols: nat): (mask: seq<bool>)
    requires IsMatrix(s, rows, cols)
    ensures |mask| == cols
  {
    seq(cols, y requires 0 <= y < cols => exists x :: 0 <= x < rows && s[x][y] != 0)
  }

  /** The rows of direction d with a non-zero batch sum somewhere ... */
  function RowMask(t: Tensor, d: nat): (mask: seq<bool>)
    ensures |mask| == t.n1
    ensures forall x :: 0 <= x < t.n1 ==> (mask[x] <==> exists y :: 0 <= y < t.n2 && BatchSum(t, d, x, y) != 0)
  {
    NonEmptyRows(BatchSums(t, d), t.n1, t.n2)
  }

  /** ... and the columns. */
  function ColMask(t: Tensor, d: nat): (mask: seq<bool>)
    ensures |mask| == t.n2
    ensures forall y :: 0 <= y < t.n2 ==> (mask[y] <==> exists x :: 0 <= x < t.n1 && BatchSum(t, d, x, y) != 0)
  {
    NonEmptyCols(BatchSums(t, d), t.n1, t.n2)
  }

  /** The positions a boolean mask selects, in increasing order. */
  function Kept(mask: seq<bool>): (r: seq<nat>)
    ensures |r| <= |mask|
    ensures forall p :: 0 <= p < |r| ==> r[p] < |mask| && mask[r[p]]
    ensures forall p, q :: 0 <= p < q < |r| ==> r[p] < r[q]
    ensures forall x :: 0 <= x < |mask| && mask[x] ==> x in r
  {
    if |mask| == 0 then []
    else Kept(mask[..|mask| - 1]) + (if mask[|mask| - 1] then [|mask| - 1] else [])
  }

  /** `s[mask]` for a boolean mask as long as s. */
  function Select<T>(s: seq<T>, mask: seq<bool>): (r: seq<T>)
    requires |s| == |mask|
    ensures |r| == |Kept(mask)|
    ensures forall p :: 0 <= p < |r| ==> r[p] == s[Kept(mask)[p]]
  {
    seq(|Kept(mask)|, p requires 0 <= p < |Kept(mask)| => s[Kept(mask)[p]])
  }

  /** `X[:, :, :, d]`. */
  function Component(t: Tensor, d: nat): (c: seq<Matrix>)
    requires t.Valid() && d < t.n3
    ensures IsStack(c, t.n0, t.n1, t.n2)
    ensures forall b, x, y :: 0 <= b < t.n0 && 0 <= x < t.n1 && 0 <= y < t.n2 ==> c[b][x][y] == t.cells[b][x][y][d]
  {
    seq(t.n0, b requires 0 <= b < t.n0 =>
      seq(t.n1, x requires 0 <= x < t.n1 =>
        seq(t.n2, y requires 0 <= y < t.n2 => t.cells[b][x][y][d])))
  }

  /** `m[rows][:, cols]` for one matrix. */
  function MaskMatrix(m: Matrix, rows: seq<bool>, cols: seq<bool>): (r: Matrix)
    requires IsMatrix(m, |rows|, |cols|)
    ensures IsMatrix(r, |Kept(rows)|, |Kept(cols)|)
    ensures forall p, q :: 0 <= p < |Kept(rows)| && 0 <= q < |Kept(cols)| ==> r[p][q] == m[Kept(rows)[p]][Kept(cols)[q]]
  {
    seq(|Kept(rows)|, p requires 0 <= p < |Kept(rows)| => Select(m[Kept(rows)[p]], cols))
  }

  /** `c[:, rows][:, :, cols]`. */
  function MaskRowsCols(c: seq<Matrix>, rows: seq<bool>, cols: seq<bool>): (r: seq<Matrix>)
    requires IsStack(c, |c|, |rows|, |cols|)
    ensures IsStack(r, |c|, |Kept(rows)|, |Kept(cols)|)
    ensures forall b, p, q :: 0 <= b < |c| && 0 <= p < |Kept(rows)| && 0 <= q < |Kept(cols)| ==>
              r[b][p][q] == c[b][Kept(rows)[p]][Kept(cols)[q]]
  {
    seq(|c|, b requires 0 <= b < |c| => MaskMatrix(c[b], rows, cols))
  }

  function KeptRows(t: Tensor, d: nat): nat
  {
    |Kept(RowMask(t, d))|
  }

  function KeptCols(t: Tensor, d: nat): nat
  {
    |Kept(ColMask(t, d))|
  }

  /** Direction d with its own empty rows and columns removed: entry
      (b, p, q) is the original entry at the p-th kept row and the q-th kept
      column. */
  function TrimmedComponent(t: Tensor, d: nat): (c: seq<Matrix>)
    requires t.Valid() && d < t.n3
    ensures IsStack(c, t.n0, KeptRows(t, d), KeptCols(t, d))
    ensures forall b, p, q :: 0 <= b < t.n0 && 0 <= p < KeptRows(t, d) && 0 <= q < KeptCols(t, d) ==>
              c[b][p][q] == t.cells[b][Kept(RowMask(t, d))[p]][Kept(ColMask(t, d))[q]][d]
  {
    MaskRowsCols(Component(t, d), RowMask(t, d), ColMask(t, d))
  }

  /** numpy broadcasting of one axis on assignment: a source extent fits a
      target extent when they are equal or the source extent is 1 ... */
  predicate Fits(source: nat, target: nat)
  {
    source == target || source == 1
  }

  /** ... and a broadcast axis of extent 1 is always read at 0. */
  function Broadcast(p: nat, source: nat, target: nat): (r: nat)
    requires Fits(source, target) && p < target
    ensures r < source
    ensures source == target ==> r == p
  {
    if source == 1 then 0 else p
  }

  /** Direction d can be assigned into the slot shaped like direction 0. */
  predicate Stackable(t: Tensor, d: nat)
  {
    Fits(KeptRows(t, d), KeptRows(t, 0)) && Fits(KeptCols(t, d), KeptCols(t, 0))
  }

  /** Entry (b, p, q) of direction d once stacked: direction d read at the
      broadcast position. */
  function StackedCell(t: Tensor, d: nat, b: nat, p: nat, q: nat): int
    requires t.Valid() && d < t.n3 && Stackable(t, d)
    requires b < t.n0 && p < KeptRows(t, 0) && q < KeptCols(t, 0)
  {
    TrimmedComponent(t, d)[b][Broadcast(p, KeptRows(t, d), KeptRows(t, 0))][Broadcast(q, KeptCols(t, d), KeptCols(t, 0))]
  }

  /** Every one of the first `flows` directions can be stacked. */
  predicate AllStackable(t: Tensor, flows: nat)
  {
    forall d :: 0 <= d < flows ==> Stackable(t, d)
  }

  /** The trimmed directions stacked into one array shaped like trimmed
      direction 0. */
  function Stacked(t: Tensor, flows: nat): (s: Tensor)
    requires t.Valid() && 0 < flows <= t.n3 && AllStackable(t, flows)
    ensures s.Valid()
    ensures s.n0 == t.n0 && s.n1 == KeptRows(t, 0) && s.n2 == KeptCols(t, 0) && s.n3 == flows
    ensures forall b, p, q, d :: 0 <= b < t.n0 && 0 <= p < KeptRows(t, 0) && 0 <= q < KeptCols(t, 0) && 0 <= d < flows ==>
              Stackable(t, d) && s.cells[b][p][q][d] == StackedCell(t, d, b, p, q)
  {
    var rows, cols := KeptRows(t, 0), KeptCols(t, 0);
    Tensor(t.n0, rows, cols, flows,
      seq(t.n0, b requires 0 <= b < t.n0 =>
        seq(rows, p requires 0 <= p < rows =>
          seq(cols, q requires 0 <= q < cols =>
            seq(flows, d requires 0 <= d < flows => StackedCell(t, d, b, p, q))))))
  }

  datatype Trimming = Trimming(data: Tensor, rowMask: seq<bool>, colMask: seq<bool>)

  /** What `remove_empty_rows` returns or raises. */
  function Trimmed(t: Tensor, flows: nat): (r: Result<Trimming>)
    requires t.Valid()
    ensures r.Ok? <==> 0 < flows <= t.n3 && AllStackable(t, flows)
    ensures r.Err? ==> r.error == (if flows == 0 || flows > t.n3 then IndexOutOfRange else ShapeMismatch)
    ensures r.Ok? ==> r.value.data == Stacked(t, flows)
    ensures r.Ok? ==> r.value.rowMask == RowMask(t, flows - 1) && r.value.colMask == ColMask(t, flows - 1)
  {
    if flows == 0 || flows > t.n3 then Err(IndexOutOfRange)
    else if !AllStackable(t, flows) then Err(ShapeMismatch)
    else Ok(Trimming(Stacked(t, flows), RowMask(t, flows - 1), ColMask(t, flows - 1)))
  }

  // ---------------------------------------------------------------------
  // The two loops of `remove_empty_rows` over an uninitialised array.

  /** The array holds the tensor. */
  ghost predicate Holds(a: array4<int>, t: Tensor)
    reads a
  {
    && t.Valid()
    && a.Length0 == t.n0 && a.Length1 == t.n1 && a.Length2 == t.n2 && a.Length3 == t.n3
    && forall b, x, y, d :: 0 <= b < t.n0 && 0 <= x < t.n1 && 0 <= y < t.n2 && 0 <= d < t.n3 ==>
         a[b, x, y, d] == t.cells[b][x][y][d]
  }

  /** `X[:, :, :, d] = src`, broadcasting src's x and y axes. */
  method FillDirection(a: array4<int>, src: seq<Matrix>, d: nat, rows: nat, cols: nat)
    requires IsStack(src, a.Length0, rows, cols)
    requires Fits(rows, a.Length1) && Fits(cols, a.Length2) && d < a.Length3
    modifies a
    ensures forall b, p, q, e :: 0 <= b < a.Length0 && 0 <= p < a.Length1 && 0 <= q < a.Length2 && 0 <= e < a.Length3 ==>
              a[b, p, q, e] == if e == d then src[b][Broadcast(p, rows, a.Length1)][Broadcast(q, cols, a.Length2)] else old(a[b, p, q, e])
  {
    for b := 0 to a.Length0
      invariant forall b', p, q, e :: 0 <= b' < a.Length0 && 0 <= p < a.Length1 && 0 <= q < a.Length2 && 0 <= e < a.Length3 ==>
                  a[b', p, q, e] == if e == d && b' < b then src[b'][Broadcast(p, rows, a.Length1)][Broadcast(q, cols, a.Length2)] else old(a[b', p, q, e])
    {
      FillPlane(a, src[b], b, d, rows, cols);
    }
  }

  /** `X[b, :, :, d] = m`, broadcasting. */
  method FillPlane(a: array4<int>, m: Matrix, b: nat, d: nat, rows: nat, cols: nat)
    requires IsMatrix(m, rows, cols) && Fits(rows, a.Length1) && Fits(cols, a.Length2)
    requires b < a.Length0 && d < a.Length3
    modifies a
    ensures forall b', p, q, e :: 0 <= b' < a.Length0 && 0 <= p < a.Length1 && 0 <= q < a.Length2 && 0 <= e < a.Length3 ==>
              a[b', p, q, e] == if b' == b && e == d then m[Broadcast(p, rows, a.Length1)][Broadcast(q, cols, a.Length2)] else old(a[b', p, q, e])
  {
    for p := 0 to a.Length1
      invariant forall b', p', q, e :: 0 <= b' < a.Length0 && 0 <= p' < a.Length1 && 0 <= q < a.Length2 && 0 <= e < a.Length3 ==>
                  a[b', p', q, e] == if b' == b && e == d && p' < p then m[Broadcast(p', rows, a.Length1)][Broadcast(q, cols, a.Length2)] else old(a[b', p', q, e])
    {
      for q := 0 to a.Length2
        invariant forall b', p', q', e :: 0 <= b' < a.Length0 && 0 <= p' < a.Length1 && 0 <= q' < a.Length2 && 0 <= e < a.Length3 ==>
                    a[b', p', q', e] ==
                      if b' == b && e == d && (p' < p || (p' == p && q' < q)) then m[Broadcast(p', rows, a.Length1)][Broadcast(q', cols, a.Length2)]
                      else old(a[b', p', q', e])
      {
        a[b, p, q, d] := m[Broadcast(p, rows, a.Length1)][Broadcast(q, cols, a.Length2)];
      }
    }
  }

  /** The first loop: direction i is sliced out, summed over the batch and
      trimmed; a direction beyond the last one raises an IndexError. */
  method TrimDirections(t: Tensor, flows: nat) returns (r: Result<(seq<seq<Matrix>>, seq<Matrix>)>)
    requires t.Valid()
    ensures r.Err? <==> flows > t.n3
    ensures r.Err? ==> r.error == IndexOutOfRange
    ensures r.Ok? ==> && |r.value.0| == flows && |r.value.1| == flows
                      && forall k :: 0 <= k < flows ==> r.value.0[k] == TrimmedComponent(t, k) && r.value.1[k] == BatchSums(t, k)
  {
    var xNew: seq<seq<Matrix>> := [];
    var xSum: seq<Matrix> := [];
    for i := 0 to flows
      invariant |xNew| == i && |xSum| == i && i <= t.n3
      invariant forall k :: 0 <= k < i ==> xNew[k] == TrimmedComponent(t, k) && xSum[k] == BatchSums(t, k)
    {
      if i >= t.n3 {
        return Err(IndexOutOfRange);
      }
      xNew := xNew + [Component(t, i)];
      xSum := xSum + [BatchSums(t, i)];
      var rows := NonEmptyRows(xSum[i], t.n1, t.n2);
      var cols := NonEmptyCols(xSum[i], t.n1, t.n2);
      xNew := xNew[i := MaskRowsCols(xNew[i], rows, cols)];
    }
    return Ok((xNew, xSum));
  }

  /** The second loop: each trimmed direction is assigned into the array
      shaped like trimmed direction 0. */
  method StackDirections(t: Tensor, flows: nat, xNew: seq<seq<Matrix>>, xSum: seq<Matrix>) returns (r: Result<array4<int>>)
    requires t.Valid() && 0 < flows <= t.n3
    requires |xNew| == flows && |xSum| == flows
    requires forall k :: 0 <= k < flows ==> xNew[k] == TrimmedComponent(t, k) && xSum[k] == BatchSums(t, k)
    ensures r.Err? <==> Trimmed(t, flows).Err?
    ensures r.Err? ==> r.error == ShapeMismatch
    ensures r.Ok? ==> fresh(r.value) && Holds(r.value, Trimmed(t, flows).value.data)
  {
    var rows0 := |Kept(NonEmptyRows(xSum[0], t.n1, t.n2))|;
    var cols0 := |Kept(NonEmptyCols(xSum[0], t.n1, t.n2))|;
    assert rows0 == KeptRows(t, 0) && cols0 == KeptCols(t, 0);
    var a := new int[t.n0, rows0, cols0, flows];
    for i := 0 to flows
      invariant forall k :: 0 <= k < i ==> Stackable(t, k)
      invariant forall b, p, q, e :: 0 <= b < t.n0 && 0 <= p < rows0 && 0 <= q < cols0 && 0 <= e < i ==>
                  a[b, p, q, e] == StackedCell(t, e, b, p, q)
    {
      var rows := |Kept(NonEmptyRows(xSum[i], t.n1, t.n2))|;
      var cols := |Kept(NonEmptyCols(xSum[i], t.n1, t.n2))|;
      assert rows == KeptRows(t, i) && cols == KeptCols(t, i);
      if !Fits(rows, rows0) || !Fits(cols, cols0) {
        assert !Stackable(t, i);
        assert !AllStackable(t, flows);
        return Err(ShapeMismatch);
      }
      assert Stackable(t, i);
      StackDirection(a, t, i);
    }
    StackedHeld(a, t, flows);
    return Ok(a);
  }

  /** `X[:, :, :, i] = X_new[i]` for a direction that fits. */
  method StackDirection(a: array4<int>, t: Tensor, i: nat)
    requires t.Valid() && i < t.n3 && Stackable(t, i)
    requires a.Length0 == t.n0 && a.Length1 == KeptRows(t, 0) && a.Length2 == KeptCols(t, 0) && i < a.Length3
    modifies a
    ensures forall b, p, q, e :: 0 <= b < a.Length0 && 0 <= p < a.Length1 && 0 <= q < a.Length2 && 0 <= e < a.Length3 ==>
              a[b, p, q, e] == if e == i then StackedCell(t, i, b, p, q) else old(a[b, p, q, e])
  {
    FillDirection(a, TrimmedComponent(t, i), i, KeptRows(t, i), KeptCols(t, i));
  }

  /** An array holding every stacked cell holds the result. */
  lemma StackedHeld(a: array4<int>, t: Tensor, flows: nat)
    requires t.Valid() && 0 < flows <= t.n3
    requires forall k :: 0 <= k < flows ==> Stackable(t, k)
    requires a.Length0 == t.n0 && a.Length1 == KeptRows(t, 0) && a.Length2 == KeptCols(t, 0) && a.Length3 == flows
    requires forall b, p, q, e :: 0 <= b < t.n0 && 0 <= p < a.Length1 && 0 <= q < a.Length2 && 0 <= e < flows ==>
               a[b, p, q, e] == StackedCell(t, e, b, p, q)
    ensures Trimmed(t, flows).Ok? && Holds(a, Trimmed(t, flows).value.data)
  {
    assert AllStackable(t, flows);
  }

  method RemoveEmptyRows(t: Tensor, flows: nat) returns (r: Result<(array4<int>, seq<bool>, seq<bool>)>)
    requires t.Valid()
    ensures r.Err? <==> Trimmed(t, flows).Err?
    ensures r.Err? ==> r.error == Trimmed(t, flows).error
    ensures r.Ok? ==> && fresh(r.value.0)
                      && Holds(r.value.0, Trimmed(t, flows).value.data)
                      && r.value.1 == Trimmed(t, flows).value.rowMask
                      && r.value.2 == Trimmed(t, flows).value.colMask
  {
    var collected := TrimDirections(t, flows);
    if collected.Err? {
      assert Trimmed(t, flows).Err? && Trimmed(t, flows).error == IndexOutOfRange;
      return Err(collected.error);
    }
    var (xNew, xSum) := collected.value;
    if flows == 0 {
      return Err(IndexOutOfRange);
    }
    var stacked := StackDirections(t, flows, xNew, xSum);
    if stacked.Err? {
      return Err(stacked.error);
    }
    var last := flows - 1;
    var rowMask, colMask := NonEmptyRows(xSum[last], t.n1, t.n2), NonEmptyCols(xSum[last], t.n1, t.n2);
    assert rowMask == RowMask(t, last) && colMask == ColMask(t, last);
    return Ok((stacked.value, rowMask, colMask));
  }

  // ---------------------------------------------------------------------
  // What the trimming keeps and what it returns.

  /** Row x of direction d survives exactly when some cell of it has a
      non-zero batch sum, and column y exactly when some cell of it has. */
  lemma MaskMeaning(t: Tensor, d: nat, x: nat, y: nat)
    ensures x < t.n1 ==> (x in Kept(RowMask(t, d)) <==> exists y' :: 0 <= y' < t.n2 && BatchSum(t, d, x, y') != 0)
    ensures y < t.n2 ==> (y in Kept(ColMask(t, d)) <==> exists x' :: 0 <= x' < t.n1 && BatchSum(t, d, x', y) != 0)
  {
    var rk, ck := Kept(RowMask(t, d)), Kept(ColMask(t, d));
    if x < t.n1 && x in rk {
      var p :| 0 <= p < |rk| && rk[p] == x;
      assert RowMask(t, d)[x];
    }
    if y < t.n2 && y in ck {
      var q :| 0 <= q < |ck| && ck[q] == y;
      assert ColMask(t, d)[y];
    }
  }

  /** Only empty lines are dropped: a cell in a dropped row or a dropped
      column has a zero batch sum. */
  lemma DroppedAreEmpty(t: Tensor, d: nat, x: nat, y: nat)
    requires x < t.n1 && y < t.n2
    requires x !in Kept(RowMask(t, d)) || y !in Kept(ColMask(t, d))
    ensures BatchSum(t, d, x, y) == 0
  {
    MaskMeaning(t, d, x, y);
  }

  /** Entry (b, p, q, d) of the result is the original entry of direction d
      at its own p-th kept row and q-th kept column, with a direction whose
      trimmed extent is 1 broadcast along that axis. */
  lemma TrimmedCell(t: Tensor, flows: nat, b: nat, p: nat, q: nat, d: nat)
    requires t.Valid() && Trimmed(t, flows).Ok?
    requires b < t.n0 && p < KeptRows(t, 0) && q < KeptCols(t, 0) && d < flows
    ensures Stackable(t, d)
    ensures Trimmed(t, flows).value.data.cells[b][p][q][d]
              == t.cells[b][Kept(RowMask(t, d))[Broadcast(p, KeptRows(t, d), KeptRows(t, 0))]]
                           [Kept(ColMask(t, d))[Broadcast(q, KeptCols(t, d), KeptCols(t, 0))]][d]
    ensures KeptRows(t, d) == KeptRows(t, 0) && KeptCols(t, d) == KeptCols(t, 0) ==>
              Trimmed(t, flows).value.data.cells[b][p][q][d] == t.cells[b][Kept(RowMask(t, d))[p]][Kept(ColMask(t, d))[q]][d]
  {
  }

  /** A mask that keeps everything selects every position in order. */
  lemma {:induction false} KeptAll(mask: seq<bool>)
    requires forall x :: 0 <= x < |mask| ==> mask[x]
    ensures |Kept(mask)| == |mask|
    ensures forall x :: 0 <= x < |mask| ==> Kept(mask)[x] == x
  {
    if |mask| > 0 {
      var init := mask[..|mask| - 1];
      assert forall x :: 0 <= x < |init| ==> init[x] == mask[x];
      KeptAll(init);
    }
  }

  /** After trimming a single direction, the batch sums are those of the
      kept rows and columns. */
  lemma TrimmedBatchSum(t: Tensor, p: nat, q: nat)
    requires t.Valid() && t.n3 >= 1
    requires p < KeptRows(t, 0) && q < KeptCols(t, 0)
    ensures Trimmed(t, 1).Ok?
    ensures BatchSum(Trimmed(t, 1).value.data, 0, p, q) == BatchSum(t, 0, Kept(RowMask(t, 0))[p], Kept(ColMask(t, 0))[q])
  {
    var u := Trimmed(t, 1).value.data;
    var x, y := Kept(RowMask(t, 0))[p], Kept(ColMask(t, 0))[q];
    forall b: nat | b < t.n0
      ensures u.Get(b, p, q, 0) == t.Get(b, x, y, 0)
    {
      TrimmedCell(t, 1, b, p, q, 0);
    }
    SumExt(t.n0, (b: nat) => u.Get(b, p, q, 0), (b: nat) => t.Get(b, x, y, 0));
  }

  /** After trimming a single direction, every row and every column is
      non-empty. */
  lemma TrimmedFull(t: Tensor)
    requires t.Valid() && t.n3 >= 1
    ensures Trimmed(t, 1).Ok?
    ensures forall p :: 0 <= p < Trimmed(t, 1).value.data.n1 ==> RowMask(Trimmed(t, 1).value.data, 0)[p]
    ensures forall q :: 0 <= q < Trimmed(t, 1).value.data.n2 ==> ColMask(Trimmed(t, 1).value.data, 0)[q]
  {
    var u := Trimmed(t, 1).value.data;
    var rk, ck := Kept(RowMask(t, 0)), Kept(ColMask(t, 0));
    forall p | 0 <= p < |rk|
      ensures RowMask(u, 0)[p]
    {
      assert RowMask(t, 0)[rk[p]];
      var y :| 0 <= y < t.n2 && BatchSum(t, 0, rk[p], y) != 0;
      assert y in ck;
      var q :| 0 <= q < |ck| && ck[q] == y;
      TrimmedBatchSum(t, p, q);
    }
    forall q | 0 <= q < |ck|
      ensures ColMask(u, 0)[q]
    {
      assert ColMask(t, 0)[ck[q]];
      var x :| 0 <= x < t.n1 && BatchSum(t, 0, x, ck[q]) != 0;
      assert x in rk;
      var p :| 0 <= p < |rk| && rk[p] == x;
      TrimmedBatchSum(t, p, q);
    }
  }

  /** A single direction without empty rows or columns is returned as it is. */
  lemma NothingToTrim(u: Tensor)
    requires u.Valid() && u.n3 == 1
    requires forall p :: 0 <= p < u.n1 ==> RowMask(u, 0)[p]
    requires forall q :: 0 <= q < u.n2 ==> ColMask(u, 0)[q]
    ensures Trimmed(u, 1).Ok? && Trimmed(u, 1).value.data == u
  {
    KeptAll(RowMask(u, 0));
    KeptAll(ColMask(u, 0));
    OneStackable(u);
    StackedIdentity(u);
  }

  lemma OneStackable(t: Tensor)
    ensures AllStackable(t, 1)
  {
    assert Stackable(t, 0);
  }

  /** A direction whose trimmed shape is that of direction 0 is stacked
      without broadcasting. */
  lemma StackedAt(t: Tensor, flows: nat, b: nat, p: nat, q: nat, d: nat)
    requires t.Valid() && 0 < flows <= t.n3 && AllStackable(t, flows)
    requires b < t.n0 && p < KeptRows(t, 0) && q < KeptCols(t, 0) && d < flows
    requires KeptRows(t, d) == KeptRows(t, 0) && KeptCols(t, d) == KeptCols(t, 0)
    ensures Stacked(t, flows).cells[b][p][q][d] == t.cells[b][Kept(RowMask(t, d))[p]][Kept(ColMask(t, d))[q]][d]
  {
    assert Stackable(t, d);
    assert Stacked(t, flows).cells[b][p][q][d] == StackedCell(t, d, b, p, q);
    assert StackedCell(t, d, b, p, q) == TrimmedComponent(t, d)[b][p][q];
  }

  lemma StackedIdentity(u: Tensor)
    requires u.Valid() && u.n3 == 1 && AllStackable(u, 1)
    requires KeptRows(u, 0) == u.n1 && forall x :: 0 <= x < u.n1 ==> Kept(RowMask(u, 0))[x] == x
    requires KeptCols(u, 0) == u.n2 && forall y :: 0 <= y < u.n2 ==> Kept(ColMask(u, 0))[y] == y
    ensures Stacked(u, 1) == u
  {
    var v := Stacked(u, 1);
    forall b, p, q, d | 0 <= b < u.n0 && 0 <= p < u.n1 && 0 <= q < u.n2 && 0 <= d < 1
      ensures v.cells[b][p][q][d] == u.cells[b][p][q][d]
    {
      assert d == 0;
      StackedAt(u, 1, b, p, q, 0);
      var x, y := Kept(RowMask(u, 0))[p], Kept(ColMask(u, 0))[q];
      assert x == p && y == q;
      assert v.cells[b][p][q][0] == u.cells[b][x][y][0];
    }
    TensorEntryExt(v, u);
  }

  /** Trimming one direction twice removes nothing the second time. */
  lemma TrimIdempotent(t: Tensor)
    requires t.Valid() && t.n3 >= 1
    ensures Trimmed(t, 1).Ok?
    ensures Trimmed(Trimmed(t, 1).value.data, 1).Ok?
    ensures Trimmed(Trimmed(t, 1).value.data, 1).value.data == Trimmed(t, 1).value.data
  {
    TrimmedFull(t);
    NothingToTrim(Trimmed(t, 1).value.data);
  }

  /** Inflow (direction 0) non-empty only in row 0, outflow (direction 1)
      non-empty only in row 1. */
  function TwoDirections(): (t: Tensor)
    ensures t.Valid()
  {
    Tensor(1, 2, 1, 2, [[[[1, 0]], [[0, 1]]]])
  }

  lemma TwoDirectionsMasks(t: Tensor)
    requires t == TwoDirections()
    ensures RowMask(t, 0) == [true, false] && RowMask(t, 1) == [false, true]
    ensures ColMask(t, 0) == [true] && ColMask(t, 1) == [true]
  {
    assert BatchSum(t, 0, 0, 0) == 1 && BatchSum(t, 0, 1, 0) == 0;
    assert BatchSum(t, 1, 0, 0) == 0 && BatchSum(t, 1, 1, 0) == 1;
  }

  lemma KeptExamples()
    ensures Kept([true]) == [0] && Kept([true, false]) == [0] && Kept([false, true]) == [1]
  {
    assert [true, false][..1] == [true];
    assert [false, true][..1] == [false];
  }

  lemma TwoStackable(t: Tensor)
    requires Stackable(t, 0) && Stackable(t, 1)
    ensures AllStackable(t, 2)
  {
  }

  lemma TwoDirectionsKept(t: Tensor)
    requires t == TwoDirections()
    ensures Kept(RowMask(t, 0)) == [0] && Kept(RowMask(t, 1)) == [1]
    ensures Kept(ColMask(t, 0)) == [0] && Kept(ColMask(t, 1)) == [0]
    ensures KeptRows(t, 0) == 1 && KeptRows(t, 1) == 1
    ensures KeptCols(t, 0) == 1 && KeptCols(t, 1) == 1
    ensures AllStackable(t, 2)
  {
    TwoDirectionsMasks(t);
    KeptExamples();
    TwoStackable(t);
  }

  /** Each direction is trimmed with its own masks and the masks returned are
      those of the last one: both directions of `TwoDirections` shrink to one
      row, taken from different rows, the stacked result holds both flows in
      that row, and the returned row mask is that of outflow. */
  lemma PerDirectionMasks(t: Tensor)
    requires t == TwoDirections()
    ensures Kept(RowMask(t, 0)) == [0] && Kept(RowMask(t, 1)) == [1]
    ensures Trimmed(t, 2).Ok?
    ensures Trimmed(t, 2).value.rowMask == [false, true] && Trimmed(t, 2).value.colMask == [true]
    ensures Trimmed(t, 2).value.data.n0 == 1 && Trimmed(t, 2).value.data.n1 == 1
    ensures Trimmed(t, 2).value.data.n2 == 1 && Trimmed(t, 2).value.data.n3 == 2
    ensures Trimmed(t, 2).value.data.cells[0][0][0] == [1, 1]
  {
    TwoDirectionsMasks(t);
    TwoDirectionsKept(t);
    StackedAt(t, 2, 0, 0, 0, 0);
    StackedAt(t, 2, 0, 0, 0, 1);
    var c := Trimmed(t, 2).value.data.cells[0][0][0];
    assert |c| == 2 && c[0] == 1 && c[1] == 1;
  }
}

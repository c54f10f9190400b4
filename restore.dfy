/** Decompaction (`restore_od_matrix`): for each recorded empty index, in
    the order given, a zero slice is inserted along the origin axis (axis 2)
    and then along the destination axis (axis 3) of the already grown
    array. */
module Restore {
  import opened Common
  import opened Tensors

  // ---------------------------------------------------------------------
  // One matrix.

  /** `np.insert` of a zero row before row k. */
  function InsertRow(m: Matrix, rows: nat, cols: nat, k: nat): (r: Matrix)
    requires IsMatrix(m, rows, cols) && k <= rows
    ensures IsMatrix(r, rows + 1, cols)
    ensures forall i :: 0 <= i < rows + 1 ==>
              r[i] == if i < k then m[i] else if i == k then Zeros(cols) else m[i - 1]
  {
    m[..k] + [Zeros(cols)] + m[k..]
  }

  /** `np.insert` of a zero column before column c. */
  function InsertCol(m: Matrix, rows: nat, cols: nat, c: nat): (r: Matrix)
    requires IsMatrix(m, rows, cols) && c <= cols
    ensures IsMatrix(r, rows, cols + 1)
    ensures forall i, j :: 0 <= i < rows && 0 <= j < cols + 1 ==>
              r[i][j] == if j < c then m[i][j] else if j == c then 0 else m[i][j - 1]
  {
    seq(rows, i requires 0 <= i < rows => m[i][..c] + [0] + m[i][c..])
  }

  /** Removes row k and column c. */
  function DeleteCross(m: Matrix, rows: nat, cols: nat, k: nat, c: nat): (r: Matrix)
    requires IsMatrix(m, rows + 1, cols + 1) && k <= rows && c <= cols
    ensures IsMatrix(r, rows, cols)
    ensures forall i, j :: 0 <= i < rows && 0 <= j < cols ==>
              r[i][j] == m[if i < k then i else i + 1][if j < c then j else j + 1]
  {
    seq(rows, i requires 0 <= i < rows =>
      var row := m[if i < k then i else i + 1];
      row[..c] + row[c + 1..])
  }

  /** Row k and column c of m hold only zeros. */
  predicate ZeroCross(m: Matrix, rows: nat, cols: nat, k: nat, c: nat)
    requires IsMatrix(m, rows, cols)
  {
    && (k < rows ==> forall j :: 0 <= j < cols ==> m[k][j] == 0)
    && (c < cols ==> forall i :: 0 <= i < rows ==> m[i][c] == 0)
  }

  /** One insertion step on a matrix: zeros in row k and column c, the old
      entries before k (resp. c) in place and those at or after it shifted
      by one. */
  lemma InsertCrossAt(m: Matrix, rows: nat, cols: nat, k: nat, c: nat)
    requires IsMatrix(m, rows, cols) && k <= rows && c <= cols
    ensures var r := InsertCol(InsertRow(m, rows, cols, k), rows + 1, cols, c);
      && IsMatrix(r, rows + 1, cols + 1)
      && ZeroCross(r, rows + 1, cols + 1, k, c)
      && forall i, j :: 0 <= i < rows + 1 && 0 <= j < cols + 1 && i != k && j != c ==>
           r[i][j] == m[if i < k then i else i - 1][if j < c then j else j - 1]
  {
  }

  /** Deleting the inserted row and column gives back the matrix. */
  lemma DeleteInsertCross(m: Matrix, rows: nat, cols: nat, k: nat, c: nat)
    requires IsMatrix(m, rows, cols) && k <= rows && c <= cols
    ensures DeleteCross(InsertCol(InsertRow(m, rows, cols, k), rows + 1, cols, c), rows, cols, k, c) == m
  {
    var r := DeleteCross(InsertCol(InsertRow(m, rows, cols, k), rows + 1, cols, c), rows, cols, k, c);
    assert forall i :: 0 <= i < rows ==> r[i] == m[i];
  }

  /** A row and column of zeros can be deleted and inserted back. */
  lemma InsertDeleteCross(m: Matrix, rows: nat, cols: nat, k: nat, c: nat)
    requires IsMatrix(m, rows + 1, cols + 1) && k <= rows && c <= cols
    requires ZeroCross(m, rows + 1, cols + 1, k, c)
    ensures InsertCol(InsertRow(DeleteCross(m, rows, cols, k, c), rows, cols, k), rows + 1, cols, c) == m
  {
    var d := DeleteCross(m, rows, cols, k, c);
    var g := InsertRow(d, rows, cols, k);
    var r := InsertCol(g, rows + 1, cols, c);
    forall i | 0 <= i < rows + 1 ensures r[i] == m[i] {
      forall j | 0 <= j < cols + 1 ensures r[i][j] == m[i][j] {
        if i == k || j == c {
          assert r[i][j] == 0;
        } else {
          var i', j' := if i < k then i else i - 1, if j < c then j else j - 1;
          assert r[i][j] == g[i][j'] == d[i'][j'];
        }
      }
      assert |r[i]| == |m[i]|;
    }
  }

  // ---------------------------------------------------------------------
  // The whole OD tensor (batch, channel, origin, destination).

  function InsertAxis2(t: Tensor, k: nat): (u: Tensor)
    requires t.Valid() && k <= t.n2
    ensures u.Valid() && u.n0 == t.n0 && u.n1 == t.n1 && u.n2 == t.n2 + 1 && u.n3 == t.n3
    ensures forall a, b :: 0 <= a < t.n0 && 0 <= b < t.n1 ==>
              u.cells[a][b] == InsertRow(t.cells[a][b], t.n2, t.n3, k)
  {
    Tensor(t.n0, t.n1, t.n2 + 1, t.n3,
      seq(t.n0, a requires 0 <= a < t.n0 =>
        seq(t.n1, b requires 0 <= b < t.n1 => InsertRow(t.cells[a][b], t.n2, t.n3, k))))
  }

  function InsertAxis3(t: Tensor, c: nat): (u: Tensor)
    requires t.Valid() && c <= t.n3
    ensures u.Valid() && u.n0 == t.n0 && u.n1 == t.n1 && u.n2 == t.n2 && u.n3 == t.n3 + 1
    ensures forall a, b :: 0 <= a < t.n0 && 0 <= b < t.n1 ==>
              u.cells[a][b] == InsertCol(t.cells[a][b], t.n2, t.n3, c)
  {
    Tensor(t.n0, t.n1, t.n2, t.n3 + 1,
      seq(t.n0, a requires 0 <= a < t.n0 =>
        seq(t.n1, b requires 0 <= b < t.n1 => InsertCol(t.cells[a][b], t.n2, t.n3, c))))
  }

  /** One iteration of the loop: `np.insert(od, idx, zeros, 2)` followed by
      `np.insert(od, idx, zeros, 3)`. Each call checks idx against the
      current length of its own axis and reads a negative idx from the end;
      an idx outside -n..n is an IndexError. */
  function InsertSlice(t: Tensor, idx: int): (r: Result<Tensor>)
    requires t.Valid()
    ensures r.Ok? <==> InsertPosition(idx, t.n2).Some? && InsertPosition(idx, t.n3).Some?
    ensures r.Err? ==> r.error == IndexOutOfRange
    ensures r.Ok? ==> && r.value.Valid()
                      && r.value.n0 == t.n0 && r.value.n1 == t.n1
                      && r.value.n2 == t.n2 + 1 && r.value.n3 == t.n3 + 1
  {
    match InsertPosition(idx, t.n2)
    case None => Err(IndexOutOfRange)
    case Some(k) =>
      var grown := InsertAxis2(t, k);
      match InsertPosition(idx, grown.n3)
      case None => Err(IndexOutOfRange)
      case Some(c) => Ok(InsertAxis3(grown, c))
  }

  /** The entries of one insertion step, plane by plane. */
  lemma InsertSliceAt(t: Tensor, idx: int)
    requires t.Valid() && InsertSlice(t, idx).Ok?
    ensures var u := InsertSlice(t, idx).value;
      var k := InsertPosition(idx, t.n2).value;
      var c := InsertPosition(idx, t.n3).value;
      forall a, b :: 0 <= a < t.n0 && 0 <= b < t.n1 ==>
        && ZeroCross(u.cells[a][b], u.n2, u.n3, k, c)
        && forall i, j :: 0 <= i < u.n2 && 0 <= j < u.n3 && i != k && j != c ==>
             u.cells[a][b][i][j] == t.cells[a][b][if i < k then i else i - 1][if j < c then j else j - 1]
  {
    var k := InsertPosition(idx, t.n2).value;
    var c := InsertPosition(idx, t.n3).value;
    forall a, b | 0 <= a < t.n0 && 0 <= b < t.n1 {
      InsertCrossAt(t.cells[a][b], t.n2, t.n3, k, c);
    }
  }

  /** `restore_od_matrix`'s result as a function of its inputs: the
      insertion steps applied in the order of `emptyIndices`, stopping at the
      first IndexError. */
  function Restored(t: Tensor, emptyIndices: seq<int>): (r: Result<Tensor>)
    requires t.Valid()
    ensures r.Ok? ==> && r.value.Valid()
                      && r.value.n0 == t.n0 && r.value.n1 == t.n1
                      && r.value.n2 == t.n2 + |emptyIndices|
                      && r.value.n3 == t.n3 + |emptyIndices|
    decreases |emptyIndices|
  {
    if emptyIndices == [] then Ok(t)
    else
      var n := |emptyIndices| - 1;
      match Restored(t, emptyIndices[..n])
      case Err(e) => Err(e)
      case Ok(u) => InsertSlice(u, emptyIndices[n])
  }

  /** The loop of `restore_od_matrix`, rebinding the array after each
      insertion. */
  method RestoreOdMatrix(od: Tensor, emptyIndices: seq<int>) returns (r: Result<Tensor>)
    requires od.Valid()
    ensures r == Restored(od, emptyIndices)
  {
    var m := od;
    for k := 0 to |emptyIndices|
      invariant m.Valid()
      invariant Restored(od, emptyIndices[..k]) == Ok(m)
    {
      assert emptyIndices[..k + 1][..k] == emptyIndices[..k];
      var step := InsertSlice(m, emptyIndices[k]);
      if step.Err? {
        RestoredStopsAtError(od, emptyIndices, k + 1);
        return step;
      }
      m := step.value;
    }
    assert emptyIndices[..|emptyIndices|] == emptyIndices;
    return Ok(m);
  }

  /** Once a prefix of the indices fails, the whole sequence fails with the
      same error. */
  lemma {:induction false} RestoredStopsAtError(t: Tensor, e: seq<int>, k: nat)
    requires t.Valid() && k <= |e| && Restored(t, e[..k]).Err?
    ensures Restored(t, e) == Restored(t, e[..k])
    decreases |e| - k
  {
    if k < |e| {
      assert e[..k + 1][..k] == e[..k];
      RestoredStopsAtError(t, e, k + 1);
    } else {
      assert e[..k] == e;
    }
  }

  /** Every index is accepted by the axis lengths it meets: at step s both
      trailing axes have grown by s. */
  predicate IndicesInBounds(n2: nat, n3: nat, e: seq<int>)
  {
    forall s :: 0 <= s < |e| ==>
      InsertPosition(e[s], n2 + s).Some? && InsertPosition(e[s], n3 + s).Some?
  }

  /** `restore_od_matrix` succeeds exactly when every index is within the
      bounds of the array at its step; otherwise it raises IndexError. */
  lemma {:induction false} RestoredOkIff(t: Tensor, e: seq<int>)
    requires t.Valid()
    ensures Restored(t, e).Ok? <==> IndicesInBounds(t.n2, t.n3, e)
    ensures Restored(t, e).Err? ==> Restored(t, e).error == IndexOutOfRange
    decreases |e|
  {
    if e != [] {
      var n := |e| - 1;
      RestoredOkIff(t, e[..n]);
      IndicesInBoundsSnoc(t.n2, t.n3, e);
      match Restored(t, e[..n])
      case Err(_) =>
      case Ok(u) =>
        assert Restored(t, e) == InsertSlice(u, e[n]);
    }
  }

  /** The bounds hold for all steps exactly when they hold for all but the
      last and for the last. */
  lemma IndicesInBoundsSnoc(n2: nat, n3: nat, e: seq<int>)
    requires |e| > 0
    ensures IndicesInBounds(n2, n3, e) <==>
              && IndicesInBounds(n2, n3, e[..|e| - 1])
              && InsertPosition(e[|e| - 1], n2 + |e| - 1).Some?
              && InsertPosition(e[|e| - 1], n3 + |e| - 1).Some?
  {
    assert forall s :: 0 <= s < |e| - 1 ==> e[..|e| - 1][s] == e[s];
  }

  // ---------------------------------------------------------------------
  // Compaction, the inverse the dataset applied when it removed the
  // empty tiles, and the round trip.

  /** Deletes the zero cross that `InsertSlice(_, idx)` would have inserted
      into an array of u's shape less one; None when the positions are out
      of bounds or the cross is not all zero. */
  function DeleteSlice(u: Tensor, idx: int): (r: Option<Tensor>)
    requires u.Valid()
    ensures r.Some? ==> && r.value.Valid()
                        && r.value.n0 == u.n0 && r.value.n1 == u.n1
                        && r.value.n2 + 1 == u.n2 && r.value.n3 + 1 == u.n3
  {
    if u.n2 == 0 || u.n3 == 0 then None
    else match (InsertPosition(idx, u.n2 - 1), InsertPosition(idx, u.n3 - 1))
      case (Some(k), Some(c)) =>
        if forall a, b :: 0 <= a < u.n0 && 0 <= b < u.n1 ==> ZeroCross(u.cells[a][b], u.n2, u.n3, k, c)
        then Some(Tensor(u.n0, u.n1, u.n2 - 1, u.n3 - 1,
          seq(u.n0, a requires 0 <= a < u.n0 =>
            seq(u.n1, b requires 0 <= b < u.n1 => DeleteCross(u.cells[a][b], u.n2 - 1, u.n3 - 1, k, c)))))
        else None
      case _ => None
  }

  /** An insertion step that succeeds is undone by the deletion. */
  lemma InsertThenDelete(t: Tensor, idx: int)
    requires t.Valid() && InsertSlice(t, idx).Ok?
    ensures DeleteSlice(InsertSlice(t, idx).value, idx) == Some(t)
  {
    var u := InsertSlice(t, idx).value;
    var k, c := InsertPosition(idx, t.n2).value, InsertPosition(idx, t.n3).value;
    assert InsertPosition(idx, u.n2 - 1) == Some(k) && InsertPosition(idx, u.n3 - 1) == Some(c);
    InsertSliceAt(t, idx);
    var d := DeleteSlice(u, idx);
    assert d.Some?;
    forall a, b | 0 <= a < t.n0 && 0 <= b < t.n1 ensures d.value.cells[a][b] == t.cells[a][b] {
      DeleteInsertCross(t.cells[a][b], t.n2, t.n3, k, c);
    }
    TensorExt(d.value, t);
  }

  /** A deletion that succeeds is undone by the insertion step. */
  lemma DeleteThenInsert(u: Tensor, idx: int)
    requires u.Valid() && DeleteSlice(u, idx).Some?
    ensures InsertSlice(DeleteSlice(u, idx).value, idx) == Ok(u)
  {
    var t := DeleteSlice(u, idx).value;
    var k, c := InsertPosition(idx, t.n2).value, InsertPosition(idx, t.n3).value;
    var v := InsertSlice(t, idx);
    assert v.Ok?;
    forall a, b | 0 <= a < t.n0 && 0 <= b < t.n1 ensures v.value.cells[a][b] == u.cells[a][b] {
      InsertDeleteCross(u.cells[a][b], t.n2, t.n3, k, c);
    }
    TensorExt(v.value, u);
  }

  /** One step forward and one back are inverse. */
  lemma InsertDeleteSlice(t: Tensor, u: Tensor, idx: int)
    requires t.Valid() && u.Valid()
    ensures InsertSlice(t, idx) == Ok(u) <==> DeleteSlice(u, idx) == Some(t)
  {
    if InsertSlice(t, idx) == Ok(u) {
      InsertThenDelete(t, idx);
    }
    if DeleteSlice(u, idx) == Some(t) {
      DeleteThenInsert(u, idx);
    }
  }

  /** Compaction of a full tensor by the recorded indices: the deletions in
      the reverse order of the insertions. */
  function Compacted(full: Tensor, e: seq<int>): (r: Option<Tensor>)
    requires full.Valid()
    ensures r.Some? ==> r.value.Valid()
    decreases |e|
  {
    if e == [] then Some(full)
    else
      var n := |e| - 1;
      match DeleteSlice(full, e[n])
      case None => None
      case Some(u) => Compacted(u, e[..n])
  }

  /** The decompaction round trip: restoring c with the indices gives the
      full tensor exactly when compacting the full tensor with the same
      indices (removing slices that are all zero) gives c. */
  lemma {:induction false} RestoreCompactRoundTrip(c: Tensor, full: Tensor, e: seq<int>)
    requires c.Valid() && full.Valid()
    ensures Restored(c, e) == Ok(full) <==> Compacted(full, e) == Some(c)
    decreases |e|
  {
    if e == [] {
    } else {
      var n := |e| - 1;
      if Restored(c, e) == Ok(full) {
        var u := Restored(c, e[..n]).value;
        InsertDeleteSlice(u, full, e[n]);
        RestoreCompactRoundTrip(c, u, e[..n]);
      }
      if Compacted(full, e) == Some(c) {
        var u := DeleteSlice(full, e[n]).value;
        InsertDeleteSlice(u, full, e[n]);
        RestoreCompactRoundTrip(c, u, e[..n]);
      }
    }
  }
}

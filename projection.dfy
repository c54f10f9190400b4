/** Projection (`od_matrix_to_map`): every (origin i, destination j) pair
    of the OD tensor adds its flow into the inflow cell of j's map position
    and into the outflow cell of i's map position, starting from all zeros.
    The map has shape (batch, x_max, y_max, 2); the trailing channel axis of
    extent 1 that `to_2D_map` asks for is left implicit. */
module Projection {
  import opened Common
  import opened Tensors
  import opened TileMapping

  /** The arguments of `od_matrix_to_map` besides the OD tensor. */
  datatype Geometry = Geometry(mapping: map<int, Pos>, minTileId: int, xMax: int, yMax: int)

  datatype Cell = Cell(x: nat, y: nat)

  /** An extent as an axis length, a negative one counting as 0: the grid
      sums below are stated for every geometry, also one that `np.zeros`
      would reject. */
  function Extent(n: int): nat
  {
    if n < 0 then 0 else n
  }

  /** The map cell of tile rank k: `mapping[k + min_tile_id]`, each
      coordinate then used as a numpy subscript into its axis. */
  function TileCell(g: Geometry, k: nat): (r: Result<Cell>)
    ensures r.Ok? ==> r.value.x < g.xMax && r.value.y < g.yMax
    ensures r.Ok? <==> && 0 <= g.xMax && 0 <= g.yMax && k + g.minTileId in g.mapping
                       && Subscript(g.mapping[k + g.minTileId].x, g.xMax as nat).Some?
                       && Subscript(g.mapping[k + g.minTileId].y, g.yMax as nat).Some?
    ensures r.Ok? ==> var p := g.mapping[k + g.minTileId];
                      r.value == Cell(Subscript(p.x, g.xMax as nat).value, Subscript(p.y, g.yMax as nat).value)
  {
    if g.xMax < 0 || g.yMax < 0 then Err(NegativeDimension)
    else if k + g.minTileId !in g.mapping then Err(MissingKey)
    else
      var p := g.mapping[k + g.minTileId];
      match (Subscript(p.x, g.xMax), Subscript(p.y, g.yMax))
      case (Some(x), Some(y)) => Ok(Cell(x, y))
      case _ => Err(IndexOutOfRange)
  }

  /** The error of the first rank below n whose lookup fails. */
  function LookupError(g: Geometry, n: nat): (r: Option<Error>)
    ensures r.None? <==> forall k: nat :: k < n ==> TileCell(g, k).Ok?
    ensures r.Some? ==> exists k: nat :: k < n && TileCell(g, k) == Err(r.value)
                          && forall l: nat :: l < k ==> TileCell(g, l).Ok?
  {
    if n == 0 then None
    else match LookupError(g, n - 1)
      case Some(e) => Some(e)
      case None => if TileCell(g, n - 1).Err? then Some(TileCell(g, n - 1).error) else None
  }

  /** Whether and how `od_matrix_to_map` fails. `np.zeros` rejects a negative
      extent; the pairs are then visited origin by origin: the first pair
      looks up destination 0, adds a (batch, channel) slice into a
      (batch, 1) slice of the map, which numpy refuses unless there is
      exactly one channel, and looks up origin 0; the first row of pairs
      looks up every destination, the later rows every further origin. */
  function ProjectionError(od: Tensor, g: Geometry): (r: Option<Error>)
    ensures r.None? <==> 0 <= g.xMax && 0 <= g.yMax &&
                         (od.n2 == 0 || od.n3 == 0 ||
                          (od.n1 == 1 &&
                           (forall k: nat :: k < od.n2 ==> TileCell(g, k).Ok?) &&
                           (forall k: nat :: k < od.n3 ==> TileCell(g, k).Ok?)))
    ensures r == Some(ShapeMismatch) ==> od.n1 != 1
  {
    if g.xMax < 0 || g.yMax < 0 then Some(NegativeDimension)
    else if od.n2 == 0 || od.n3 == 0 then None
    else if TileCell(g, 0).Err? then Some(TileCell(g, 0).error)
    else if od.n1 != 1 then Some(ShapeMismatch)
    else if LookupError(g, od.n3).Some? then LookupError(g, od.n3)
    else LookupError(g, od.n2)
  }

  // ---------------------------------------------------------------------
  // The map as a function of the OD tensor.

  /** The (batch b, channel 0) matrix; the empty matrix where there is none. */
  function Plane(od: Tensor, b: nat): Matrix
  {
    if od.Valid() && b < od.n0 && od.n1 > 0 then od.cells[b][0] else []
  }

  function Entry(m: Matrix, i: nat, j: nat): int
  {
    if i < |m| && j < |m[i]| then m[i][j] else 0
  }

  /** What pair (i, j) adds to cell (x, y) in direction d: inflow (d = 0)
      goes to the destination's cell, outflow (d = 1) to the origin's. */
  function Flow(g: Geometry, m: Matrix, d: nat, x: nat, y: nat, i: nat, j: nat): int
  {
    if TileCell(g, if d == 0 then j else i) == Ok(Cell(x, y)) then Entry(m, i, j) else 0
  }

  function RowFlow(g: Geometry, m: Matrix, d: nat, x: nat, y: nat, i: nat, cols: nat): int
  {
    Sum(cols, (j: nat) => Flow(g, m, d, x, y, i, j))
  }

  /** Cell (x, y) in direction d after the pairs of the first `rows` origins. */
  function PlaneFlow(g: Geometry, m: Matrix, rows: nat, cols: nat, d: nat, x: nat, y: nat): int
  {
    Sum(rows, (i: nat) => RowFlow(g, m, d, x, y, i, cols))
  }

  function MapCell(od: Tensor, g: Geometry, b: nat, x: nat, y: nat, d: nat): int
  {
    PlaneFlow(g, Plane(od, b), od.n2, od.n3, d, x, y)
  }

  /** The value `od_matrix_to_map` returns, or the error it raises. */
  function ProjectMap(od: Tensor, g: Geometry): (r: Result<Tensor>)
    requires od.Valid()
    ensures r.Err? <==> ProjectionError(od, g).Some?
    ensures r.Err? ==> r.error == ProjectionError(od, g).value
    ensures r.Ok? ==> && r.value.Valid()
                      && r.value.n0 == od.n0 && r.value.n1 == g.xMax && r.value.n2 == g.yMax
                      && r.value.n3 == 2
    ensures r.Ok? ==> forall b, x, y, d :: 0 <= b < od.n0 && 0 <= x < g.xMax && 0 <= y < g.yMax && 0 <= d < 2 ==>
              r.value.cells[b][x][y][d] == MapCell(od, g, b, x, y, d)
  {
    match ProjectionError(od, g)
    case Some(e) => Err(e)
    case None =>
      var xs, ys := Extent(g.xMax), Extent(g.yMax);
      Ok(Tensor(od.n0, xs, ys, 2,
        seq(od.n0, b requires 0 <= b < od.n0 =>
          seq(xs, x requires 0 <= x < xs =>
            seq(ys, y requires 0 <= y < ys =>
              seq(2, d requires 0 <= d < 2 => MapCell(od, g, b, x, y, d)))))))
  }

  // ---------------------------------------------------------------------
  // The nested loops over a zero-initialised array.

  /** `map_matrix[:, x, y, d, :] += od_matrix[:, :, i, j]` with one channel. */
  method AddSlice(a: array4<int>, cell: Cell, d: nat, od: Tensor, i: nat, j: nat)
    requires od.Valid() && od.n1 == 1 && i < od.n2 && j < od.n3
    requires a.Length0 == od.n0 && cell.x < a.Length1 && cell.y < a.Length2 && d < a.Length3
    modifies a
    ensures forall b, x, y, e :: 0 <= b < a.Length0 && 0 <= x < a.Length1 && 0 <= y < a.Length2 && 0 <= e < a.Length3 ==>
              a[b, x, y, e] == old(a[b, x, y, e]) + (if x == cell.x && y == cell.y && e == d then od.cells[b][0][i][j] else 0)
  {
    for b := 0 to a.Length0
      invariant forall b', x, y, e :: 0 <= b' < a.Length0 && 0 <= x < a.Length1 && 0 <= y < a.Length2 && 0 <= e < a.Length3 ==>
                  a[b', x, y, e] == old(a[b', x, y, e])
                    + (if b' < b && x == cell.x && y == cell.y && e == d then od.cells[b'][0][i][j] else 0)
    {
      a[b, cell.x, cell.y, d] := a[b, cell.x, cell.y, d] + od.cells[b][0][i][j];
    }
  }

  /** Every cell holds what the pairs visited so far contributed: all pairs of
      origins below i, and those of origin i with destination below j. */
  ghost predicate Filled(a: array4<int>, od: Tensor, g: Geometry, i: nat, j: nat)
    reads a
  {
    forall b, x, y, d :: 0 <= b < a.Length0 && 0 <= x < a.Length1 && 0 <= y < a.Length2 && 0 <= d < a.Length3 ==>
      a[b, x, y, d] == PlaneFlow(g, Plane(od, b), i, od.n3, d, x, y) + RowFlow(g, Plane(od, b), d, x, y, i, j)
  }

  method OdMatrixToMap(od: Tensor, g: Geometry) returns (r: Result<array4<int>>)
    requires od.Valid()
    ensures r.Err? <==> ProjectMap(od, g).Err?
    ensures r.Err? ==> r.error == ProjectMap(od, g).error
    ensures r.Ok? ==> && fresh(r.value)
                      && r.value.Length0 == od.n0 && r.value.Length1 == g.xMax
                      && r.value.Length2 == g.yMax && r.value.Length3 == 2
    ensures r.Ok? ==> forall b, x, y, d ::
              0 <= b < od.n0 && 0 <= x < g.xMax && 0 <= y < g.yMax && 0 <= d < 2 ==>
                r.value[b, x, y, d] == ProjectMap(od, g).value.cells[b][x][y][d]
  {
    if g.xMax < 0 || g.yMax < 0 {
      return Err(NegativeDimension);
    }
    var a := new int[od.n0, g.xMax, g.yMax, 2]((b, x, y, d) => 0);
    for i := 0 to od.n2
      invariant Filled(a, od, g, i, 0)
      invariant i > 0 && od.n3 > 0 ==> od.n1 == 1 && forall k: nat :: k < od.n3 ==> TileCell(g, k).Ok?
      invariant od.n3 > 0 ==> forall k: nat :: k < i ==> TileCell(g, k).Ok?
    {
      var e := AddOrigin(a, od, g, i);
      if e.Some? {
        return Err(e.value);
      }
    }
    FilledAtEnd(a, od, g);
    return Ok(a);
  }

  /** One pass of the outer loop: every destination j of origin i is
      looked up and its flows added, or the lookup error is raised. */
  method AddOrigin(a: array4<int>, od: Tensor, g: Geometry, i: nat) returns (e: Option<Error>)
    requires od.Valid() && i < od.n2 && g.xMax >= 0 && g.yMax >= 0
    requires a.Length0 == od.n0 && a.Length1 == g.xMax && a.Length2 == g.yMax && a.Length3 == 2
    requires Filled(a, od, g, i, 0)
    requires i > 0 && od.n3 > 0 ==> od.n1 == 1 && forall k: nat :: k < od.n3 ==> TileCell(g, k).Ok?
    requires od.n3 > 0 ==> forall k: nat :: k < i ==> TileCell(g, k).Ok?
    modifies a
    ensures e.Some? ==> e == ProjectionError(od, g)
    ensures e.None? ==> Filled(a, od, g, i + 1, 0)
    ensures e.None? && od.n3 > 0 ==> od.n1 == 1 && forall k: nat :: k < od.n3 ==> TileCell(g, k).Ok?
    ensures e.None? && od.n3 > 0 ==> forall k: nat :: k < i + 1 ==> TileCell(g, k).Ok?
  {
    for j := 0 to od.n3
      invariant Filled(a, od, g, i, j)
      invariant i > 0 && od.n3 > 0 ==> forall k: nat :: k < od.n3 ==> TileCell(g, k).Ok?
      invariant od.n3 > 0 ==> forall k: nat :: k < i ==> TileCell(g, k).Ok?
      invariant forall k: nat :: k < j ==> TileCell(g, k).Ok?
      invariant j > 0 ==> od.n1 == 1 && TileCell(g, i).Ok?
    {
      var dest := TileCell(g, j);
      if dest.Err? {
        DestinationError(od, g, i, j);
        return Some(dest.error);
      }
      if od.n1 != 1 {
        assert j == 0;
        return Some(ShapeMismatch);
      }
      ghost var before := FilledStep(a, od, g, i, j);
      AddSlice(a, dest.value, 0, od, i, j);
      var orig := TileCell(g, i);
      if orig.Err? {
        OriginError(od, g, i, j);
        return Some(orig.error);
      }
      AddSlice(a, orig.value, 1, od, i, j);
      FilledAfterPair(a, od, g, i, j, before);
    }
    RowComplete(a, od, g, i);
    return None;
  }

  /** The first failing rank below n is the one LookupError reports. */
  lemma LookupFirst(g: Geometry, n: nat, k: nat)
    requires k < n && TileCell(g, k).Err?
    requires forall l: nat :: l < k ==> TileCell(g, l).Ok?
    ensures LookupError(g, n) == Some(TileCell(g, k).error)
  {
    var r := LookupError(g, n);
    assert r.Some?;
    var k': nat :| k' < n && TileCell(g, k') == Err(r.value) && forall l: nat :: l < k' ==> TileCell(g, l).Ok?;
    assert k' == k;
  }

  /** A destination lookup that fails at pair (i, j) is the error the
      projection raises. */
  lemma DestinationError(od: Tensor, g: Geometry, i: nat, j: nat)
    requires g.xMax >= 0 && g.yMax >= 0 && i < od.n2 && j < od.n3
    requires TileCell(g, j).Err?
    requires i > 0 ==> forall k: nat :: k < od.n3 ==> TileCell(g, k).Ok?
    requires forall k: nat :: k < j ==> TileCell(g, k).Ok?
    requires j > 0 ==> od.n1 == 1 && TileCell(g, i).Ok?
    ensures ProjectionError(od, g) == Some(TileCell(g, j).error)
  {
    if j > 0 {
      LookupFirst(g, od.n3, j);
    }
  }

  /** An origin lookup that fails at pair (i, j) is the error the projection
      raises. */
  lemma OriginError(od: Tensor, g: Geometry, i: nat, j: nat)
    requires g.xMax >= 0 && g.yMax >= 0 && i < od.n2 && j < od.n3 && od.n1 == 1
    requires TileCell(g, j).Ok? && TileCell(g, i).Err?
    requires i > 0 ==> forall k: nat :: k < od.n3 ==> TileCell(g, k).Ok?
    requires forall k: nat :: k < i ==> TileCell(g, k).Ok?
    requires j > 0 ==> TileCell(g, i).Ok?
    ensures ProjectionError(od, g) == Some(TileCell(g, i).error)
  {
    assert TileCell(g, 0).Ok?;
    LookupFirst(g, od.n2, i);
  }

  /** The values of the array before the pair (i, j) is added. */
  ghost function FilledStep(a: array4<int>, od: Tensor, g: Geometry, i: nat, j: nat): (s: seq<seq<seq<seq<int>>>>)
    reads a
    ensures |s| == a.Length0
    ensures forall b :: 0 <= b < a.Length0 ==> |s[b]| == a.Length1
    ensures forall b, x :: 0 <= b < a.Length0 && 0 <= x < a.Length1 ==> |s[b][x]| == a.Length2
    ensures forall b, x, y :: 0 <= b < a.Length0 && 0 <= x < a.Length1 && 0 <= y < a.Length2 ==> |s[b][x][y]| == a.Length3
    ensures forall b, x, y, d :: 0 <= b < a.Length0 && 0 <= x < a.Length1 && 0 <= y < a.Length2 && 0 <= d < a.Length3 ==>
              s[b][x][y][d] == a[b, x, y, d]
  {
    seq(a.Length0, b requires 0 <= b < a.Length0 reads a =>
      seq(a.Length1, x requires 0 <= x < a.Length1 reads a =>
        seq(a.Length2, y requires 0 <= y < a.Length2 reads a =>
          seq(a.Length3, d requires 0 <= d < a.Length3 reads a => a[b, x, y, d]))))
  }

  lemma FilledAfterPair(a: array4<int>, od: Tensor, g: Geometry, i: nat, j: nat, before: seq<seq<seq<seq<int>>>>)
    requires od.Valid() && od.n1 == 1 && i < od.n2 && j < od.n3
    requires a.Length0 == od.n0 && a.Length3 == 2
    requires |before| == a.Length0
    requires forall b :: 0 <= b < a.Length0 ==> |before[b]| == a.Length1
    requires forall b, x :: 0 <= b < a.Length0 && 0 <= x < a.Length1 ==> |before[b][x]| == a.Length2
    requires forall b, x, y :: 0 <= b < a.Length0 && 0 <= x < a.Length1 && 0 <= y < a.Length2 ==> |before[b][x][y]| == 2
    requires forall b, x, y, d :: 0 <= b < a.Length0 && 0 <= x < a.Length1 && 0 <= y < a.Length2 && 0 <= d < 2 ==>
               before[b][x][y][d] == PlaneFlow(g, Plane(od, b), i, od.n3, d, x, y) + RowFlow(g, Plane(od, b), d, x, y, i, j)
    requires forall b, x, y, d :: 0 <= b < a.Length0 && 0 <= x < a.Length1 && 0 <= y < a.Length2 && 0 <= d < 2 ==>
               a[b, x, y, d] == before[b][x][y][d] + Flow(g, Plane(od, b), d, x, y, i, j)
    ensures Filled(a, od, g, i, j + 1)
  {
  }

  lemma RowComplete(a: array4<int>, od: Tensor, g: Geometry, i: nat)
    requires Filled(a, od, g, i, od.n3)
    ensures Filled(a, od, g, i + 1, 0)
  {
  }

  lemma FilledAtEnd(a: array4<int>, od: Tensor, g: Geometry)
    requires od.Valid() && ProjectionError(od, g).None?
    requires a.Length0 == od.n0 && a.Length1 == g.xMax && a.Length2 == g.yMax && a.Length3 == 2
    requires Filled(a, od, g, od.n2, 0)
    ensures forall b, x, y, d ::
              0 <= b < od.n0 && 0 <= x < g.xMax && 0 <= y < g.yMax && 0 <= d < 2 ==>
                a[b, x, y, d] == ProjectMap(od, g).value.cells[b][x][y][d]
  {
  }

  // ---------------------------------------------------------------------
  // What a cell holds, in terms of the tiles.

  /** Column j's sum (everything that arrives at tile j)... */
  function ColTotal(m: Matrix, rows: nat, j: nat): int
  {
    Sum(rows, (i: nat) => Entry(m, i, j))
  }

  /** ... row i's sum (everything that leaves tile i) ... */
  function RowTotal(m: Matrix, cols: nat, i: nat): int
  {
    Sum(cols, (j: nat) => Entry(m, i, j))
  }

  /** ... and the sum of all flows of the matrix. */
  function Total(m: Matrix, rows: nat, cols: nat): int
  {
    Sum(rows, (i: nat) => RowTotal(m, cols, i))
  }

  /** v(k) if tile k sits in cell (x, y), otherwise nothing. */
  function Routed(g: Geometry, x: nat, y: nat, k: nat, v: int): int
  {
    if TileCell(g, k) == Ok(Cell(x, y)) then v else 0
  }

  /** The sum of v over the first n tiles that sit in cell (x, y). */
  function CellSum(g: Geometry, n: nat, v: nat -> int, x: nat, y: nat): int
  {
    Sum(n, (k: nat) => Routed(g, x, y, k, v(k)))
  }

  /** The outflow cell (x, y) holds the row totals of the origins in it. */
  lemma OutflowByRows(g: Geometry, m: Matrix, rows: nat, cols: nat, x: nat, y: nat)
    ensures PlaneFlow(g, m, rows, cols, 1, x, y) == CellSum(g, rows, (i: nat) => RowTotal(m, cols, i), x, y)
  {
    var v := (i: nat) => RowTotal(m, cols, i);
    forall i: nat | i < rows
      ensures RowFlow(g, m, 1, x, y, i, cols) == Routed(g, x, y, i, v(i))
    {
      if TileCell(g, i) == Ok(Cell(x, y)) {
        SumExt(cols, (j: nat) => Flow(g, m, 1, x, y, i, j), (j: nat) => Entry(m, i, j));
      } else {
        SumZero(cols, (j: nat) => Flow(g, m, 1, x, y, i, j));
      }
    }
    SumExt(rows, (i: nat) => RowFlow(g, m, 1, x, y, i, cols), (k: nat) => Routed(g, x, y, k, v(k)));
  }

  /** The inflow cell (x, y) holds the column totals of the destinations in it. */
  lemma InflowByColumns(g: Geometry, m: Matrix, rows: nat, cols: nat, x: nat, y: nat)
    ensures PlaneFlow(g, m, rows, cols, 0, x, y) == CellSum(g, cols, (j: nat) => ColTotal(m, rows, j), x, y)
  {
    var v := (j: nat) => ColTotal(m, rows, j);
    var F := (a: nat, b: nat) => Flow(g, m, 0, x, y, a, b);
    forall i: nat | i < rows
      ensures RowFlow(g, m, 0, x, y, i, cols) == Sum(cols, (b: nat) => F(i, b))
    {
      SumExt(cols, (j: nat) => Flow(g, m, 0, x, y, i, j), (b: nat) => F(i, b));
    }
    SumExt(rows, (i: nat) => RowFlow(g, m, 0, x, y, i, cols), (a: nat) => Sum(cols, (b: nat) => F(a, b)));
    SumSwap(rows, cols, F);
    forall j: nat | j < cols
      ensures Sum(rows, (a: nat) => F(a, j)) == Routed(g, x, y, j, v(j))
    {
      if TileCell(g, j) == Ok(Cell(x, y)) {
        SumExt(rows, (a: nat) => F(a, j), (i: nat) => Entry(m, i, j));
      } else {
        SumZero(rows, (a: nat) => F(a, j));
      }
    }
    SumExt(cols, (b: nat) => Sum(rows, (a: nat) => F(a, b)), (k: nat) => Routed(g, x, y, k, v(k)));
  }

  /** A cell that no destination (d = 0) or no origin (d = 1) is mapped
      to stays zero. */
  lemma UnmappedCellEmpty(g: Geometry, m: Matrix, rows: nat, cols: nat, d: nat, x: nat, y: nat)
    requires d == 0 ==> forall j: nat :: j < cols ==> TileCell(g, j) != Ok(Cell(x, y))
    requires d != 0 ==> forall i: nat :: i < rows ==> TileCell(g, i) != Ok(Cell(x, y))
    ensures PlaneFlow(g, m, rows, cols, d, x, y) == 0
  {
    forall i: nat | i < rows
      ensures RowFlow(g, m, d, x, y, i, cols) == 0
    {
      SumZero(cols, (j: nat) => Flow(g, m, d, x, y, i, j));
    }
    SumZero(rows, (i: nat) => RowFlow(g, m, d, x, y, i, cols));
  }

  // ---------------------------------------------------------------------
  // Conservation: the grid of one direction sums to the matrix total.

  function GridRow(g: Geometry, n: nat, v: nat -> int, x: nat): int
  {
    Sum(Extent(g.yMax), (y: nat) => CellSum(g, n, v, x, y))
  }

  function Grid(g: Geometry, n: nat, v: nat -> int): int
  {
    Sum(Extent(g.xMax), (x: nat) => GridRow(g, n, v, x))
  }

  /** When each of the first n tiles sits in a cell of the grid, summing the
      routed values over the grid gives back the sum of the values. */
  lemma {:induction false} GridCollect(g: Geometry, n: nat, v: nat -> int)
    requires forall k: nat :: k < n ==> TileCell(g, k).Ok?
    ensures Grid(g, n, v) == Sum(n, v)
  {
    var xs, ys := Extent(g.xMax), Extent(g.yMax);
    if n == 0 {
      forall x: nat | x < xs
        ensures GridRow(g, n, v, x) == 0
      {
        SumZero(ys, (y: nat) => CellSum(g, n, v, x, y));
      }
      SumZero(xs, (x: nat) => GridRow(g, n, v, x));
    } else {
      GridCollect(g, n - 1, v);
      var c := TileCell(g, n - 1).value;
      var point := (x: nat) => Sum(ys, (y: nat) => Routed(g, x, y, n - 1, v(n - 1)));
      forall x: nat | x < xs
        ensures GridRow(g, n, v, x) == GridRow(g, n - 1, v, x) + point(x)
        ensures point(x) == if x == c.x then v(n - 1) else 0
      {
        SumAdd(ys, (y: nat) => CellSum(g, n - 1, v, x, y), (y: nat) => Routed(g, x, y, n - 1, v(n - 1)),
               (y: nat) => CellSum(g, n, v, x, y));
        SumPoint(ys, (y: nat) => Routed(g, x, y, n - 1, v(n - 1)), c.y);
      }
      SumAdd(xs, (x: nat) => GridRow(g, n - 1, v, x), point, (x: nat) => GridRow(g, n, v, x));
      SumPoint(xs, point, c.x);
    }
  }

  /** The sum over column x of the grid of direction d ... */
  function GridColumn(g: Geometry, m: Matrix, rows: nat, cols: nat, d: nat, x: nat): int
  {
    Sum(Extent(g.yMax), (y: nat) => PlaneFlow(g, m, rows, cols, d, x, y))
  }

  /** ... and over the whole grid. */
  function GridTotal(g: Geometry, m: Matrix, rows: nat, cols: nat, d: nat): int
  {
    Sum(Extent(g.xMax), (x: nat) => GridColumn(g, m, rows, cols, d, x))
  }

  /** Rewrites the grid of direction d cell by cell into the routed form. */
  lemma GridTotalIsGrid(g: Geometry, m: Matrix, rows: nat, cols: nat, d: nat, n: nat, v: nat -> int)
    requires forall x: nat, y: nat :: PlaneFlow(g, m, rows, cols, d, x, y) == CellSum(g, n, v, x, y)
    ensures GridTotal(g, m, rows, cols, d) == Grid(g, n, v)
  {
    var xs, ys := Extent(g.xMax), Extent(g.yMax);
    forall x: nat | x < xs
      ensures GridColumn(g, m, rows, cols, d, x) == GridRow(g, n, v, x)
    {
      SumExt(ys, (y: nat) => PlaneFlow(g, m, rows, cols, d, x, y), (y: nat) => CellSum(g, n, v, x, y));
    }
    SumExt(xs, (x: nat) => GridColumn(g, m, rows, cols, d, x), (x: nat) => GridRow(g, n, v, x));
  }

  /** Summing the column totals gives the total as well. */
  lemma TotalByColumns(m: Matrix, rows: nat, cols: nat)
    ensures Sum(cols, (j: nat) => ColTotal(m, rows, j)) == Total(m, rows, cols)
  {
    var E := (a: nat, b: nat) => Entry(m, a, b);
    SumSwap(rows, cols, E);
    forall i: nat | i < rows
      ensures RowTotal(m, cols, i) == Sum(cols, (b: nat) => E(i, b))
    {
      SumExt(cols, (j: nat) => Entry(m, i, j), (b: nat) => E(i, b));
    }
    SumExt(rows, (i: nat) => RowTotal(m, cols, i), (a: nat) => Sum(cols, (b: nat) => E(a, b)));
    forall j: nat | j < cols
      ensures ColTotal(m, rows, j) == Sum(rows, (a: nat) => E(a, j))
    {
      SumExt(rows, (i: nat) => Entry(m, i, j), (a: nat) => E(a, j));
    }
    SumExt(cols, (j: nat) => ColTotal(m, rows, j), (b: nat) => Sum(rows, (a: nat) => E(a, b)));
  }

  /** The grid of a direction with no pairs is zero, and so is the total. */
  lemma EmptyPlane(g: Geometry, m: Matrix, rows: nat, cols: nat, d: nat)
    requires rows == 0 || cols == 0
    ensures GridTotal(g, m, rows, cols, d) == 0 && Total(m, rows, cols) == 0
  {
    var xs, ys := Extent(g.xMax), Extent(g.yMax);
    forall i: nat | i < rows
      ensures RowTotal(m, cols, i) == 0
    {
    }
    SumZero(rows, (i: nat) => RowTotal(m, cols, i));
    forall x: nat | x < xs
      ensures GridColumn(g, m, rows, cols, d, x) == 0
    {
      forall y: nat | y < ys
        ensures PlaneFlow(g, m, rows, cols, d, x, y) == 0
      {
        SumZero(rows, (i: nat) => RowFlow(g, m, d, x, y, i, cols));
      }
      SumZero(ys, (y: nat) => PlaneFlow(g, m, rows, cols, d, x, y));
    }
    SumZero(xs, (x: nat) => GridColumn(g, m, rows, cols, d, x));
  }

  /** Every flow is counted once in each direction: when every destination
      (d = 0) or every origin (d = 1) resolves to a cell, the grid of that
      direction sums to the matrix total. */
  lemma Conservation(g: Geometry, m: Matrix, rows: nat, cols: nat, d: nat)
    requires d < 2
    requires d == 0 ==> forall j: nat :: j < cols ==> TileCell(g, j).Ok?
    requires d == 1 ==> forall i: nat :: i < rows ==> TileCell(g, i).Ok?
    ensures GridTotal(g, m, rows, cols, d) == Total(m, rows, cols)
  {
    if d == 0 {
      var v := (j: nat) => ColTotal(m, rows, j);
      forall x: nat, y: nat
        ensures PlaneFlow(g, m, rows, cols, 0, x, y) == CellSum(g, cols, v, x, y)
      {
        InflowByColumns(g, m, rows, cols, x, y);
      }
      GridTotalIsGrid(g, m, rows, cols, 0, cols, v);
      GridCollect(g, cols, v);
      TotalByColumns(m, rows, cols);
    } else {
      var v := (i: nat) => RowTotal(m, cols, i);
      forall x: nat, y: nat
        ensures PlaneFlow(g, m, rows, cols, d, x, y) == CellSum(g, rows, v, x, y)
      {
        OutflowByRows(g, m, rows, cols, x, y);
      }
      GridTotalIsGrid(g, m, rows, cols, d, rows, v);
      GridCollect(g, rows, v);
      SumExt(rows, v, (i: nat) => RowTotal(m, cols, i));
    }
  }

  // ---------------------------------------------------------------------
  // The same facts about the returned map.

  /** Cell (x, y) of batch b holds, as inflow, the column totals of the
      destinations mapped to it and, as outflow, the row totals of the
      origins mapped to it. */
  lemma MapCellByTiles(od: Tensor, g: Geometry, b: nat, x: nat, y: nat)
    requires od.Valid() && ProjectMap(od, g).Ok?
    requires b < od.n0 && x < g.xMax && y < g.yMax
    ensures ProjectMap(od, g).value.cells[b][x][y][0]
              == CellSum(g, od.n3, (j: nat) => ColTotal(Plane(od, b), od.n2, j), x, y)
    ensures ProjectMap(od, g).value.cells[b][x][y][1]
              == CellSum(g, od.n2, (i: nat) => RowTotal(Plane(od, b), od.n3, i), x, y)
  {
    InflowByColumns(g, Plane(od, b), od.n2, od.n3, x, y);
    OutflowByRows(g, Plane(od, b), od.n2, od.n3, x, y);
  }

  /** The channel of batch b, summed over the map in either direction,
      equals the sum of all its flows. */
  lemma MapConservation(od: Tensor, g: Geometry, b: nat, d: nat)
    requires od.Valid() && ProjectMap(od, g).Ok?
    requires b < od.n0 && d < 2
    ensures MapTotal(ProjectMap(od, g).value, b, d) == Total(Plane(od, b), od.n2, od.n3)
  {
    var xs, ys := Extent(g.xMax), Extent(g.yMax);
    var out := ProjectMap(od, g).value;
    var m := Plane(od, b);
    if od.n2 == 0 || od.n3 == 0 {
      EmptyPlane(g, m, od.n2, od.n3, d);
    } else {
      Conservation(g, m, od.n2, od.n3, d);
    }
    forall x: nat | x < xs
      ensures MapColumn(out, b, x, d) == GridColumn(g, m, od.n2, od.n3, d, x)
    {
      SumExt(ys, (y: nat) => out.Get(b, x, y, d), (y: nat) => PlaneFlow(g, m, od.n2, od.n3, d, x, y));
    }
    SumExt(xs, (x: nat) => MapColumn(out, b, x, d), (x: nat) => GridColumn(g, m, od.n2, od.n3, d, x));
  }

  /** Column x of direction d of batch b of a map, summed ... */
  function MapColumn(t: Tensor, b: nat, x: nat, d: nat): int
  {
    Sum(t.n2, (y: nat) => t.Get(b, x, y, d))
  }

  /** ... and the whole direction d of batch b, summed. */
  function MapTotal(t: Tensor, b: nat, d: nat): int
  {
    Sum(t.n1, (x: nat) => MapColumn(t, b, x, d))
  }
}

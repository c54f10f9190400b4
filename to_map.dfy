/** `to_2D_map`: the actual and the predicted OD tensors are projected onto
    the grid, the actual map is trimmed in both directions, and the predicted
    map is cut down with the row and column masks the trimming returns
    (those of outflow, its last direction). */
module ToMap {
  import opened Common
  import opened Tensors
  import opened Projection
  import opened Trim

  /** `t[:, rows][:, :, cols]` on a map: the four-axis counterpart of
      `Trim.MaskRowsCols`, which selects the same way on one direction's
      matrices. */
  function SelectCells(t: Tensor, rows: seq<bool>, cols: seq<bool>): (r: Tensor)
    requires t.Valid() && |rows| == t.n1 && |cols| == t.n2
    ensures r.Valid()
    ensures r.n0 == t.n0 && r.n1 == |Kept(rows)| && r.n2 == |Kept(cols)| && r.n3 == t.n3
    ensures forall b, p, q, d :: 0 <= b < t.n0 && 0 <= p < |Kept(rows)| && 0 <= q < |Kept(cols)| && 0 <= d < t.n3 ==>
              r.cells[b][p][q][d] == t.cells[b][Kept(rows)[p]][Kept(cols)[q]][d]
  {
    Tensor(t.n0, |Kept(rows)|, |Kept(cols)|, t.n3,
      seq(t.n0, b requires 0 <= b < t.n0 =>
        seq(|Kept(rows)|, p requires 0 <= p < |Kept(rows)| => Select(t.cells[b][Kept(rows)[p]], cols))))
  }

  datatype Maps = Maps(actual: Tensor, predicted: Tensor)

  /** What `to_2D_map` returns or raises; the maps lose their trailing
      channel axis of extent 1. */
  function To2DMap(actual: Tensor, predicted: Tensor, g: Geometry): (r: Result<Maps>)
    requires actual.Valid() && predicted.Valid()
    ensures r.Err? <==> || ProjectMap(actual, g).Err? || ProjectMap(predicted, g).Err?
                        || !AllStackable(ProjectMap(actual, g).value, 2)
    ensures r.Err? ==> r.error == if ProjectMap(actual, g).Err? then ProjectMap(actual, g).error
                                  else if ProjectMap(predicted, g).Err? then ProjectMap(predicted, g).error
                                  else ShapeMismatch
    ensures r.Ok? ==> var am := ProjectMap(actual, g).value;
                      && r.value.actual.Valid() && r.value.predicted.Valid()
                      && r.value.actual.n0 == actual.n0 && r.value.predicted.n0 == predicted.n0
                      && r.value.actual.n1 == KeptRows(am, 0) && r.value.actual.n2 == KeptCols(am, 0)
                      && r.value.predicted.n1 == KeptRows(am, 1) && r.value.predicted.n2 == KeptCols(am, 1)
                      && r.value.actual.n3 == 2 && r.value.predicted.n3 == 2
    ensures r.Ok? ==> var am := ProjectMap(actual, g).value;
                      && r.value.actual == Trimmed(am, 2).value.data
                      && r.value.predicted == SelectCells(ProjectMap(predicted, g).value, RowMask(am, 1), ColMask(am, 1))
  {
    match ProjectMap(actual, g)
    case Err(e) => Err(e)
    case Ok(am) =>
      match ProjectMap(predicted, g)
      case Err(e) => Err(e)
      case Ok(pm) =>
        match Trimmed(am, 2)
        case Err(e) => Err(e)
        case Ok(tr) => Ok(Maps(tr.data, SelectCells(pm, tr.rowMask, tr.colMask)))
  }

  /** The predicted map is read at the rows and columns that are non-empty
      in the outflow of the actual map, in both directions. */
  lemma PredictedCells(actual: Tensor, predicted: Tensor, g: Geometry, b: nat, p: nat, q: nat, d: nat)
    requires actual.Valid() && predicted.Valid() && To2DMap(actual, predicted, g).Ok?
    requires b < predicted.n0 && p < KeptRows(ProjectMap(actual, g).value, 1)
    requires q < KeptCols(ProjectMap(actual, g).value, 1) && d < 2
    ensures var am := ProjectMap(actual, g).value;
            && Kept(RowMask(am, 1))[p] < g.xMax && Kept(ColMask(am, 1))[q] < g.yMax
            && To2DMap(actual, predicted, g).value.predicted.cells[b][p][q][d]
                 == MapCell(predicted, g, b, Kept(RowMask(am, 1))[p], Kept(ColMask(am, 1))[q], d)
  {
  }

  /** The actual map's direction d is read at the rows and columns that are
      non-empty in that same direction (broadcast where its trimmed extent
      is 1). */
  lemma ActualCells(actual: Tensor, predicted: Tensor, g: Geometry, b: nat, p: nat, q: nat, d: nat)
    requires actual.Valid() && predicted.Valid() && To2DMap(actual, predicted, g).Ok?
    requires b < actual.n0 && p < KeptRows(ProjectMap(actual, g).value, 0)
    requires q < KeptCols(ProjectMap(actual, g).value, 0) && d < 2
    ensures var am := ProjectMap(actual, g).value;
            && Stackable(am, d)
            && var x := Kept(RowMask(am, d))[Broadcast(p, KeptRows(am, d), KeptRows(am, 0))];
               var y := Kept(ColMask(am, d))[Broadcast(q, KeptCols(am, d), KeptCols(am, 0))];
               && x < g.xMax && y < g.yMax
               && To2DMap(actual, predicted, g).value.actual.cells[b][p][q][d] == MapCell(actual, g, b, x, y, d)
  {
    var am := ProjectMap(actual, g).value;
    TrimmedCell(am, 2, b, p, q, d);
  }

  /** Outflow is aligned: where both outputs have a cell (p, q), the actual
      and the predicted outflow there are the two maps' outflow at one and
      the same grid cell. */
  lemma OutflowAligned(actual: Tensor, predicted: Tensor, g: Geometry, b: nat, b': nat, p: nat, q: nat)
    requires actual.Valid() && predicted.Valid() && To2DMap(actual, predicted, g).Ok?
    requires b < actual.n0 && b' < predicted.n0
    requires p < KeptRows(ProjectMap(actual, g).value, 0) && p < KeptRows(ProjectMap(actual, g).value, 1)
    requires q < KeptCols(ProjectMap(actual, g).value, 0) && q < KeptCols(ProjectMap(actual, g).value, 1)
    ensures var am := ProjectMap(actual, g).value;
            var x, y := Kept(RowMask(am, 1))[p], Kept(ColMask(am, 1))[q];
            && x < g.xMax && y < g.yMax
            && To2DMap(actual, predicted, g).value.actual.cells[b][p][q][1] == MapCell(actual, g, b, x, y, 1)
            && To2DMap(actual, predicted, g).value.predicted.cells[b'][p][q][1] == MapCell(predicted, g, b', x, y, 1)
  {
    ActualCells(actual, predicted, g, b, p, q, 1);
    PredictedCells(actual, predicted, g, b', p, q, 1);
  }

  // ---------------------------------------------------------------------
  // Inflow is not aligned: a two-tile example.

  /** Tile 0 at grid cell (0, 0), tile 1 at (1, 0), on a 2 x 1 grid. */
  function TwoTiles(): Geometry
  {
    Geometry(map[0 := TileMapping.Pos(0, 0), 1 := TileMapping.Pos(1, 0)], 0, 2, 1)
  }

  /** One batch, one channel, a single flow of 1 from tile 1 to tile 0. */
  function OneFlow(): (t: Tensor)
    ensures t.Valid()
  {
    Tensor(1, 1, 2, 2, [[[[0, 0], [1, 0]]]])
  }

  lemma TwoTilesCells(g: Geometry)
    requires g == TwoTiles()
    ensures TileCell(g, 0) == Ok(Cell(0, 0)) && TileCell(g, 1) == Ok(Cell(1, 0))
    ensures LookupError(g, 2).None?
  {
  }

  lemma OneFlowProjects(od: Tensor, g: Geometry)
    requires od == OneFlow() && g == TwoTiles()
    ensures ProjectionError(od, g).None?
  {
    TwoTilesCells(g);
  }

  lemma OneFlowTotals(od: Tensor)
    requires od == OneFlow()
    ensures ColTotal(Plane(od, 0), 2, 0) == 1 && ColTotal(Plane(od, 0), 2, 1) == 0
    ensures RowTotal(Plane(od, 0), 2, 0) == 0 && RowTotal(Plane(od, 0), 2, 1) == 1
  {
    assert Plane(od, 0) == [[0, 0], [1, 0]];
  }

  /** Two routed values, each landing in its tile's cell. */
  lemma TwoTilesRouting(g: Geometry, x: nat, y: nat, v: nat -> int)
    requires g == TwoTiles() && x < 2 && y < 1
    ensures CellSum(g, 2, v, x, y) == if x == 0 then v(0) else v(1)
  {
    TwoTilesCells(g);
    assert CellSum(g, 2, v, x, y) == Routed(g, x, y, 0, v(0)) + Routed(g, x, y, 1, v(1));
  }

  lemma OneFlowCell(od: Tensor, g: Geometry, x: nat, y: nat)
    requires od == OneFlow() && g == TwoTiles() && x < 2 && y < 1
    ensures MapCell(od, g, 0, x, y, 0) == (if x == 0 then 1 else 0)
    ensures MapCell(od, g, 0, x, y, 1) == (if x == 1 then 1 else 0)
  {
    var m := Plane(od, 0);
    InflowByColumns(g, m, 2, 2, x, y);
    OutflowByRows(g, m, 2, 2, x, y);
    TwoTilesRouting(g, x, y, (j: nat) => ColTotal(m, 2, j));
    TwoTilesRouting(g, x, y, (i: nat) => RowTotal(m, 2, i));
    OneFlowTotals(od);
  }

  /** The projection of the single flow: inflow in row 0, outflow in row 1. */
  lemma OneFlowMap(od: Tensor, g: Geometry)
    requires od == OneFlow() && g == TwoTiles()
    ensures ProjectMap(od, g) == Ok(TwoDirections())
  {
    OneFlowProjects(od, g);
    var m := ProjectMap(od, g).value;
    var t := TwoDirections();
    assert m.n0 == 1 && m.n1 == 2 && m.n2 == 1 && m.n3 == 2;
    forall b, x, y, d | 0 <= b < 1 && 0 <= x < 2 && 0 <= y < 1 && 0 <= d < 2
      ensures m.cells[b][x][y][d] == t.cells[b][x][y][d]
    {
      OneFlowCell(od, g, x, y);
    }
    TensorEntryExt(m, t);
  }

  /** With the single flow as the actual tensor, the actual output's inflow
      comes from grid row 0, where the inflow is, but the predicted output's
      inflow is read from grid row 1, where the outflow is. */
  lemma InflowMisaligned(od: Tensor, predicted: Tensor, g: Geometry)
    requires od == OneFlow() && g == TwoTiles()
    requires predicted.Valid() && ProjectMap(predicted, g).Ok?
    ensures To2DMap(od, predicted, g).Ok?
    ensures To2DMap(od, predicted, g).value.actual.Valid() && To2DMap(od, predicted, g).value.predicted.Valid()
    ensures To2DMap(od, predicted, g).value.actual.n1 == 1 && To2DMap(od, predicted, g).value.actual.n2 == 1
    ensures To2DMap(od, predicted, g).value.actual.cells[0][0][0] == [1, 1]
    ensures To2DMap(od, predicted, g).value.predicted.n1 == 1
    ensures To2DMap(od, predicted, g).value.predicted.n2 == 1
    ensures MapCell(od, g, 0, 0, 0, 0) == 1 && MapCell(od, g, 0, 1, 0, 0) == 0
    ensures forall b :: 0 <= b < predicted.n0 ==>
              To2DMap(od, predicted, g).value.predicted.cells[b][0][0][0] == MapCell(predicted, g, b, 1, 0, 0)
  {
    OneFlowMap(od, g);
    PerDirectionMasks(ProjectMap(od, g).value);
    TwoDirectionsKept(ProjectMap(od, g).value);
    OneFlowCell(od, g, 0, 0);
    OneFlowCell(od, g, 1, 0);
    PredictedAtSingleTile(od, predicted, g, 1, 0);
  }

  /** When the actual outflow keeps a single row x and a single column y, the
      predicted map is that one tile of every predicted sample. */
  lemma PredictedAtSingleTile(actual: Tensor, predicted: Tensor, g: Geometry, x: nat, y: nat)
    requires actual.Valid() && predicted.Valid() && To2DMap(actual, predicted, g).Ok?
    requires Kept(RowMask(ProjectMap(actual, g).value, 1)) == [x]
    requires Kept(ColMask(ProjectMap(actual, g).value, 1)) == [y]
    ensures To2DMap(actual, predicted, g).value.predicted.Valid()
    ensures To2DMap(actual, predicted, g).value.predicted.n1 == 1
    ensures To2DMap(actual, predicted, g).value.predicted.n2 == 1
    ensures forall b :: 0 <= b < predicted.n0 ==>
              To2DMap(actual, predicted, g).value.predicted.cells[b][0][0][0] == MapCell(predicted, g, b, x, y, 0)
  {
    var pr := To2DMap(actual, predicted, g).value.predicted;
    assert pr.Valid() && pr.n0 == predicted.n0 && pr.n1 == 1 && pr.n2 == 1 && pr.n3 == 2;
    forall b | 0 <= b < predicted.n0
      ensures pr.cells[b][0][0][0] == MapCell(predicted, g, b, x, y, 0)
    {
      PredictedCells(actual, predicted, g, b, 0, 0, 0);
    }
  }
}

# Dataset utilities of an OD-flow forecaster, in Dafny

The model covers the dataset helpers of a deep-learning pipeline that
forecasts origin–destination (OD) flows between the tiles of a city
tessellation. They turn OD tensors into images for a CNN and back:

- **`get_matrix_mapping`** (module `TileMapping`): gives every tile a grid cell.
  1. Positions are stably sorted by raw y.
  2. The y values are renumbered by a counter that starts at `max_y + 1` and
     drops by one at every new distinct raw y.
  3. The positions are sorted by x again.
  4. They are zipped with the `tile_ID` column into a dictionary.
  5. The grid extents are `max x + 1` and `max y + 1`.
- **`restore_od_matrix`** (module `Restore`): grows a compacted OD tensor. For
  each recorded empty index, in order, it inserts a zero slice along the origin
  axis and then along the destination axis. numpy's rule for insertion
  positions applies: `-n..n` is accepted and a negative position counts from
  the end.
- **`od_matrix_to_map`** (module `Projection`): projects an OD tensor of shape
  (batch, channel, origin, destination) onto a (batch, x, y, direction) map.
  - Every pair (i, j) adds its flow to the inflow cell of j and to the outflow
    cell of i.
  - The model includes every error the code can raise: a negative extent,
    which `np.zeros` rejects at line 47 before the loops; and, in the loops, a
    missing key, a coordinate outside its axis, and a channel count other
    than 1.
- **`remove_empty_rows`** (module `Trim`): trims each direction separately.
  - In each direction, the x rows and y columns whose batch sums are all zero
    are dropped.
  - The trimmed directions are stacked into an array shaped like trimmed
    direction 0, using numpy broadcasting where an extent is 1.
  - It returns the row and column masks of the last direction.
- **`to_2D_map`** (module `ToMap`): projects the actual and the predicted
  tensors, trims the actual map, and cuts the predicted map with the masks that
  come back.

Modules:

- `Tensors` holds four-axis arrays as values: their shape, plus nested sequences.
- `Common` holds:
  - the errors, and `Result`/`Option`;
  - finite sums;
  - numpy's index normalisation.

Form of the model:

- The loops of the source are methods with loop invariants:
  - the renumbering loop, which writes an array in place;
  - the pair loops of the projection, which add into an array;
  - the two loops of the trimming: the first collects sequences, the
    second writes the stacked array;
  - the loop of `restore_od_matrix`, which rebinds a tensor value.
- Each loop is proved against a function that gives the value the code
  computes. The properties are lemmas about those functions.
- `np.insert` builds new arrays, and `to_2D_map` only composes calls. Both
  are modelled as functions on values.

What the code computes where a plain reading of it might expect something else:

- **Renumbering.** The counter at lines 22-28 gives the largest raw y the new
  value `max_y + 1 - (number of distinct raw y)` and the smallest raw y the
  value `max_y`, so it is not a 0-based rank of the distinct raw y values.
  The largest raw y gets 0 exactly when there are `max_y + 1` distinct raw y
  values (`TileMapping.RenumberedLastZero`); for non-negative raw y, exactly
  when they are 0..max_y. `TileMapping.RenumberedExample` shows a gap on raw y values
  {1, 3, 5, 5} (the largest gets 3); `TileMapping.RenumberedGaplessExample`
  shows raw y values {0, 1, 2} (the largest gets 0).
- **Trimming masks.** Lines 64-65 trim each direction with its own masks, not
  a mask combined over both directions. Line 72 returns the masks of the last
  direction. `Trim.PerDirectionMasks` shows this on inflow and outflow that
  occupy different rows.
- **Consequence for `to_2D_map`.** The predicted map is cut with the actual
  outflow's masks. So the actual and predicted outflow line up cell by cell
  (`ToMap.OutflowAligned`), but the inflow need not
  (`ToMap.InflowMisaligned`).

## Model

| member | source | states |
|---|---|---|
| `Common.InsertPosition` | utils/dataset_utils.py:41-42 | `np.insert` accepts a position exactly when `-n <= idx <= n`; a negative one is read as `idx + n` and a non-negative one as itself, so 0 prepends and n appends |
| `Common.Subscript` | utils/dataset_utils.py:51-53 | a subscript into an axis of length n is accepted exactly when `-n <= k < n`, and it is normalised into `0..n-1` |
| `TileMapping.SortBy` | utils/dataset_utils.py:17 | `sorted(..., key=itemgetter(axis))` returns the positions ordered by the key, as a permutation (same multiset) of the input |
| `TileMapping.SortByStable` | utils/dataset_utils.py:17 | the sort is stable: for every key, the positions with that key appear in the same relative order before and after |
| `TileMapping.MaxKey` | utils/dataset_utils.py:19-20 | `.max()` of a non-empty column bounds every entry and is attained by one |
| `TileMapping.MaxKeyPermutation` | utils/dataset_utils.py:33-34 | the maximum does not depend on the order of the positions, so the extents computed after re-sorting are those of the raw positions |
| `TileMapping.RenumberY` | utils/dataset_utils.py:22-28 | the in-place loop leaves the array equal to `Renumbered` of its old contents: x untouched, and entry i gets `max_y + 1` minus the number of distinct raw y among entries 0..i |
| `TileMapping.RenumberedRange` | utils/dataset_utils.py:22-28 | for any input order, x is kept, every new y lies between `max_y + 1 - (distinct raw y count)` and `max_y`, and the first entry gets exactly `max_y` |
| `TileMapping.RenumberedOrder` | utils/dataset_utils.py:22-28 | on input sorted by raw y, equal raw y values get equal new y values, and a strictly larger raw y gets a strictly smaller new y |
| `TileMapping.RenumberedStep` | utils/dataset_utils.py:24-28 | on input sorted by raw y, each entry keeps the previous entry's new y when its raw y repeats, and gets one less otherwise |
| `TileMapping.RenumberedExample` | utils/dataset_utils.py:22-28 | raw y values 1, 3, 5, 5 with `max_y = 5` become 5, 4, 3, 3 |
| `TileMapping.RenumberedGaplessExample` | utils/dataset_utils.py:22-28 | raw y values 0, 1, 2 with `max_y = 2` become 2, 1, 0 |
| `TileMapping.RenumberedLastZero` | utils/dataset_utils.py:22-28 | on input sorted by raw y, the last entry gets 0 exactly when there are `max_y + 1` distinct raw y values |
| `TileMapping.NormalizedPositions` | utils/dataset_utils.py:17-30 | the sort by y, the renumbering and the sort by x give one position per tile, ordered by x |
| `TileMapping.ZipMap` | utils/dataset_utils.py:32 | the dictionary comprehension over the zip has exactly the identifiers as keys; an identifier maps to the position paired with its last occurrence |
| `TileMapping.NormalizedPositionsFacts` | utils/dataset_utils.py:30-34 | the zipped positions are sorted by x and as many as the tiles; their largest x and largest y equal those of the raw positions |
| `TileMapping.GetMatrixMapping` | utils/dataset_utils.py:9-36 | fails exactly on an empty tessellation, with the IndexError of the column subscript at line 19; otherwise returns the zip of `tile_ID` with the normalised positions, with `x_max` and `y_max` equal to the raw maxima plus one |
| `Restore.InsertSlice` | utils/dataset_utils.py:41-42 | one iteration succeeds exactly when idx is accepted by the origin axis and by the destination axis, each checked at its current length; otherwise IndexError; both axes grow by one |
| `Restore.InsertSliceAt` | utils/dataset_utils.py:41-42 | after one iteration, origin row k and destination column c of every (batch, channel) matrix are zero, and every other entry is the old one shifted past k and c |
| `Restore.Restored` | utils/dataset_utils.py:39-43 | after all the indices, both trailing axes have grown by the number of indices and the leading axes are unchanged |
| `Restore.RestoreOdMatrix` | utils/dataset_utils.py:39-43 | the loop returns `Restored` of its inputs: the insertions in the order given, stopping at the first IndexError |
| `Restore.RestoredStopsAtError` | utils/dataset_utils.py:40-42 | once a prefix of the indices raises, the whole call raises the same error |
| `Restore.RestoredOkIff` | utils/dataset_utils.py:39-43 | the call succeeds exactly when index s is within `-(n+s)..n+s` for both trailing axes at every step s; otherwise it raises IndexError |
| `Restore.InsertDeleteSlice` | utils/dataset_utils.py:41-42 | one insertion step from t to u happens exactly when deleting the zero cross at idx from u gives t back |
| `Restore.RestoreCompactRoundTrip` | utils/dataset_utils.py:39-43 | restoring c with the indices gives the full tensor exactly when compacting the full tensor with them, in reverse order and removing all-zero slices, gives c |
| `Projection.TileCell` | utils/dataset_utils.py:50 | `mapping[k + min_tile_id]` resolves exactly when both extents are non-negative, the key is present and both coordinates are valid subscripts of their axes; the cell is then the mapped position with each coordinate wrapped into its axis, inside the grid |
| `Projection.LookupError` | utils/dataset_utils.py:48-53 | none of the first n ranks fails exactly when there is no error; otherwise the error is that of the first failing rank |
| `Projection.ProjectionError` | utils/dataset_utils.py:46-54 | no error exactly when both extents are non-negative and, if there is any pair, there is one channel and every origin and destination rank resolves to a cell; a shape error only when the channel count is not 1 |
| `Projection.ProjectMap` | utils/dataset_utils.py:46-54 | fails exactly with the error of the first failing step; otherwise the map has shape (batch, x_max, y_max, 2), and every cell is the sum, over the pairs, of the flows routed to it |
| `Projection.OdMatrixToMap` | utils/dataset_utils.py:46-54 | the nested loops over a zero-initialised array raise the same error as `ProjectMap`, or fill the array with exactly its cells |
| `Projection.AddOrigin` | utils/dataset_utils.py:49-53 | one pass of the inner loop adds every pair of origin i to its inflow and outflow cells, or returns the error the projection raises |
| `Projection.AddSlice` | utils/dataset_utils.py:51 | `map[:, x, y, d] += od[:, 0, i, j]` adds the flow of the pair to that cell of every batch and leaves every other cell unchanged |
| `Projection.DestinationError` | utils/dataset_utils.py:50 | a destination lookup that fails at pair (i, j) of the loops is the error the projection raises |
| `Projection.OriginError` | utils/dataset_utils.py:52 | an origin lookup that fails at pair (i, j) of the loops is the error the projection raises |
| `Projection.InflowByColumns` | utils/dataset_utils.py:50-51 | the inflow cell (x, y) holds the sum of the column totals of the destinations mapped to (x, y) |
| `Projection.OutflowByRows` | utils/dataset_utils.py:52-53 | the outflow cell (x, y) holds the sum of the row totals of the origins mapped to (x, y) |
| `Projection.UnmappedCellEmpty` | utils/dataset_utils.py:47-54 | a cell that no destination (inflow) or no origin (outflow) maps to stays at zero |
| `Projection.Conservation` | utils/dataset_utils.py:48-53 | when every destination (or origin) resolves to a cell, the inflow (or outflow) grid sums to the total of the OD matrix |
| `Projection.MapCellByTiles` | utils/dataset_utils.py:46-54 | on a successful projection, each cell of the returned map holds the column totals of its destinations (inflow) and the row totals of its origins (outflow) |
| `Projection.MapConservation` | utils/dataset_utils.py:46-54 | on a successful projection, each batch's map summed over the grid in either direction equals the sum of all its flows |
| `Trim.BatchSums` | utils/dataset_utils.py:62 | `np.add.reduce` of a direction is the matrix of its cells summed over the batch |
| `Trim.RowMask` | utils/dataset_utils.py:64 | `~(X_sum == 0).all(1)` marks exactly the x rows with a non-zero batch sum somewhere |
| `Trim.ColMask` | utils/dataset_utils.py:65 | `~(X_sum.T == 0).all(1)` marks exactly the y columns with a non-zero batch sum somewhere |
| `Trim.Kept` | utils/dataset_utils.py:64-65 | boolean indexing keeps exactly the marked positions, in increasing order |
| `Trim.TrimmedComponent` | utils/dataset_utils.py:61-65 | direction d, trimmed, has entry (b, p, q) equal to the original at the p-th kept row and q-th kept column |
| `Trim.Stacked` | utils/dataset_utils.py:67-70 | the stacked array has direction 0's trimmed shape, and holds in slot d direction d read at the broadcast position |
| `Trim.Trimmed` | utils/dataset_utils.py:57-72 | succeeds exactly when `0 < flows <= directions` and every direction fits direction 0's shape by numpy broadcasting; otherwise IndexError or a shape error; the masks returned are those of direction `flows - 1` |
| `Trim.TrimDirections` | utils/dataset_utils.py:60-65 | the first loop collects, for each direction, its trimmed slice and its batch sums, or raises IndexError when flows exceeds the directions |
| `Trim.StackDirections` | utils/dataset_utils.py:67-70 | the second loop fills a fresh array with exactly the stacked result, or fails with a shape error exactly when a direction does not fit |
| `Trim.FillDirection` | utils/dataset_utils.py:70 | `X[:, :, :, d] = src` writes the broadcast source into slot d and leaves the other slots unchanged |
| `Trim.RemoveEmptyRows` | utils/dataset_utils.py:57-72 | the whole function raises what `Trimmed` raises, or returns a fresh array holding its data and the masks it names |
| `Trim.MaskMeaning` | utils/dataset_utils.py:64-65 | a row (column) survives exactly when some cell of it has a non-zero batch sum |
| `Trim.DroppedAreEmpty` | utils/dataset_utils.py:64-65 | every cell in a dropped row or column has a zero batch sum: only empty lines are removed |
| `Trim.TrimmedCell` | utils/dataset_utils.py:67-70 | every entry of the result is the original entry of its direction at that direction's own kept row and column, broadcast where the trimmed extent is 1 |
| `Trim.TrimmedFull` | utils/dataset_utils.py:57-72 | after trimming a single direction, every remaining row and column is non-empty |
| `Trim.NothingToTrim` | utils/dataset_utils.py:57-72 | a single direction with no empty rows or columns is returned unchanged |
| `Trim.TrimIdempotent` | utils/dataset_utils.py:57-72 | trimming a single direction a second time changes nothing |
| `Trim.PerDirectionMasks` | utils/dataset_utils.py:64-72 | inflow only in row 0 and outflow only in row 1 each shrink to one row, taken from different rows; the stacked result holds both flows in one row; the returned row mask is outflow's |
| `ToMap.SelectCells` | utils/dataset_utils.py:82-83 | `map[:, rows][:, :, cols]` has the kept extents, and entry (b, p, q, d) is the original at the p-th kept row and q-th kept column |
| `ToMap.To2DMap` | utils/dataset_utils.py:75-86 | fails exactly when a projection fails or the actual directions do not stack, with the first error; otherwise the actual output is the trimmed actual map and the predicted output is the predicted map cut with the actual outflow's masks |
| `ToMap.PredictedCells` | utils/dataset_utils.py:82-84 | each predicted entry is the predicted map's cell at the actual outflow's p-th kept row and q-th kept column, in both directions |
| `ToMap.ActualCells` | utils/dataset_utils.py:81 | each actual entry of direction d is the actual map's cell at direction d's own kept (and broadcast) row and column |
| `ToMap.OutflowAligned` | utils/dataset_utils.py:81-83 | where both outputs have a cell (p, q), the actual and the predicted outflow there come from one and the same grid cell |
| `ToMap.OneFlowMap` | utils/dataset_utils.py:46-54 | a single flow from tile 1 to tile 0 on a two-tile grid projects to inflow in grid row 0 and outflow in grid row 1 |
| `ToMap.PredictedAtSingleTile` | utils/dataset_utils.py:82-83 | when the actual outflow keeps a single row x and column y, the predicted output is the predicted map's cell (x, y) for every sample |
| `ToMap.InflowMisaligned` | utils/dataset_utils.py:75-86 | for that single flow, the actual inflow output comes from grid row 0, but the predicted inflow output is read from grid row 1 |

## Left out

- Reading the tessellation: the CSV, the WKT geometry, the GeoDataFrame and `ast.literal_eval` of the `position` column (lines 10-16). These are I/O work and third-party parsing. The model starts from the rows (`tile_ID`, position) with integer coordinates.
- Floating point. OD flows and map cells are integers, and the source only adds them, compares them with 0 and copies them. `np.zeros` and `np.empty` give float arrays, and `int(x)` would truncate non-integer coordinates, so the model assumes integer positions.
- The map's trailing channel axis. `od_matrix_to_map` is modelled for the map shape `[batch, x_max, y_max, 2, 1]` that `to_2D_map` passes, with that last axis of extent 1 left implicit. Other map shapes are not modelled. A channel count other than 1 is modelled as the broadcast error numpy raises at the first `+=`.
- The unused `args` parameter of `to_2D_map`.
- The uninitialised contents of `np.empty`. Every cell of the result is written by the second loop, so the model allocates the array and proves it is filled.
- numpy's vectorised slicing, reduction and boolean indexing. These are modelled as functions on values or as explicit loops over arrays, not as numpy calls.
- Memory aliasing between numpy views. The renumbering loop at lines 24-28 iterates the view `list_positions[:, 1]` while writing `list_positions[i, 1]`, but each entry is read before it is written, so values suffice; the other slices are read or assigned as a whole.

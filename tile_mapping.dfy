/** Coordinate normalisation of a tessellation (`get_matrix_mapping`):
    positions are sorted by raw y, the y values renumbered by a counter
    that drops at each new distinct raw y, the positions sorted by x and
    paired, row by row, with the tessellation's tile identifiers. */
module TileMapping {
  import opened Common

  datatype Pos = Pos(x: int, y: int)

  /** One row of the tessellation table: its `tile_ID` and its `position`. */
  datatype Tile = Tile(id: int, position: Pos)

  datatype Axis = XAxis | YAxis

  /** What `get_matrix_mapping` returns: tile identifier to position, and the
      two extents used to allocate the spatial map. */
  datatype MatrixMapping = MatrixMapping(mapping: map<int, Pos>, xMax: int, yMax: int)

  /** `itemgetter(0)` or `itemgetter(1)`. */
  function Key(p: Pos, axis: Axis): int
  {
    match axis
    case XAxis => p.x
    case YAxis => p.y
  }

  /** The `position` column, in table order. */
  function Positions(tess: seq<Tile>): seq<Pos>
  {
    seq(|tess|, k requires 0 <= k < |tess| => tess[k].position)
  }

  /** The `tile_ID` column, in table order. */
  function TileIds(tess: seq<Tile>): seq<int>
  {
    seq(|tess|, k requires 0 <= k < |tess| => tess[k].id)
  }

  // ---------------------------------------------------------------------
  // Python's `sorted(..., key=itemgetter(axis))`: a stable sort.

  predicate SortedBy(s: seq<Pos>, axis: Axis)
  {
    forall i, j :: 0 <= i < j < |s| ==> Key(s[i], axis) <= Key(s[j], axis)
  }

  /** Inserts p before the first element whose key is at least p's, so that
      p precedes every element of s with the same key. */
  function InsertByKey(p: Pos, s: seq<Pos>, axis: Axis): (r: seq<Pos>)
    ensures |r| == |s| + 1
    ensures r[0] == p || (s != [] && r[0] == s[0])
    ensures multiset(r) == multiset(s) + multiset{p}
  {
    if s == [] then [p]
    else if Key(p, axis) <= Key(s[0], axis) then [p] + s
    else
      assert s == [s[0]] + s[1..];
      [s[0]] + InsertByKey(p, s[1..], axis)
  }

  /** Inserting into a sorted sequence keeps it sorted. */
  lemma {:induction false} InsertByKeySorted(p: Pos, s: seq<Pos>, axis: Axis)
    requires SortedBy(s, axis)
    ensures SortedBy(InsertByKey(p, s, axis), axis)
  {
    if s == [] {
    } else if Key(p, axis) <= Key(s[0], axis) {
      ConsSorted(p, s, axis);
    } else {
      var t := s[1..];
      assert SortedBy(t, axis) by {
        forall i, j | 0 <= i < j < |t| ensures Key(t[i], axis) <= Key(t[j], axis) {
          assert t[i] == s[i + 1] && t[j] == s[j + 1];
        }
      }
      InsertByKeySorted(p, t, axis);
      assert t != [] ==> t[0] == s[1];
      ConsSorted(s[0], InsertByKey(p, t, axis), axis);
    }
  }

  /** An element no larger than the head of a sorted sequence can be put in
      front of it. */
  lemma ConsSorted(a: Pos, t: seq<Pos>, axis: Axis)
    requires SortedBy(t, axis)
    requires t != [] ==> Key(a, axis) <= Key(t[0], axis)
    ensures SortedBy([a] + t, axis)
  {
    var u := [a] + t;
    forall i, j | 0 <= i < j < |u| ensures Key(u[i], axis) <= Key(u[j], axis) {
      assert u[j] == t[j - 1];
      if i > 0 {
        assert u[i] == t[i - 1];
      } else {
        assert Key(t[0], axis) <= Key(t[j - 1], axis);
      }
    }
  }

  function SortBy(s: seq<Pos>, axis: Axis): (r: seq<Pos>)
    ensures SortedBy(r, axis)
    ensures multiset(r) == multiset(s)
    ensures |r| == |s|
  {
    if s == [] then []
    else
      assert s == [s[0]] + s[1..];
      InsertByKeySorted(s[0], SortBy(s[1..], axis), axis);
      InsertByKey(s[0], SortBy(s[1..], axis), axis)
  }

  /** The elements of s whose key is k, in order. */
  function WithKey(s: seq<Pos>, axis: Axis, k: int): seq<Pos>
  {
    if s == [] then []
    else (if Key(s[0], axis) == k then [s[0]] else []) + WithKey(s[1..], axis, k)
  }

  lemma WithKeyCons(a: Pos, t: seq<Pos>, axis: Axis, k: int)
    ensures WithKey([a] + t, axis, k) == (if Key(a, axis) == k then [a] else []) + WithKey(t, axis, k)
  {
    assert ([a] + t)[0] == a && ([a] + t)[1..] == t;
  }

  lemma {:induction false} InsertByKeyStable(p: Pos, s: seq<Pos>, axis: Axis, k: int)
    ensures WithKey(InsertByKey(p, s, axis), axis, k)
         == (if Key(p, axis) == k then [p] else []) + WithKey(s, axis, k)
  {
    var here := if Key(p, axis) == k then [p] else [];
    if s == [] {
      WithKeyCons(p, [], axis, k);
      assert InsertByKey(p, s, axis) == [p] + [];
    } else if Key(p, axis) <= Key(s[0], axis) {
      WithKeyCons(p, s, axis, k);
      assert InsertByKey(p, s, axis) == [p] + s;
    } else {
      var t := s[1..];
      assert s == [s[0]] + t;
      var ins := InsertByKey(p, t, axis);
      assert InsertByKey(p, s, axis) == [s[0]] + ins;
      InsertByKeyStable(p, t, axis, k);
      assert WithKey(ins, axis, k) == here + WithKey(t, axis, k);
      WithKeyCons(s[0], ins, axis, k);
      WithKeyCons(s[0], t, axis, k);
      if Key(s[0], axis) == k {
        // p has a larger key than s[0], so it is not among those with key k
        assert here == [];
        assert WithKey([s[0]] + ins, axis, k) == [s[0]] + WithKey(t, axis, k);
        assert WithKey(s, axis, k) == [s[0]] + WithKey(t, axis, k);
      } else {
        assert WithKey([s[0]] + ins, axis, k) == here + WithKey(t, axis, k);
        assert WithKey(s, axis, k) == WithKey(t, axis, k);
      }
    }
  }

  /** Sorting is stable: the elements sharing one key keep their order. */
  lemma {:induction false} SortByStable(s: seq<Pos>, axis: Axis, k: int)
    ensures WithKey(SortBy(s, axis), axis, k) == WithKey(s, axis, k)
  {
    if s != [] {
      SortByStable(s[1..], axis, k);
      InsertByKeyStable(s[0], SortBy(s[1..], axis), axis, k);
    }
  }

  // ---------------------------------------------------------------------
  // `list_positions[:, axis].max()`

  function MaxKey(s: seq<Pos>, axis: Axis): (m: int)
    requires |s| > 0
    ensures forall i :: 0 <= i < |s| ==> Key(s[i], axis) <= m
    ensures exists i :: 0 <= i < |s| && Key(s[i], axis) == m
  {
    if |s| == 1 then Key(s[0], axis)
    else
      var rest := MaxKey(s[1..], axis);
      assert forall i :: 1 <= i < |s| ==> s[i] == s[1..][i - 1];
      if Key(s[0], axis) >= rest then Key(s[0], axis) else rest
  }

  /** Reordering the positions does not change the maximum. */
  lemma MaxKeyPermutation(s: seq<Pos>, t: seq<Pos>, axis: Axis)
    requires |s| > 0 && multiset(s) == multiset(t)
    ensures |t| > 0 && MaxKey(s, axis) == MaxKey(t, axis)
  {
    assert s[0] in multiset(t);
    var i :| 0 <= i < |s| && Key(s[i], axis) == MaxKey(s, axis);
    assert s[i] in multiset(t);
    var j :| 0 <= j < |t| && Key(t[j], axis) == MaxKey(t, axis);
    assert t[j] in multiset(s);
  }

  /** Two sequences with the same keys place by place have the same maximum. */
  lemma MaxKeyPointwise(s: seq<Pos>, t: seq<Pos>, axis: Axis)
    requires |s| > 0 && |s| == |t|
    requires forall i :: 0 <= i < |s| ==> Key(s[i], axis) == Key(t[i], axis)
    ensures MaxKey(s, axis) == MaxKey(t, axis)
  {
    var i :| 0 <= i < |s| && Key(s[i], axis) == MaxKey(s, axis);
    var j :| 0 <= j < |t| && Key(t[j], axis) == MaxKey(t, axis);
  }

  // ---------------------------------------------------------------------
  // The renumbering loop.

  /** The set `pos_set` after n iterations: the raw y values of the first n
      entries. */
  function SeenY(s: seq<Pos>, n: nat): set<int>
    requires n <= |s|
  {
    set k | 0 <= k < n :: s[k].y
  }

  /** The value written at entry i: the counter maxY + 1, lowered once per
      distinct raw y among entries 0..i. */
  function NewY(s: seq<Pos>, maxY: int, i: nat): int
    requires i < |s|
  {
    maxY + 1 - |SeenY(s, i + 1)|
  }

  /** The positions after the renumbering loop: x is untouched and the y of
      entry i becomes NewY. */
  function Renumbered(s: seq<Pos>, maxY: int): seq<Pos>
  {
    seq(|s|, i requires 0 <= i < |s| => Pos(s[i].x, NewY(s, maxY, i)))
  }

  lemma SeenYSnoc(s: seq<Pos>, n: nat)
    requires n < |s|
    ensures SeenY(s, n + 1) == SeenY(s, n) + {s[n].y}
    ensures |SeenY(s, n + 1)| == if s[n].y in SeenY(s, n) then |SeenY(s, n)| else |SeenY(s, n)| + 1
  {
    forall v | v in SeenY(s, n + 1) ensures v in SeenY(s, n) + {s[n].y} {
      var k :| 0 <= k < n + 1 && s[k].y == v;
      if k < n {
        assert v in SeenY(s, n);
      }
    }
    assert s[n].y in SeenY(s, n + 1);
    forall v | v in SeenY(s, n) ensures v in SeenY(s, n + 1) {
      var k :| 0 <= k < n && s[k].y == v;
      assert 0 <= k < n + 1;
    }
  }

  /** The loop over `list_positions[:, 1]` with the set `pos_set` and the
      counter `new_value`, writing `list_positions[i, 1]` in place. */
  method RenumberY(a: array<Pos>, maxY: int)
    modifies a
    ensures a[..] == Renumbered(old(a[..]), maxY)
  {
    ghost var raw := a[..];
    var seen: set<int> := {};
    var newValue := maxY + 1;
    for i := 0 to a.Length
      invariant seen == SeenY(raw, i)
      invariant newValue == maxY + 1 - |seen|
      invariant forall k :: 0 <= k < i ==> a[k] == Pos(raw[k].x, NewY(raw, maxY, k))
      invariant forall k :: i <= k < a.Length ==> a[k] == raw[k]
    {
      SeenYSnoc(raw, i);
      var pos := a[i].y;
      if pos !in seen {
        newValue := newValue - 1;
        seen := seen + {pos};
      } else {
        assert seen + {pos} == seen;
      }
      a[i] := Pos(a[i].x, newValue);
    }
    RenumberedEntries(raw, maxY, a[..]);
  }

  /** A sequence holding the renumbered entry at every index is Renumbered. */
  lemma RenumberedEntries(raw: seq<Pos>, maxY: int, b: seq<Pos>)
    requires |b| == |raw|
    requires forall k :: 0 <= k < |b| ==> b[k] == Pos(raw[k].x, NewY(raw, maxY, k))
    ensures b == Renumbered(raw, maxY)
  {
  }

  lemma SeenYGrows(s: seq<Pos>, i: nat, j: nat)
    requires i <= j <= |s|
    ensures SeenY(s, i) <= SeenY(s, j)
  {
    forall v | v in SeenY(s, i) ensures v in SeenY(s, j) {
      var k :| 0 <= k < i && s[k].y == v;
      assert 0 <= k < j;
    }
  }

  /** On positions sorted by raw y, the values seen up to entry i are at most
      the raw y of entry i. */
  lemma SeenYAtMost(s: seq<Pos>, n: nat)
    requires SortedBy(s, YAxis)
    requires 0 < n <= |s|
    ensures forall v :: v in SeenY(s, n) ==> v <= s[n - 1].y
  {
    forall v | v in SeenY(s, n) ensures v <= s[n - 1].y {
      var k :| 0 <= k < n && s[k].y == v;
      if k < n - 1 {
        assert Key(s[k], YAxis) <= Key(s[n - 1], YAxis);
      }
    }
  }

  lemma SubsetSmaller(a: set<int>, b: set<int>)
    requires a <= b
    ensures |a| <= |b|
    ensures a < b ==> |a| < |b|
  {
    assert b == a + (b - a);
    assert a * (b - a) == {};
    if a < b {
      assert !(b <= a);
      assert |b - a| > 0;
    }
  }

  /** Without any assumption on the order: x is kept, every new y lies
      between maxY + 1 - (number of distinct raw y) and maxY, and the first
      entry gets exactly maxY. */
  lemma RenumberedRange(s: seq<Pos>, maxY: int)
    ensures |Renumbered(s, maxY)| == |s|
    ensures forall i :: 0 <= i < |s| ==> Renumbered(s, maxY)[i].x == s[i].x
    ensures forall i :: 0 <= i < |s| ==>
              maxY + 1 - |SeenY(s, |s|)| <= Renumbered(s, maxY)[i].y <= maxY
    ensures |s| > 0 ==> Renumbered(s, maxY)[0].y == maxY
  {
    forall i | 0 <= i < |s|
      ensures maxY + 1 - |SeenY(s, |s|)| <= Renumbered(s, maxY)[i].y <= maxY
    {
      assert s[i].y in SeenY(s, i + 1);
      SeenYGrows(s, i + 1, |s|);
      SubsetSmaller(SeenY(s, i + 1), SeenY(s, |s|));
    }
    if |s| > 0 {
      SeenYSnoc(s, 0);
      assert SeenY(s, 0) == {};
    }
  }

  /** On positions sorted by raw y, equal raw y values share one new y. */
  lemma RenumberedSame(s: seq<Pos>, maxY: int, i: nat, j: nat)
    requires SortedBy(s, YAxis)
    requires i <= j < |s| && s[i].y == s[j].y
    ensures NewY(s, maxY, i) == NewY(s, maxY, j)
  {
    SeenYGrows(s, i + 1, j + 1);
    var seenI, seenJ := SeenY(s, i + 1), SeenY(s, j + 1);
    forall v | v in seenJ ensures v in seenI {
      var k :| 0 <= k < j + 1 && s[k].y == v;
      if k > i {
        assert Key(s[i], YAxis) <= Key(s[k], YAxis);
        assert k < j ==> Key(s[k], YAxis) <= Key(s[j], YAxis);
        assert s[i].y in SeenY(s, i + 1);
      } else {
        assert 0 <= k < i + 1;
      }
    }
    assert SeenY(s, i + 1) == SeenY(s, j + 1);
  }

  /** On positions sorted by raw y, a strictly larger raw y gets a strictly
      smaller new y. */
  lemma RenumberedDrop(s: seq<Pos>, maxY: int, i: nat, j: nat)
    requires SortedBy(s, YAxis)
    requires i <= j < |s| && s[i].y < s[j].y
    ensures NewY(s, maxY, i) > NewY(s, maxY, j)
  {
    SeenYGrows(s, i + 1, j + 1);
    SeenYAtMost(s, i + 1);
    assert s[j].y in SeenY(s, j + 1);
    assert s[j].y !in SeenY(s, i + 1);
    SubsetSmaller(SeenY(s, i + 1), SeenY(s, j + 1));
  }

  /** On positions sorted by raw y, equal raw y values share one new y, and a
      strictly larger raw y gets a strictly smaller new y. */
  lemma RenumberedOrder(s: seq<Pos>, maxY: int, i: nat, j: nat)
    requires SortedBy(s, YAxis)
    requires i <= j < |s|
    ensures s[i].y == s[j].y ==> Renumbered(s, maxY)[i].y == Renumbered(s, maxY)[j].y
    ensures s[i].y < s[j].y ==> Renumbered(s, maxY)[i].y > Renumbered(s, maxY)[j].y
  {
    if s[i].y == s[j].y {
      RenumberedSame(s, maxY, i, j);
    } else if s[i].y < s[j].y {
      RenumberedDrop(s, maxY, i, j);
    }
  }

  /** On positions sorted by raw y, consecutive entries with the same raw y
      keep the same new y, and each new distinct raw y lowers it by exactly
      one. */
  lemma RenumberedStep(s: seq<Pos>, maxY: int, i: nat)
    requires SortedBy(s, YAxis)
    requires i + 1 < |s|
    ensures Renumbered(s, maxY)[i + 1].y
         == if s[i + 1].y == s[i].y then Renumbered(s, maxY)[i].y
            else Renumbered(s, maxY)[i].y - 1
  {
    var before, after := SeenY(s, i + 1), SeenY(s, i + 2);
    assert Renumbered(s, maxY)[i].y == maxY + 1 - |before|;
    assert Renumbered(s, maxY)[i + 1].y == maxY + 1 - |after|;
    SeenYSnoc(s, i + 1);
    if s[i + 1].y != s[i].y {
      SeenYAtMost(s, i + 1);
      assert Key(s[i], YAxis) <= Key(s[i + 1], YAxis);
      assert s[i + 1].y !in before;
      assert |after| == |before| + 1;
    } else {
      assert s[i].y in before;
      assert |after| == |before|;
    }
  }

  /** The tessellation's raw y values {1, 3, 5, 5}, sorted, become
      {5, 4, 3, 3}: the largest raw y gets max_y + 1 minus the number of
      distinct values, not 0. */
  lemma RenumberedExample()
    ensures Renumbered([Pos(3, 1), Pos(2, 3), Pos(0, 5), Pos(1, 5)], 5)
         == [Pos(3, 5), Pos(2, 4), Pos(0, 3), Pos(1, 3)]
  {
    var s := [Pos(3, 1), Pos(2, 3), Pos(0, 5), Pos(1, 5)];
    assert SeenY(s, 0) == {};
    SeenYSnoc(s, 0);
    SeenYSnoc(s, 1);
    SeenYSnoc(s, 2);
    SeenYSnoc(s, 3);
    assert SeenY(s, 1) == {1};
    assert SeenY(s, 2) == {1, 3};
    assert SeenY(s, 3) == {1, 3, 5};
    assert SeenY(s, 4) == {1, 3, 5};
  }

  /** Raw y values 0, 1, 2: three distinct values with max_y = 2, so the
      largest raw y gets 0 (see `RenumberedLastZero`). */
  lemma RenumberedGaplessExample()
    ensures Renumbered([Pos(0, 0), Pos(1, 1), Pos(2, 2)], 2)
         == [Pos(0, 2), Pos(1, 1), Pos(2, 0)]
  {
    var s := [Pos(0, 0), Pos(1, 1), Pos(2, 2)];
    assert SeenY(s, 0) == {};
    SeenYSnoc(s, 0);
    SeenYSnoc(s, 1);
    SeenYSnoc(s, 2);
    assert SeenY(s, 1) == {0};
    assert SeenY(s, 2) == {0, 1};
    assert SeenY(s, 3) == {0, 1, 2};
  }

  /** On input sorted by raw y, the last entry (a largest raw y) gets 0
      exactly when there are max_y + 1 distinct raw y values. */
  lemma RenumberedLastZero(s: seq<Pos>, maxY: int)
    requires |s| > 0
    ensures Renumbered(s, maxY)[|s| - 1].y == 0 <==> |SeenY(s, |s|)| == maxY + 1
  {
    assert Renumbered(s, maxY)[|s| - 1].y == maxY + 1 - |SeenY(s, |s|)|;
  }

  // ---------------------------------------------------------------------
  // The zip of `tile_ID` with the x-sorted positions.

  /** `{el[0]: el[1] for el in zip(ids, ps)}`: the i-th identifier is paired
      with the i-th position; a repeated identifier keeps its last pairing. */
  function ZipMap(ids: seq<int>, ps: seq<Pos>): (m: map<int, Pos>)
    requires |ids| == |ps|
    ensures forall k :: k in m <==> k in ids
    ensures forall i :: 0 <= i < |ids| ==> ids[i] in m
    ensures forall i :: 0 <= i < |ids| && (forall l :: i < l < |ids| ==> ids[l] != ids[i])
              ==> m[ids[i]] == ps[i]
  {
    ZipPrefix(ids, ps, |ids|)
  }

  /** The dictionary after the first n pairs. */
  function ZipPrefix(ids: seq<int>, ps: seq<Pos>, n: nat): (m: map<int, Pos>)
    requires |ids| == |ps| && n <= |ids|
    ensures forall k :: k in m <==> exists i :: 0 <= i < n && ids[i] == k
    ensures forall i :: 0 <= i < n && (forall l :: i < l < n ==> ids[l] != ids[i])
              ==> m[ids[i]] == ps[i]
  {
    if n == 0 then map[]
    else
      var m0 := ZipPrefix(ids, ps, n - 1);
      var m := m0[ids[n - 1] := ps[n - 1]];
      ZipPrefixStep(ids, ps, n, m0, m);
      m
  }

  lemma ZipPrefixStep(ids: seq<int>, ps: seq<Pos>, n: nat, m0: map<int, Pos>, m: map<int, Pos>)
    requires |ids| == |ps| && 0 < n <= |ids|
    requires forall k :: k in m0 <==> exists i :: 0 <= i < n - 1 && ids[i] == k
    requires forall i :: 0 <= i < n - 1 && (forall l :: i < l < n - 1 ==> ids[l] != ids[i])
               ==> m0[ids[i]] == ps[i]
    requires m == m0[ids[n - 1] := ps[n - 1]]
    ensures forall k :: k in m <==> exists i :: 0 <= i < n && ids[i] == k
    ensures forall i :: 0 <= i < n && (forall l :: i < l < n ==> ids[l] != ids[i])
              ==> m[ids[i]] == ps[i]
  {
    forall k | k in m ensures exists i :: 0 <= i < n && ids[i] == k {
      if k != ids[n - 1] {
        var i :| 0 <= i < n - 1 && ids[i] == k;
        assert 0 <= i < n;
      }
    }
    forall i | 0 <= i < n && (forall l :: i < l < n ==> ids[l] != ids[i])
      ensures m[ids[i]] == ps[i]
    {
      if i < n - 1 {
        assert ids[n - 1] != ids[i];
        assert forall l :: i < l < n - 1 ==> ids[l] != ids[i];
      }
    }
  }

  /** The positions in the order they are zipped with `tile_ID`. */
  function NormalizedPositions(raw: seq<Pos>): (r: seq<Pos>)
    requires |raw| > 0
    ensures SortedBy(r, XAxis) && |r| == |raw|
  {
    SortBy(Renumbered(SortBy(raw, YAxis), MaxKey(raw, YAxis)), XAxis)
  }

  /** The zipped positions are sorted by x, are the renumbered positions
      reordered, have the raw maximum x, and their largest y is the raw
      maximum y: the extents max x + 1 and max y + 1 follow. */
  lemma NormalizedPositionsFacts(raw: seq<Pos>)
    requires |raw| > 0
    ensures SortedBy(NormalizedPositions(raw), XAxis)
    ensures |NormalizedPositions(raw)| == |raw|
    ensures MaxKey(NormalizedPositions(raw), XAxis) == MaxKey(raw, XAxis)
    ensures MaxKey(NormalizedPositions(raw), YAxis) == MaxKey(raw, YAxis)
  {
    var byY := SortBy(raw, YAxis);
    var maxY := MaxKey(raw, YAxis);
    var ren := Renumbered(byY, maxY);
    var np := NormalizedPositions(raw);
    RenumberedRange(byY, maxY);
    MaxKeyPermutation(raw, byY, XAxis);
    MaxKeyPointwise(byY, ren, XAxis);
    MaxKeyPermutation(ren, np, XAxis);
    MaxKeyPermutation(ren, np, YAxis);
    var j :| 0 <= j < |ren| && Key(ren[j], YAxis) == MaxKey(ren, YAxis);
  }

  lemma ExtentsOfNormalized(raw: seq<Pos>, byY: seq<Pos>, maxY: int, positions: seq<Pos>)
    requires |raw| > 0 && byY == SortBy(raw, YAxis) && maxY == MaxKey(byY, YAxis)
    requires positions == SortBy(Renumbered(byY, maxY), XAxis)
    ensures positions == NormalizedPositions(raw)
    ensures MaxKey(positions, XAxis) == MaxKey(raw, XAxis)
    ensures MaxKey(positions, YAxis) == MaxKey(raw, YAxis)
  {
    MaxKeyPermutation(raw, byY, YAxis);
    NormalizedPositionsFacts(raw);
  }

  /** The y column of the sorted frame copied into an array, renumbered in
      place and read back. */
  method RenumberColumn(byY: seq<Pos>, maxY: int) returns (renumbered: seq<Pos>)
    ensures renumbered == Renumbered(byY, maxY)
  {
    var a := new Pos[|byY|](k requires 0 <= k < |byY| => byY[k]);
    assert a[..] == byY;
    RenumberY(a, maxY);
    renumbered := a[..];
  }

  /** `get_matrix_mapping` after the table has been read: fails on an empty
      tessellation (sorting no positions gives a one-axis empty array, which
      the column subscript `[:, 0]` rejects with IndexError), otherwise returns the
      zip of identifiers with the normalised positions and the extents
      max x + 1 and max y + 1 of the raw positions. */
  method GetMatrixMapping(tess: seq<Tile>) returns (r: Result<MatrixMapping>)
    ensures r.Ok? <==> |tess| > 0
    ensures r.Err? ==> r.error == IndexOutOfRange
    ensures r.Ok? ==> r.value.xMax == MaxKey(Positions(tess), XAxis) + 1
    ensures r.Ok? ==> r.value.yMax == MaxKey(Positions(tess), YAxis) + 1
    ensures r.Ok? ==>
              r.value.mapping == ZipMap(TileIds(tess), NormalizedPositions(Positions(tess)))
  {
    var raw := Positions(tess);
    if |raw| == 0 {
      return Err(IndexOutOfRange);
    }
    var byY := SortBy(raw, YAxis);
    var maxY := MaxKey(byY, YAxis);
    var renumbered := RenumberColumn(byY, maxY);
    var positions := SortBy(renumbered, XAxis);
    ExtentsOfNormalized(raw, byY, maxY, positions);
    var mapping := ZipMap(TileIds(tess), positions);
    var yMax := MaxKey(positions, YAxis) + 1;
    var xMax := MaxKey(positions, XAxis) + 1;
    return Ok(MatrixMapping(mapping, xMax, yMax));
  }
}

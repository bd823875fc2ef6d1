/** The state layer of the 8-puzzle: a 3x3 grid of the values 0..8, where 0 is
    the blank, its row-major flattening, the goal configuration, the blank
    lookup and the goal test. */
module Board {

  datatype Option<T> = None | Some(value: T)

  /** A puzzle configuration: a list of rows. */
  type Grid = seq<seq<int>>

  /** Three rows of three cells. */
  predicate IsShape(g: Grid) {
    |g| == 3 && forall i :: 0 <= i < 3 ==> |g[i]| == 3
  }

  predicate InGrid(i: int, j: int) {
    0 <= i < 3 && 0 <= j < 3
  }

  /** Cell (a, b) comes strictly before cell (i, j) in row-major order. */
  predicate RowMajorBefore(a: int, b: int, i: int, j: int) {
    a < i || (a == i && b < j)
  }

  /** Concatenation of all rows, in order. */
  function Flatten(g: Grid): seq<int> {
    if |g| == 0 then [] else g[0] + Flatten(g[1..])
  }

  /** The target configuration. */
  const GoalState: Grid := [[1, 2, 3], [8, 0, 4], [7, 6, 5]]

  /** The target configuration, flattened. */
  const GoalFlat: seq<int> := [1, 2, 3, 8, 0, 4, 7, 6, 5]

  /** A flat sequence holds each of the values 0..8 exactly once. */
  predicate IsTilePermutation(f: seq<int>) {
    && |f| == 9
    && (forall k :: 0 <= k < 9 ==> 0 <= f[k] < 9)
    && (forall a, b :: 0 <= a < b < 9 ==> f[a] != f[b])
    && (forall v :: 0 <= v < 9 ==> v in f)
  }

  /** Nine entries, each a value 0..8 (duplicates allowed). */
  predicate FlatInRange(f: seq<int>) {
    |f| == 9 && forall k :: 0 <= k < 9 ==> 0 <= f[k] < 9
  }

  /** A 3x3 grid whose cells all hold a value 0..8 (duplicates allowed). */
  predicate TilesInRange(g: Grid) {
    IsShape(g) && FlatInRange(Flatten(g))
  }

  /** A legal puzzle state: a 3x3 grid holding a permutation of 0..8. */
  predicate Valid(g: Grid) {
    IsShape(g) && IsTilePermutation(Flatten(g))
  }

  /** The goal test compares flattenings. */
  predicate IsGoal(g: Grid) {
    Flatten(g) == GoalFlat
  }

  /** Flattening a 3x3 grid gives nine cells, cell (i, j) at index 3*i + j. */
  lemma FlattenCells(g: Grid)
    requires IsShape(g)
    ensures Flatten(g) == g[0] + g[1] + g[2]
    ensures |Flatten(g)| == 9
    ensures forall i, j :: InGrid(i, j) ==> Flatten(g)[3 * i + j] == g[i][j]
  {
    var g1 := g[1..];
    var g2 := g1[1..];
    var g3 := g2[1..];
    assert g1[0] == g[1] && g2[0] == g[2] && |g3| == 0;
    assert Flatten(g2) == g[2];
    assert Flatten(g1) == g[1] + g[2];
  }

  /** Two 3x3 grids with the same flattening are the same grid, so the
      flattened key identifies a state. */
  lemma FlattenInjective(g: Grid, h: Grid)
    requires IsShape(g) && IsShape(h)
    ensures Flatten(g) == Flatten(h) <==> g == h
  {
    if Flatten(g) == Flatten(h) {
      FlattenCells(g);
      FlattenCells(h);
      forall i | 0 <= i < 3
        ensures g[i] == h[i]
      {
        assert forall j :: 0 <= j < 3 ==> g[i][j] == Flatten(g)[3 * i + j];
      }
    }
  }

  lemma GoalFlatIsFlatten()
    ensures Flatten(GoalState) == GoalFlat
    ensures IsShape(GoalState)
  {
    FlattenCells(GoalState);
  }

  /** The goal test holds of exactly one 3x3 grid: the goal configuration. */
  lemma IsGoalIff(g: Grid)
    requires IsShape(g)
    ensures IsGoal(g) <==> g == GoalState
  {
    GoalFlatIsFlatten();
    FlattenInjective(g, GoalState);
  }

  /** The goal configuration is a legal state. */
  lemma GoalIsValid()
    ensures Valid(GoalState)
    ensures IsGoal(GoalState)
  {
    GoalFlatIsFlatten();
    var f := GoalFlat;
    assert f[0] == 1 && f[1] == 2 && f[2] == 3 && f[3] == 8 && f[4] == 0;
    assert f[5] == 4 && f[6] == 7 && f[7] == 6 && f[8] == 5;
  }

  /** Searches for the blank row by row from cell (i, j): the rest of row i,
      then the rows below it, each from its first column. */
  function FindZeroFrom(g: Grid, i: int, j: int): (r: Option<(int, int)>)
    requires IsShape(g) && 0 <= i <= 3 && 0 <= j <= 3
    ensures r.Some? ==>
      && InGrid(r.value.0, r.value.1)
      && g[r.value.0][r.value.1] == 0
      && !RowMajorBefore(r.value.0, r.value.1, i, j)
      && forall a, b :: InGrid(a, b) && !RowMajorBefore(a, b, i, j) && RowMajorBefore(a, b, r.value.0, r.value.1) ==> g[a][b] != 0
    ensures r.None? ==> forall a, b :: InGrid(a, b) && !RowMajorBefore(a, b, i, j) ==> g[a][b] != 0
    decreases 3 - i, 3 - j
  {
    if i == 3 then None
    else if j == 3 then FindZeroFrom(g, i + 1, 0)
    else if g[i][j] == 0 then Some((i, j))
    else FindZeroFrom(g, i, j + 1)
  }

  /** The coordinates of the first blank in row-major order, or None when
      the grid holds no blank. */
  function FindZero(g: Grid): (r: Option<(int, int)>)
    requires IsShape(g)
    ensures r.Some? ==>
      && InGrid(r.value.0, r.value.1)
      && g[r.value.0][r.value.1] == 0
      && forall a, b :: InGrid(a, b) && RowMajorBefore(a, b, r.value.0, r.value.1) ==> g[a][b] != 0
    ensures r.None? <==> forall a, b :: InGrid(a, b) ==> g[a][b] != 0
  {
    FindZeroFrom(g, 0, 0)
  }

  predicate HasBlank(g: Grid) {
    IsShape(g) && FindZero(g).Some?
  }

  /** The blank's coordinates in a grid that has one. */
  function Blank(g: Grid): (r: (int, int))
    requires HasBlank(g)
    ensures InGrid(r.0, r.1) && g[r.0][r.1] == 0
  {
    FindZero(g).value
  }

  /** Two cells holding the same value in a legal state are the same cell. */
  lemma ValidCellsDistinct(g: Grid, a: int, b: int, c: int, d: int)
    requires Valid(g) && InGrid(a, b) && InGrid(c, d) && g[a][b] == g[c][d]
    ensures a == c && b == d
  {
    FlattenCells(g);
    var f := Flatten(g);
    var p, q := 3 * a + b, 3 * c + d;
    assert f[p] == f[q];
  }

  /** A legal state has a blank, and only one. */
  lemma ValidHasUniqueBlank(g: Grid)
    requires Valid(g)
    ensures HasBlank(g)
    ensures forall a, b :: InGrid(a, b) && g[a][b] == 0 ==> (a, b) == Blank(g)
  {
    FlattenCells(g);
    var f := Flatten(g);
    assert 0 in f;
    var k :| 0 <= k < 9 && f[k] == 0;
    var a, b := k / 3, k % 3;
    assert k == 3 * a + b && InGrid(a, b);
    assert g[a][b] == 0;
    var z := Blank(g);
    forall a, b | InGrid(a, b) && g[a][b] == 0
      ensures (a, b) == z
    {
      ValidCellsDistinct(g, a, b, z.0, z.1);
    }
  }
}

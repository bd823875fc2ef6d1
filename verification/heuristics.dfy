/** The two distance estimates used by A*: the Manhattan distance of every
    tile from its goal cell, and the number of misplaced tiles. */
module Heuristics {
  import opened Board
  import opened Moves

  /** Index of the first occurrence of v in s. */
  function IndexOf(s: seq<int>, v: int): (r: nat)
    requires v in s
    ensures r < |s| && s[r] == v
    ensures forall k :: 0 <= k < r ==> s[k] != v
  {
    if s[0] == v then 0 else 1 + IndexOf(s[1..], v)
  }

  /** The flat index of tile v's cell in the goal configuration. */
  function GoalIndex(v: int): (r: nat)
    requires 0 <= v < 9
    ensures r < 9 && GoalFlat[r] == v
  {
    GoalIsValid();
    GoalFlatIsFlatten();
    IndexOf(GoalFlat, v)
  }

  /** Row plus column distance of tile v at flat position p from its goal
      cell; the blank contributes nothing. */
  function TileDistance(v: int, p: nat): nat
    requires 0 <= v < 9 && p < 9
  {
    if v == 0 then 0
    else
      var gp := GoalIndex(v);
      Abs(gp / 3 - p / 3) + Abs(gp % 3 - p % 3)
  }

  /** Sum of the tile distances at flat positions p..8. */
  function ManhattanFrom(f: seq<int>, p: nat): nat
    requires FlatInRange(f) && p <= 9
    decreases 9 - p
  {
    if p == 9 then 0 else TileDistance(f[p], p) + ManhattanFrom(f, p + 1)
  }

  /** Number of non-blank tiles at flat positions p..8 that differ from the
      goal. */
  function MisplacedFrom(f: seq<int>, p: nat): nat
    requires |f| >= 9 && p <= 9
    decreases 9 - p
  {
    if p == 9 then 0
    else (if f[p] != 0 && f[p] != GoalFlat[p] then 1 else 0) + MisplacedFrom(f, p + 1)
  }

  /** Manhattan distance of a grid from the goal. */
  function Manhattan(g: Grid): nat
    requires TilesInRange(g)
  {
    ManhattanFrom(Flatten(g), 0)
  }

  /** Number of misplaced non-blank tiles of a grid. */
  function Misplaced(g: Grid): nat
    requires |Flatten(g)| >= 9
  {
    MisplacedFrom(Flatten(g), 0)
  }

  /** The heuristic an A* search is run with. */
  datatype Heuristic = ManhattanDistance | MisplacedTiles

  function Estimate(h: Heuristic, g: Grid): nat
    requires TilesInRange(g)
  {
    match h
    case ManhattanDistance => Manhattan(g)
    case MisplacedTiles => Misplaced(g)
  }

  /** Each goal value's first index in the goal is its own position. */
  lemma GoalIndexOfGoal(p: nat)
    requires p < 9
    ensures GoalIndex(GoalFlat[p]) == p
  {
    GoalIsValid();
    GoalFlatIsFlatten();
    var gp := GoalIndex(GoalFlat[p]);
    assert GoalFlat[gp] == GoalFlat[p];
  }

  lemma {:induction false} ManhattanFromGoal(p: nat)
    requires p <= 9
    ensures FlatInRange(GoalFlat)
    ensures ManhattanFrom(GoalFlat, p) == 0
    decreases 9 - p
  {
    GoalIsValid();
    GoalFlatIsFlatten();
    if p < 9 {
      GoalIndexOfGoal(p);
      ManhattanFromGoal(p + 1);
    }
  }

  lemma {:induction false} MisplacedFromGoal(p: nat)
    requires p <= 9
    ensures MisplacedFrom(GoalFlat, p) == 0
    decreases 9 - p
  {
    if p < 9 {
      MisplacedFromGoal(p + 1);
    }
  }

  /** Both heuristics are zero on any grid that passes the goal test. */
  lemma HeuristicsZeroAtGoal(g: Grid)
    requires IsShape(g) && IsGoal(g)
    ensures TilesInRange(g)
    ensures Manhattan(g) == 0 && Misplaced(g) == 0
  {
    GoalIsValid();
    GoalFlatIsFlatten();
    ManhattanFromGoal(0);
    MisplacedFromGoal(0);
  }

  /** A misplaced non-blank tile is at least one step from its goal cell. */
  lemma MisplacedTileMoves(v: int, p: nat)
    requires 0 < v < 9 && p < 9 && v != GoalFlat[p]
    ensures TileDistance(v, p) >= 1
  {
    var gp := GoalIndex(v);
    assert gp != p;
    assert gp == 3 * (gp / 3) + gp % 3 && p == 3 * (p / 3) + p % 3;
  }

  lemma {:induction false} MisplacedFromLeManhattanFrom(f: seq<int>, p: nat)
    requires FlatInRange(f) && p <= 9
    ensures MisplacedFrom(f, p) <= ManhattanFrom(f, p)
    decreases 9 - p
  {
    if p < 9 {
      if f[p] != 0 && f[p] != GoalFlat[p] {
        MisplacedTileMoves(f[p], p);
      }
      MisplacedFromLeManhattanFrom(f, p + 1);
    }
  }

  /** The misplaced-tiles estimate never exceeds the Manhattan estimate. */
  lemma MisplacedLeManhattan(g: Grid)
    requires TilesInRange(g)
    ensures Misplaced(g) <= Manhattan(g)
  {
    FlattenCells(g);
    MisplacedFromLeManhattanFrom(Flatten(g), 0);
  }

  /** Positions p..8 hold at most 9 - p misplaced tiles, one fewer when the
      blank lies among them. */
  lemma {:induction false} MisplacedFromBound(f: seq<int>, p: nat, z: nat)
    requires |f| == 9 && p <= 9 && z < 9 && f[z] == 0
    ensures MisplacedFrom(f, p) <= 9 - p - (if p <= z then 1 else 0)
    decreases 9 - p
  {
    if p < 9 {
      MisplacedFromBound(f, p + 1, z);
    }
  }

  /** A grid with a blank has at most eight misplaced tiles. */
  lemma MisplacedAtMostEight(g: Grid)
    requires HasBlank(g)
    ensures |Flatten(g)| == 9
    ensures Misplaced(g) <= 8
  {
    FlattenCells(g);
    var (x, y) := Blank(g);
    MisplacedFromBound(Flatten(g), 0, 3 * x + y);
  }

  /** No misplaced tile at positions p..8 means each of them holds the blank
      or its goal value. */
  lemma {:induction false} MisplacedFromZero(f: seq<int>, p: nat)
    requires |f| == 9 && p <= 9 && MisplacedFrom(f, p) == 0
    ensures forall q :: p <= q < 9 ==> f[q] == 0 || f[q] == GoalFlat[q]
    decreases 9 - p
  {
    if p < 9 {
      MisplacedFromZero(f, p + 1);
    }
  }

  /** A legal state with no misplaced tile is the goal: the blank is the
      only entry left unconstrained, and it must sit where the goal's blank
      does. */
  lemma NoMisplacedIsGoal(g: Grid)
    requires Valid(g) && Misplaced(g) == 0
    ensures IsGoal(g)
  {
    var f := Flatten(g);
    MisplacedFromZero(f, 0);
    assert f[4] == 0;
    forall q | 0 <= q < 9
      ensures f[q] == GoalFlat[q]
    {
      if q < 4 {
        assert f[q] != f[4];
      } else if q > 4 {
        assert f[4] != f[q];
      }
    }
    assert f == GoalFlat;
  }

  /** On a legal state each heuristic is zero exactly at the goal. */
  lemma HeuristicsZeroIffGoal(g: Grid)
    requires Valid(g)
    ensures TilesInRange(g)
    ensures Misplaced(g) == 0 <==> IsGoal(g)
    ensures Manhattan(g) == 0 <==> IsGoal(g)
  {
    if IsGoal(g) {
      HeuristicsZeroAtGoal(g);
    }
    MisplacedLeManhattan(g);
    if Misplaced(g) == 0 {
      NoMisplacedIsGoal(g);
    }
  }
}

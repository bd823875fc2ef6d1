/** The transition layer: the four blank moves, the cell swap and the
    neighbour generator. */
module Moves {
  import opened Board

  datatype Direction = Up | Down | Left | Right

  /** The order in which directions are tried (the iteration order of the
      move table). */
  const MoveOrder: seq<Direction> := [Up, Down, Left, Right]

  /** Row and column offset of the cell the blank swaps with. */
  function Delta(d: Direction): (int, int) {
    match d
    case Up => (-1, 0)
    case Down => (1, 0)
    case Left => (0, -1)
    case Right => (0, 1)
  }

  /** Position of a direction in the move order. */
  function Rank(d: Direction): (r: nat)
    ensures r < 4 && MoveOrder[r] == d
  {
    match d
    case Up => 0
    case Down => 1
    case Left => 2
    case Right => 3
  }

  /** The cell reached from (x, y) by one step in direction d. */
  function Target(x: int, y: int, d: Direction): (int, int) {
    (x + Delta(d).0, y + Delta(d).1)
  }

  predicate InBounds(x: int, y: int, d: Direction) {
    InGrid(Target(x, y, d).0, Target(x, y, d).1)
  }

  /** A copy of g with cells (i, j) and (ni, nj) exchanged. */
  function Swap(g: Grid, i: int, j: int, ni: int, nj: int): (r: Grid)
    requires IsShape(g) && InGrid(i, j) && InGrid(ni, nj)
    ensures IsShape(r)
    ensures r[i][j] == g[ni][nj] && r[ni][nj] == g[i][j]
    ensures forall a, b :: InGrid(a, b) && (a, b) != (i, j) && (a, b) != (ni, nj) ==> r[a][b] == g[a][b]
  {
    var v, w := g[i][j], g[ni][nj];
    var g1 := g[i := g[i][j := w]];
    g1[ni := g1[ni][nj := v]]
  }

  /** The successor produced by the k-th entry of the move table, if that
      move stays on the board. */
  function MoveStep(g: Grid, x: int, y: int, k: nat): seq<Grid>
    requires IsShape(g) && InGrid(x, y) && k < 4
  {
    var t := Target(x, y, MoveOrder[k]);
    if InGrid(t.0, t.1) then [Swap(g, x, y, t.0, t.1)] else []
  }

  /** The successors produced by the move-table entries k..3, in order. */
  function NeighborsFrom(g: Grid, x: int, y: int, k: nat): seq<Grid>
    requires IsShape(g) && InGrid(x, y) && k <= 4
    decreases 4 - k
  {
    if k == 4 then [] else MoveStep(g, x, y, k) + NeighborsFrom(g, x, y, k + 1)
  }

  /** The directions the blank at (x, y) can move in, in move order: a
      reference definition by the board-edge conditions. */
  function LegalMoves(x: int, y: int): (ds: seq<Direction>)
    requires InGrid(x, y)
    ensures forall d :: d in ds <==> InBounds(x, y, d)
    ensures forall a, b :: 0 <= a < b < |ds| ==> Rank(ds[a]) < Rank(ds[b])
  {
    (if x > 0 then [Up] else []) + (if x < 2 then [Down] else [])
    + (if y > 0 then [Left] else []) + (if y < 2 then [Right] else [])
  }

  /** The grid after the blank at (x, y) moves in direction d. */
  function SlideAt(g: Grid, x: int, y: int, d: Direction): Grid
    requires IsShape(g) && InGrid(x, y) && InBounds(x, y, d)
  {
    Swap(g, x, y, Target(x, y, d).0, Target(x, y, d).1)
  }

  /** The grid after the blank of g moves in direction d. */
  function Slide(g: Grid, d: Direction): Grid
    requires HasBlank(g) && InBounds(Blank(g).0, Blank(g).1, d)
  {
    SlideAt(g, Blank(g).0, Blank(g).1, d)
  }

  /** The grids produced by moving the blank at (x, y) in each of ds. */
  function SlidesAt(g: Grid, x: int, y: int, ds: seq<Direction>): (r: seq<Grid>)
    requires IsShape(g) && InGrid(x, y)
    requires forall k :: 0 <= k < |ds| ==> InBounds(x, y, ds[k])
    ensures |r| == |ds|
    ensures forall k :: 0 <= k < |ds| ==> r[k] == SlideAt(g, x, y, ds[k])
  {
    if |ds| == 0 then [] else [SlideAt(g, x, y, ds[0])] + SlidesAt(g, x, y, ds[1..])
  }

  lemma SlidesAtConcat(g: Grid, x: int, y: int, ds: seq<Direction>, es: seq<Direction>)
    requires IsShape(g) && InGrid(x, y)
    requires forall k :: 0 <= k < |ds| ==> InBounds(x, y, ds[k])
    requires forall k :: 0 <= k < |es| ==> InBounds(x, y, es[k])
    ensures forall k :: 0 <= k < |ds + es| ==> InBounds(x, y, (ds + es)[k])
    ensures SlidesAt(g, x, y, ds + es) == SlidesAt(g, x, y, ds) + SlidesAt(g, x, y, es)
  {
  }

  /** The k-th entry of the move table, kept when it stays on the board. */
  function LegalPart(x: int, y: int, k: nat): (ds: seq<Direction>)
    requires InGrid(x, y) && k < 4
    ensures forall i :: 0 <= i < |ds| ==> InBounds(x, y, ds[i])
  {
    if InBounds(x, y, MoveOrder[k]) then [MoveOrder[k]] else []
  }

  lemma MoveStepIsLegalPart(g: Grid, x: int, y: int, k: nat)
    requires IsShape(g) && InGrid(x, y) && k < 4
    ensures MoveStep(g, x, y, k) == SlidesAt(g, x, y, LegalPart(x, y, k))
  {
    if InBounds(x, y, MoveOrder[k]) {
      assert SlidesAt(g, x, y, LegalPart(x, y, k)) == [SlideAt(g, x, y, MoveOrder[k])];
    }
  }

  lemma LegalMovesParts(x: int, y: int)
    requires InGrid(x, y)
    ensures LegalMoves(x, y) == LegalPart(x, y, 0) + (LegalPart(x, y, 1) + (LegalPart(x, y, 2) + LegalPart(x, y, 3)))
  {
  }

  lemma NeighborsFromIsLegalSlides(g: Grid, x: int, y: int)
    requires IsShape(g) && InGrid(x, y)
    ensures NeighborsFrom(g, x, y, 0) == SlidesAt(g, x, y, LegalMoves(x, y))
  {
    var l0, l1, l2, l3 := LegalPart(x, y, 0), LegalPart(x, y, 1), LegalPart(x, y, 2), LegalPart(x, y, 3);
    MoveStepIsLegalPart(g, x, y, 0);
    MoveStepIsLegalPart(g, x, y, 1);
    MoveStepIsLegalPart(g, x, y, 2);
    MoveStepIsLegalPart(g, x, y, 3);
    assert NeighborsFrom(g, x, y, 4) == [];
    SlidesAtConcat(g, x, y, l3, []);
    assert l3 + [] == l3;
    assert NeighborsFrom(g, x, y, 3) == SlidesAt(g, x, y, l3);
    SlidesAtConcat(g, x, y, l2, l3);
    assert NeighborsFrom(g, x, y, 2) == SlidesAt(g, x, y, l2 + l3);
    SlidesAtConcat(g, x, y, l1, l2 + l3);
    assert NeighborsFrom(g, x, y, 1) == SlidesAt(g, x, y, l1 + (l2 + l3));
    SlidesAtConcat(g, x, y, l0, l1 + (l2 + l3));
    LegalMovesParts(x, y);
  }

  /** The successors of g: for each entry of the move table in order, g
      with the blank exchanged with the target cell, when that cell is on
      the board. */
  function Neighbors(g: Grid): seq<Grid>
    requires HasBlank(g)
  {
    NeighborsFrom(g, Blank(g).0, Blank(g).1, 0)
  }

  /** The successors come in move order, one per direction whose target
      cell is on the board, each the slide in that direction: two at a
      corner, three on an edge, four at the centre. */
  lemma NeighborsInOrder(g: Grid)
    requires HasBlank(g)
    ensures var (x, y) := Blank(g);
      && |Neighbors(g)| == |LegalMoves(x, y)|
      && forall k :: 0 <= k < |Neighbors(g)| ==> Neighbors(g)[k] == Slide(g, LegalMoves(x, y)[k])
    ensures var (x, y) := Blank(g);
      && (x != 1 && y != 1 ==> |Neighbors(g)| == 2)
      && (x == 1 && y == 1 ==> |Neighbors(g)| == 4)
      && ((x == 1) != (y == 1) ==> |Neighbors(g)| == 3)
  {
    var (x, y) := Blank(g);
    NeighborsFromIsLegalSlides(g, x, y);
  }

  function Abs(n: int): nat {
    if n < 0 then -n else n
  }

  /** h is g with its blank exchanged with an orthogonally adjacent cell:
      a reference definition of one move, independent of the move table. */
  ghost predicate IsSlide(g: Grid, h: Grid) {
    IsShape(g) &&
    exists i, j, ni, nj ::
      && InGrid(i, j) && InGrid(ni, nj)
      && g[i][j] == 0
      && Abs(ni - i) + Abs(nj - j) == 1
      && h == Swap(g, i, j, ni, nj)
  }

  /** Moving the blank in any on-board direction is a slide. */
  lemma SlideAtIsSlide(g: Grid, x: int, y: int, d: Direction)
    requires IsShape(g) && InGrid(x, y) && g[x][y] == 0 && InBounds(x, y, d)
    ensures IsSlide(g, SlideAt(g, x, y, d))
  {
    var t := Target(x, y, d);
    assert Abs(t.0 - x) + Abs(t.1 - y) == 1;
    assert SlideAt(g, x, y, d) == Swap(g, x, y, t.0, t.1);
  }

  /** Every successor is one slide of the blank. */
  lemma NeighborsAreSlides(g: Grid)
    requires HasBlank(g)
    ensures forall h :: h in Neighbors(g) ==> IsSlide(g, h)
  {
    var (x, y) := Blank(g);
    var ns := Neighbors(g);
    var ds := LegalMoves(x, y);
    NeighborsInOrder(g);
    forall k | 0 <= k < |ns|
      ensures IsSlide(g, ns[k])
    {
      SlideAtIsSlide(g, x, y, ds[k]);
    }
  }

  /** The direction that takes (i, j) to the adjacent cell (ni, nj). */
  function DirectionBetween(i: int, j: int, ni: int, nj: int): (d: Direction)
    requires Abs(ni - i) + Abs(nj - j) == 1
    ensures Target(i, j, d) == (ni, nj)
  {
    if ni == i - 1 then Up
    else if ni == i + 1 then Down
    else if nj == j - 1 then Left
    else Right
  }

  /** In a legal state every slide of the blank is among the successors. */
  lemma SlidesAreNeighbors(g: Grid, h: Grid)
    requires Valid(g) && IsSlide(g, h)
    ensures h in Neighbors(g)
  {
    ValidHasUniqueBlank(g);
    var i, j, ni, nj :|
      && InGrid(i, j) && InGrid(ni, nj)
      && g[i][j] == 0
      && Abs(ni - i) + Abs(nj - j) == 1
      && h == Swap(g, i, j, ni, nj);
    assert (i, j) == Blank(g);
    var d := DirectionBetween(i, j, ni, nj);
    var ds := LegalMoves(i, j);
    assert d in ds;
    var k :| 0 <= k < |ds| && ds[k] == d;
    NeighborsInOrder(g);
    assert Neighbors(g)[k] == h;
  }

  /** For a legal state, the successors are exactly the one-slide grids. */
  lemma NeighborsIffSlides(g: Grid, h: Grid)
    requires Valid(g)
    ensures HasBlank(g)
    ensures h in Neighbors(g) <==> IsSlide(g, h)
  {
    ValidHasUniqueBlank(g);
    NeighborsAreSlides(g);
    if IsSlide(g, h) {
      SlidesAreNeighbors(g, h);
    }
  }

  /** Swapping two cells of a grid swaps the same two entries of its
      flattening. */
  lemma FlattenSwap(g: Grid, i: int, j: int, ni: int, nj: int)
    requires IsShape(g) && InGrid(i, j) && InGrid(ni, nj)
    ensures var f, p, q := Flatten(g), 3 * i + j, 3 * ni + nj;
      |f| == 9 && Flatten(Swap(g, i, j, ni, nj)) == f[p := f[q]][q := f[p]]
  {
    var r := Swap(g, i, j, ni, nj);
    FlattenCells(g);
    FlattenCells(r);
    var f, p, q := Flatten(g), 3 * i + j, 3 * ni + nj;
    var e := f[p := f[q]][q := f[p]];
    forall t | 0 <= t < 9
      ensures Flatten(r)[t] == e[t]
    {
      var a, b := t / 3, t % 3;
      assert t == 3 * a + b;
    }
  }

  /** Exchanging two entries keeps a permutation of 0..8 a permutation. */
  lemma PermutationSwap(f: seq<int>, p: int, q: int)
    requires IsTilePermutation(f) && 0 <= p < 9 && 0 <= q < 9
    ensures IsTilePermutation(f[p := f[q]][q := f[p]])
  {
    var e := f[p := f[q]][q := f[p]];
    assert forall k :: 0 <= k < 9 ==> e[k] == (if k == q then f[p] else if k == p then f[q] else f[k]);
    forall v | 0 <= v < 9
      ensures v in e
    {
      assert v in f;
      var k :| 0 <= k < |f| && f[k] == v;
      if k == p {
        assert e[q] == v;
      } else if k == q {
        assert e[p] == v;
      } else {
        assert e[k] == v;
      }
    }
  }

  /** Exchanging two cells of a legal state gives a legal state. */
  lemma SwapValid(g: Grid, i: int, j: int, ni: int, nj: int)
    requires Valid(g) && InGrid(i, j) && InGrid(ni, nj)
    ensures Valid(Swap(g, i, j, ni, nj))
  {
    FlattenSwap(g, i, j, ni, nj);
    PermutationSwap(Flatten(g), 3 * i + j, 3 * ni + nj);
  }

  /** One slide of the blank in a legal state gives a legal state. */
  lemma SlideValid(g: Grid, h: Grid)
    requires Valid(g) && IsSlide(g, h)
    ensures Valid(h)
  {
    var i, j, ni, nj :|
      && InGrid(i, j) && InGrid(ni, nj)
      && g[i][j] == 0
      && Abs(ni - i) + Abs(nj - j) == 1
      && h == Swap(g, i, j, ni, nj);
    SwapValid(g, i, j, ni, nj);
  }

  /** Every successor of a legal state is a legal state. */
  lemma NeighborsValid(g: Grid)
    requires Valid(g)
    ensures HasBlank(g)
    ensures forall h :: h in Neighbors(g) ==> Valid(h)
  {
    ValidHasUniqueBlank(g);
    var (x, y) := Blank(g);
    var ns := Neighbors(g);
    var ds := LegalMoves(x, y);
    NeighborsInOrder(g);
    forall h | h in ns
      ensures Valid(h)
    {
      var k :| 0 <= k < |ns| && ns[k] == h;
      assert ds[k] in ds;
      var t := Target(x, y, ds[k]);
      assert InGrid(t.0, t.1);
      assert h == Swap(g, x, y, t.0, t.1);
      SwapValid(g, x, y, t.0, t.1);
    }
  }
}

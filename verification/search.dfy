/** The search layer: breadth-first, depth-limited depth-first and A* search
    over puzzle states. All three pop a node, run the goal test, skip the node
    if its state was already expanded, and otherwise expand it. */
module Search {
  import opened Board
  import opened Moves
  import opened Heuristics

  /** A frontier entry: a state and the states that lead to it from the
      start (the state itself excluded). */
  datatype Node = Node(state: Grid, path: seq<Grid>)

  /** The move from ps[k] to ps[k + 1] slides the blank one cell. */
  ghost predicate Link(ps: seq<Grid>, k: int)
    requires 0 <= k < |ps| - 1
  {
    IsSlide(ps[k], ps[k + 1])
  }

  /** ps is a non-empty sequence that starts at a legal state, each later
      state one slide away from the state before it. */
  ghost predicate IsChain(ps: seq<Grid>) {
    && |ps| >= 1
    && Valid(ps[0])
    && (forall k :: 0 <= k < |ps| - 1 ==> Link(ps, k))
  }

  /** ps is a chain that begins at start; it has |ps| - 1 moves. */
  ghost predicate IsPath(start: Grid, ps: seq<Grid>) {
    |ps| >= 1 && ps[0] == start && IsChain(ps)
  }

  /** ps is a solution from start: a path whose last state passes the goal
      test. */
  ghost predicate Solves(start: Grid, ps: seq<Grid>) {
    IsPath(start, ps) && IsGoal(ps[|ps| - 1])
  }

  /** Every state of a chain is a legal state. */
  lemma {:induction false} ChainStateValid(ps: seq<Grid>, k: int)
    requires IsChain(ps) && 0 <= k < |ps|
    ensures Valid(ps[k])
    decreases k
  {
    if k > 0 {
      ChainStateValid(ps, k - 1);
      assert Link(ps, k - 1);
      SlideValid(ps[k - 1], ps[k]);
    }
  }

  /** Each move of a chain goes from a state to one of its neighbours, as
      the neighbour generator lists them. */
  lemma ChainFollowsNeighbors(ps: seq<Grid>, k: int)
    requires IsChain(ps) && 0 <= k < |ps| - 1
    ensures HasBlank(ps[k]) && ps[k + 1] in Neighbors(ps[k])
  {
    ChainStateValid(ps, k);
    assert Link(ps, k);
    NeighborsIffSlides(ps[k], ps[k + 1]);
  }

  /** ps[k + 1] is listed among the neighbours of ps[k]. */
  ghost predicate NeighborLink(ps: seq<Grid>, k: int)
    requires 0 <= k < |ps| - 1
  {
    HasBlank(ps[k]) && ps[k + 1] in Neighbors(ps[k])
  }

  /** The path notion stated with the neighbour generator itself. */
  ghost predicate IsNeighborChain(ps: seq<Grid>) {
    && |ps| >= 1
    && Valid(ps[0])
    && (forall k :: 0 <= k < |ps| - 1 ==> NeighborLink(ps, k))
  }

  lemma {:induction false} NeighborChainStateValid(ps: seq<Grid>, k: int)
    requires IsNeighborChain(ps) && 0 <= k < |ps|
    ensures Valid(ps[k])
    decreases k
  {
    if k > 0 {
      NeighborChainStateValid(ps, k - 1);
      assert NeighborLink(ps, k - 1);
      NeighborsValid(ps[k - 1]);
    }
  }

  /** A sequence of states is a chain of slides exactly when each state is
      a neighbour of the one before it. */
  lemma ChainIffNeighborChain(ps: seq<Grid>)
    ensures IsChain(ps) <==> IsNeighborChain(ps)
  {
    if IsChain(ps) {
      forall k | 0 <= k < |ps| - 1
        ensures NeighborLink(ps, k)
      {
        ChainFollowsNeighbors(ps, k);
      }
    }
    if IsNeighborChain(ps) {
      forall k | 0 <= k < |ps| - 1
        ensures Link(ps, k)
      {
        NeighborChainStateValid(ps, k);
        assert NeighborLink(ps, k);
        NeighborsIffSlides(ps[k], ps[k + 1]);
      }
    }
  }

  /** Extending a chain by a slide of its last state gives a chain. */
  lemma ChainExtend(ps: seq<Grid>, s: Grid)
    requires IsChain(ps) && IsSlide(ps[|ps| - 1], s)
    ensures IsChain(ps + [s])
  {
    var qs := ps + [s];
    forall k | 0 <= k < |qs| - 1
      ensures Link(qs, k)
    {
      if k < |ps| - 1 {
        assert Link(ps, k);
        assert qs[k] == ps[k] && qs[k + 1] == ps[k + 1];
      } else {
        assert qs[k] == ps[|ps| - 1] && qs[k + 1] == s;
      }
    }
  }

  /** A node whose path, followed by its own state, is a path from start. */
  ghost predicate NodeOk(start: Grid, n: Node) {
    Valid(n.state) && IsPath(start, n.path + [n.state])
  }

  ghost predicate FrontierOk(start: Grid, q: seq<Node>) {
    forall k :: 0 <= k < |q| ==> NodeOk(start, q[k])
  }

  /** The log of expanded nodes: each one reachable from start and not the
      goal (the goal test runs first), and no state key expanded twice. */
  ghost predicate ExpansionsOk(start: Grid, xs: seq<Node>) {
    && (forall k :: 0 <= k < |xs| ==> NodeOk(start, xs[k]) && !IsGoal(xs[k].state))
    && (forall i, j :: 0 <= i < j < |xs| ==> Flatten(xs[i].state) != Flatten(xs[j].state))
  }

  /** The visited set holds exactly the keys of the logged expansions. */
  predicate LogMatches(visited: set<seq<int>>, xs: seq<Node>) {
    && |visited| == |xs|
    && forall k :: 0 <= k < |xs| ==> Flatten(xs[k].state) in visited
  }

  /** The expansion log is well formed and matches the visited set. */
  ghost predicate Explored(start: Grid, visited: set<seq<int>>, xs: seq<Node>) {
    ExpansionsOk(start, xs) && LogMatches(visited, xs)
  }

  /** The frontier entries created by expanding n, in successor order. */
  function Successors(n: Node): (r: seq<Node>)
    requires Valid(n.state)
    ensures HasBlank(n.state)
    ensures |r| == |Neighbors(n.state)|
    ensures forall k :: 0 <= k < |r| ==> r[k] == Node(Neighbors(n.state)[k], n.path + [n.state])
  {
    ValidHasUniqueBlank(n.state);
    var ns := Neighbors(n.state);
    seq(|ns|, k requires 0 <= k < |ns| => Node(ns[k], n.path + [n.state]))
  }

  /** Expanding a well-formed node yields well-formed nodes. */
  lemma SuccessorsOk(start: Grid, n: Node)
    requires NodeOk(start, n)
    ensures FrontierOk(start, Successors(n))
  {
    var ss := Successors(n);
    NeighborsValid(n.state);
    NeighborsAreSlides(n.state);
    forall k | 0 <= k < |ss|
      ensures NodeOk(start, ss[k])
    {
      var s := ss[k].state;
      assert s in Neighbors(n.state);
      ChainExtend(n.path + [n.state], s);
    }
  }

  /** All sequences of length n over the values 0..8: a finite set that
      contains every state key, used to bound the visited set. */
  ghost function Words(n: nat): set<seq<int>> {
    if n == 0 then {[]} else set w, v | w in Words(n - 1) && 0 <= v < 9 :: w + [v]
  }

  lemma {:induction false} InWords(s: seq<int>)
    requires forall k :: 0 <= k < |s| ==> 0 <= s[k] < 9
    ensures s in Words(|s|)
  {
    if |s| > 0 {
      var w, v := s[..|s| - 1], s[|s| - 1];
      InWords(w);
      assert s == w + [v];
    }
  }

  lemma KeyInUniverse(g: Grid)
    requires Valid(g)
    ensures Flatten(g) in Words(9)
  {
    InWords(Flatten(g));
  }

  /** The search state before the first pop: the start node alone on the
      frontier and nothing expanded. */
  lemma StartOk(start: Grid)
    requires Valid(start)
    ensures FrontierOk(start, [Node(start, [])])
    ensures Explored(start, {}, [])
  {
    assert [] + [start] == [start];
  }

  /** A popped node that passes the goal test yields a solution, and the
      start node yields the one-state solution. */
  lemma FoundOk(start: Grid, n: Node)
    requires NodeOk(start, n) && IsGoal(n.state)
    ensures Solves(start, n.path + [n.state])
    ensures n == Node(start, []) ==> n.path + [n.state] == [start]
  {
  }

  /** Logging the expansion of a new, non-goal node keeps the log well
      formed; its key lies in the finite universe of keys. */
  lemma LogExtendOk(start: Grid, visited: set<seq<int>>, xs: seq<Node>, n: Node)
    requires NodeOk(start, n) && !IsGoal(n.state)
    requires Explored(start, visited, xs) && Flatten(n.state) !in visited
    ensures Explored(start, visited + {Flatten(n.state)}, xs + [n])
    ensures Flatten(n.state) in Words(9)
  {
    KeyInUniverse(n.state);
  }

  /** Taking the head of a well-formed queue. */
  lemma PopFirstOk(start: Grid, q: seq<Node>)
    requires FrontierOk(start, q) && |q| > 0
    ensures NodeOk(start, q[0]) && FrontierOk(start, q[1..])
  {
  }

  /** Expanding a new, non-goal node keeps the frontier and the log well
      formed. */
  lemma ExpandOk(start: Grid, rest: seq<Node>, visited: set<seq<int>>, xs: seq<Node>, n: Node)
    requires FrontierOk(start, rest) && NodeOk(start, n) && !IsGoal(n.state)
    requires Explored(start, visited, xs) && Flatten(n.state) !in visited
    ensures FrontierOk(start, rest + Successors(n))
    ensures Explored(start, visited + {Flatten(n.state)}, xs + [n])
    ensures Flatten(n.state) in Words(9)
  {
    LogExtendOk(start, visited, xs, n);
    SuccessorsOk(start, n);
  }

  /** Breadth-first search from start with a FIFO frontier. Returns the path
      found (a list of states ending at the goal) or None, and the number of
      states expanded; `expanded` logs the expanded nodes in order. */
  method Bfs(start: Grid) returns (path: Option<seq<Grid>>, visitedCount: nat, ghost expanded: seq<Node>)
    requires Valid(start)
    ensures path.Some? ==> Solves(start, path.value)
    ensures IsGoal(start) ==> path == Some([start]) && visitedCount == 0
    ensures visitedCount == |expanded|
    ensures ExpansionsOk(start, expanded)
  {
    var visited: set<seq<int>> := {};
    var queue := [Node(start, [])];
    expanded := [];
    StartOk(start);
    while |queue| > 0
      invariant FrontierOk(start, queue) && Explored(start, visited, expanded)
      invariant IsGoal(start) ==> queue == [Node(start, [])] && |expanded| == 0
      decreases Words(9) - visited, |queue|
    {
      PopFirstOk(start, queue);
      var node := queue[0];
      queue := queue[1..];
      if IsGoal(node.state) {
        FoundOk(start, node);
        return Some(node.path + [node.state]), |visited|, expanded;
      }
      var key := Flatten(node.state);
      if key !in visited {
        ExpandOk(start, queue, visited, expanded, node);
        visited := visited + {key};
        expanded := expanded + [node];
        queue := queue + Successors(node);
      }
    }
    return None, |visited|, expanded;
  }

  /** The depth-first search's default depth limit. */
  const DefaultDepthLimit := 20

  /** The move bound a depth limit imposes (a negative limit allows none). */
  function MaxMoves(limit: int): nat {
    if limit < 0 then 0 else limit
  }

  /** Every frontier node is well formed and its path has at most `bound`
      states. */
  ghost predicate DepthFrontierOk(start: Grid, q: seq<Node>, bound: nat) {
    forall k :: 0 <= k < |q| ==> NodeOk(start, q[k]) && |q[k].path| <= bound
  }

  /** Every logged expansion had fewer than `limit` states on its path. */
  predicate ShallowLog(xs: seq<Node>, limit: int) {
    forall k :: 0 <= k < |xs| ==> |xs[k].path| < limit
  }

  /** The depth-limited search's start state. */
  lemma StartDepthOk(start: Grid, limit: int)
    requires Valid(start)
    ensures DepthFrontierOk(start, [Node(start, [])], MaxMoves(limit))
    ensures Explored(start, {}, []) && ShallowLog([], limit)
  {
    StartOk(start);
  }

  /** Popping the top of a well-formed stack. */
  lemma PopLastOk(start: Grid, q: seq<Node>, bound: nat)
    requires DepthFrontierOk(start, q, bound) && |q| > 0
    ensures DepthFrontierOk(start, q[..|q| - 1], bound)
    ensures NodeOk(start, q[|q| - 1]) && |q[|q| - 1].path| <= bound
  {
  }

  /** ExpandOk for the depth-limited search, which also keeps every
      frontier path within the move bound and logs only shallow nodes. */
  lemma ExpandDepthOk(start: Grid, rest: seq<Node>, visited: set<seq<int>>, xs: seq<Node>, n: Node, limit: int)
    requires DepthFrontierOk(start, rest, MaxMoves(limit)) && NodeOk(start, n) && !IsGoal(n.state)
    requires Explored(start, visited, xs) && Flatten(n.state) !in visited
    requires ShallowLog(xs, limit) && |n.path| < limit
    ensures DepthFrontierOk(start, rest + Successors(n), MaxMoves(limit))
    ensures Explored(start, visited + {Flatten(n.state)}, xs + [n])
    ensures ShallowLog(xs + [n], limit)
    ensures Flatten(n.state) in Words(9)
  {
    LogExtendOk(start, visited, xs, n);
    SuccessorsOk(start, n);
    var ss := Successors(n);
    var q := rest + ss;
    forall k | 0 <= k < |q|
      ensures NodeOk(start, q[k]) && |q[k].path| <= MaxMoves(limit)
    {
      if k >= |rest| {
        assert q[k] == ss[k - |rest|];
      }
    }
  }

  /** Depth-limited depth-first search from start with a LIFO frontier: a
      node whose path already has `limit` or more states is not expanded.
      Results as for Bfs; a solution has at most MaxMoves(limit) moves. */
  method Dfs(start: Grid, limit: int := DefaultDepthLimit) returns (path: Option<seq<Grid>>, visitedCount: nat, ghost expanded: seq<Node>)
    requires Valid(start)
    ensures path.Some? ==> Solves(start, path.value) && |path.value| - 1 <= MaxMoves(limit)
    ensures IsGoal(start) ==> path == Some([start]) && visitedCount == 0
    ensures visitedCount == |expanded|
    ensures ExpansionsOk(start, expanded)
    ensures ShallowLog(expanded, limit)
  {
    var visited: set<seq<int>> := {};
    var stack := [Node(start, [])];
    expanded := [];
    StartDepthOk(start, limit);
    while |stack| > 0
      invariant DepthFrontierOk(start, stack, MaxMoves(limit)) && Explored(start, visited, expanded)
      invariant ShallowLog(expanded, limit)
      invariant IsGoal(start) ==> stack == [Node(start, [])] && |expanded| == 0
      decreases Words(9) - visited, |stack|
    {
      PopLastOk(start, stack, MaxMoves(limit));
      var node := stack[|stack| - 1];
      stack := stack[..|stack| - 1];
      if IsGoal(node.state) {
        FoundOk(start, node);
        return Some(node.path + [node.state]), |visited|, expanded;
      }
      if |node.path| >= limit {
        continue;
      }
      var key := Flatten(node.state);
      if key !in visited {
        ExpandDepthOk(start, stack, visited, expanded, node, limit);
        visited := visited + {key};
        expanded := expanded + [node];
        stack := stack + Successors(node);
      }
    }
    return None, |visited|, expanded;
  }

  /** A priority-queue entry of A*: f = cost + estimate, the cost (number of
      moves so far) and the node. */
  datatype Entry = Entry(f: int, cost: int, node: Node)

  /** The entry's cost is its path length and its f adds the estimate. */
  ghost predicate EntryOk(start: Grid, h: Heuristic, e: Entry) {
    && NodeOk(start, e.node)
    && e.cost == |e.node.path|
    && e.f == e.cost + Estimate(h, e.node.state)
  }

  ghost predicate HeapOk(start: Grid, h: Heuristic, q: seq<Entry>) {
    forall k :: 0 <= k < |q| ==> EntryOk(start, h, q[k])
  }

  /** Entry a is ordered no later than b: smaller f, then smaller cost. */
  predicate PriorityLe(a: Entry, b: Entry) {
    a.f < b.f || (a.f == b.f && a.cost <= b.cost)
  }

  /** q[k] has a minimal (f, cost) priority in q. */
  predicate IsMinAt(q: seq<Entry>, k: int) {
    0 <= k < |q| && forall j :: 0 <= j < |q| ==> PriorityLe(q[k], q[j])
  }

  /** The first entry of minimal priority. */
  function MinIndex(q: seq<Entry>): (k: nat)
    requires |q| > 0
    ensures IsMinAt(q, k)
  {
    if |q| == 1 then 0
    else
      var k := MinIndex(q[1..]);
      if PriorityLe(q[0], q[1..][k]) then 0 else k + 1
  }

  /** The entries pushed when entry e is expanded: each successor with
      cost one more than e's and f that cost plus its estimate. */
  function Scored(h: Heuristic, e: Entry): (r: seq<Entry>)
    requires Valid(e.node.state)
    ensures HasBlank(e.node.state)
    ensures |r| == |Neighbors(e.node.state)|
    ensures forall k :: 0 <= k < |r| ==>
      && r[k].node == Successors(e.node)[k]
      && r[k].cost == e.cost + 1
  {
    var ss := Successors(e.node);
    NeighborsValid(e.node.state);
    assert forall k :: 0 <= k < |ss| ==> ss[k].state in Neighbors(e.node.state);
    seq(|ss|, k requires 0 <= k < |ss| =>
      Entry(e.cost + 1 + Estimate(h, ss[k].state), e.cost + 1, ss[k]))
  }

  lemma ScoredOk(start: Grid, h: Heuristic, e: Entry)
    requires EntryOk(start, h, e)
    ensures HeapOk(start, h, Scored(h, e))
  {
    SuccessorsOk(start, e.node);
  }

  lemma HeapConcat(start: Grid, h: Heuristic, a: seq<Entry>, b: seq<Entry>)
    requires HeapOk(start, h, a) && HeapOk(start, h, b)
    ensures HeapOk(start, h, a + b)
  {
    var q := a + b;
    forall k | 0 <= k < |q|
      ensures EntryOk(start, h, q[k])
    {
      if k >= |a| {
        assert q[k] == b[k - |a|];
      }
    }
  }

  lemma SplitAt<T>(q: seq<T>, k: int)
    requires 0 <= k < |q|
    ensures q == q[..k] + [q[k]] + q[k + 1..]
    ensures multiset(q) == multiset(q[..k] + q[k + 1..]) + multiset{q[k]}
  {
    assert q == q[..k] + [q[k]] + q[k + 1..];
  }

  /** Removes an entry of minimal priority from the frontier: heappop,
      with ties left open. */
  method PopMin(q: seq<Entry>) returns (e: Entry, rest: seq<Entry>)
    requires |q| > 0
    ensures forall j :: 0 <= j < |q| ==> PriorityLe(e, q[j])
    ensures multiset(q) == multiset(rest) + multiset{e}
    ensures |rest| == |q| - 1
  {
    var k := MinIndex(q);
    e := q[k];
    rest := q[..k] + q[k + 1..];
    SplitAt(q, k);
  }

  /** Whatever heappop takes out of a well-formed heap, and whatever it
      leaves, is well formed: both come from the heap's own entries. */
  lemma PopOk(start: Grid, h: Heuristic, q: seq<Entry>, e: Entry, rest: seq<Entry>)
    requires HeapOk(start, h, q) && multiset(q) == multiset(rest) + multiset{e}
    ensures EntryOk(start, h, e) && HeapOk(start, h, rest)
  {
    assert e in multiset(q);
    forall j | 0 <= j < |rest|
      ensures EntryOk(start, h, rest[j])
    {
      assert rest[j] in multiset(rest);
      assert rest[j] in multiset(q);
    }
  }

  /** A heap of one entry pops that entry. */
  lemma PopSingle(q: seq<Entry>, e: Entry, rest: seq<Entry>)
    requires |q| == 1 && multiset(q) == multiset(rest) + multiset{e}
    ensures e == q[0] && rest == []
  {
    assert e in multiset(q);
    assert |multiset(rest)| == 0;
  }

  /** The A* counterpart of ExpandOk. */
  lemma ExpandEntryOk(start: Grid, h: Heuristic, rest: seq<Entry>, visited: set<seq<int>>, xs: seq<Node>, e: Entry)
    requires HeapOk(start, h, rest) && EntryOk(start, h, e) && !IsGoal(e.node.state)
    requires Explored(start, visited, xs) && Flatten(e.node.state) !in visited
    ensures HeapOk(start, h, rest + Scored(h, e))
    ensures Explored(start, visited + {Flatten(e.node.state)}, xs + [e.node])
    ensures Flatten(e.node.state) in Words(9)
  {
    LogExtendOk(start, visited, xs, e.node);
    ScoredOk(start, h, e);
    HeapConcat(start, h, rest, Scored(h, e));
  }

  /** The A* start state: the start entry alone, with f its estimate. */
  lemma StartEntryOk(start: Grid, h: Heuristic)
    requires Valid(start)
    ensures HeapOk(start, h, [Entry(Estimate(h, start), 0, Node(start, []))])
    ensures Explored(start, {}, [])
  {
    StartOk(start);
  }

  /** A* search from start: repeatedly removes an entry of minimal
      (f, cost) from the frontier, ties resolved arbitrarily. Results as
      for Bfs. */
  method AStar(start: Grid, h: Heuristic) returns (path: Option<seq<Grid>>, visitedCount: nat, ghost expanded: seq<Node>)
    requires Valid(start)
    ensures path.Some? ==> Solves(start, path.value)
    ensures IsGoal(start) ==> path == Some([start]) && visitedCount == 0
    ensures visitedCount == |expanded|
    ensures ExpansionsOk(start, expanded)
  {
    var visited: set<seq<int>> := {};
    var heap := [Entry(Estimate(h, start), 0, Node(start, []))];
    expanded := [];
    StartEntryOk(start, h);
    while |heap| > 0
      invariant HeapOk(start, h, heap) && Explored(start, visited, expanded)
      invariant IsGoal(start) ==> |heap| == 1 && heap[0].node == Node(start, []) && |expanded| == 0
      decreases Words(9) - visited, |heap|
    {
      var e, rest := PopMin(heap);
      PopOk(start, h, heap, e, rest);
      if |heap| == 1 {
        PopSingle(heap, e, rest);
      }
      heap := rest;
      var node := e.node;
      if IsGoal(node.state) {
        FoundOk(start, node);
        return Some(node.path + [node.state]), |visited|, expanded;
      }
      var key := Flatten(node.state);
      if key !in visited {
        ExpandEntryOk(start, h, heap, visited, expanded, e);
        visited := visited + {key};
        expanded := expanded + [node];
        heap := heap + Scored(h, e);
      }
    }
    return None, |visited|, expanded;
  }
}

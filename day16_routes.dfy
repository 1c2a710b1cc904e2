/**
 * Day 16, part 2 (findAllCheapestRoutes, lines 150-200): a search over (tile, facing) states
 * whose queue holds whole routes. Once a cheapest route reaches the goal, every route of that
 * same price that reaches the goal marks its tiles; the answer is the number of marked tiles.
 */
module Day16Routes {
  import opened Common
  import opened MinHeap
  import opened Day16

  // ---------------------------------------------------------------------------------------
  // Routes over states and their prices
  // ---------------------------------------------------------------------------------------

  /** The state the reindeer starts in: the start tile, facing east (line 152). */
  function StartState(board: Board): Position2
  {
    Position2(board.start.x, board.start.y, East)
  }

  /** The move into path[i] is one move of part 2. */
  predicate RouteStep(tiles: map<Position, char>, path: seq<Position2>, i: int)
    requires 1 <= i < |path|
  {
    IsStep(tiles, path[i - 1], path[i])
  }

  /** A route: a non-empty sequence of states from the start state, each a move from the one before. */
  ghost predicate IsRoute(board: Board, path: seq<Position2>)
  {
    |path| >= 1 && path[0] == StartState(board)
    && forall i :: 1 <= i < |path| ==> RouteStep(board.tiles, path, i)
  }

  /** The price of a sequence of states: the sum of its moves' prices. */
  function Cost(path: seq<Position2>): nat
    decreases |path|
  {
    if |path| <= 1 then 0
    else Cost(path[..|path| - 1]) + StepCost(path[|path| - 2], path[|path| - 1])
  }

  /** A route that ends on the goal tile, in any facing. */
  ghost predicate GoalRoute(board: Board, path: seq<Position2>)
  {
    IsRoute(board, path) && TileOf(Last(path)) == board.goal
  }

  /** A route to the goal that no route to the goal undercuts. */
  ghost predicate Cheapest(board: Board, path: seq<Position2>)
  {
    GoalRoute(board, path) && forall r :: GoalRoute(board, r) ==> Cost(path) <= Cost(r)
  }

  /** t lies on some cheapest route. */
  ghost predicate OnCheapestRoute(board: Board, t: Position)
  {
    exists r, i :: Cheapest(board, r) && 0 <= i < |r| && TileOf(r[i]) == t
  }

  /** Every state of a route has a facing in 0..3. */
  lemma {:induction false} RouteFacings(board: Board, path: seq<Position2>, i: int)
    requires IsRoute(board, path) && 0 <= i < |path|
    ensures ValidDir(path[i].dir)
  {
    if i > 0 {
      assert RouteStep(board.tiles, path, i);
    }
  }

  /** Joining two sequences where the second starts at the state the first ends in adds their prices. */
  lemma {:induction false} CostJoin(a: seq<Position2>, b: seq<Position2>)
    requires |a| >= 1 && |b| >= 1 && Last(a) == b[0]
    ensures Cost(a + b[1..]) == Cost(a) + Cost(b)
    decreases |b|
  {
    if |b| == 1 {
      assert a + b[1..] == a;
    } else {
      var b' := b[..|b| - 1];
      CostJoin(a, b');
      var j := a + b[1..];
      assert j[..|j| - 1] == a + b'[1..];
      assert j[|j| - 1] == b[|b| - 1] && j[|j| - 2] == b[|b| - 2];
    }
  }

  /** The price of a route splits at any state into the price up to it and the price after it. */
  lemma CostSplit(r: seq<Position2>, k: int)
    requires 1 <= k <= |r|
    ensures Cost(r) == Cost(r[..k]) + Cost(r[k - 1..])
  {
    CostJoin(r[..k], r[k - 1..]);
    assert r[..k] + r[k - 1..][1..] == r;
  }

  /** A prefix of a route is itself a route. */
  lemma PrefixRoute(board: Board, r: seq<Position2>, k: int)
    requires IsRoute(board, r) && 1 <= k <= |r|
    ensures IsRoute(board, r[..k])
  {
    forall i | 1 <= i < k
      ensures RouteStep(board.tiles, r[..k], i)
    {
      assert RouteStep(board.tiles, r, i);
    }
  }

  /**
   * Exchange: if q is a route to the state r reaches after k states, then q followed by the
   * rest of r is a route ending where r ends, priced at Cost(q) plus what r pays after that state.
   */
  lemma Exchange(board: Board, q: seq<Position2>, r: seq<Position2>, k: int)
    requires IsRoute(board, q) && IsRoute(board, r) && 1 <= k <= |r| && Last(q) == r[k - 1]
    ensures IsRoute(board, q + r[k..]) && Last(q + r[k..]) == Last(r)
    ensures Cost(q + r[k..]) == Cost(q) + Cost(r) - Cost(r[..k])
  {
    var t := r[k - 1..];
    assert t[1..] == r[k..];
    CostJoin(q, t);
    CostSplit(r, k);
    var j := q + r[k..];
    forall i | 1 <= i < |j|
      ensures RouteStep(board.tiles, j, i)
    {
      if i < |q| {
        assert j[i - 1] == q[i - 1] && j[i] == q[i];
        assert RouteStep(board.tiles, q, i);
      } else {
        var m := i - |q| + k;
        assert j[i] == r[m] && j[i - 1] == r[m - 1];
        assert RouteStep(board.tiles, r, m);
      }
    }
  }

  /** A prefix of a sequence of states costs no more than the whole. */
  lemma PrefixCost(r: seq<Position2>, k: int)
    requires 1 <= k <= |r|
    ensures Cost(r[..k]) <= Cost(r)
  {
    CostSplit(r, k);
  }

  /** A route extended by a move is a route, priced one move's price more. */
  lemma RouteExtend(board: Board, path: seq<Position2>, t: Position2)
    requires IsRoute(board, path) && IsStep(board.tiles, Last(path), t)
    ensures IsRoute(board, path + [t]) && Cost(path + [t]) == Cost(path) + StepCost(Last(path), t)
  {
    var p' := path + [t];
    assert p'[..|p'| - 1] == path;
    forall i | 1 <= i < |p'|
      ensures RouteStep(board.tiles, p', i)
    {
      if i < |path| {
        assert p'[i] == path[i] && p'[i - 1] == path[i - 1];
        assert RouteStep(board.tiles, path, i);
      }
    }
  }

  // ---------------------------------------------------------------------------------------
  // The search state of findAllCheapestRoutes
  // ---------------------------------------------------------------------------------------

  /** RouteNode (lines 144-148): a state, the price paid to reach it, and the states on the way. */
  datatype RouteNode = RouteNode(pos: Position2, cost: int, path: seq<Position2>)

  /** A queued item carries a route ending in its state, priced at its cost, which is also its priority. */
  ghost predicate Queued(board: Board, it: Item<RouteNode>)
  {
    IsRoute(board, it.value.path) && Last(it.value.path) == it.value.pos
    && it.value.cost == Cost(it.value.path) && it.priority == it.value.cost
  }

  ghost predicate QueuedOK(board: Board, items: multiset<Item<RouteNode>>)
  {
    forall it :: it in items ==> Queued(board, it)
  }

  /** Every visited state's recorded price is the price of a route to it, kept in W. */
  ghost predicate VisitedOK(board: Board, visited: map<Position2, int>, W: map<Position2, seq<Position2>>)
  {
    forall s :: s in visited ==> s in W && IsRoute(board, W[s]) && Last(W[s]) == s && Cost(W[s]) == visited[s]
  }

  /** The state r reaches after k states was visited more cheaply than r reaches it. */
  ghost predicate DominatedAt(visited: map<Position2, int>, r: seq<Position2>, k: int)
    requires 1 <= k <= |r|
  {
    r[k - 1] in visited && visited[r[k - 1]] < Cost(r[..k])
  }

  ghost predicate Dominated(visited: map<Position2, int>, r: seq<Position2>)
  {
    exists k :: 1 <= k <= |r| && DominatedAt(visited, r, k)
  }

  /**
   * Route r is still accounted for: a queued item's route is a prefix of it, or it was expanded
   * itself, or some state on it was already visited more cheaply.
   */
  ghost predicate Covered(items: multiset<Item<RouteNode>>, visited: map<Position2, int>, E: set<seq<Position2>>, r: seq<Position2>)
  {
    (exists it :: it in items && it.value.path <= r) || r in E || Dominated(visited, r)
  }

  ghost predicate AllCovered(board: Board, items: multiset<Item<RouteNode>>, visited: map<Position2, int>, E: set<seq<Position2>>)
  {
    forall r :: IsRoute(board, r) ==> Covered(items, visited, E, r)
  }

  /** A sequence of states ending on the goal tile. */
  predicate EndsAtGoal(board: Board, p: seq<Position2>)
  {
    |p| >= 1 && TileOf(Last(p)) == board.goal
  }

  /** Expanded routes are routes; one that ends at the goal is priced at maxCost. */
  ghost predicate ExpandedOK(board: Board, E: set<seq<Position2>>, maxCost: Option<int>)
  {
    forall p :: p in E ==> IsRoute(board, p) && (EndsAtGoal(board, p) ==> maxCost == Some(Cost(p)))
  }

  /** Once set, maxCost undercuts no route to the goal, and the expanded route `best` attains it. */
  ghost predicate BestFound(board: Board, E: set<seq<Position2>>, maxCost: Option<int>, best: seq<Position2>)
  {
    maxCost.Some? ==>
      (forall r :: GoalRoute(board, r) ==> maxCost.value <= Cost(r))
      && best in E && EndsAtGoal(board, best) && Cost(best) == maxCost.value
  }

  /** The marked tiles are exactly the tiles of the expanded routes that end at the goal. */
  ghost predicate Marked(board: Board, E: set<seq<Position2>>, onPath: set<Position>)
  {
    forall t :: t in onPath <==> exists p, i :: p in E && EndsAtGoal(board, p) && 0 <= i < |p| && TileOf(p[i]) == t
  }

  /** The invariant of the loop of lines 160-195. */
  ghost predicate Searching(board: Board, items: multiset<Item<RouteNode>>, visited: map<Position2, int>,
                            W: map<Position2, seq<Position2>>, E: set<seq<Position2>>, maxCost: Option<int>,
                            best: seq<Position2>, onPath: set<Position>)
  {
    QueuedOK(board, items) && VisitedOK(board, visited, W) && AllCovered(board, items, visited, E)
    && ExpandedOK(board, E, maxCost) && BestFound(board, E, maxCost, best) && Marked(board, E, onPath)
  }

  /** The answer's meaning: the marked tiles are exactly the tiles on cheapest routes. */
  ghost predicate MarksCheapest(board: Board, onPath: set<Position>)
  {
    forall t :: t in onPath <==> OnCheapestRoute(board, t)
  }

  // ---------------------------------------------------------------------------------------
  // Why the first route popped at the goal is a cheapest one
  // ---------------------------------------------------------------------------------------

  /** A dominated route gives a strictly cheaper route ending in the same state. */
  lemma Undercut(board: Board, visited: map<Position2, int>, W: map<Position2, seq<Position2>>, r: seq<Position2>)
    returns (q: seq<Position2>)
    requires VisitedOK(board, visited, W) && IsRoute(board, r) && Dominated(visited, r)
    ensures IsRoute(board, q) && Last(q) == Last(r) && Cost(q) < Cost(r)
  {
    var k :| 1 <= k <= |r| && DominatedAt(visited, r, k);
    var w := W[r[k - 1]];
    Exchange(board, w, r, k);
    q := w + r[k..];
  }

  /**
   * While no expanded route ends at the goal, every route to the goal is priced at least at
   * the priority of some queued item.
   */
  lemma {:induction false} GoalRouteQueued(board: Board, items: multiset<Item<RouteNode>>, visited: map<Position2, int>,
                                           W: map<Position2, seq<Position2>>, E: set<seq<Position2>>, r: seq<Position2>)
    requires QueuedOK(board, items) && VisitedOK(board, visited, W) && AllCovered(board, items, visited, E)
    requires forall p :: p in E ==> !EndsAtGoal(board, p)
    requires GoalRoute(board, r)
    ensures exists it :: it in items && it.priority <= Cost(r)
    decreases Cost(r)
  {
    assert Covered(items, visited, E, r);
    if r in E {
      assert EndsAtGoal(board, r);
    } else if it :| it in items && it.value.path <= r {
      assert Queued(board, it);
      var k := |it.value.path|;
      assert r[..k] == it.value.path;
      PrefixCost(r, k);
    } else {
      var q := Undercut(board, visited, W, r);
      GoalRouteQueued(board, items, visited, W, E, q);
    }
  }

  // ---------------------------------------------------------------------------------------
  // One round of the loop
  // ---------------------------------------------------------------------------------------

  /** The item lines 188-193 queue for neighbour n: a fresh copy of the route, extended by n's state. */
  function Child(node: RouteNode, n: PosCost2): Item<RouteNode>
  {
    Item(RouteNode(n.pos, node.cost + n.cost, node.path + [n.pos]), node.cost + n.cost)
  }

  /** The items queued for the neighbours ns, in order. */
  function Pushed(node: RouteNode, ns: seq<PosCost2>): multiset<Item<RouteNode>>
    decreases |ns|
  {
    if ns == [] then multiset{} else Pushed(node, ns[..|ns| - 1]) + multiset{Child(node, ns[|ns| - 1])}
  }

  /** The items queued for ns are exactly the children for the neighbours in ns. */
  lemma {:induction false} PushedSpec(node: RouteNode, ns: seq<PosCost2>)
    ensures forall it :: it in Pushed(node, ns) <==> exists n :: n in ns && it == Child(node, n)
    decreases |ns|
  {
    if ns != [] {
      var init := ns[..|ns| - 1];
      PushedSpec(node, init);
      assert ns == init + [ns[|ns| - 1]];
      assert forall n :: n in ns <==> n in init || n == ns[|ns| - 1];
    }
  }

  /** The loop of lines 186-194: each neighbour's child route is queued. */
  method PushNeighbors(frontier: PriorityQueueAsc<RouteNode>, node: RouteNode, ns: seq<PosCost2>)
    modifies frontier
    ensures frontier.items == old(frontier.items) + Pushed(node, ns)
  {
    for i := 0 to |ns|
      invariant frontier.items == old(frontier.items) + Pushed(node, ns[..i])
    {
      assert ns[..i + 1][..i] == ns[..i];
      var n := ns[i];
      var newCost := node.cost + n.cost;
      var newPath := node.path + [n.pos];
      frontier.Push(Item(RouteNode(n.pos, newCost, newPath), newCost));
    }
    assert ns[..|ns|] == ns;
  }

  /** Lines 175-177: marks the tile of every state of the route. */
  method MarkPath(onPath: set<Position>, path: seq<Position2>) returns (onPath': set<Position>)
    ensures forall t :: t in onPath' <==> t in onPath || exists i :: 0 <= i < |path| && TileOf(path[i]) == t
  {
    onPath' := onPath;
    for i := 0 to |path|
      invariant forall t :: t in onPath' <==> t in onPath || exists j :: 0 <= j < i && TileOf(path[j]) == t
    {
      onPath' := onPath' + {Position(path[i].x, path[i].y)};
    }
  }

  /** Skipping a popped route whose state was visited more cheaply (line 169) keeps the invariant. */
  lemma SkipKeeps(board: Board, items: multiset<Item<RouteNode>>, it: Item<RouteNode>, visited: map<Position2, int>,
                  W: map<Position2, seq<Position2>>, E: set<seq<Position2>>, maxCost: Option<int>,
                  best: seq<Position2>, onPath: set<Position>)
    requires Searching(board, items, visited, W, E, maxCost, best, onPath) == true && it in items
    requires it.value.pos in visited && visited[it.value.pos] < it.value.cost
    ensures Searching(board, items - multiset{it}, visited, W, E, maxCost, best, onPath) == true
  {
    SkipCovered(board, items, it, visited, E);
  }

  /** The skipped route's extensions stay covered: the cheaper visit dominates them. */
  lemma SkipCovered(board: Board, items: multiset<Item<RouteNode>>, it: Item<RouteNode>, visited: map<Position2, int>,
                    E: set<seq<Position2>>)
    requires AllCovered(board, items, visited, E) == true && Queued(board, it) && it in items
    requires it.value.pos in visited && visited[it.value.pos] < it.value.cost
    ensures AllCovered(board, items - multiset{it}, visited, E) == true
  {
    var rest := items - multiset{it};
    forall r | IsRoute(board, r)
      ensures Covered(rest, visited, E, r)
    {
      assert Covered(items, visited, E, r);
      if it.value.path <= r {
        var k := |it.value.path|;
        assert r[..k] == it.value.path;
        assert DominatedAt(visited, r, k);
      } else {
        forall o | o in items && o.value.path <= r
          ensures o in rest
        {
          assert o != it;
        }
      }
    }
  }

  /** Every child queued for a popped route is a queued route: one move longer, priced by that move. */
  lemma ChildrenQueued(board: Board, it: Item<RouteNode>)
    requires Queued(board, it)
    ensures QueuedOK(board, Pushed(it.value, FindNeighbors2(board.tiles, it.value.pos)))
  {
    var node := it.value;
    var ns := FindNeighbors2(board.tiles, node.pos);
    RouteFacings(board, node.path, |node.path| - 1);
    Neighbors2Spec(board.tiles, node.pos);
    PushedSpec(node, ns);
    forall o | o in Pushed(node, ns)
      ensures Queued(board, o)
    {
      var n :| n in ns && o == Child(node, n);
      RouteExtend(board, node.path, n.pos);
      assert Last(node.path + [n.pos]) == n.pos;
    }
  }

  /** Expanding a popped route keeps every queued item a priced route. */
  lemma ExpandQueued(board: Board, items: multiset<Item<RouteNode>>, it: Item<RouteNode>)
    requires QueuedOK(board, items) && it in items
    ensures QueuedOK(board, items - multiset{it} + Pushed(it.value, FindNeighbors2(board.tiles, it.value.pos)))
  {
    assert Queued(board, it);
    ChildrenQueued(board, it);
  }

  /** Recording the popped route's price for its state keeps the visited prices backed by routes. */
  lemma ExpandVisited(board: Board, visited: map<Position2, int>, W: map<Position2, seq<Position2>>, it: Item<RouteNode>)
    requires VisitedOK(board, visited, W) && Queued(board, it)
    ensures VisitedOK(board, visited[it.value.pos := it.value.cost], W[it.value.pos := it.value.path])
  {
  }

  /**
   * Expanding a popped route that was not skipped keeps every route accounted for: one that
   * the popped route is a prefix of is now that route itself or has a child queued as its prefix.
   */
  lemma ExpandCovered(board: Board, items: multiset<Item<RouteNode>>, it: Item<RouteNode>, visited: map<Position2, int>,
                      E: set<seq<Position2>>)
    requires AllCovered(board, items, visited, E) && it in items && Queued(board, it)
    requires it.value.pos in visited ==> visited[it.value.pos] >= it.value.cost
    ensures AllCovered(board, items - multiset{it} + Pushed(it.value, FindNeighbors2(board.tiles, it.value.pos)),
                       visited[it.value.pos := it.value.cost], E + {it.value.path})
  {
    var node := it.value;
    var ns := FindNeighbors2(board.tiles, node.pos);
    var items' := items - multiset{it} + Pushed(node, ns);
    var visited' := visited[node.pos := node.cost];
    var E' := E + {node.path};
    forall r | IsRoute(board, r)
      ensures Covered(items', visited', E', r)
    {
      assert Covered(items, visited, E, r);
      if r in E {
      } else if Dominated(visited, r) {
        var k :| 1 <= k <= |r| && DominatedAt(visited, r, k);
        assert DominatedAt(visited', r, k);
      } else {
        var o :| o in items && o.value.path <= r;
        if o in items - multiset{it} {
          assert o in items';
        } else if r != node.path {
          ChildPrefix(board, it, r);
        }
      }
    }
  }

  /** A route that strictly extends a popped route extends one of the children queued for it. */
  lemma ChildPrefix(board: Board, it: Item<RouteNode>, r: seq<Position2>)
    requires Queued(board, it) && IsRoute(board, r) && it.value.path <= r && r != it.value.path
    ensures exists o :: o in Pushed(it.value, FindNeighbors2(board.tiles, it.value.pos)) && o.value.path <= r
  {
    var node := it.value;
    var ns := FindNeighbors2(board.tiles, node.pos);
    var k := |node.path|;
    var t := r[k];
    assert RouteStep(board.tiles, r, k);
    assert r[k - 1] == node.pos;
    RouteFacings(board, node.path, k - 1);
    Neighbors2Spec(board.tiles, node.pos);
    var n := PosCost2(t, StepCost(node.pos, t));
    assert n in ns;
    PushedSpec(node, ns);
    assert Child(node, n) in Pushed(node, ns);
    assert node.path + [t] <= r;
  }

  /**
   * Lines 173-178 on a route to the goal: its price becomes maxCost and its tiles are marked.
   * The first such route popped is a cheapest one, because every route to the goal is priced
   * at least at some queued priority and the popped one was least; a later one is popped only
   * at the same price, as a dearer pop stops the search first.
   */
  lemma ExpandAtGoal(board: Board, items: multiset<Item<RouteNode>>, it: Item<RouteNode>, visited: map<Position2, int>,
                     W: map<Position2, seq<Position2>>, E: set<seq<Position2>>, maxCost: Option<int>,
                     best: seq<Position2>, onPath: set<Position>, onPath': set<Position>)
    requires Searching(board, items, visited, W, E, maxCost, best, onPath) == true
    requires it in items && IsLeast(it, items) && EndsAtGoal(board, it.value.path)
    requires maxCost.Some? ==> it.value.cost <= maxCost.value
    requires forall t :: t in onPath' <==> t in onPath || exists i :: 0 <= i < |it.value.path| && TileOf(it.value.path[i]) == t
    ensures ExpandedOK(board, E + {it.value.path}, Some(it.value.cost))
    ensures BestFound(board, E + {it.value.path}, Some(it.value.cost), it.value.path)
    ensures Marked(board, E + {it.value.path}, onPath')
  {
    var path := it.value.path;
    var c := it.value.cost;
    assert Queued(board, it);
    assert GoalRoute(board, path);
    forall r | GoalRoute(board, r)
      ensures c <= Cost(r)
    {
      if maxCost.None? {
        assert forall p :: p in E ==> !EndsAtGoal(board, p);
        GoalRouteQueued(board, items, visited, W, E, r);
      }
    }
    if maxCost.Some? {
      assert c == maxCost.value;
    }
  }

  /** Lines 163-194 on a route that does not end at the goal: nothing about the goal changes. */
  lemma ExpandElsewhere(board: Board, items: multiset<Item<RouteNode>>, it: Item<RouteNode>, E: set<seq<Position2>>,
                        maxCost: Option<int>, best: seq<Position2>, onPath: set<Position>)
    requires ExpandedOK(board, E, maxCost) && BestFound(board, E, maxCost, best) && Marked(board, E, onPath)
    requires Queued(board, it) && !EndsAtGoal(board, it.value.path)
    ensures ExpandedOK(board, E + {it.value.path}, maxCost)
    ensures BestFound(board, E + {it.value.path}, maxCost, best)
    ensures Marked(board, E + {it.value.path}, onPath)
  {
  }

  /**
   * When the search stops, because the queue ran dry or because every queued route is dearer
   * than maxCost (line 165), the marked tiles are exactly the tiles on cheapest routes.
   */
  lemma Finish(board: Board, items: multiset<Item<RouteNode>>, visited: map<Position2, int>,
               W: map<Position2, seq<Position2>>, E: set<seq<Position2>>, maxCost: Option<int>,
               best: seq<Position2>, onPath: set<Position>)
    requires Searching(board, items, visited, W, E, maxCost, best, onPath) == true
    requires forall o :: o in items ==> maxCost.Some? && o.priority > maxCost.value
    ensures MarksCheapest(board, onPath)
  {
    forall t
      ensures t in onPath <==> OnCheapestRoute(board, t)
    {
      if t in onPath {
        var p, i :| p in E && EndsAtGoal(board, p) && 0 <= i < |p| && TileOf(p[i]) == t;
        assert Cheapest(board, p);
      }
      if OnCheapestRoute(board, t) {
        var r, i :| Cheapest(board, r) && 0 <= i < |r| && TileOf(r[i]) == t;
        CheapestExpanded(board, items, visited, W, E, maxCost, best, r);
      }
    }
  }

  /** At that point every cheapest route has been expanded. */
  lemma CheapestExpanded(board: Board, items: multiset<Item<RouteNode>>, visited: map<Position2, int>,
                         W: map<Position2, seq<Position2>>, E: set<seq<Position2>>, maxCost: Option<int>,
                         best: seq<Position2>, r: seq<Position2>)
    requires QueuedOK(board, items) && VisitedOK(board, visited, W) && AllCovered(board, items, visited, E)
    requires ExpandedOK(board, E, maxCost) && BestFound(board, E, maxCost, best)
    requires forall o :: o in items ==> maxCost.Some? && o.priority > maxCost.value
    requires Cheapest(board, r)
    ensures r in E
  {
    if maxCost.None? {
      assert forall p :: p in E ==> !EndsAtGoal(board, p);
      GoalRouteQueued(board, items, visited, W, E, r);
      assert false;
    }
    assert GoalRoute(board, best);
    assert Cost(r) == maxCost.value;
    assert Covered(items, visited, E, r);
    if o :| o in items && o.value.path <= r {
      assert Queued(board, o);
      var k := |o.value.path|;
      assert r[..k] == o.value.path;
      PrefixCost(r, k);
      assert false;
    }
    if Dominated(visited, r) {
      var q := Undercut(board, visited, W, r);
      assert GoalRoute(board, q);
      assert false;
    }
  }

  /**
   * One round of the loop of lines 160-195: pop a cheapest route; stop if it is dearer than
   * maxCost; skip it if its state was visited more cheaply; otherwise record its price, mark
   * its tiles if it ends at the goal, and queue its children.
   */
  method Round(board: Board, frontier: PriorityQueueAsc<RouteNode>, visited: map<Position2, int>, onPath: set<Position>,
               maxCost: Option<int>, ghost W: map<Position2, seq<Position2>>, ghost E: set<seq<Position2>>, ghost best: seq<Position2>)
    returns (stop: bool, visited': map<Position2, int>, onPath': set<Position>, maxCost': Option<int>,
             ghost W': map<Position2, seq<Position2>>, ghost E': set<seq<Position2>>, ghost best': seq<Position2>)
    requires Searching(board, frontier.items, visited, W, E, maxCost, best, onPath) == true && |frontier.items| > 0
    modifies frontier
    ensures stop ==> MarksCheapest(board, onPath')
    ensures !stop ==> Searching(board, frontier.items, visited', W', E', maxCost', best', onPath') == true
  {
    ghost var items := frontier.items;
    var currentNode := frontier.Pop();
    var current := currentNode.value;
    visited', onPath', maxCost', W', E', best' := visited, onPath, maxCost, W, E, best;
    assert Queued(board, currentNode);
    if maxCost.Some? && current.cost > maxCost.value {
      Finish(board, items, visited, W, E, maxCost, best, onPath);
      return true, visited', onPath', maxCost', W', E', best';
    }
    if current.pos in visited && visited[current.pos] < current.cost {
      SkipKeeps(board, items, currentNode, visited, W, E, maxCost, best, onPath);
      return false, visited', onPath', maxCost', W', E', best';
    }
    visited' := visited[current.pos := current.cost];
    W' := W[current.pos := current.path];
    E' := E + {current.path};
    if current.pos.x == board.goal.x && current.pos.y == board.goal.y {
      maxCost' := Some(current.cost);
      onPath' := MarkPath(onPath, current.path);
      best' := current.path;
      ExpandAtGoal(board, items, currentNode, visited, W, E, maxCost, best, onPath, onPath');
    } else {
      ExpandElsewhere(board, items, currentNode, E, maxCost, best, onPath);
    }
    var neighbors := FindNeighbors2(board.tiles, current.pos);
    PushNeighbors(frontier, current, neighbors);
    ExpandQueued(board, items, currentNode);
    ExpandVisited(board, visited, W, currentNode);
    ExpandCovered(board, items, currentNode, visited, E);
    stop := false;
  }

  /** The search state before the first round: only the start route queued, nothing visited. */
  lemma StartSearching(board: Board, items: multiset<Item<RouteNode>>)
    requires items == multiset{Item(RouteNode(StartState(board), 0, [StartState(board)]), 0)}
    ensures Searching(board, items, map[], map[], {}, None, [], {}) == true
  {
    var start := StartState(board);
    assert IsRoute(board, [start]);
    forall r | IsRoute(board, r)
      ensures Covered(items, map[], {}, r)
    {
      assert [start] <= r;
    }
  }

  /**
   * findAllCheapestRoutes (lines 150-200): the number of tiles on cheapest routes from the
   * start, facing east, to the goal tile, in any facing. The search ends on its own; a bound
   * of `fuel` rounds stands in for that, and running out of it answers None.
   */
  method FindAllCheapestRoutes(board: Board, fuel: nat) returns (tilesOnPath: Option<int>, ghost onPathTiles: set<Position>)
    ensures tilesOnPath.Some? ==> tilesOnPath.value == |onPathTiles| && MarksCheapest(board, onPathTiles)
  {
    var frontier := new PriorityQueueAsc<RouteNode>();
    var start := Position2(board.start.x, board.start.y, East);
    frontier.Push(Item(RouteNode(start, 0, [start]), 0));
    var visited: map<Position2, int> := map[];
    var onPath: set<Position> := {};
    var maxCost: Option<int> := None;
    ghost var W: map<Position2, seq<Position2>> := map[];
    ghost var E: set<seq<Position2>> := {};
    ghost var best: seq<Position2> := [];
    StartSearching(board, frontier.items);
    var rounds := 0;
    while |frontier.items| > 0
      invariant rounds <= fuel
      invariant Searching(board, frontier.items, visited, W, E, maxCost, best, onPath) == true
      decreases fuel - rounds
    {
      if rounds == fuel {
        return None, onPath;
      }
      rounds := rounds + 1;
      var stop;
      stop, visited, onPath, maxCost, W, E, best := Round(board, frontier, visited, onPath, maxCost, W, E, best);
      if stop {
        return Some(|onPath|), onPath;
      }
    }
    Finish(board, frontier.items, visited, W, E, maxCost, best, onPath);
    return Some(|onPath|), onPath;
  }

  // ---------------------------------------------------------------------------------------
  // Part 1 against part 2
  // ---------------------------------------------------------------------------------------

  /** The facing of a unit step. */
  function DirIndex(d: Position): (r: int)
    ensures ValidDir(r)
    ensures IsUnitStep(d) ==> Dirs[r] == d
  {
    if d == Position(0, -1) then North
    else if d == Position(1, 0) then East
    else if d == Position(0, 1) then South
    else West
  }

  /** Two unit steps that are neither equal nor opposite are a quarter turn apart. */
  lemma QuarterTurn(f: Position, d: Position)
    requires IsUnitStep(f) && IsUnitStep(d) && d != f && Negated(d) != f
    ensures DirIndex(d) == Clockwise(DirIndex(f)) || DirIndex(d) == Anticlockwise(DirIndex(f))
  {
  }

  /** The state a walk ends in: its last tile, facing along its last step. */
  function EndState(w: seq<Position>): Position2
    requires |w| >= 1
  {
    Position2(Last(w).x, Last(w).y, DirIndex(Facing(w)))
  }

  /** A walk without its last step is a walk, and that step was admissible and priced by TurnCost. */
  lemma WalkInit(tiles: map<Position, char>, start: Position, w: seq<Position>)
    requires IsWalk(tiles, start, w) && |w| >= 2
    ensures var v := w[..|w| - 1];
      IsWalk(tiles, start, v)
      && Admissible(tiles, Last(v), Facing(v), Last(w))
      && Facing(w) == Minus(Last(w), Last(v))
      && WalkCost(w) == WalkCost(v) + TurnCost(Facing(v), Minus(Last(w), Last(v)))
  {
    var v := w[..|w| - 1];
    forall i | 1 <= i < |v|
      ensures StepOK(tiles, v, i)
    {
      assert StepOK(tiles, w, i);
      assert v[i] == w[i] && v[i - 1] == w[i - 1] && FacingAt(v, i - 1) == FacingAt(w, i - 1);
    }
    assert StepOK(tiles, w, |w| - 1);
    assert w[|w| - 2] == Last(v) && FacingAt(w, |w| - 2) == Facing(v);
  }

  /** A step straight on extends the route by one forward move. */
  lemma ForwardMove(board: Board, rv: seq<Position2>, p: Position, n: Position, f: Position)
    requires IsRoute(board, rv) && Last(rv) == Position2(p.x, p.y, DirIndex(f))
    requires IsUnitStep(f) && Minus(n, p) == f && Get(board.tiles, n) != '#'
    ensures var r := rv + [Position2(n.x, n.y, DirIndex(f))];
      IsRoute(board, r) && Last(r) == Position2(n.x, n.y, DirIndex(f)) && Cost(r) == Cost(rv) + 1
  {
    var ahead := Position2(n.x, n.y, DirIndex(f));
    assert IsStep(board.tiles, Last(rv), ahead);
    RouteExtend(board, rv, ahead);
  }

  /** A step after a quarter turn extends the route by a turn and a forward move. */
  lemma TurnMove(board: Board, rv: seq<Position2>, p: Position, n: Position, f: Position)
    requires IsRoute(board, rv) && Last(rv) == Position2(p.x, p.y, DirIndex(f)) && IsUnitStep(f)
    requires Admissible(board.tiles, p, f, n) && Minus(n, p) != f
    ensures var d := Minus(n, p); var r := rv + [Position2(p.x, p.y, DirIndex(d))] + [Position2(n.x, n.y, DirIndex(d))];
      IsRoute(board, r) && Last(r) == Position2(n.x, n.y, DirIndex(d)) && Cost(r) == Cost(rv) + 1001
  {
    var d := Minus(n, p);
    QuarterTurn(f, d);
    var turned := Position2(p.x, p.y, DirIndex(d));
    assert IsStep(board.tiles, Last(rv), turned);
    RouteExtend(board, rv, turned);
    ForwardMove(board, rv + [turned], p, n, d);
  }

  /**
   * Every walk part 1 prices is a route of part 2 at the same price: a step straight on is a
   * forward move (1), and a step after a quarter turn is a turn and a forward move (1000 + 1).
   * So part 1's answer is never below the price of a cheapest route.
   */
  lemma {:induction false} WalkAsRoute(board: Board, w: seq<Position>) returns (r: seq<Position2>)
    requires IsWalk(board.tiles, board.start, w)
    ensures IsRoute(board, r) && Last(r) == EndState(w) && Cost(r) == WalkCost(w)
    ensures IsUnitStep(Facing(w))
    decreases |w|
  {
    if |w| == 1 {
      r := [StartState(board)];
      assert IsRoute(board, r);
    } else {
      var v := w[..|w| - 1];
      WalkInit(board.tiles, board.start, w);
      var rv := WalkAsRoute(board, v);
      var p, n, f := Last(v), Last(w), Facing(v);
      if Minus(n, p) == f {
        ForwardMove(board, rv, p, n, f);
        r := rv + [Position2(n.x, n.y, DirIndex(f))];
      } else {
        TurnMove(board, rv, p, n, f);
        var d := Minus(n, p);
        r := rv + [Position2(p.x, p.y, DirIndex(d))] + [Position2(n.x, n.y, DirIndex(d))];
      }
    }
  }

  /** Part 1's answer, when not 0, is the price of some route of part 2 to the goal. */
  lemma WalkToGoalIsRoute(board: Board, w: seq<Position>)
    requires IsWalk(board.tiles, board.start, w) && Last(w) == board.goal
    ensures exists r :: GoalRoute(board, r) && Cost(r) == WalkCost(w)
  {
    var r := WalkAsRoute(board, w);
    assert GoalRoute(board, r);
  }
}

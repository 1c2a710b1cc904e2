/**
 * Day 18: bytes fall one by one into a square memory arena and corrupt the tile they land
 * on. findShortestPath runs a breadth-first search from the top-left corner (0, 0) to the
 * bottom-right corner through tiles that are not corrupted; the answer to part 2 is the
 * first byte after which no path is left. The byte list arrives already parsed.
 */
module Day18 {
  import opened Common

  /** What a search sees of a board: its size and the corrupted tiles (the `tiles` set). */
  datatype Arena = Arena(width: int, height: int, tiles: set<Position>)

  /** Board (lines 18-22): the arena's size, the falling bytes in order, and the corrupted tiles. */
  class Board {
    var width: int
    var height: int
    var bytes: seq<Position>
    var tiles: set<Position>

    /** parseBoard (lines 53-68) once the lines are split into coordinates: nothing corrupted yet. */
    constructor (arenaSize: int, bytes: seq<Position>)
      ensures width == arenaSize && height == arenaSize && this.bytes == bytes && tiles == {}
    {
      width := arenaSize;
      height := arenaSize;
      this.bytes := bytes;
      tiles := {};
    }

    /** The board as findShortestPath receives it: by value. */
    function Snapshot(): Arena
      reads this
    {
      Arena(width, height, tiles)
    }

    /** simulateByte (lines 70-72): byte i lands and corrupts its tile; nothing else changes. */
    method SimulateByte(byteIndex: int)
      requires 0 <= byteIndex < |bytes|
      modifies this
      ensures width == old(width) && height == old(height) && bytes == old(bytes)
      ensures tiles == old(tiles) + {bytes[byteIndex]}
    {
      tiles := tiles + {bytes[byteIndex]};
    }
  }

  function Start(): Position
  {
    Position(0, 0)
  }

  function Goal(A: Arena): Position
  {
    Position(A.width - 1, A.height - 1)
  }

  predicate InArena(A: Arena, p: Position)
  {
    0 <= p.x < A.width && 0 <= p.y < A.height
  }

  // ---------------------------------------------------------------------------------------
  // findNeighbors
  // ---------------------------------------------------------------------------------------

  /**
   * The step the search may take from u to v: v shares a side with u, is not corrupted, and
   * the move does not cross the arena's edge on the side it heads for. (Like the source, the
   * test looks only at u's coordinate along the move.)
   */
  predicate Link(A: Arena, u: Position, v: Position)
  {
    v !in A.tiles && Adjacent(u, v)
    && (v.x < u.x ==> u.x > 0) && (v.x > u.x ==> u.x < A.width - 1)
    && (v.y < u.y ==> u.y > 0) && (v.y > u.y ==> u.y < A.height - 1)
  }

  /** findNeighbors (lines 126-152): left, right, up, down, each kept when the step is allowed. */
  function FindNeighbors(A: Arena, current: Position): (r: seq<Position>)
    ensures forall n :: n in r <==> Link(A, current, n)
    ensures |r| <= 4
  {
    var up := Position(current.x, current.y - 1);
    var right := Position(current.x + 1, current.y);
    var down := Position(current.x, current.y + 1);
    var left := Position(current.x - 1, current.y);
    (if current.x > 0 && left !in A.tiles then [left] else [])
    + (if current.x < A.width - 1 && right !in A.tiles then [right] else [])
    + (if current.y > 0 && up !in A.tiles then [up] else [])
    + (if current.y < A.height - 1 && down !in A.tiles then [down] else [])
  }

  /** From a tile of the arena, the neighbours are exactly the free tiles of the arena beside it. */
  lemma NeighborsInArena(A: Arena, current: Position, n: Position)
    requires InArena(A, current)
    ensures n in FindNeighbors(A, current) <==> Adjacent(current, n) && InArena(A, n) && n !in A.tiles
  {
  }

  // ---------------------------------------------------------------------------------------
  // Paths
  // ---------------------------------------------------------------------------------------

  /** A path of the search: it starts at (0, 0) and each position is a neighbour of the one before. */
  predicate IsPath(A: Arena, p: seq<Position>)
  {
    |p| >= 1 && p[0] == Start() && forall i :: 1 <= i < |p| ==> Link(A, p[i - 1], p[i])
  }

  ghost predicate Reachable(A: Arena, v: Position)
  {
    exists p :: IsPath(A, p) && Last(p) == v
  }

  /** The fewest steps from (0, 0) to v is k. */
  ghost predicate Shortest(A: Arena, v: Position, k: int)
  {
    (exists p :: IsPath(A, p) && Last(p) == v && |p| - 1 == k)
    && forall p :: IsPath(A, p) && Last(p) == v ==> |p| - 1 >= k
  }

  lemma PathExtend(A: Arena, p: seq<Position>, v: Position)
    requires IsPath(A, p) && Link(A, Last(p), v)
    ensures IsPath(A, p + [v]) && Last(p + [v]) == v && |p + [v]| == |p| + 1
  {
    var q := p + [v];
    forall i | 1 <= i < |q|
      ensures Link(A, q[i - 1], q[i])
    {
      if i < |p| {
        assert q[i - 1] == p[i - 1] && q[i] == p[i];
      }
    }
  }

  lemma PathPrefix(A: Arena, p: seq<Position>)
    requires IsPath(A, p) && |p| >= 2
    ensures IsPath(A, p[..|p| - 1]) && Link(A, Last(p[..|p| - 1]), Last(p))
  {
    var q := p[..|p| - 1];
    assert Link(A, p[|p| - 2], p[|p| - 1]);
    forall i | 1 <= i < |q|
      ensures Link(A, q[i - 1], q[i])
    {
      assert Link(A, p[i - 1], p[i]);
    }
  }

  /**
   * In an arena at least one tile wide and high, a path stays on the arena and moves one free
   * tile at a time: the search's steps are the grid's own.
   */
  lemma {:induction false} PathInArena(A: Arena, p: seq<Position>)
    requires A.width >= 1 && A.height >= 1 && IsPath(A, p)
    ensures forall i :: 0 <= i < |p| ==> InArena(A, p[i])
    ensures forall i :: 1 <= i < |p| ==> Adjacent(p[i - 1], p[i]) && p[i] !in A.tiles
    decreases |p|
  {
    if |p| >= 2 {
      var q := p[..|p| - 1];
      PathPrefix(A, p);
      PathInArena(A, q);
      assert p == q + [Last(p)];
      assert InArena(A, Last(q));
      NeighborsInArena(A, Last(q), Last(p));
    }
  }

  /** More corrupted tiles never open a path: every path of the fuller arena is one of A's. */
  lemma CorruptionOnlyBlocks(A: Arena, B: Arena, p: seq<Position>)
    requires B.width == A.width && B.height == A.height && A.tiles <= B.tiles
    requires IsPath(B, p)
    ensures IsPath(A, p)
  {
    forall i | 1 <= i < |p|
      ensures Link(A, p[i - 1], p[i])
    {
      assert Link(B, p[i - 1], p[i]);
    }
  }

  /**
   * The blocking-byte scan of main (lines 37-42) stops at the first byte that leaves no path,
   * which is right because a later byte can never bring one back.
   */
  lemma BlockedStaysBlocked(A: Arena, b: Position, v: Position)
    ensures !Reachable(A, v) ==> !Reachable(A.(tiles := A.tiles + {b}), v)
  {
    var B := A.(tiles := A.tiles + {b});
    if Reachable(B, v) {
      var p :| IsPath(B, p) && Last(p) == v;
      CorruptionOnlyBlocks(A, B, p);
    }
  }

  // ---------------------------------------------------------------------------------------
  // The search state
  // ---------------------------------------------------------------------------------------

  /** The tiles a search can ever explore: a box that holds (0, 0) and is closed under Link. */
  function Span(n: int): int
  {
    if n < 1 then 1 else n
  }

  function Box(A: Arena): set<Position>
  {
    set x: int, y: int | 0 <= x < Span(A.width) && 0 <= y < Span(A.height) :: Position(x, y)
  }

  lemma LinkInBox(A: Arena, u: Position, v: Position)
    requires u in Box(A) && Link(A, u, v)
    ensures v in Box(A)
  {
    assert v == Position(v.x, v.y);
  }

  lemma StartInBox(A: Arena)
    ensures Start() in Box(A)
  {
    assert Start() == Position(0, 0);
  }

  /** Adding a new tile of the box to the explored set leaves one fewer unexplored. */
  lemma UnexploredShrinks(box: set<Position>, explored: set<Position>, n: Position)
    requires n in box && n !in explored
    ensures |box - (explored + {n})| == |box - explored| - 1
  {
    var rest := box - explored;
    assert box - (explored + {n}) == rest - {n};
    assert rest == (rest - {n}) + {n};
  }

  /** p's recorded distance is one more than that of its cameFrom entry, which it is a neighbour of. */
  ghost predicate Parent(A: Arena, cameFrom: map<Position, Position>, dist: map<Position, nat>, p: Position)
  {
    p in dist && p in cameFrom && cameFrom[p] in dist
    && Link(A, cameFrom[p], p) && dist[p] == dist[cameFrom[p]] + 1
  }

  /** The explored tiles, each with its distance, hang from (0, 0) through cameFrom. */
  ghost predicate Tree(A: Arena, explored: set<Position>, cameFrom: map<Position, Position>, dist: map<Position, nat>)
  {
    dist.Keys == explored && Start() in explored && dist[Start()] == 0
    && forall p :: p in explored && p != Start() ==> Parent(A, cameFrom, dist, p)
  }

  /** No path reaches an explored tile in fewer steps than its recorded distance. */
  ghost predicate Minimal(A: Arena, dist: map<Position, nat>)
  {
    forall p :: IsPath(A, p) && Last(p) in dist ==> dist[Last(p)] <= |p| - 1
  }

  /**
   * Every explored tile that is neither queued nor being expanded has had all its neighbours
   * explored.
   */
  ghost predicate Sealed(A: Arena, explored: set<Position>, frontier: seq<Position>, pending: set<Position>)
  {
    forall a, b :: a in explored && a !in frontier && a !in pending && Link(A, a, b) ==> b in explored
  }

  /**
   * The queue holds distances level and level + 1, in that order; the tile being expanded
   * (pending) is at distance level.
   */
  ghost predicate Layers(frontier: seq<Position>, pending: set<Position>, dist: map<Position, nat>, level: nat)
  {
    (forall i :: 0 <= i < |frontier| ==> frontier[i] in dist && level <= dist[frontier[i]] <= level + 1)
    && (forall i, j :: 0 <= i < j < |frontier| && frontier[i] in dist && frontier[j] in dist ==> dist[frontier[i]] <= dist[frontier[j]])
    && (forall p :: p in pending ==> p in dist && dist[p] == level)
  }

  /**
   * Everything ever queued, in order, each tile once; the queue is its tail, and the queued
   * tiles are the explored ones.
   */
  ghost predicate Queue(enqueued: seq<Position>, frontier: seq<Position>, explored: set<Position>)
  {
    (forall i, j :: 0 <= i < j < |enqueued| ==> enqueued[i] != enqueued[j])
    && |frontier| <= |enqueued| && frontier == enqueued[|enqueued| - |frontier|..]
    && (forall q :: q in enqueued <==> q in explored)
  }

  /** The invariant of the breadth-first search. */
  ghost predicate Bfs(A: Arena, enqueued: seq<Position>, frontier: seq<Position>, pending: set<Position>,
                      explored: set<Position>, cameFrom: map<Position, Position>, dist: map<Position, nat>, level: nat)
  {
    Tree(A, explored, cameFrom, dist)
    && explored <= Box(A) && pending <= explored
    && Queue(enqueued, frontier, explored)
    && Layers(frontier, pending, dist, level)
    && (Goal(A) in explored ==> Goal(A) in frontier || Goal(A) in pending)
    && Sealed(A, explored, frontier, pending)
    && Minimal(A, dist)
  }

  // ---------------------------------------------------------------------------------------
  // Why the invariant gives the answer
  // ---------------------------------------------------------------------------------------

  /** Every explored tile is reached by a path as long as its recorded distance. */
  lemma ChainPath(A: Arena, explored: set<Position>, cameFrom: map<Position, Position>, dist: map<Position, nat>, v: Position)
    returns (p: seq<Position>)
    requires Tree(A, explored, cameFrom, dist) && v in explored
    ensures IsPath(A, p) && Last(p) == v && |p| == dist[v] + 1
    decreases dist[v]
  {
    if v == Start() {
      p := [Start()];
    } else {
      assert Parent(A, cameFrom, dist, v);
      var q := ChainPath(A, explored, cameFrom, dist, cameFrom[v]);
      PathExtend(A, q, v);
      p := q + [v];
    }
  }

  /**
   * A path that leaves the explored tiles crosses the edge at a queued or pending tile that it
   * reaches in more steps than that tile's distance.
   */
  lemma {:induction false} Escape(A: Arena, explored: set<Position>, dist: map<Position, nat>,
                                  frontier: seq<Position>, pending: set<Position>, p: seq<Position>)
    returns (u: Position)
    requires dist.Keys == explored && Start() in explored
    requires Sealed(A, explored, frontier, pending) && Minimal(A, dist)
    requires IsPath(A, p)
    ensures Last(p) in explored || (u in dist && (u in frontier || u in pending) && dist[u] < |p| - 1)
    decreases |p|
  {
    u := Start();
    if Last(p) !in explored {
      var q := p[..|p| - 1];
      PathPrefix(A, p);
      var a := Last(q);
      if a !in explored {
        u := Escape(A, explored, dist, frontier, pending, q);
      } else {
        assert a in frontier || a in pending;
        assert dist[a] <= |q| - 1;
        u := a;
      }
    }
  }

  /** With nothing queued or pending, the search has seen every reachable tile. */
  lemma Exhausted(A: Arena, enqueued: seq<Position>, explored: set<Position>, cameFrom: map<Position, Position>,
                  dist: map<Position, nat>, level: nat)
    requires Bfs(A, enqueued, [], {}, explored, cameFrom, dist, level) == true
    ensures !Reachable(A, Goal(A))
  {
    forall p | IsPath(A, p)
      ensures Last(p) in explored
    {
      var u := Escape(A, explored, dist, [], {}, p);
    }
  }

  // ---------------------------------------------------------------------------------------
  // One step at a time
  // ---------------------------------------------------------------------------------------

  lemma StartBfs(A: Arena)
    ensures Bfs(A, [Start()], [Start()], {}, {Start()}, map[], map[Start() := 0], 0) == true
  {
    StartInBox(A);
    var dist := map[Start() := 0];
    forall p | IsPath(A, p) && Last(p) in dist
      ensures dist[Last(p)] <= |p| - 1
    {
    }
  }

  lemma PopLayers(frontier: seq<Position>, dist: map<Position, nat>, level: nat)
    requires Layers(frontier, {}, dist, level) && |frontier| > 0
    ensures frontier[0] in dist
    ensures Layers(frontier[1..], {frontier[0]}, dist, dist[frontier[0]])
  {
    var current, rest := frontier[0], frontier[1..];
    var lv := dist[current];
    forall i | 0 <= i < |rest|
      ensures rest[i] in dist && lv <= dist[rest[i]] <= lv + 1
    {
      assert rest[i] == frontier[i + 1];
    }
    forall i, j | 0 <= i < j < |rest| && rest[i] in dist && rest[j] in dist
      ensures dist[rest[i]] <= dist[rest[j]]
    {
      assert rest[i] == frontier[i + 1] && rest[j] == frontier[j + 1];
    }
  }

  lemma PopQueue(enqueued: seq<Position>, frontier: seq<Position>, explored: set<Position>)
    requires Queue(enqueued, frontier, explored) && |frontier| > 0
    ensures Queue(enqueued, frontier[1..], explored)
  {
    assert |enqueued| - |frontier[1..]| == |enqueued| - |frontier| + 1;
  }

  lemma PopSealed(A: Arena, explored: set<Position>, frontier: seq<Position>)
    requires Sealed(A, explored, frontier, {}) && |frontier| > 0
    ensures Sealed(A, explored, frontier[1..], {frontier[0]})
  {
    assert frontier == [frontier[0]] + frontier[1..];
  }

  /** Taking the head of the queue: its distance becomes the level. */
  lemma Pop(A: Arena, enqueued: seq<Position>, frontier: seq<Position>, explored: set<Position>,
            cameFrom: map<Position, Position>, dist: map<Position, nat>, level: nat)
    requires Bfs(A, enqueued, frontier, {}, explored, cameFrom, dist, level) == true && |frontier| > 0
    ensures frontier[0] in dist
    ensures Bfs(A, enqueued, frontier[1..], {frontier[0]}, explored, cameFrom, dist, dist[frontier[0]]) == true
  {
    PopLayers(frontier, dist, level);
    PopQueue(enqueued, frontier, explored);
    PopSealed(A, explored, frontier);
    assert frontier == [frontier[0]] + frontier[1..];
  }

  /** The search is at a pending tile current and about to explore its unexplored neighbour n. */
  ghost predicate Discovering(A: Arena, enqueued: seq<Position>, frontier: seq<Position>, current: Position,
                              explored: set<Position>, cameFrom: map<Position, Position>, dist: map<Position, nat>,
                              level: nat, n: Position)
  {
    Bfs(A, enqueued, frontier, {current}, explored, cameFrom, dist, level) && Link(A, current, n) && n !in explored
  }

  lemma DiscoverTree(A: Arena, current: Position, explored: set<Position>, cameFrom: map<Position, Position>,
                     dist: map<Position, nat>, level: nat, n: Position)
    requires Tree(A, explored, cameFrom, dist) == true && explored <= Box(A)
    requires current in explored && dist[current] == level && Link(A, current, n) && n !in explored
    ensures Tree(A, explored + {n}, cameFrom[n := current], dist[n := level + 1]) == true
    ensures explored + {n} <= Box(A) && |Box(A) - (explored + {n})| == |Box(A) - explored| - 1
  {
    var explored', cameFrom', dist' := explored + {n}, cameFrom[n := current], dist[n := level + 1];
    forall p | p in explored' && p != Start()
      ensures Parent(A, cameFrom', dist', p)
    {
      if p != n {
        assert Parent(A, cameFrom, dist, p);
      }
    }
    LinkInBox(A, current, n);
    UnexploredShrinks(Box(A), explored, n);
  }

  lemma DiscoverMinimal(A: Arena, enqueued: seq<Position>, frontier: seq<Position>, current: Position,
                        explored: set<Position>, cameFrom: map<Position, Position>, dist: map<Position, nat>,
                        level: nat, n: Position)
    requires Discovering(A, enqueued, frontier, current, explored, cameFrom, dist, level, n) == true
    ensures Minimal(A, dist[n := level + 1]) == true
  {
    var dist' := dist[n := level + 1];
    forall p | IsPath(A, p) && Last(p) in dist'
      ensures dist'[Last(p)] <= |p| - 1
    {
      if Last(p) == n {
        var u := Escape(A, explored, dist, frontier, {current}, p);
        assert u in frontier ==> exists i :: 0 <= i < |frontier| && frontier[i] == u;
      }
    }
  }

  lemma DiscoverLayers(enqueued: seq<Position>, frontier: seq<Position>, current: Position,
                       explored: set<Position>, dist: map<Position, nat>, level: nat, n: Position)
    requires Layers(frontier, {current}, dist, level) == true && Queue(enqueued, frontier, explored) == true
    requires current in explored && n !in explored
    ensures Layers(frontier + [n], {current}, dist[n := level + 1], level) == true
  {
    var f, dist' := frontier + [n], dist[n := level + 1];
    assert forall q :: q in frontier ==> q in enqueued;
    forall i | 0 <= i < |f|
      ensures f[i] in dist' && level <= dist'[f[i]] <= level + 1
    {
      if i < |frontier| {
        assert f[i] == frontier[i];
      }
    }
    forall i, j | 0 <= i < j < |f| && f[i] in dist' && f[j] in dist'
      ensures dist'[f[i]] <= dist'[f[j]]
    {
      assert f[i] == frontier[i];
      if j < |frontier| {
        assert f[j] == frontier[j];
      }
    }
  }

  lemma DiscoverQueue(enqueued: seq<Position>, frontier: seq<Position>, explored: set<Position>, n: Position)
    requires Queue(enqueued, frontier, explored) == true && n !in explored
    ensures Queue(enqueued + [n], frontier + [n], explored + {n}) == true
  {
    var e := enqueued + [n];
    assert e[|e| - |frontier + [n]|..] == enqueued[|enqueued| - |frontier|..] + [n];
    forall i, j | 0 <= i < j < |e|
      ensures e[i] != e[j]
    {
      assert e[i] == enqueued[i];
      if j < |enqueued| {
        assert e[j] == enqueued[j];
      }
    }
  }

  /** The search explores a new neighbour n of the pending tile at distance level + 1. */
  lemma Discover(A: Arena, enqueued: seq<Position>, frontier: seq<Position>, current: Position,
                 explored: set<Position>, cameFrom: map<Position, Position>, dist: map<Position, nat>,
                 level: nat, n: Position)
    requires Discovering(A, enqueued, frontier, current, explored, cameFrom, dist, level, n) == true
    ensures Bfs(A, enqueued + [n], frontier + [n], {current}, explored + {n}, cameFrom[n := current],
                dist[n := level + 1], level) == true
    ensures |Box(A) - (explored + {n})| == |Box(A) - explored| - 1
  {
    DiscoverTree(A, current, explored, cameFrom, dist, level, n);
    DiscoverMinimal(A, enqueued, frontier, current, explored, cameFrom, dist, level, n);
    DiscoverLayers(enqueued, frontier, current, explored, dist, level, n);
    DiscoverQueue(enqueued, frontier, explored, n);
  }

  /** Once every neighbour of the pending tile is explored, it joins the sealed tiles. */
  lemma Seal(A: Arena, enqueued: seq<Position>, frontier: seq<Position>, current: Position,
             explored: set<Position>, cameFrom: map<Position, Position>, dist: map<Position, nat>, level: nat)
    requires Bfs(A, enqueued, frontier, {current}, explored, cameFrom, dist, level) == true
    requires current != Goal(A)
    requires forall b :: Link(A, current, b) ==> b in explored
    ensures Bfs(A, enqueued, frontier, {}, explored, cameFrom, dist, level) == true
  {
  }

  // ---------------------------------------------------------------------------------------
  // findShortestPath
  // ---------------------------------------------------------------------------------------

  /** One neighbour of the inner loop (lines 101-105): queue it unless it is explored already. */
  method VisitNeighbor(A: Arena, current: Position, neighbor: Position, frontier: seq<Position>, explored: set<Position>,
                       cameFrom: map<Position, Position>, ghost enqueued: seq<Position>, ghost dist: map<Position, nat>,
                       ghost level: nat)
    returns (frontier': seq<Position>, explored': set<Position>, cameFrom': map<Position, Position>,
             ghost enqueued': seq<Position>, ghost dist': map<Position, nat>)
    requires Bfs(A, enqueued, frontier, {current}, explored, cameFrom, dist, level) == true
    requires Link(A, current, neighbor)
    ensures Bfs(A, enqueued', frontier', {current}, explored', cameFrom', dist', level) == true
    ensures explored <= explored' && neighbor in explored'
    ensures |Box(A) - explored'| + |frontier'| == |Box(A) - explored| + |frontier|
    ensures |Box(A) - explored'| <= |Box(A) - explored|
  {
    frontier', explored', cameFrom', enqueued', dist' := frontier, explored, cameFrom, enqueued, dist;
    if neighbor !in explored {
      Discover(A, enqueued, frontier, current, explored, cameFrom, dist, level, neighbor);
      explored' := explored + {neighbor};
      cameFrom' := cameFrom[neighbor := current];
      frontier' := frontier + [neighbor];
      enqueued' := enqueued + [neighbor];
      dist' := dist[neighbor := level + 1];
    }
  }

  lemma PrefixExplored(neighbors: seq<Position>, i: int, before: set<Position>, after: set<Position>)
    requires 0 <= i < |neighbors| && before <= after && neighbors[i] in after
    requires forall k :: 0 <= k < i ==> neighbors[k] in before
    ensures forall k :: 0 <= k < i + 1 ==> neighbors[k] in after
  {
  }

  /** The inner loop of lines 100-106: queue each neighbour of current not explored yet. */
  method ExpandTile(A: Arena, current: Position, frontier: seq<Position>, explored: set<Position>,
                    cameFrom: map<Position, Position>, ghost enqueued: seq<Position>, ghost dist: map<Position, nat>,
                    ghost level: nat)
    returns (frontier': seq<Position>, explored': set<Position>, cameFrom': map<Position, Position>,
             ghost enqueued': seq<Position>, ghost dist': map<Position, nat>)
    requires Bfs(A, enqueued, frontier, {current}, explored, cameFrom, dist, level) == true
    requires current != Goal(A)
    ensures Bfs(A, enqueued', frontier', {}, explored', cameFrom', dist', level) == true
    ensures |Box(A) - explored'| + |frontier'| == |Box(A) - explored| + |frontier|
    ensures |Box(A) - explored'| <= |Box(A) - explored|
  {
    var neighbors := FindNeighbors(A, current);
    frontier', explored', cameFrom', enqueued', dist' := frontier, explored, cameFrom, enqueued, dist;
    for i := 0 to |neighbors|
      invariant Bfs(A, enqueued', frontier', {current}, explored', cameFrom', dist', level) == true
      invariant forall k :: 0 <= k < i ==> neighbors[k] in explored'
      invariant |Box(A) - explored'| + |frontier'| == |Box(A) - explored| + |frontier|
      invariant |Box(A) - explored'| <= |Box(A) - explored|
    {
      ghost var before := explored';
      frontier', explored', cameFrom', enqueued', dist' :=
        VisitNeighbor(A, current, neighbors[i], frontier', explored', cameFrom', enqueued', dist', level);
      PrefixExplored(neighbors, i, before, explored');
    }
    Seal(A, enqueued', frontier', current, explored', cameFrom', dist', level);
  }

  /** Lines 115-121: walk cameFrom back from the goal, collecting the tiles passed (start excluded). */
  method CountPath(A: Arena, explored: set<Position>, cameFrom: map<Position, Position>, ghost dist: map<Position, nat>,
                   goal: Position)
    returns (count: int)
    requires Tree(A, explored, cameFrom, dist) && goal in explored
    ensures count == dist[goal]
  {
    var pathMap: set<Position> := {};
    var current := goal;
    while current != Start()
      invariant current in explored
      invariant |pathMap| == dist[goal] - dist[current]
      invariant forall p :: p in pathMap ==> p in dist && dist[p] > dist[current]
      decreases dist[current]
    {
      assert Parent(A, cameFrom, dist, current);
      pathMap := pathMap + {current};
      current := cameFrom[current];
    }
    count := |pathMap|;
  }

  /**
   * findShortestPath (lines 74-124): breadth-first search from (0, 0). It reports a path
   * exactly when the goal corner is reachable, and then the fewest steps to it; it queues
   * each tile at most once (enqueued, in order), and only tiles that are reachable.
   */
  method FindShortestPath(board: Board) returns (length: int, hasPath: bool, ghost enqueued: seq<Position>)
    ensures hasPath <==> Reachable(board.Snapshot(), Goal(board.Snapshot()))
    ensures hasPath ==> Shortest(board.Snapshot(), Goal(board.Snapshot()), length)
    ensures !hasPath ==> length == -1
    ensures forall i, j :: 0 <= i < j < |enqueued| ==> enqueued[i] != enqueued[j]
    ensures forall q :: q in enqueued ==> Reachable(board.Snapshot(), q)
  {
    var A := board.Snapshot();
    var start := Start();
    var goal := Goal(A);

    var frontier := [start];
    var explored := {start};
    var cameFrom: map<Position, Position> := map[];
    enqueued := [start];
    ghost var dist: map<Position, nat> := map[start := 0];
    ghost var level: nat := 0;
    StartBfs(A);

    var foundGoal := false;
    while |frontier| > 0
      invariant Bfs(A, enqueued, frontier, {}, explored, cameFrom, dist, level) == true
      decreases |Box(A) - explored|, |frontier|
    {
      Pop(A, enqueued, frontier, explored, cameFrom, dist, level);
      var current := frontier[0];
      frontier := frontier[1..];
      level := dist[current];

      if current == goal {
        foundGoal := true;
        break;
      }

      frontier, explored, cameFrom, enqueued, dist := ExpandTile(A, current, frontier, explored, cameFrom, enqueued, dist, level);
    }

    assert Tree(A, explored, cameFrom, dist) && Minimal(A, dist);
    assert forall q :: q in enqueued <==> q in explored;
    forall q | q in enqueued
      ensures Reachable(A, q)
    {
      var p := ChainPath(A, explored, cameFrom, dist, q);
    }

    if !foundGoal {
      Exhausted(A, enqueued, explored, cameFrom, dist, level);
      return -1, false, enqueued;
    }

    var p := ChainPath(A, explored, cameFrom, dist, goal);
    length := CountPath(A, explored, cameFrom, dist, goal);
    hasPath := true;
  }
}

/**
 * Day 12: garden plots. A flood fill splits the board into regions of one plant; a region's
 * price is its area times its perimeter, and in the second part its area times its number of
 * sides, counted as corners.
 */
module Day12 {
  import opened Common

  /** The garden: its size and the plant on every plot. */
  datatype Board = Board(width: int, height: int, plants: map<Position, char>)

  /** A region as findRegions builds it: the plant, the counters and the plots. */
  datatype Region = Region(plant: char, area: int, perimeter: int, cells: set<Position>)

  /** board.plants[p]: the zero rune for a plot the map does not hold. */
  function PlantAt(board: Board, p: Position): char
  {
    if p in board.plants then board.plants[p] else '\0'
  }

  /** A side of the board, where a board without columns (rows) still has column (row) 0. */
  function Extent(n: int): (r: int)
    ensures r >= 1 && (n >= 1 ==> r == n)
  {
    if n < 1 then 1 else n
  }

  /** The plots the search can reach from (0, 0): the board's own plots. */
  predicate InArea(board: Board, p: Position)
  {
    0 <= p.x < Extent(board.width) && 0 <= p.y < Extent(board.height)
  }

  function Area(board: Board): set<Position>
  {
    Rect(Extent(board.width), Extent(board.height))
  }

  /** Row y of a board w plots wide. */
  function Row(w: nat, y: int): set<Position>
  {
    if w == 0 then {} else Row(w - 1, y) + {Position(w - 1, y)}
  }

  /** The plots of a board w wide and h high. */
  function Rect(w: nat, h: nat): set<Position>
  {
    if h == 0 then {} else Rect(w, h - 1) + Row(w, h - 1)
  }

  lemma {:induction false} RowIn(w: nat, y: int, p: Position)
    ensures p in Row(w, y) <==> 0 <= p.x < w && p.y == y
  {
    if w > 0 {
      RowIn(w - 1, y, p);
    }
  }

  lemma {:induction false} RectIn(w: nat, h: nat, p: Position)
    ensures p in Rect(w, h) <==> 0 <= p.x < w && 0 <= p.y < h
  {
    if h > 0 {
      RectIn(w, h - 1, p);
      RowIn(w, h - 1, p);
    }
  }

  lemma AreaIn(board: Board, p: Position)
    ensures p in Area(board) <==> InArea(board, p)
  {
    RectIn(Extent(board.width), Extent(board.height), p);
  }

  // ---------------------------------------------------------------------------------------
  // findNeighbors
  // ---------------------------------------------------------------------------------------

  /** The orthogonal neighbours of pos that lie on the board, in the order left, right, up, down. */
  function FindNeighbors(board: Board, pos: Position): (r: seq<Position>)
    ensures |r| <= 4 && Distinct(r)
    ensures forall n :: n in r ==> Adjacent(pos, n)
    ensures InArea(board, pos) ==> forall n :: n in r <==> InArea(board, n) && Adjacent(pos, n)
  {
    (if pos.x > 0 then [Position(pos.x - 1, pos.y)] else [])
    + (if pos.x < board.width - 1 then [Position(pos.x + 1, pos.y)] else [])
    + (if pos.y > 0 then [Position(pos.x, pos.y - 1)] else [])
    + (if pos.y < board.height - 1 then [Position(pos.x, pos.y + 1)] else [])
  }

  /** No plot appears twice in s. */
  predicate Distinct(s: seq<Position>)
  {
    forall i, j :: 0 <= i < j < |s| ==> s[i] != s[j]
  }

  /** On a board with at least one row and column the search area is exactly the board. */
  lemma AreaIsBoard(board: Board, p: Position)
    requires board.width >= 1 && board.height >= 1
    ensures InArea(board, p) <==> 0 <= p.x < board.width && 0 <= p.y < board.height
  {
  }

  /** Being neighbours is symmetric. */
  lemma NeighborsSymmetric(board: Board, p: Position, q: Position)
    requires InArea(board, p) && q in FindNeighbors(board, p)
    ensures InArea(board, q) && p in FindNeighbors(board, q)
  {
  }

  // ---------------------------------------------------------------------------------------
  // Neighbours of one plant, and the fence of a plot
  // ---------------------------------------------------------------------------------------

  /** The plots of ns growing plant, in order. */
  function SameOf(board: Board, plant: char, ns: seq<Position>): (r: seq<Position>)
    ensures |r| <= |ns|
  {
    if ns == [] then []
    else
      var last := ns[|ns| - 1];
      SameOf(board, plant, ns[..|ns| - 1]) + (if PlantAt(board, last) == plant then [last] else [])
  }

  /** The plots of ns growing another plant, in order. */
  function OtherOf(board: Board, plant: char, ns: seq<Position>): (r: seq<Position>)
    ensures |r| <= |ns|
  {
    if ns == [] then []
    else
      var last := ns[|ns| - 1];
      OtherOf(board, plant, ns[..|ns| - 1]) + (if PlantAt(board, last) != plant then [last] else [])
  }

  /** The two lists split ns by plant: each plot of ns lands in exactly the list its plant picks. */
  lemma {:induction false} SplitIn(board: Board, plant: char, ns: seq<Position>)
    ensures forall n :: n in SameOf(board, plant, ns) <==> n in ns && PlantAt(board, n) == plant
    ensures forall n :: n in OtherOf(board, plant, ns) <==> n in ns && PlantAt(board, n) != plant
  {
    if ns != [] {
      var u := ns[..|ns| - 1];
      SplitIn(board, plant, u);
      assert forall n :: n in ns <==> n in u || n == ns[|ns| - 1];
    }
  }

  /** The fence sides of plot c in a region of plant: 4 less its neighbours of that plant. */
  function Fence(board: Board, plant: char, c: Position): (r: int)
    ensures 0 <= r <= 4
  {
    4 - |SameOf(board, plant, FindNeighbors(board, c))|
  }

  /** The sum of f over a finite set of plots. */
  ghost function SumOver(cells: set<Position>, f: Position -> int): int
    decreases |cells|
  {
    if cells == {} then 0
    else
      var c :| c in cells;
      f(c) + SumOver(cells - {c}, f)
  }

  /** The sum does not depend on which plot is taken first. */
  lemma {:induction false} SumOverRemove(cells: set<Position>, f: Position -> int, c: Position)
    requires c in cells
    ensures SumOver(cells, f) == f(c) + SumOver(cells - {c}, f)
    decreases |cells|
  {
    var d :| d in cells && SumOver(cells, f) == f(d) + SumOver(cells - {d}, f);
    if d != c {
      SumOverRemove(cells - {d}, f, c);
      SumOverRemove(cells - {c}, f, d);
      assert cells - {d} - {c} == cells - {c} - {d};
    }
  }

  /** The perimeter of a region of plant: the fence sides of all its plots. */
  ghost function Fences(board: Board, plant: char, cells: set<Position>): int
    decreases |cells|
  {
    if cells == {} then 0
    else
      var c :| c in cells;
      Fence(board, plant, c) + Fences(board, plant, cells - {c})
  }

  /** Like SumOver, the perimeter does not depend on which plot is taken first. */
  lemma {:induction false} FencesRemove(board: Board, plant: char, cells: set<Position>, c: Position)
    requires c in cells
    ensures Fences(board, plant, cells) == Fence(board, plant, c) + Fences(board, plant, cells - {c})
    decreases |cells|
  {
    var d :| d in cells && Fences(board, plant, cells) == Fence(board, plant, d) + Fences(board, plant, cells - {d});
    if d != c {
      FencesRemove(board, plant, cells - {d}, c);
      FencesRemove(board, plant, cells - {c}, d);
      assert cells - {d} - {c} == cells - {c} - {d};
    }
  }

  // ---------------------------------------------------------------------------------------
  // What a region is
  // ---------------------------------------------------------------------------------------

  /** t walks from a to b over neighbouring plots of plant. */
  ghost predicate IsWalk(board: Board, plant: char, t: seq<Position>, a: Position, b: Position)
  {
    |t| >= 1 && t[0] == a && t[|t| - 1] == b
    && (forall i :: 0 <= i < |t| ==> InArea(board, t[i]) && PlantAt(board, t[i]) == plant)
    && (forall i, j :: 0 <= i && j == i + 1 < |t| ==> t[j] in FindNeighbors(board, t[i]))
  }

  /** Every plot of cells grows plant. */
  ghost predicate OnePlant(board: Board, plant: char, cells: set<Position>)
  {
    forall c :: c in cells ==> InArea(board, c) && PlantAt(board, c) == plant
  }

  /** No neighbour of plant is left out of cells. */
  ghost predicate Closed(board: Board, plant: char, cells: set<Position>)
  {
    forall c, n :: c in cells && n in FindNeighbors(board, c) && PlantAt(board, n) == plant ==> n in cells
  }

  /** region is the region grown from start: the plots of start's plant that can be walked to
    * from start, with its area and perimeter. */
  ghost predicate RegionOf(board: Board, region: Region, start: Position)
  {
    start in region.cells && region.plant == PlantAt(board, start)
    && OnePlant(board, region.plant, region.cells)
    && Closed(board, region.plant, region.cells)
    && (forall c :: c in region.cells ==> exists t :: IsWalk(board, region.plant, t, start, c))
    && region.area == |region.cells|
    && region.perimeter == Fences(board, region.plant, region.cells)
  }

  /** A region holds everything a walk from its start reaches: it is a whole connected component. */
  lemma {:induction false} WalksStayInRegion(board: Board, region: Region, start: Position, t: seq<Position>, c: Position)
    requires RegionOf(board, region, start) && IsWalk(board, region.plant, t, start, c)
    ensures c in region.cells
    decreases |t|
  {
    if |t| > 1 {
      var u := t[..|t| - 1];
      assert IsWalk(board, region.plant, u, start, u[|u| - 1]) by {
        forall i, j | 0 <= i && j == i + 1 < |u|
          ensures u[j] in FindNeighbors(board, u[i])
        {
          assert u[i] == t[i] && u[j] == t[j];
        }
      }
      WalksStayInRegion(board, region, start, u, u[|u| - 1]);
      assert t[|t| - 1] in FindNeighbors(board, t[|t| - 2]);
    }
  }

  /** A plot's fence sides are the sides it does not share with another plot of its region. */
  lemma FenceIsOpenSides(board: Board, region: Region, start: Position, c: Position)
    requires RegionOf(board, region, start) && c in region.cells
    ensures Fence(board, region.plant, c) == 4 - |set n | n in region.cells && Adjacent(c, n)|
  {
    var ns := FindNeighbors(board, c);
    var same := SameOf(board, region.plant, ns);
    var shared := set n | n in region.cells && Adjacent(c, n);
    SplitIn(board, region.plant, ns);
    assert (set n | n in same) == shared;
    SameOfDistinct(board, region.plant, ns);
    DistinctCard(same);
  }

  lemma {:induction false} SameOfDistinct(board: Board, plant: char, ns: seq<Position>)
    requires Distinct(ns)
    ensures Distinct(SameOf(board, plant, ns))
  {
    if ns != [] {
      var u := ns[..|ns| - 1];
      assert forall i, j :: 0 <= i < j < |u| ==> u[i] == ns[i] && u[j] == ns[j];
      SameOfDistinct(board, plant, u);
      SplitIn(board, plant, u);
      assert ns[|ns| - 1] !in SameOf(board, plant, u);
    }
  }

  lemma {:induction false} DistinctCard(s: seq<Position>)
    requires Distinct(s)
    ensures |set n | n in s| == |s|
  {
    if s != [] {
      var u := s[..|s| - 1];
      DistinctCard(u);
      assert (set n | n in s) == (set n | n in u) + {s[|s| - 1]};
      assert s[|s| - 1] !in u;
    }
  }

  // ---------------------------------------------------------------------------------------
  // findRegions: the search for one region
  // ---------------------------------------------------------------------------------------

  /** Every plot of seen that grows the same plant as a neighbour holds that neighbour too. */
  ghost predicate SameClosed(board: Board, seen: set<Position>)
  {
    forall c, n :: c in seen && n in FindNeighbors(board, c) && PlantAt(board, n) == PlantAt(board, c) ==> n in seen
  }

  /** Where the plots of the search for start's region lie. */
  ghost predicate SearchPlaces(board: Board, start: Position, seen0: set<Position>, cells: set<Position>, same: seq<Position>)
  {
    (forall c :: c in cells ==> InArea(board, c) && PlantAt(board, c) == PlantAt(board, start) && c !in seen0)
    && (forall c :: c in same ==> InArea(board, c) && PlantAt(board, c) == PlantAt(board, start) && c !in seen0)
  }

  /** No neighbour of a visited plot is lost: it is visited or queued in one of the frontiers. */
  ghost predicate SearchQueued(board: Board, plant: char, cells: set<Position>, same: seq<Position>, frontier: seq<Position>)
  {
    forall c, n :: c in cells && n in FindNeighbors(board, c) ==> Queued(board, plant, n, cells, same, frontier)
  }

  /** A neighbour n of a visited plot: visited or queued for this region if it grows the plant, else queued for later. */
  ghost predicate Queued(board: Board, plant: char, n: Position, cells: set<Position>, same: seq<Position>, frontier: seq<Position>)
  {
    if PlantAt(board, n) == plant then n in cells || n in same else n in frontier
  }

  /** Every visited or queued plot has a recorded walk from start. */
  ghost predicate SearchWalks(board: Board, start: Position, cells: set<Position>, same: seq<Position>, paths: map<Position, seq<Position>>)
  {
    (forall c :: c in paths ==> IsWalk(board, PlantAt(board, start), paths[c], start, c))
    && (forall c :: c in cells ==> c in paths)
    && (forall c :: c in same ==> c in paths)
  }

  /** The state of the inner loop of findRegions between two pops of sameRegionFrontier. */
  ghost predicate Searching(board: Board, start: Position, seen0: set<Position>, frontier0: seq<Position>,
                            cells: set<Position>, same: seq<Position>, frontier: seq<Position>,
                            paths: map<Position, seq<Position>>)
  {
    SearchPlaces(board, start, seen0, cells, same)
    && SearchQueued(board, PlantAt(board, start), cells, same, frontier)
    && frontier0 <= frontier && (forall p :: p in frontier ==> InArea(board, p))
    && (if cells == {} then same == [start] else start in cells)
    && SearchWalks(board, start, cells, same, paths)
  }

  /** A walk to cur followed by a neighbour of the same plant is a walk. */
  lemma WalkExtend(board: Board, plant: char, t: seq<Position>, a: Position, cur: Position, n: Position)
    requires IsWalk(board, plant, t, a, cur) && n in FindNeighbors(board, cur)
    requires PlantAt(board, n) == plant
    ensures IsWalk(board, plant, t + [n], a, n)
  {
    assert cur == t[|t| - 1];
    NeighborsSymmetric(board, cur, n);
    ExtendPlaces(board, plant, t, n);
    ExtendSteps(board, t, n);
  }

  lemma ExtendPlaces(board: Board, plant: char, t: seq<Position>, n: Position)
    requires forall i :: 0 <= i < |t| ==> InArea(board, t[i]) && PlantAt(board, t[i]) == plant
    requires InArea(board, n) && PlantAt(board, n) == plant
    ensures forall i :: 0 <= i < |t + [n]| ==> InArea(board, (t + [n])[i]) && PlantAt(board, (t + [n])[i]) == plant
  {
    var u := t + [n];
    forall i | 0 <= i < |u|
      ensures InArea(board, u[i]) && PlantAt(board, u[i]) == plant
    {
      if i < |t| {
        assert u[i] == t[i];
      }
    }
  }

  lemma ExtendSteps(board: Board, t: seq<Position>, n: Position)
    requires |t| >= 1 && n in FindNeighbors(board, t[|t| - 1])
    requires forall i, j :: 0 <= i && j == i + 1 < |t| ==> t[j] in FindNeighbors(board, t[i])
    ensures forall i, j :: 0 <= i && j == i + 1 < |t + [n]| ==> (t + [n])[j] in FindNeighbors(board, (t + [n])[i])
  {
    var u := t + [n];
    forall i, j | 0 <= i && j == i + 1 < |u|
      ensures u[j] in FindNeighbors(board, u[i])
    {
      if j < |t| {
        assert u[i] == t[i] && u[j] == t[j];
      } else {
        assert u[i] == t[|t| - 1] && u[j] == n;
      }
    }
  }

  /** A same-plant neighbour of a plot outside a same-closed set is outside it too. */
  lemma StaysOut(board: Board, seen: set<Position>, c: Position, n: Position)
    requires SameClosed(board, seen) && InArea(board, c) && c !in seen
    requires n in FindNeighbors(board, c) && PlantAt(board, n) == PlantAt(board, c)
    ensures n !in seen
  {
    NeighborsSymmetric(board, c, n);
  }

  /** Popping a plot that was already visited keeps the search state. */
  lemma SearchSkip(board: Board, start: Position, seen0: set<Position>, frontier0: seq<Position>,
                   cells: set<Position>, same: seq<Position>, frontier: seq<Position>,
                   paths: map<Position, seq<Position>>)
    requires |same| > 0 && same[0] in cells
    requires Searching(board, start, seen0, frontier0, cells, same, frontier, paths)
    ensures Searching(board, start, seen0, frontier0, cells, same[1..], frontier, paths)
  {
    SkipPlaces(board, start, seen0, cells, same);
    SkipQueued(board, PlantAt(board, start), cells, same, frontier);
    SkipWalks(board, start, cells, same, paths);
  }

  lemma SkipPlaces(board: Board, start: Position, seen0: set<Position>, cells: set<Position>, same: seq<Position>)
    requires |same| > 0 && SearchPlaces(board, start, seen0, cells, same)
    ensures SearchPlaces(board, start, seen0, cells, same[1..])
  {
    assert forall n :: n in same[1..] ==> n in same;
  }

  lemma SkipQueued(board: Board, plant: char, cells: set<Position>, same: seq<Position>, frontier: seq<Position>)
    requires |same| > 0 && same[0] in cells
    requires SearchQueued(board, plant, cells, same, frontier)
    ensures SearchQueued(board, plant, cells, same[1..], frontier)
  {
    forall c, n | c in cells && n in FindNeighbors(board, c)
      ensures Queued(board, plant, n, cells, same[1..], frontier)
    {
      assert Queued(board, plant, n, cells, same, frontier);
      assert n in same ==> n == same[0] || n in same[1..];
    }
  }

  lemma SkipWalks(board: Board, start: Position, cells: set<Position>, same: seq<Position>,
                  paths: map<Position, seq<Position>>)
    requires |same| > 0 && SearchWalks(board, start, cells, same, paths)
    ensures SearchWalks(board, start, cells, same[1..], paths)
  {
    assert forall n :: n in same[1..] ==> n in same;
  }

  /** Visiting a new plot cur: mark it, queue its neighbours, extend the walks. */
  lemma SearchVisit(board: Board, start: Position, seen0: set<Position>, frontier0: seq<Position>,
                    cells: set<Position>, same: seq<Position>, frontier: seq<Position>,
                    paths: map<Position, seq<Position>>, same': seq<Position>, frontier': seq<Position>)
    returns (paths': map<Position, seq<Position>>)
    requires |same| > 0 && same[0] !in cells
    requires SameClosed(board, seen0)
    requires Searching(board, start, seen0, frontier0, cells, same, frontier, paths)
    requires same' == same[1..] + SameOf(board, PlantAt(board, start), FindNeighbors(board, same[0]))
    requires frontier' == frontier + OtherOf(board, PlantAt(board, start), FindNeighbors(board, same[0]))
    ensures Searching(board, start, seen0, frontier0, cells + {same[0]}, same', frontier', paths')
  {
    var cur := same[0];
    var plant := PlantAt(board, start);
    var ns := FindNeighbors(board, cur);
    VisitPlaces(board, start, seen0, cells, same, ns);
    VisitQueued(board, plant, cells, same, frontier, ns);
    paths' := paths + map n | n in SameOf(board, plant, ns) :: paths[cur] + [n];
    VisitWalks(board, start, cells, same, paths, ns);
    VisitFrontier(board, plant, cur, frontier0, frontier, ns);
  }

  lemma VisitFrontier(board: Board, plant: char, cur: Position, frontier0: seq<Position>, frontier: seq<Position>,
                      ns: seq<Position>)
    requires InArea(board, cur) && ns == FindNeighbors(board, cur)
    requires frontier0 <= frontier && forall p :: p in frontier ==> InArea(board, p)
    ensures var frontier' := frontier + OtherOf(board, plant, ns);
      frontier0 <= frontier' && forall p :: p in frontier' ==> InArea(board, p)
  {
    SplitIn(board, plant, ns);
    var frontier' := frontier + OtherOf(board, plant, ns);
    assert forall p :: p in frontier' ==> p in frontier || p in ns;
    assert frontier'[..|frontier|] == frontier;
  }

  lemma VisitPlaces(board: Board, start: Position, seen0: set<Position>, cells: set<Position>, same: seq<Position>,
                    ns: seq<Position>)
    requires |same| > 0 && ns == FindNeighbors(board, same[0])
    requires SameClosed(board, seen0) && SearchPlaces(board, start, seen0, cells, same)
    ensures SearchPlaces(board, start, seen0, cells + {same[0]}, same[1..] + SameOf(board, PlantAt(board, start), ns))
  {
    var cur := same[0];
    assert InArea(board, cur) && cur !in seen0 && PlantAt(board, cur) == PlantAt(board, start);
    SplitIn(board, PlantAt(board, start), ns);
    forall n | n in SameOf(board, PlantAt(board, start), ns)
      ensures InArea(board, n) && n !in seen0
    {
      StaysOut(board, seen0, cur, n);
    }
    assert forall n :: n in same[1..] ==> n in same;
  }

  lemma VisitQueued(board: Board, plant: char, cells: set<Position>, same: seq<Position>, frontier: seq<Position>,
                    ns: seq<Position>)
    requires |same| > 0 && ns == FindNeighbors(board, same[0])
    requires SearchQueued(board, plant, cells, same, frontier)
    ensures SearchQueued(board, plant, cells + {same[0]}, same[1..] + SameOf(board, plant, ns), frontier + OtherOf(board, plant, ns))
  {
    var cur, cells', same', frontier' := same[0], cells + {same[0]}, same[1..] + SameOf(board, plant, ns), frontier + OtherOf(board, plant, ns);
    SplitIn(board, plant, ns);
    forall c, n | c in cells' && n in FindNeighbors(board, c)
      ensures Queued(board, plant, n, cells', same', frontier')
    {
      if c == cur {
        if PlantAt(board, n) == plant {
          assert n in SameOf(board, plant, ns);
        } else {
          assert n in OtherOf(board, plant, ns);
        }
      } else {
        assert Queued(board, plant, n, cells, same, frontier);
        if PlantAt(board, n) == plant && n != cur && n !in cells {
          assert n in same[1..];
        }
      }
    }
  }

  lemma VisitWalks(board: Board, start: Position, cells: set<Position>, same: seq<Position>,
                   paths: map<Position, seq<Position>>, ns: seq<Position>)
    requires |same| > 0 && ns == FindNeighbors(board, same[0])
    requires SearchWalks(board, start, cells, same, paths)
    ensures var plant := PlantAt(board, start);
      SearchWalks(board, start, cells + {same[0]}, same[1..] + SameOf(board, plant, ns),
                  paths + map n | n in SameOf(board, plant, ns) :: paths[same[0]] + [n])
  {
    var cur := same[0];
    var plant := PlantAt(board, start);
    var added := map n | n in SameOf(board, plant, ns) :: paths[cur] + [n];
    SplitIn(board, plant, ns);
    var paths' := paths + added;
    forall c | c in paths'
      ensures IsWalk(board, plant, paths'[c], start, c)
    {
      if c in added {
        assert paths'[c] == paths[cur] + [c];
        WalkExtend(board, plant, paths[cur], start, cur, c);
      } else {
        assert paths'[c] == paths[c];
      }
    }
    assert forall n :: n in same[1..] ==> n in same;
  }

  /** Visiting one more plot (and maybe others) leaves fewer plots to visit. */
  lemma LessLeft(board: Board, cells: set<Position>, cur: Position, more: set<Position>)
    requires InArea(board, cur) && cur !in cells && cur in more && cells <= more
    ensures |Area(board) - more| < |Area(board) - cells|
  {
    AreaIn(board, cur);
    var left := Area(board) - cells;
    assert left == (left - {cur}) + {cur};
    SubsetCard(Area(board) - more, left - {cur});
  }

  lemma {:induction false} SubsetCard(a: set<Position>, b: set<Position>)
    requires a <= b
    ensures |a| <= |b|
    decreases |b|
  {
    if a != {} {
      var x :| x in a;
      SubsetCard(a - {x}, b - {x});
    }
  }

  /**
   * The inner loop of findRegions (lines 84-125): grow the region of start over sameRegionFrontier,
   * queueing neighbours of other plants on newRegionFrontier.
   */
  method SearchRegion(board: Board, start: Position, seen0: set<Position>, frontier0: seq<Position>)
    returns (region: Region, seen: set<Position>, frontier: seq<Position>)
    requires InArea(board, start) && start !in seen0
    requires SameClosed(board, seen0)
    requires forall p :: p in frontier0 ==> InArea(board, p)
    ensures RegionOf(board, region, start) && forall c :: c in region.cells ==> InArea(board, c)
    ensures region.cells !! seen0 && seen == seen0 + region.cells
    ensures frontier0 <= frontier && forall p :: p in frontier ==> InArea(board, p)
    ensures forall c, n :: c in region.cells && n in FindNeighbors(board, c) && PlantAt(board, n) != region.plant ==> n in frontier
  {
    var plant := PlantAt(board, start);
    var area, perimeter := 0, 0;
    var same := [start];
    var cells: set<Position> := {};
    seen, frontier := seen0, frontier0;
    ghost var paths := map[start := [start]];
    while |same| > 0
      invariant Searching(board, start, seen0, frontier0, cells, same, frontier, paths)
      invariant seen == seen0 + cells
      invariant area == |cells| && perimeter == Fences(board, plant, cells)
      decreases |Area(board) - cells|, |same|
    {
      var cur := same[0];
      if cur in cells {
        SearchSkip(board, start, seen0, frontier0, cells, same, frontier, paths);
        same := same[1..];
      } else {
        LessLeft(board, cells, cur, cells + {cur});
        cells, same, frontier, seen, area, perimeter, paths :=
          VisitPlot(board, start, seen0, frontier0, cells, same, frontier, seen, area, perimeter, paths);
      }
    }
    region := Region(plant, area, perimeter, cells);
    SearchDone(board, start, seen0, frontier0, region, frontier, paths);
  }

  /** One visit of the inner loop (lines 93-117): mark the popped plot, sort its neighbours, count its fence. */
  method VisitPlot(board: Board, start: Position, ghost seen0: set<Position>, ghost frontier0: seq<Position>,
                   cells: set<Position>, same: seq<Position>, frontier: seq<Position>, seen: set<Position>,
                   area: int, perimeter: int, ghost paths: map<Position, seq<Position>>)
    returns (cells': set<Position>, same': seq<Position>, frontier': seq<Position>, seen': set<Position>,
             area': int, perimeter': int, ghost paths': map<Position, seq<Position>>)
    requires |same| > 0 && same[0] !in cells
    requires SameClosed(board, seen0)
    requires Searching(board, start, seen0, frontier0, cells, same, frontier, paths)
    requires seen == seen0 + cells
    requires area == |cells| && perimeter == Fences(board, PlantAt(board, start), cells)
    ensures Searching(board, start, seen0, frontier0, cells', same', frontier', paths')
    ensures cells' == cells + {same[0]} && seen' == seen0 + cells'
    ensures area' == |cells'| && perimeter' == Fences(board, PlantAt(board, start), cells')
  {
    var plant := PlantAt(board, start);
    var cur := same[0];
    cells' := cells + {cur};
    seen' := seen + {cur};
    var neighbors := FindNeighbors(board, cur);
    var count;
    count, same', frontier' := SortNeighbors(board, plant, neighbors, same[1..], frontier);
    area' := area + 1;
    perimeter' := perimeter + 4 - count;
    paths' := SearchVisit(board, start, seen0, frontier0, cells, same, frontier, paths, same', frontier');
    FencesAdd(board, plant, cells, cur);
    OneMore(seen0, cells, seen, cur);
  }

  /** Marking cur in both seenInRegion and seenRegions keeps the one the other plus the earlier regions. */
  lemma OneMore(seen0: set<Position>, cells: set<Position>, seen: set<Position>, cur: Position)
    requires seen == seen0 + cells && cur !in cells
    ensures seen + {cur} == seen0 + (cells + {cur})
    ensures |cells + {cur}| == |cells| + 1
  {
  }

  /** When sameRegionFrontier runs empty the visited plots form the region of start. */
  lemma SearchDone(board: Board, start: Position, seen0: set<Position>, frontier0: seq<Position>,
                   region: Region, frontier: seq<Position>, paths: map<Position, seq<Position>>)
    requires Searching(board, start, seen0, frontier0, region.cells, [], frontier, paths)
    requires region.plant == PlantAt(board, start)
    requires region.area == |region.cells| && region.perimeter == Fences(board, region.plant, region.cells)
    ensures RegionOf(board, region, start) && forall c :: c in region.cells ==> InArea(board, c)
    ensures region.cells !! seen0
    ensures forall c, n :: c in region.cells && n in FindNeighbors(board, c) && PlantAt(board, n) != region.plant ==> n in frontier
  {
    var cells := region.cells;
    assert SearchQueued(board, region.plant, cells, [], frontier);
    assert Closed(board, region.plant, cells) by {
      forall c, n | c in cells && n in FindNeighbors(board, c) && PlantAt(board, n) == region.plant
        ensures n in cells
      {
        assert Queued(board, region.plant, n, cells, [], frontier);
      }
    }
    forall c, n | c in cells && n in FindNeighbors(board, c) && PlantAt(board, n) != region.plant
      ensures n in frontier
    {
      assert Queued(board, region.plant, n, cells, [], frontier);
    }
    forall c | c in cells
      ensures exists t :: IsWalk(board, region.plant, t, start, c)
    {
      assert IsWalk(board, region.plant, paths[c], start, c);
    }
  }

  /** A visited plot adds its fence sides to the perimeter. */
  lemma FencesAdd(board: Board, plant: char, cells: set<Position>, cur: Position)
    requires cur !in cells
    ensures Fences(board, plant, cells + {cur}) == Fences(board, plant, cells) + 4 - |SameOf(board, plant, FindNeighbors(board, cur))|
  {
    FencesRemove(board, plant, cells + {cur}, cur);
    assert cells + {cur} - {cur} == cells;
  }

  /** The loop over the neighbours of one plot (lines 103-114). */
  method SortNeighbors(board: Board, plant: char, neighbors: seq<Position>, same0: seq<Position>, frontier0: seq<Position>)
    returns (count: int, same: seq<Position>, frontier: seq<Position>)
    ensures count == |SameOf(board, plant, neighbors)|
    ensures same == same0 + SameOf(board, plant, neighbors)
    ensures frontier == frontier0 + OtherOf(board, plant, neighbors)
  {
    count, same, frontier := 0, same0, frontier0;
    for i := 0 to |neighbors|
      invariant count == |SameOf(board, plant, neighbors[..i])|
      invariant same == same0 + SameOf(board, plant, neighbors[..i])
      invariant frontier == frontier0 + OtherOf(board, plant, neighbors[..i])
    {
      SplitStep(board, plant, neighbors, i);
      ghost var sameSoFar, otherSoFar := SameOf(board, plant, neighbors[..i]), OtherOf(board, plant, neighbors[..i]);
      if PlantAt(board, neighbors[i]) == plant {
        count := count + 1;
      }
      if PlantAt(board, neighbors[i]) == plant {
        same := same + [neighbors[i]];
        assert same == same0 + (sameSoFar + [neighbors[i]]);
      } else {
        frontier := frontier + [neighbors[i]];
        assert frontier == frontier0 + (otherSoFar + [neighbors[i]]);
      }
    }
    assert neighbors[..|neighbors|] == neighbors;
  }

  /** One more neighbour goes to exactly one of the two lists. */
  lemma SplitStep(board: Board, plant: char, ns: seq<Position>, i: int)
    requires 0 <= i < |ns|
    ensures SameOf(board, plant, ns[..i + 1]) == SameOf(board, plant, ns[..i]) + (if PlantAt(board, ns[i]) == plant then [ns[i]] else [])
    ensures OtherOf(board, plant, ns[..i + 1]) == OtherOf(board, plant, ns[..i]) + (if PlantAt(board, ns[i]) != plant then [ns[i]] else [])
  {
    assert ns[..i + 1][..i] == ns[..i];
  }

  // ---------------------------------------------------------------------------------------
  // findRegions: the search over all regions
  // ---------------------------------------------------------------------------------------

  /** The plots of all regions. */
  function Covered(regions: seq<Region>): set<Position>
  {
    if regions == [] then {} else Covered(regions[..|regions| - 1]) + regions[|regions| - 1].cells
  }

  lemma {:induction false} CoveredHas(regions: seq<Region>, i: int)
    requires 0 <= i < |regions|
    ensures regions[i].cells <= Covered(regions)
    decreases |regions|
  {
    if i < |regions| - 1 {
      CoveredHas(regions[..|regions| - 1], i);
    }
  }

  /** A set apart from every region is apart from their plots. */
  lemma {:induction false} CoveredDisjoint(regions: seq<Region>, s: set<Position>)
    requires forall i :: 0 <= i < |regions| ==> regions[i].cells !! s
    ensures Covered(regions) !! s
  {
    if regions != [] {
      CoveredDisjoint(regions[..|regions| - 1], s);
    }
  }

  /** The state of the outer loop of findRegions before the next pop of newRegionFrontier. */
  ghost predicate Exploring(board: Board, regions: seq<Region>, starts: seq<Position>, seen: set<Position>, frontier: seq<Position>)
  {
    Partition(board, regions, starts, seen) && Reaching(board, seen, frontier)
  }

  /** The regions found so far are disjoint regions of the board and together make up seen. */
  ghost predicate Partition(board: Board, regions: seq<Region>, starts: seq<Position>, seen: set<Position>)
  {
    |starts| == |regions|
    && (forall i :: 0 <= i < |regions| ==> RegionOf(board, regions[i], starts[i]))
    && (forall i, j :: 0 <= i < j < |regions| ==> regions[i].cells !! regions[j].cells)
    && seen == Covered(regions)
  }

  /** seen lies in the area, holds whole regions, and its outside neighbours (and (0, 0) if not seen) are queued. */
  ghost predicate Reaching(board: Board, seen: set<Position>, frontier: seq<Position>)
  {
    (forall c :: c in seen ==> InArea(board, c))
    && SameClosed(board, seen)
    && (forall p :: p in frontier ==> InArea(board, p))
    && (forall c, n :: c in seen && n in FindNeighbors(board, c) ==> n in seen || n in frontier)
    && (Position(0, 0) in seen || Position(0, 0) in frontier)
  }

  /** What searchRegion leaves behind: the region of start, its plots added to seen, its other-plant neighbours queued. */
  ghost predicate Grown(board: Board, start: Position, seen: set<Position>, rest: seq<Position>,
                        region: Region, seen': set<Position>, frontier': seq<Position>)
  {
    RegionOf(board, region, start) && (forall c :: c in region.cells ==> InArea(board, c))
    && region.cells !! seen && seen' == seen + region.cells
    && rest <= frontier' && (forall p :: p in frontier' ==> InArea(board, p))
    && (forall c, n :: c in region.cells && n in FindNeighbors(board, c) && PlantAt(board, n) != region.plant ==> n in frontier')
  }

  /** Adding the region grown from the popped plot keeps the outer state, and leaves fewer plots to visit. */
  lemma ExploreRegion(board: Board, regions: seq<Region>, starts: seq<Position>, seen: set<Position>, frontier: seq<Position>,
                      region: Region, seen': set<Position>, frontier': seq<Position>)
    requires |frontier| > 0
    ensures Exploring(board, regions, starts, seen, frontier) && frontier[0] !in seen
            && Grown(board, frontier[0], seen, frontier[1..], region, seen', frontier')
            ==> Exploring(board, regions + [region], starts + [frontier[0]], seen', frontier')
                && |Area(board) - seen'| < |Area(board) - seen|
  {
    if Exploring(board, regions, starts, seen, frontier) && frontier[0] !in seen
       && Grown(board, frontier[0], seen, frontier[1..], region, seen', frontier') {
      ExploreRegionsOf(board, regions, starts, region, frontier[0]);
      ExploreDisjoint(regions, region);
      CoveredAppend(regions, region);
      ExploreClosed(board, seen, region, frontier[0]);
      ExploreOpen(board, seen, frontier, region, frontier');
      var origin := Position(0, 0);
      if origin !in seen && origin != frontier[0] {
        assert origin in frontier[1..];
      }
      LessLeft(board, seen, frontier[0], seen');
    }
  }

  lemma CoveredAppend(regions: seq<Region>, region: Region)
    ensures Covered(regions + [region]) == Covered(regions) + region.cells
  {
    assert (regions + [region])[..|regions|] == regions;
  }

  lemma ExploreRegionsOf(board: Board, regions: seq<Region>, starts: seq<Position>, region: Region, start: Position)
    requires |starts| == |regions|
    requires forall i :: 0 <= i < |regions| ==> RegionOf(board, regions[i], starts[i])
    requires RegionOf(board, region, start)
    ensures forall i :: 0 <= i < |regions + [region]| ==> RegionOf(board, (regions + [region])[i], (starts + [start])[i])
  {
  }

  lemma ExploreDisjoint(regions: seq<Region>, region: Region)
    requires forall i, j :: 0 <= i < j < |regions| ==> regions[i].cells !! regions[j].cells
    requires region.cells !! Covered(regions)
    ensures forall i, j :: 0 <= i < j < |regions + [region]| ==> (regions + [region])[i].cells !! (regions + [region])[j].cells
  {
    forall i | 0 <= i < |regions|
      ensures regions[i].cells !! region.cells
    {
      CoveredHas(regions, i);
    }
  }

  lemma ExploreClosed(board: Board, seen: set<Position>, region: Region, start: Position)
    requires SameClosed(board, seen) && RegionOf(board, region, start)
    ensures SameClosed(board, seen + region.cells)
  {
    assert OnePlant(board, region.plant, region.cells);
    assert Closed(board, region.plant, region.cells);
  }

  lemma ExploreOpen(board: Board, seen: set<Position>, frontier: seq<Position>, region: Region, frontier': seq<Position>)
    requires |frontier| > 0 && frontier[0] in region.cells
    requires forall c, n :: c in seen && n in FindNeighbors(board, c) ==> n in seen || n in frontier
    requires Closed(board, region.plant, region.cells)
    requires frontier[1..] <= frontier'
    requires forall c, n :: c in region.cells && n in FindNeighbors(board, c) && PlantAt(board, n) != region.plant ==> n in frontier'
    ensures forall c, n :: c in seen + region.cells && n in FindNeighbors(board, c) ==> n in seen + region.cells || n in frontier'
  {
    assert forall p :: p in frontier ==> p == frontier[0] || p in frontier[1..];
    assert forall p :: p in frontier[1..] ==> p in frontier';
  }

  /** Popping a plot that some region already holds keeps the outer state. */
  lemma ExploreSkip(board: Board, regions: seq<Region>, starts: seq<Position>, seen: set<Position>, frontier: seq<Position>)
    requires |frontier| > 0 && frontier[0] in seen && Exploring(board, regions, starts, seen, frontier)
    ensures Exploring(board, regions, starts, seen, frontier[1..])
  {
    assert forall p :: p in frontier ==> p == frontier[0] || p in frontier[1..];
  }

  /** A set of plots that holds (0, 0) and all neighbours of its plots is the whole area. */
  lemma AreaReached(board: Board, seen: set<Position>, p: Position)
    requires Position(0, 0) in seen
    requires forall c, n :: c in seen && n in FindNeighbors(board, c) ==> n in seen
    requires InArea(board, p)
    ensures p in seen
    decreases p.x + p.y
  {
    if p.x > 0 {
      var q := Position(p.x - 1, p.y);
      AreaReached(board, seen, q);
      assert p in FindNeighbors(board, q);
    } else if p.y > 0 {
      var q := Position(p.x, p.y - 1);
      AreaReached(board, seen, q);
      assert p in FindNeighbors(board, q);
    }
  }

  /** One pass of the outer loop of findRegions whose popped plot starts a new region (lines 84-125). */
  method ExploreFrom(board: Board, regions: seq<Region>, ghost starts: seq<Position>, seen: set<Position>, frontier: seq<Position>)
    returns (regions': seq<Region>, ghost starts': seq<Position>, seen': set<Position>, frontier': seq<Position>)
    requires |frontier| > 0 && frontier[0] !in seen && Exploring(board, regions, starts, seen, frontier)
    ensures Exploring(board, regions', starts', seen', frontier')
    ensures |Area(board) - seen'| < |Area(board) - seen|
  {
    var start := frontier[0];
    var region;
    region, seen', frontier' := SearchRegion(board, start, seen, frontier[1..]);
    ExploreRegion(board, regions, starts, seen, frontier, region, seen', frontier');
    regions', starts' := regions + [region], starts + [start];
  }

  /** Once the frontier is empty, the regions found cover the whole area. */
  lemma ExploreDone(board: Board, regions: seq<Region>, starts: seq<Position>, seen: set<Position>)
    requires Exploring(board, regions, starts, seen, [])
    ensures seen == Area(board)
  {
    assert forall c, n :: c in seen && n in FindNeighbors(board, c) ==> n in seen;
    forall p
      ensures p in seen <==> p in Area(board)
    {
      AreaIn(board, p);
      if InArea(board, p) {
        AreaReached(board, seen, p);
      }
    }
  }

  /**
   * findRegions (lines 61-130): the regions of the board, each the connected plots of one plant
   * grown from a start plot; they are disjoint and together cover the board.
   */
  method FindRegions(board: Board) returns (regions: seq<Region>, ghost starts: seq<Position>)
    ensures |starts| == |regions|
    ensures forall i :: 0 <= i < |regions| ==> RegionOf(board, regions[i], starts[i])
    ensures forall i, j :: 0 <= i < j < |regions| ==> regions[i].cells !! regions[j].cells
    ensures Covered(regions) == Area(board)
  {
    var frontier := [Position(0, 0)];
    var seen: set<Position> := {};
    regions, starts := [], [];
    while |frontier| > 0
      invariant Exploring(board, regions, starts, seen, frontier)
      decreases |Area(board) - seen|, |frontier|
    {
      var start := frontier[0];
      if start in seen {
        ExploreSkip(board, regions, starts, seen, frontier);
        frontier := frontier[1..];
      } else {
        regions, starts, seen, frontier := ExploreFrom(board, regions, starts, seen, frontier);
      }
    }
    ExploreDone(board, regions, starts, seen);
  }

  // ---------------------------------------------------------------------------------------
  // The areas add up to the board
  // ---------------------------------------------------------------------------------------

  function TotalArea(regions: seq<Region>): int
  {
    if regions == [] then 0 else TotalArea(regions[..|regions| - 1]) + regions[|regions| - 1].area
  }

  /** Disjoint regions whose areas count their plots have areas adding up to the plots covered. */
  lemma {:induction false} TotalAreaCovered(regions: seq<Region>)
    requires forall i :: 0 <= i < |regions| ==> regions[i].area == |regions[i].cells|
    requires forall i, j :: 0 <= i < j < |regions| ==> regions[i].cells !! regions[j].cells
    ensures TotalArea(regions) == |Covered(regions)|
  {
    if regions != [] {
      var front := regions[..|regions| - 1];
      TotalAreaCovered(front);
      forall i | 0 <= i < |front|
        ensures front[i].cells !! regions[|regions| - 1].cells
      {
        CoveredHas(front, i);
        assert front[i] == regions[i];
      }
      CoveredDisjoint(front, regions[|regions| - 1].cells);
    }
  }

  lemma {:induction false} RowCard(w: nat, y: int)
    ensures |Row(w, y)| == w
  {
    if w > 0 {
      RowCard(w - 1, y);
      RowIn(w - 1, y, Position(w - 1, y));
    }
  }

  /** w * h as repeated addition, row by row. */
  function Times(w: nat, h: nat): nat
  {
    if h == 0 then 0 else Times(w, h - 1) + w
  }

  lemma {:induction false} TimesIsMul(w: nat, h: nat)
    ensures Times(w, h) == w * h
  {
    if h > 0 {
      TimesIsMul(w, h - 1);
      MulStep(w, h);
    }
  }

  lemma {:induction false} RectCard(w: nat, h: nat)
    ensures |Rect(w, h)| == Times(w, h)
  {
    if h > 0 {
      RectCard(w, h - 1);
      RowCard(w, h - 1);
      RectSplit(w, h);
    }
  }

  lemma RectSplit(w: nat, h: nat)
    requires h > 0
    ensures |Rect(w, h)| == |Rect(w, h - 1)| + |Row(w, h - 1)|
  {
    var above, last := Rect(w, h - 1), Row(w, h - 1);
    forall p | p in above
      ensures p.y < h - 1
    {
      RectIn(w, h - 1, p);
    }
    forall p | p in last
      ensures p.y == h - 1
    {
      RowIn(w, h - 1, p);
    }
    assert above !! last;
  }

  lemma MulStep(w: nat, h: nat)
    requires h > 0
    ensures w * h == w * (h - 1) + w
  {
  }

  /** The regions findRegions returns have areas adding up to the number of plots, width * height. */
  lemma RegionAreasFillBoard(board: Board, regions: seq<Region>, starts: seq<Position>)
    requires |starts| == |regions|
    requires forall i :: 0 <= i < |regions| ==> RegionOf(board, regions[i], starts[i])
    requires forall i, j :: 0 <= i < j < |regions| ==> regions[i].cells !! regions[j].cells
    requires Covered(regions) == Area(board)
    ensures TotalArea(regions) == Extent(board.width) * Extent(board.height)
    ensures board.width >= 1 && board.height >= 1 ==> TotalArea(regions) == board.width * board.height
  {
    TotalAreaCovered(regions);
    RectCard(Extent(board.width), Extent(board.height));
    TimesIsMul(Extent(board.width), Extent(board.height));
  }

  // ---------------------------------------------------------------------------------------
  // calcTotalCost
  // ---------------------------------------------------------------------------------------

  /** The fencing price: area times perimeter, summed over the regions. */
  function TotalCost(regions: seq<Region>): int
  {
    if regions == [] then 0
    else
      var last := regions[|regions| - 1];
      TotalCost(regions[..|regions| - 1]) + last.area * last.perimeter
  }

  /** calcTotalCost (lines 151-159). */
  method CalcTotalCost(regions: seq<Region>) returns (sum: int)
    ensures sum == TotalCost(regions)
  {
    sum := 0;
    for i := 0 to |regions|
      invariant sum == TotalCost(regions[..i])
    {
      assert regions[..i + 1][..i] == regions[..i];
      sum := sum + regions[i].area * regions[i].perimeter;
    }
    assert regions[..|regions|] == regions;
  }

  /** The price of regions grown by findRegions depends only on their plots. */
  lemma {:induction false} TotalCostOfPlots(board: Board, regions: seq<Region>, starts: seq<Position>)
    requires |starts| == |regions|
    requires forall i :: 0 <= i < |regions| ==> RegionOf(board, regions[i], starts[i])
    ensures TotalCost(regions) == PlotsCost(board, regions)
  {
    if regions != [] {
      TotalCostOfPlots(board, regions[..|regions| - 1], starts[..|starts| - 1]);
    }
  }

  /** The price computed from the plots alone: their number times their fence sides. */
  ghost function PlotsCost(board: Board, regions: seq<Region>): int
  {
    if regions == [] then 0
    else
      var last := regions[|regions| - 1];
      PlotsCost(board, regions[..|regions| - 1]) + |last.cells| * Fences(board, last.plant, last.cells)
  }

  // ---------------------------------------------------------------------------------------
  // countSides
  // ---------------------------------------------------------------------------------------

  /** The test of lines 183-215: off the board, or another plant. Membership in the region is not asked. */
  predicate Outside(board: Board, plant: char, p: Position)
  {
    p !in board.plants || board.plants[p] != plant
  }

  function Flag(b: bool): int
  {
    if b then 1 else 0
  }

  /** A corner of a plot with 3 outside plots around it is a convex corner of the region. */
  function Convex(n: int): int
  {
    if n == 3 then 1 else 0
  }

  /** A corner of a plot with exactly 1 outside plot around it is one third of a concave corner. */
  function Concave(n: int): int
  {
    if n == 1 then 1 else 0
  }

  /**
   * What one plot adds to (corners, innerCorners), lines 178-256, given which of the eight plots
   * around it are outside: convex corners and the checkerboard corners go to the first, concave
   * corner sightings to the second.
   */
  function Corners(tl: bool, top: bool, tr: bool, right: bool, br: bool, bottom: bool, bl: bool, left: bool): (r: (int, int))
    ensures 0 <= r.0 <= 8 && 0 <= r.1 <= 4
  {
    var topLeft := Flag(tl) + Flag(top) + Flag(left);
    var topRight := Flag(top) + Flag(tr) + Flag(right);
    var bottomLeft := Flag(bottom) + Flag(bl) + Flag(left);
    var bottomRight := Flag(right) + Flag(br) + Flag(bottom);
    var checkerboard := Flag(top && !tr && right) + Flag(right && !br && bottom)
      + Flag(bottom && !bl && left) + Flag(left && !tl && top);
    (Convex(topLeft) + Convex(topRight) + Convex(bottomLeft) + Convex(bottomRight) + checkerboard,
     Concave(topLeft) + Concave(topRight) + Concave(bottomLeft) + Concave(bottomRight))
  }

  /** What plot cell of a region of plant adds to (corners, innerCorners). */
  function CellCorners(board: Board, plant: char, cell: Position): (r: (int, int))
    ensures 0 <= r.0 <= 8 && 0 <= r.1 <= 4
  {
    Corners(Outside(board, plant, Position(cell.x - 1, cell.y - 1)), Outside(board, plant, Position(cell.x, cell.y - 1)),
            Outside(board, plant, Position(cell.x + 1, cell.y - 1)), Outside(board, plant, Position(cell.x + 1, cell.y)),
            Outside(board, plant, Position(cell.x + 1, cell.y + 1)), Outside(board, plant, Position(cell.x, cell.y + 1)),
            Outside(board, plant, Position(cell.x - 1, cell.y + 1)), Outside(board, plant, Position(cell.x - 1, cell.y)))
  }

  function CornersOf(board: Board, plant: char): Position -> int
  {
    c => CellCorners(board, plant, c).0
  }

  function InnerCornersOf(board: Board, plant: char): Position -> int
  {
    c => CellCorners(board, plant, c).1
  }

  /** The number of sides countSides reports: the corners, plus the concave sightings divided by 3. */
  ghost function Sides(board: Board, region: Region): int
  {
    SumOver(region.cells, CornersOf(board, region.plant))
    + SumOver(region.cells, InnerCornersOf(board, region.plant)) / 3
  }

  /** countSides (lines 161-261), visiting the plots in any order, as ranging over a Go map does. */
  method CountSides(board: Board, region: Region) returns (sides: int)
    ensures sides == Sides(board, region)
  {
    var corners, innerCorners := 0, 0;
    var rest := region.cells;
    while rest != {}
      invariant rest <= region.cells
      invariant corners + SumOver(rest, CornersOf(board, region.plant)) == SumOver(region.cells, CornersOf(board, region.plant))
      invariant innerCorners + SumOver(rest, InnerCornersOf(board, region.plant))
        == SumOver(region.cells, InnerCornersOf(board, region.plant))
      decreases |rest|
    {
      var cell :| cell in rest;
      SumOverRemove(rest, CornersOf(board, region.plant), cell);
      SumOverRemove(rest, InnerCornersOf(board, region.plant), cell);
      var (c, i) := CellCorners(board, region.plant, cell);
      corners := corners + c;
      innerCorners := innerCorners + i;
      rest := rest - {cell};
    }
    sides := corners + innerCorners / 3;
  }

  lemma SumOverOne(c: Position, f: Position -> int)
    ensures SumOver({c}, f) == f(c)
  {
    SumOverRemove({c}, f, c);
    assert {c} - {c} == {};
  }

  /** A one-plot region has the sides its plot adds. */
  lemma SidesOfOne(board: Board, region: Region, c: Position)
    requires region.cells == {c}
    ensures Sides(board, region) == CellCorners(board, region.plant, c).0 + CellCorners(board, region.plant, c).1 / 3
  {
    SumOverOne(c, CornersOf(board, region.plant));
    SumOverOne(c, InnerCornersOf(board, region.plant));
  }

  /** p is c or one of the eight plots around it. */
  predicate Near(c: Position, p: Position)
  {
    -1 <= p.x - c.x <= 1 && -1 <= p.y - c.y <= 1
  }

  /** A lone plot whose eight surrounding plots are all outside (off the board or another plant) has 4 sides. */
  lemma IsolatedPlotHasFourSides(board: Board, region: Region, c: Position)
    requires region.cells == {c}
    requires forall p :: Near(c, p) && p != c ==> Outside(board, region.plant, p)
    ensures Sides(board, region) == 4
  {
    assert Outside(board, region.plant, Position(c.x - 1, c.y - 1)) && Outside(board, region.plant, Position(c.x, c.y - 1));
    assert Outside(board, region.plant, Position(c.x + 1, c.y - 1)) && Outside(board, region.plant, Position(c.x + 1, c.y));
    assert Outside(board, region.plant, Position(c.x + 1, c.y + 1)) && Outside(board, region.plant, Position(c.x, c.y + 1));
    assert Outside(board, region.plant, Position(c.x - 1, c.y + 1)) && Outside(board, region.plant, Position(c.x - 1, c.y));
    assert CellCorners(board, region.plant, c) == Corners(true, true, true, true, true, true, true, true) == (4, 0);
    SidesOfOne(board, region, c);
  }

  /**
   * The plot diagonally below-right growing the same plant (another region, since the plots
   * between are outside) counts as inside; the checkerboard test still finds 4 sides.
   */
  lemma DiagonalTwinStillFourSides(board: Board, region: Region, c: Position)
    requires region.cells == {c}
    requires forall p :: Near(c, p) && p != c && p != Position(c.x + 1, c.y + 1) ==> Outside(board, region.plant, p)
    requires !Outside(board, region.plant, Position(c.x + 1, c.y + 1))
    ensures Sides(board, region) == 4
  {
    assert Outside(board, region.plant, Position(c.x - 1, c.y - 1)) && Outside(board, region.plant, Position(c.x, c.y - 1));
    assert Outside(board, region.plant, Position(c.x + 1, c.y - 1)) && Outside(board, region.plant, Position(c.x + 1, c.y));
    assert Outside(board, region.plant, Position(c.x, c.y + 1));
    assert Outside(board, region.plant, Position(c.x - 1, c.y + 1)) && Outside(board, region.plant, Position(c.x - 1, c.y));
    assert CellCorners(board, region.plant, c) == Corners(true, true, true, true, false, true, true, true) == (4, 0);
    SidesOfOne(board, region, c);
  }
}

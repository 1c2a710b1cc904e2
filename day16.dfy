/**
 * Day 16: a reindeer walks a maze from S to E, paying 1 for a step forward and 1000 for each
 * quarter turn. Part 1 (findCheapestRoute) runs a cost search over tiles only, pricing a step
 * by the direction the tile was last reached from; part 2 (findAllCheapestRoutes, in module
 * Day16Routes) searches over (tile, facing) states. The maze is given as its tile map.
 */
module Day16 {
  import opened Common
  import opened MinHeap

  /** The facings of part 2 (lines 16-21), numbered clockwise from north. */
  const North := 0
  const East := 1
  const South := 2
  const West := 3

  /** Board (lines 27-32): the maze's tiles by position, and its start and goal tiles. */
  datatype Board = Board(width: int, height: int, tiles: map<Position, char>, start: Position, goal: Position)

  /** `tiles[p]`: a position that is not on the map reads as the zero rune, which is not a wall. */
  function Get(tiles: map<Position, char>, p: Position): char
  {
    if p in tiles then tiles[p] else 0 as char
  }

  function Plus(p: Position, d: Position): Position
  {
    Position(p.x + d.x, p.y + d.y)
  }

  function Minus(p: Position, q: Position): Position
  {
    Position(p.x - q.x, p.y - q.y)
  }

  function Negated(d: Position): Position
  {
    Position(-d.x, -d.y)
  }

  // ---------------------------------------------------------------------------------------
  // findNeighbors
  // ---------------------------------------------------------------------------------------

  /** The unit steps of lines 118-123, indexed by facing: north, east, south, west. */
  const Dirs: seq<Position> := [Position(0, -1), Position(1, 0), Position(0, 1), Position(-1, 0)]

  /** PosCost (lines 110-113): a neighbouring tile and the price of stepping onto it. */
  datatype PosCost = PosCost(pos: Position, cost: int)

  /** d is one of the four unit steps. */
  predicate IsUnitStep(d: Position)
  {
    d == Position(0, -1) || d == Position(1, 0) || d == Position(0, 1) || d == Position(-1, 0)
  }

  /** A step from pos onto next, having last moved in direction last: one unit step, not straight back, not onto a wall. */
  predicate Admissible(tiles: map<Position, char>, pos: Position, last: Position, next: Position)
  {
    var dir := Minus(next, pos);
    IsUnitStep(dir) && Negated(dir) != last && Get(tiles, next) != '#'
  }

  /** Going on in the same direction costs 1; changing direction costs 1001. */
  function TurnCost(last: Position, dir: Position): nat
  {
    if dir == last then 1 else 1001
  }

  /** The loop of lines 125-139 over the directions still to try. */
  function NeighborsFrom(tiles: map<Position, char>, pos: Position, last: Position, dirs: seq<Position>): (r: seq<PosCost>)
    ensures |r| <= |dirs|
    ensures forall n :: n in r <==>
      var dir := Minus(n.pos, pos);
      dir in dirs && Negated(dir) != last && Get(tiles, n.pos) != '#' && n.cost == TurnCost(last, dir)
    decreases |dirs|
  {
    if dirs == [] then []
    else
      var dir := dirs[0];
      var nextPos := Plus(pos, dir);
      var entry :=
        if Negated(dir) == last then []
        else if Get(tiles, nextPos) != '#' then
          if dir == last && Get(tiles, nextPos) != '#' then [PosCost(nextPos, 1)] else [PosCost(nextPos, 1001)]
        else [];
      var rest := NeighborsFrom(tiles, pos, last, dirs[1..]);
      assert forall d :: d in dirs <==> d == dir || d in dirs[1..];
      entry + rest
  }

  /**
   * findNeighbors (lines 115-142): exactly the admissible steps from pos, priced 1 straight on
   * and 1001 after a turn; never straight back and never onto a wall.
   */
  function FindNeighbors(tiles: map<Position, char>, pos: Position, last: Position): (r: seq<PosCost>)
    ensures |r| <= 4
    ensures forall n :: n in r <==> Admissible(tiles, pos, last, n.pos) && n.cost == TurnCost(last, Minus(n.pos, pos))
  {
    assert forall d :: d in Dirs <==> IsUnitStep(d);
    NeighborsFrom(tiles, pos, last, Dirs)
  }

  // ---------------------------------------------------------------------------------------
  // findNeighbors2
  // ---------------------------------------------------------------------------------------

  /** Position2 (lines 23-25): a tile and a facing. */
  datatype Position2 = Position2(x: int, y: int, dir: int)

  /** PosCost2 (lines 202-205): a neighbouring state and the price of reaching it. */
  datatype PosCost2 = PosCost2(pos: Position2, cost: int)

  predicate ValidDir(dir: int)
  {
    0 <= dir < 4
  }

  function TileOf(s: Position2): Position
  {
    Position(s.x, s.y)
  }

  /** The switch of lines 209-222: the unit step of a facing; any other value leaves (0, 0). */
  function Heading(dir: int): (r: Position)
    ensures ValidDir(dir) ==> r == Dirs[dir]
  {
    if dir == North then Position(0, -1)
    else if dir == East then Position(1, 0)
    else if dir == South then Position(0, 1)
    else if dir == West then Position(-1, 0)
    else Position(0, 0)
  }

  /** A quarter turn clockwise (north, east, south, west, north). */
  function Clockwise(dir: int): int
  {
    if dir == West then North else dir + 1
  }

  /** A quarter turn anticlockwise. */
  function Anticlockwise(dir: int): int
  {
    if dir == North then West else dir - 1
  }

  /**
   * Line 231: the facing after a left turn. Go's `%` keeps the sign of its left operand, so
   * the inner remainder may be negative; adding 4 and taking the remainder again lands in
   * 0..3 for every integer, at one less than dir modulo 4.
   */
  function DirLeft(dir: int): (r: int)
    ensures ValidDir(r) && r == (dir + 3) % 4
    ensures ValidDir(dir) ==> r == Anticlockwise(dir)
  {
    var inner := GoRem(dir - 1, 4);
    var r := GoRem(inner + 4, 4);
    ModCongruent(inner + 4, r, 4);
    ModUnique(r, 4, 0, r);
    ModCongruent(dir - 1, inner, 4);
    ModAddMultiple(inner, 4, 1);
    ModAddMultiple(dir - 1, 4, 1);
    if ValidDir(dir) then
      ModUnique(dir + 3, 4, if dir == North then 0 else 1, Anticlockwise(dir));
      r
    else r
  }

  /** Line 232: the facing after a right turn, in 0..3 and one more than dir modulo 4 when dir >= -1. */
  function DirRight(dir: int): (r: int)
    ensures dir >= -1 ==> ValidDir(r) && r == (dir + 1) % 4
    ensures ValidDir(dir) ==> r == Clockwise(dir)
  {
    var r := GoRem(dir + 1, 4);
    if dir >= -1 then
      ModCongruent(dir + 1, r, 4);
      ModUnique(r, 4, 0, r);
      if ValidDir(dir) then
        ModUnique(dir + 1, 4, if dir == West then 1 else 0, Clockwise(dir));
        r
      else r
    else r
  }

  /** A right turn and a left turn undo each other on every facing in 0..3. */
  lemma TurnsUndo(dir: int)
    requires ValidDir(dir)
    ensures DirLeft(DirRight(dir)) == dir
    ensures DirRight(DirLeft(dir)) == dir
  {
  }

  /**
   * One move of part 2, stated independently of the Go arithmetic: from a state with a facing
   * in 0..3, either one tile on in that facing, keeping it, onto a tile that is not a wall; or
   * a quarter turn either way on the same tile.
   */
  predicate IsStep(tiles: map<Position, char>, s: Position2, t: Position2)
  {
    ValidDir(s.dir)
    && ((t.dir == s.dir && TileOf(t) == Plus(TileOf(s), Dirs[s.dir]) && Get(tiles, TileOf(t)) != '#')
        || (TileOf(t) == TileOf(s) && (t.dir == Clockwise(s.dir) || t.dir == Anticlockwise(s.dir))))
  }

  /** A move forward costs 1, a turn 1000. */
  function StepCost(s: Position2, t: Position2): nat
  {
    if TileOf(t) == TileOf(s) then 1000 else 1
  }

  /** findNeighbors2 (lines 207-238): a forward move when the tile ahead is no wall, then the two turns. */
  function FindNeighbors2(tiles: map<Position, char>, s: Position2): (r: seq<PosCost2>)
    ensures 2 <= |r| <= 3
    ensures forall n :: n in r ==> n.cost == 1 || n.cost == 1000
  {
    var h := Heading(s.dir);
    var nextPos := Position(s.x + h.x, s.y + h.y);
    var forward := if Get(tiles, nextPos) != '#' then [PosCost2(Position2(nextPos.x, nextPos.y, s.dir), 1)] else [];
    forward + [PosCost2(Position2(s.x, s.y, DirLeft(s.dir)), 1000), PosCost2(Position2(s.x, s.y, DirRight(s.dir)), 1000)]
  }

  /**
   * For a facing in 0..3, findNeighbors2 offers exactly the moves of IsStep, each priced by
   * StepCost: a forward move only onto a tile that is no wall, and both quarter turns.
   */
  lemma Neighbors2Spec(tiles: map<Position, char>, s: Position2)
    requires ValidDir(s.dir)
    ensures forall n :: n in FindNeighbors2(tiles, s) <==> IsStep(tiles, s, n.pos) && n.cost == StepCost(s, n.pos)
  {
    Neighbors2Listed(tiles, s);
    forall n
      ensures n in FindNeighbors2(tiles, s) <==> IsStep(tiles, s, n.pos) && n.cost == StepCost(s, n.pos)
    {
      StepCases(tiles, s, n.pos, n.cost);
    }
  }

  /** The entries of findNeighbors2 for a facing in 0..3, one by one. */
  lemma Neighbors2Listed(tiles: map<Position, char>, s: Position2)
    requires ValidDir(s.dir)
    ensures var h := Dirs[s.dir];
      var ahead := Position2(s.x + h.x, s.y + h.y, s.dir);
      forall n :: n in FindNeighbors2(tiles, s) <==>
        (n == PosCost2(ahead, 1) && Get(tiles, TileOf(ahead)) != '#')
        || n == PosCost2(Position2(s.x, s.y, Anticlockwise(s.dir)), 1000)
        || n == PosCost2(Position2(s.x, s.y, Clockwise(s.dir)), 1000)
  {
    var h := Dirs[s.dir];
    var ahead := Position2(s.x + h.x, s.y + h.y, s.dir);
    var left := PosCost2(Position2(s.x, s.y, Anticlockwise(s.dir)), 1000);
    var right := PosCost2(Position2(s.x, s.y, Clockwise(s.dir)), 1000);
    var forward := if Get(tiles, TileOf(ahead)) != '#' then [PosCost2(ahead, 1)] else [];
    assert FindNeighbors2(tiles, s) == forward + [left, right];
  }

  /** The moves of IsStep with their prices, listed: the step ahead and the two quarter turns. */
  lemma StepCases(tiles: map<Position, char>, s: Position2, t: Position2, c: int)
    requires ValidDir(s.dir)
    ensures var h := Dirs[s.dir];
      (IsStep(tiles, s, t) && c == StepCost(s, t)) <==>
        ((t == Position2(s.x + h.x, s.y + h.y, s.dir) && Get(tiles, TileOf(t)) != '#' && c == 1)
         || ((t == Position2(s.x, s.y, Anticlockwise(s.dir)) || t == Position2(s.x, s.y, Clockwise(s.dir))) && c == 1000))
  {
    assert Dirs[s.dir] != Position(0, 0);
  }

  // ---------------------------------------------------------------------------------------
  // findCheapestRoute: walks over tiles
  // ---------------------------------------------------------------------------------------

  /** The direction of the step into w[i]; before moving, a walk faces east (line 82). */
  function FacingAt(w: seq<Position>, i: int): Position
    requires 0 <= i < |w|
  {
    if i == 0 then Position(1, 0) else Minus(w[i], w[i - 1])
  }

  /** The direction of a walk's last step. */
  function Facing(w: seq<Position>): Position
    requires |w| >= 1
  {
    FacingAt(w, |w| - 1)
  }

  /** The step into w[i] is admissible after the step before it. */
  predicate StepOK(tiles: map<Position, char>, w: seq<Position>, i: int)
    requires 1 <= i < |w|
  {
    Admissible(tiles, w[i - 1], FacingAt(w, i - 1), w[i])
  }

  /** A walk from start as part 1 prices it: each step admissible after the step before it. */
  ghost predicate IsWalk(tiles: map<Position, char>, start: Position, w: seq<Position>)
  {
    |w| >= 1 && w[0] == start
    && forall i :: 1 <= i < |w| ==> StepOK(tiles, w, i)
  }

  /** The price of a walk: each step's TurnCost against the direction of the step before. */
  function WalkCost(w: seq<Position>): nat
    decreases |w|
  {
    if |w| <= 1 then 0
    else WalkCost(w[..|w| - 1]) + TurnCost(Facing(w[..|w| - 1]), Minus(w[|w| - 1], w[|w| - 2]))
  }

  /** The tiles a search can stand on. */
  ghost function Open(tiles: map<Position, char>): set<Position>
  {
    set p | p in tiles && tiles[p] != '#'
  }

  /** Every tile that is not a wall has its four neighbours on the map: the maze is walled in. */
  ghost predicate Walled(tiles: map<Position, char>)
  {
    forall p, d :: p in tiles && tiles[p] != '#' && IsUnitStep(d) ==> Plus(p, d) in tiles
  }

  /** The sum of a cost map's entries over some of its keys. */
  ghost function SumOn(m: map<Position, nat>, keys: set<Position>): nat
    requires keys <= m.Keys
    decreases keys
  {
    if keys == {} then 0
    else
      var p :| p in keys;
      m[p] + SumOn(m, keys - {p})
  }

  /** The sum of all entries of a cost map. */
  ghost function CostSum(m: map<Position, nat>): nat
  {
    SumOn(m, m.Keys)
  }

  /** Any key may be taken out of the sum first. */
  lemma {:induction false} SumOnRemove(m: map<Position, nat>, keys: set<Position>, p: Position)
    requires keys <= m.Keys && p in keys
    ensures SumOn(m, keys) == m[p] + SumOn(m, keys - {p})
    decreases keys
  {
    var q :| q in keys && SumOn(m, keys) == m[q] + SumOn(m, keys - {q});
    if q != p {
      SumOnRemove(m, keys - {q}, p);
      SumOnRemove(m, keys - {p}, q);
      assert keys - {q} - {p} == keys - {p} - {q};
    }
  }

  /** Maps that agree on the keys have the same sum over them. */
  lemma {:induction false} SumOnAgree(m: map<Position, nat>, m': map<Position, nat>, keys: set<Position>)
    requires keys <= m.Keys && keys <= m'.Keys
    requires forall p :: p in keys ==> m[p] == m'[p]
    ensures SumOn(m, keys) == SumOn(m', keys)
    decreases keys
  {
    if keys != {} {
      var p :| p in keys && SumOn(m, keys) == m[p] + SumOn(m, keys - {p});
      SumOnRemove(m', keys, p);
      SumOnAgree(m, m', keys - {p});
    }
  }

  /** Lowering one entry lowers the sum by as much. */
  lemma SumLowered(m: map<Position, nat>, p: Position, v: nat)
    requires p in m
    ensures CostSum(m[p := v]) + m[p] == CostSum(m) + v
  {
    var m' := m[p := v];
    assert m'.Keys == m.Keys;
    SumOnRemove(m, m.Keys, p);
    SumOnRemove(m', m.Keys, p);
    SumOnAgree(m, m', m.Keys - {p});
  }

  /** The number of open tiles no cost has been found for yet. */
  ghost function Unseen(tiles: map<Position, char>, cost: map<Position, nat>): nat
  {
    |Open(tiles) - cost.Keys|
  }

  /** (Unseen, CostSum) went down lexicographically, or stayed. */
  ghost predicate NoWorse(tiles: map<Position, char>, cost0: map<Position, nat>, cost: map<Position, nat>)
  {
    Unseen(tiles, cost) < Unseen(tiles, cost0)
    || (Unseen(tiles, cost) == Unseen(tiles, cost0) && CostSum(cost) <= CostSum(cost0))
  }

  /** (Unseen, CostSum) went down lexicographically. */
  ghost predicate Improved(tiles: map<Position, char>, cost: map<Position, nat>, cost': map<Position, nat>)
  {
    Unseen(tiles, cost') < Unseen(tiles, cost)
    || (Unseen(tiles, cost') == Unseen(tiles, cost) && CostSum(cost') < CostSum(cost))
  }

  /** No worse and then better is better overall, so not unmoved. */
  lemma ImprovedAfter(tiles: map<Position, char>, cost0: map<Position, nat>, cost: map<Position, nat>, cost': map<Position, nat>)
    requires NoWorse(tiles, cost0, cost) && Improved(tiles, cost, cost')
    ensures NoWorse(tiles, cost0, cost') && !Unmoved(tiles, cost0, cost')
  {
    LexStep(Unseen(tiles, cost0), CostSum(cost0), Unseen(tiles, cost), CostSum(cost), Unseen(tiles, cost'), CostSum(cost'));
  }

  lemma LexStep(u0: int, s0: int, u1: int, s1: int, u2: int, s2: int)
    requires u1 < u0 || (u1 == u0 && s1 <= s0)
    requires u2 < u1 || (u2 == u1 && s2 < s1)
    ensures u2 < u0 || (u2 == u0 && s2 <= s0)
    ensures !(u2 == u0 && s2 == s0)
  {
  }

  /** Neither component moved. */
  ghost predicate Unmoved(tiles: map<Position, char>, cost0: map<Position, nat>, cost: map<Position, nat>)
  {
    Unseen(tiles, cost) == Unseen(tiles, cost0) && CostSum(cost) == CostSum(cost0)
  }

  /**
   * The search state of findCheapestRoute: the start keeps cost 0 and its east-facing
   * cameFrom (lines 82-85); every tile with a cost is open and was reached by the walk
   * `walks[p]`, whose price is that cost and whose last step came from `cameFrom[p]`.
   */
  ghost predicate Explored(board: Board, cost: map<Position, nat>, cameFrom: map<Position, Position>, walks: map<Position, seq<Position>>)
  {
    cost.Keys == cameFrom.Keys == walks.Keys
    && board.start in cost && cost[board.start] == 0
    && cameFrom[board.start] == Position(board.start.x - 1, board.start.y)
    && cost.Keys <= Open(board.tiles)
    && forall p :: p in walks ==> ReachedBy(board, p, cost[p], cameFrom[p], walks[p])
  }

  ghost predicate ReachedBy(board: Board, p: Position, c: nat, from: Position, w: seq<Position>)
  {
    IsWalk(board.tiles, board.start, w) && Last(w) == p && WalkCost(w) == c && Facing(w) == Minus(p, from)
  }

  /** Every queued tile has a cost. */
  ghost predicate QueuedKnown(items: multiset<Item<Position>>, cost: map<Position, nat>)
  {
    forall it :: it in items ==> it.value in cost
  }

  /** Extending a walk by an admissible step adds that step's price. */
  lemma WalkExtend(board: Board, w: seq<Position>, n: PosCost)
    requires IsWalk(board.tiles, board.start, w)
    requires Admissible(board.tiles, Last(w), Facing(w), n.pos) && n.cost == TurnCost(Facing(w), Minus(n.pos, Last(w)))
    ensures ReachedBy(board, n.pos, WalkCost(w) + n.cost, Last(w), w + [n.pos])
  {
    var w' := w + [n.pos];
    assert w'[..|w'| - 1] == w;
    assert w'[|w'| - 2] == Last(w) && w'[|w'| - 1] == n.pos;
    forall i | 1 <= i < |w'|
      ensures StepOK(board.tiles, w', i)
    {
      if i < |w| {
        assert w'[i] == w[i] && w'[i - 1] == w[i - 1] && FacingAt(w', i - 1) == FacingAt(w, i - 1);
        assert StepOK(board.tiles, w, i);
      } else {
        assert FacingAt(w', i - 1) == Facing(w);
      }
    }
    assert WalkCost(w') == WalkCost(w) + n.cost;
  }

  /**
   * The state of the neighbour loop (lines 94-104) for the popped tile `current`, against the
   * state it started from (cost0, cameFrom0, items0): the search state is kept, every queued
   * tile has a cost, costs only went down, the popped tile's own entries are untouched, and
   * the measure (Unseen, CostSum) went down or stayed, staying only when nothing was queued.
   */
  ghost predicate Expanding(board: Board, current: Position, cost0: map<Position, nat>, cameFrom0: map<Position, Position>,
                            items0: multiset<Item<Position>>, cost: map<Position, nat>, cameFrom: map<Position, Position>,
                            walks: map<Position, seq<Position>>, items: multiset<Item<Position>>)
  {
    Walled(board.tiles)
    && Explored(board, cost, cameFrom, walks) && QueuedKnown(items, cost)
    && Lowered(cost0, cost)
    && current in cost0 && current in cameFrom0
    && current in cost && cost[current] == cost0[current] && cameFrom[current] == cameFrom0[current]
    && NoWorse(board.tiles, cost0, cost) && (Unmoved(board.tiles, cost0, cost) ==> items == items0)
  }

  /**
   * The body of the neighbour loop (lines 95-103) for one neighbour: a cheaper or first cost
   * is recorded with its predecessor and the tile is queued.
   */
  method Relax(board: Board, current: Position, n: PosCost, ghost cost0: map<Position, nat>, ghost cameFrom0: map<Position, Position>,
               ghost items0: multiset<Item<Position>>, cost: map<Position, nat>, cameFrom: map<Position, Position>,
               frontier: PriorityQueueAsc<Position>, ghost walks: map<Position, seq<Position>>)
    returns (cost': map<Position, nat>, cameFrom': map<Position, Position>, ghost walks': map<Position, seq<Position>>)
    requires Expanding(board, current, cost0, cameFrom0, items0, cost, cameFrom, walks, frontier.items) == true
    requires Admissible(board.tiles, current, Minus(current, cameFrom0[current]), n.pos)
    requires n.cost == TurnCost(Minus(current, cameFrom0[current]), Minus(n.pos, current))
    modifies frontier
    ensures Expanding(board, current, cost0, cameFrom0, items0, cost', cameFrom', walks', frontier.items) == true
    ensures n.pos in cost' && cost'[n.pos] <= cost[current] + n.cost
  {
    var newCost := cost[current] + n.cost;
    cost', cameFrom', walks' := cost, cameFrom, walks;
    if n.pos !in cost || newCost < cost[n.pos] {
      cost' := cost[n.pos := newCost];
      cameFrom' := cameFrom[n.pos := current];
      walks' := walks[n.pos := walks[current] + [n.pos]];
      ExpandingUpdate(board, current, n, cost0, cameFrom0, items0, cost, cameFrom, walks, frontier.items, newCost, cost', cameFrom', walks');
      frontier.Push(Item(n.pos, newCost));
    }
  }

  /** Recording a cheaper or first cost for a neighbour, and queueing it, keeps the loop state. */
  lemma ExpandingUpdate(board: Board, current: Position, n: PosCost, cost0: map<Position, nat>, cameFrom0: map<Position, Position>,
                        items0: multiset<Item<Position>>, cost: map<Position, nat>, cameFrom: map<Position, Position>,
                        walks: map<Position, seq<Position>>, items: multiset<Item<Position>>, c: nat,
                        cost': map<Position, nat>, cameFrom': map<Position, Position>, walks': map<Position, seq<Position>>)
    requires Expanding(board, current, cost0, cameFrom0, items0, cost, cameFrom, walks, items) == true
    requires Admissible(board.tiles, current, Minus(current, cameFrom0[current]), n.pos)
    requires n.cost == TurnCost(Minus(current, cameFrom0[current]), Minus(n.pos, current))
    requires c == cost[current] + n.cost && (n.pos !in cost || c < cost[n.pos])
    requires cost' == cost[n.pos := c] && cameFrom' == cameFrom[n.pos := current] && walks' == walks[n.pos := walks[current] + [n.pos]]
    ensures Expanding(board, current, cost0, cameFrom0, items0, cost', cameFrom', walks', items + multiset{Item(n.pos, c)}) == true
  {
    RelaxUpdate(board, current, n, cost, cameFrom, walks, c, cost', cameFrom', walks');
    LoweredTrans(cost0, cost, cost');
    ImprovedAfter(board.tiles, cost0, cost, cost');
    QueuedGrows(items, cost, cost', Item(n.pos, c));
    assert cost'[current] == cost[current] && cameFrom'[current] == cameFrom[current];
  }

  /** Queueing a tile that has a cost, after costs were only lowered, keeps every queued tile costed. */
  lemma QueuedGrows(items: multiset<Item<Position>>, cost: map<Position, nat>, cost': map<Position, nat>, it: Item<Position>)
    requires QueuedKnown(items, cost) && Lowered(cost, cost') && it.value in cost'
    ensures QueuedKnown(items + multiset{it}, cost')
  {
  }

  /** Every recorded cost is still recorded, at the same or a lower value. */
  ghost predicate Lowered(cost: map<Position, nat>, cost': map<Position, nat>)
  {
    forall p :: p in cost ==> p in cost' && cost'[p] <= cost[p]
  }

  /** What recording a cheaper or first cost for a neighbour keeps and changes. */
  lemma RelaxUpdate(board: Board, current: Position, n: PosCost, cost: map<Position, nat>, cameFrom: map<Position, Position>,
                    walks: map<Position, seq<Position>>, c: nat,
                    cost': map<Position, nat>, cameFrom': map<Position, Position>, walks': map<Position, seq<Position>>)
    requires Walled(board.tiles)
    requires Explored(board, cost, cameFrom, walks) == true && current in cost
    requires Admissible(board.tiles, current, Minus(current, cameFrom[current]), n.pos)
    requires n.cost == TurnCost(Minus(current, cameFrom[current]), Minus(n.pos, current))
    requires c == cost[current] + n.cost && (n.pos !in cost || c < cost[n.pos])
    requires cost' == cost[n.pos := c] && cameFrom' == cameFrom[n.pos := current] && walks' == walks[n.pos := walks[current] + [n.pos]]
    ensures Explored(board, cost', cameFrom', walks') == true
    ensures n.pos != current && Lowered(cost, cost')
    ensures Improved(board.tiles, cost, cost')
  {
    ReachedDetails(board, current, cost, cameFrom, walks);
    WalkExtend(board, walks[current], n);
    OpenStep(board.tiles, current, n.pos);
    if n.pos in cost {
      CostLowered(board.tiles, cost, n.pos, c);
    } else {
      TileDiscovered(board.tiles, cost, n.pos, c);
    }
    ExploredUpdate(board, cost, cameFrom, walks, n.pos, c, current, walks[current] + [n.pos]);
    LoweredUpdate(cost, n.pos, c);
  }

  /** A first or a lower cost for one tile lowers the map. */
  lemma LoweredUpdate(cost: map<Position, nat>, p: Position, c: nat)
    requires p !in cost || c < cost[p]
    ensures Lowered(cost, cost[p := c])
  {
  }

  /** Recording a walk-backed cost for an open tile other than the start keeps the search state. */
  lemma ExploredUpdate(board: Board, cost: map<Position, nat>, cameFrom: map<Position, Position>, walks: map<Position, seq<Position>>,
                       p: Position, c: nat, from: Position, w: seq<Position>)
    requires Explored(board, cost, cameFrom, walks) == true
    requires p in Open(board.tiles) && p != board.start && ReachedBy(board, p, c, from, w)
    ensures Explored(board, cost[p := c], cameFrom[p := from], walks[p := w]) == true
  {
    var cost', cameFrom', walks' := cost[p := c], cameFrom[p := from], walks[p := w];
    forall q | q in walks'
      ensures ReachedBy(board, q, cost'[q], cameFrom'[q], walks'[q])
    {
      if q != p {
        assert ReachedBy(board, q, cost[q], cameFrom[q], walks[q]);
      }
    }
  }

  /** Lowering a recorded cost keeps the unseen count and lowers the sum. */
  lemma CostLowered(tiles: map<Position, char>, cost: map<Position, nat>, p: Position, c: nat)
    requires p in cost && c < cost[p]
    ensures Unseen(tiles, cost[p := c]) == Unseen(tiles, cost) && CostSum(cost[p := c]) < CostSum(cost)
  {
    assert cost[p := c].Keys == cost.Keys;
    SumLowered(cost, p, c);
  }

  /** A first cost for an open tile lowers the unseen count. */
  lemma TileDiscovered(tiles: map<Position, char>, cost: map<Position, nat>, p: Position, c: nat)
    requires p in Open(tiles) && p !in cost
    ensures Unseen(tiles, cost[p := c]) < Unseen(tiles, cost)
  {
    assert Open(tiles) - cost[p := c].Keys == (Open(tiles) - cost.Keys) - {p};
  }

  /** The facts Explored holds about one tile, spelled out. */
  lemma ReachedDetails(board: Board, p: Position, cost: map<Position, nat>, cameFrom: map<Position, Position>, walks: map<Position, seq<Position>>)
    requires Explored(board, cost, cameFrom, walks) == true && p in cost
    ensures ReachedBy(board, p, cost[p], cameFrom[p], walks[p])
    ensures p in Open(board.tiles) && board.start in cost && cost[board.start] == 0
  {
  }

  /** An admissible step from an open tile of a walled maze lands on an open tile. */
  lemma OpenStep(tiles: map<Position, char>, p: Position, q: Position)
    requires Walled(tiles) && p in Open(tiles) && IsUnitStep(Minus(q, p)) && Get(tiles, q) != '#'
    ensures q in Open(tiles)
  {
    assert Plus(p, Minus(q, p)) == q;
  }

  /** The neighbour loop of lines 94-104 for the tile just popped. */
  method ExpandTile(board: Board, current: Position, cost: map<Position, nat>, cameFrom: map<Position, Position>,
                    frontier: PriorityQueueAsc<Position>, ghost walks: map<Position, seq<Position>>)
    returns (cost': map<Position, nat>, cameFrom': map<Position, Position>, ghost walks': map<Position, seq<Position>>)
    requires Walled(board.tiles)
    requires Explored(board, cost, cameFrom, walks) == true && current in cost
    requires QueuedKnown(frontier.items, cost)
    modifies frontier
    ensures Expanding(board, current, cost, cameFrom, old(frontier.items), cost', cameFrom', walks', frontier.items) == true
  {
    var lastDirection := Minus(current, cameFrom[current]);
    var neighbors := FindNeighbors(board.tiles, current, lastDirection);
    cost', cameFrom', walks' := cost, cameFrom, walks;
    ghost var items0 := frontier.items;
    ExpandingStart(board, current, cost, cameFrom, walks, items0);
    for i := 0 to |neighbors|
      invariant Expanding(board, current, cost, cameFrom, items0, cost', cameFrom', walks', frontier.items) == true
    {
      cost', cameFrom', walks' := Relax(board, current, neighbors[i], cost, cameFrom, items0, cost', cameFrom', frontier, walks');
    }
  }

  /** Before any neighbour, the loop state holds trivially. */
  lemma ExpandingStart(board: Board, current: Position, cost: map<Position, nat>, cameFrom: map<Position, Position>,
                       walks: map<Position, seq<Position>>, items: multiset<Item<Position>>)
    requires Walled(board.tiles)
    requires Explored(board, cost, cameFrom, walks) == true && current in cost
    requires QueuedKnown(items, cost)
    ensures Expanding(board, current, cost, cameFrom, items, cost, cameFrom, walks, items) == true
  {
  }

  lemma LoweredTrans(a: map<Position, nat>, b: map<Position, nat>, c: map<Position, nat>)
    requires Lowered(a, b) && Lowered(b, c)
    ensures Lowered(a, c)
  {
  }

  /**
   * One round of the loop of lines 88-105: pop a cheapest queued tile and relax its
   * neighbours. The triple (Unseen, CostSum, queue size) goes down lexicographically.
   */
  method SearchStep(board: Board, cost: map<Position, nat>, cameFrom: map<Position, Position>,
                    frontier: PriorityQueueAsc<Position>, ghost walks: map<Position, seq<Position>>)
    returns (cost': map<Position, nat>, cameFrom': map<Position, Position>, ghost walks': map<Position, seq<Position>>)
    requires Walled(board.tiles) && Explored(board, cost, cameFrom, walks) == true && QueuedKnown(frontier.items, cost)
    requires |frontier.items| > 0
    modifies frontier
    ensures Explored(board, cost', cameFrom', walks') == true && QueuedKnown(frontier.items, cost')
    ensures Unseen(board.tiles, cost') < Unseen(board.tiles, cost)
            || (Unseen(board.tiles, cost') == Unseen(board.tiles, cost)
                && (CostSum(cost') < CostSum(cost) || (CostSum(cost') == CostSum(cost) && |frontier.items| < old(|frontier.items|))))
  {
    var currentNode := frontier.Pop();
    var current := currentNode.value;
    ghost var items0 := frontier.items;
    assert current in cost && QueuedKnown(items0, cost) by {
      assert currentNode in old(frontier.items);
      assert forall it :: it in items0 ==> it in old(frontier.items);
    }
    cost', cameFrom', walks' := ExpandTile(board, current, cost, cameFrom, frontier, walks);
    ExpandingDone(board, current, cost, cameFrom, items0, cost', cameFrom', walks', frontier.items);
  }

  /** What the neighbour loop leaves behind, spelled out. */
  lemma ExpandingDone(board: Board, current: Position, cost0: map<Position, nat>, cameFrom0: map<Position, Position>,
                      items0: multiset<Item<Position>>, cost: map<Position, nat>, cameFrom: map<Position, Position>,
                      walks: map<Position, seq<Position>>, items: multiset<Item<Position>>)
    requires Expanding(board, current, cost0, cameFrom0, items0, cost, cameFrom, walks, items) == true
    ensures Explored(board, cost, cameFrom, walks) == true && QueuedKnown(items, cost)
    ensures NoWorse(board.tiles, cost0, cost) && (Unmoved(board.tiles, cost0, cost) ==> items == items0)
  {
  }

  /**
   * findCheapestRoute (lines 72-108): a cost search over tiles from the start, facing east,
   * that prices each step by the direction the tile was last reached from. It stops once the
   * queue runs dry, and answers the goal's recorded cost, or 0 (a missing map entry) when the
   * goal was never reached. Whatever it answers other than 0 is the price of a real walk to
   * the goal.
   */
  method FindCheapestRoute(board: Board) returns (score: int)
    requires Walled(board.tiles) && board.start in Open(board.tiles)
    ensures score >= 0
    ensures board.goal == board.start ==> score == 0
    ensures score != 0 ==> exists w :: IsWalk(board.tiles, board.start, w) && Last(w) == board.goal && WalkCost(w) == score
  {
    var frontier := new PriorityQueueAsc<Position>();
    frontier.Push(Item(board.start, 0));
    var cameFrom: map<Position, Position> := map[board.start := Position(board.start.x - 1, board.start.y)];
    var cost: map<Position, nat> := map[board.start := 0];
    ghost var walks: map<Position, seq<Position>> := map[board.start := [board.start]];
    assert ReachedBy(board, board.start, 0, cameFrom[board.start], [board.start]);
    while |frontier.items| > 0
      invariant Walled(board.tiles) && Explored(board, cost, cameFrom, walks) == true && QueuedKnown(frontier.items, cost)
      decreases Unseen(board.tiles, cost), CostSum(cost), |frontier.items|
    {
      cost, cameFrom, walks := SearchStep(board, cost, cameFrom, frontier, walks);
    }
    score := if board.goal in cost then cost[board.goal] else 0;
    if board.goal in cost {
      ReachedDetails(board, board.goal, cost, cameFrom, walks);
    }
  }
}

/**
 * Day 15, part 1: a robot pushes boxes around a walled warehouse. Each move scans ahead for the
 * first free tile; if a wall comes first nothing happens, otherwise the robot and the boxes in
 * front of it shift one tile. The score sums 100 * y + x over the boxes. Part 2, on a warehouse
 * twice as wide, is in module Day15Wide and reuses the straight push for its horizontal moves.
 */
module Day15 {
  import opened Common

  /**
   * Go's tiles map. Board is passed by value, so the robot and nextMove fields a function
   * updates are its own copies, but every copy shares the one map, as this object is shared.
   */
  class Tiles {
    var at: map<Position, char>

    constructor (at: map<Position, char>)
      ensures this.at == at
    {
      this.at := at;
    }
  }

  datatype Board = Board(width: int, height: int, tiles: Tiles, robot: Position, moves: string, nextMove: int)

  /** A warehouse state as the specification functions see it: the tiles and the robot. */
  datatype Warehouse = Warehouse(tiles: map<Position, char>, robot: Position)

  /** Reading a Go map: a missing key yields the zero rune. */
  function Get(t: map<Position, char>, p: Position): char
  {
    if p in t then t[p] else '\0'
  }

  function Add(p: Position, d: Position): Position
  {
    Position(p.x + d.x, p.y + d.y)
  }

  function Sub(p: Position, d: Position): Position
  {
    Position(p.x - d.x, p.y - d.y)
  }

  // ---------------------------------------------------------------------------------------
  // Moves and directions
  // ---------------------------------------------------------------------------------------

  predicate IsArrow(move: char)
  {
    move == '^' || move == '>' || move == 'v' || move == '<'
  }

  /** One of the four unit steps. */
  predicate Unit(d: Position)
  {
    d == Position(0, -1) || d == Position(1, 0) || d == Position(0, 1) || d == Position(-1, 0)
  }

  /**
   * The switch of lines 77-90 (and 197-210): an arrow gives its unit step; any other character
   * leaves delta at its zero value.
   */
  function Delta(move: char): (d: Position)
    ensures IsArrow(move) ==> Unit(d)
    ensures !IsArrow(move) ==> d == Position(0, 0)
    ensures move == '^' ==> d.y < 0
    ensures move == 'v' ==> d.y > 0
    ensures move == '<' ==> d.x < 0
    ensures move == '>' ==> d.x > 0
  {
    match move
    case '^' => Position(0, -1)
    case '>' => Position(1, 0)
    case 'v' => Position(0, 1)
    case '<' => Position(-1, 0)
    case _ => Position(0, 0)
  }

  /**
   * With any other character the delta is zero, so the scan of lines 95-103 reads the robot's
   * own tile, '@', again and again: the loop condition holds and its body changes nothing.
   */
  lemma OtherMoveNeverEnds(t: map<Position, char>, robot: Position, move: char)
    requires !IsArrow(move)
    requires Get(t, robot) == '@'
    ensures Add(robot, Delta(move)) == robot
    ensures Get(t, Add(robot, Delta(move))) != '.' && Get(t, Add(robot, Delta(move))) != '#'
  {
  }

  /** q lies strictly ahead of p on the line that starts at p and runs in direction d. */
  predicate Ahead(p: Position, d: Position, q: Position)
  {
    if d.x > 0 then q.y == p.y && q.x > p.x
    else if d.x < 0 then q.y == p.y && q.x < p.x
    else if d.y > 0 then q.x == p.x && q.y > p.y
    else q.x == p.x && q.y < p.y
  }

  // ---------------------------------------------------------------------------------------
  // The walled warehouse
  // ---------------------------------------------------------------------------------------

  predicate InBox(p: Position, width: int, height: int)
  {
    0 <= p.x < width && 0 <= p.y < height
  }

  /** Off the outer ring of the board. */
  predicate Inside(p: Position, width: int, height: int)
  {
    0 < p.x < width - 1 && 0 < p.y < height - 1
  }

  /**
   * Every tile of the board is in the map, nothing else is, and the outer ring is wall. The
   * scans of lines 95-103 and 223-231 only end on '.' or '#', so without a wall they run on
   * forever over missing keys.
   */
  ghost predicate Walled(t: map<Position, char>, width: int, height: int)
  {
    (forall p :: p in t <==> InBox(p, width, height))
    && (forall p :: p in t && !Inside(p, width, height) ==> t[p] == '#')
  }

  /** The robot stands off the ring on the only '@' tile; the walk back of lines 109-120 stops at it. */
  predicate RobotAt(t: map<Position, char>, robot: Position, width: int, height: int)
  {
    Inside(robot, width, height) && robot in t && t[robot] == '@'
    && forall p :: p in t && t[p] == '@' ==> p == robot
  }

  ghost predicate Valid(s: Warehouse, width: int, height: int)
  {
    Walled(s.tiles, width, height) && RobotAt(s.tiles, s.robot, width, height)
  }

  /** The two maps have the same tiles and the same walls: no '#' moved, appeared or vanished. */
  predicate SameWalls(a: map<Position, char>, b: map<Position, char>)
  {
    a.Keys == b.Keys && forall p :: p in a ==> (a[p] == '#' <==> b[p] == '#')
  }

  /** How many tiles show c; a multiset of tiles is these counts. */
  function Count(t: map<Position, char>, c: char): nat
  {
    |set p | p in t && t[p] == c|
  }

  /** Go's swap `t[a], t[b] = t[b], t[a]` of two tiles leaves every count as it was. */
  lemma SwapCount(t: map<Position, char>, a: Position, b: Position, c: char)
    requires a in t && b in t
    ensures Count(t[a := t[b]][b := t[a]], c) == Count(t, c)
  {
    var u := t[a := t[b]][b := t[a]];
    var before := set p | p in t && t[p] == c;
    var after := set p | p in u && u[p] == c;
    if t[a] == t[b] {
      assert u == t;
    } else if t[a] == c {
      MovedMember(before, after, a, b);
    } else if t[b] == c {
      MovedMember(before, after, b, a);
    } else {
      assert after == before;
    }
  }

  /** A set that loses one member and gains a new one keeps its size. */
  lemma MovedMember(before: set<Position>, after: set<Position>, a: Position, b: Position)
    requires a in before && b !in before && after == before - {a} + {b}
    ensures |after| == |before|
  {
    assert |before - {a}| == |before| - 1;
  }

  // ---------------------------------------------------------------------------------------
  // The straight push of runRobot (and the horizontal moves of wideRunRobot)
  // ---------------------------------------------------------------------------------------

  /** Steps that remain before a walk from p in direction d leaves the board. */
  function Room(p: Position, d: Position, width: int, height: int): int
  {
    if d.x > 0 then width - p.x
    else if d.x < 0 then p.x
    else if d.y > 0 then height - p.y
    else p.y
  }

  /**
   * The first tile ahead of p that is free ('.') or wall ('#'); every tile before it is neither
   * and lies off the ring.
   */
  function ScanFrom(t: map<Position, char>, p: Position, d: Position, width: int, height: int): (r: Position)
    requires Walled(t, width, height) && Inside(p, width, height) && Unit(d)
    ensures r in t && (t[r] == '.' || t[r] == '#')
    ensures Ahead(p, d, r)
    ensures forall q :: Ahead(p, d, q) && Ahead(q, d, r) ==> Inside(q, width, height) && t[q] != '.' && t[q] != '#'
    decreases Room(p, d, width, height)
  {
    var n := Add(p, d);
    if t[n] == '.' || t[n] == '#' then n else ScanFrom(t, n, d, width, height)
  }

  /**
   * A tile part way through a push towards the free tile r: the stretch after `cur` up to r
   * holds the tile that was behind it, `cur` holds the '.', and the rest is as it was.
   */
  function ShiftedAt(t: map<Position, char>, cur: Position, r: Position, d: Position, q: Position): char
  {
    if q == cur then '.' else if Ahead(cur, d, q) && !Ahead(r, d, q) then Get(t, Sub(q, d)) else Get(t, q)
  }

  /** The tiles after a push from p that found the free tile r: everything up to r moved one step. */
  function Pushed(t: map<Position, char>, p: Position, r: Position, d: Position): map<Position, char>
  {
    map q | q in t :: ShiftedAt(t, p, r, d, q)
  }

  /** One move of runRobot (lines 92-121). */
  function Move(s: Warehouse, d: Position, width: int, height: int): Warehouse
    requires Valid(s, width, height) && Unit(d)
  {
    var dest := ScanFrom(s.tiles, s.robot, d, width, height);
    if s.tiles[dest] == '#' then s else Warehouse(Pushed(s.tiles, s.robot, dest, d), Add(s.robot, d))
  }

  /** A move keeps the warehouse walled with one robot, moves no wall, and moves the robot by d or not at all. */
  lemma MoveKeeps(s: Warehouse, d: Position, width: int, height: int)
    requires Valid(s, width, height) && Unit(d)
    ensures Valid(Move(s, d, width, height), width, height)
    ensures SameWalls(s.tiles, Move(s, d, width, height).tiles)
    ensures Move(s, d, width, height).robot in {s.robot, Add(s.robot, d)}
  {
    var t := s.tiles;
    var dest := ScanFrom(t, s.robot, d, width, height);
    if t[dest] != '#' {
      var u := Pushed(t, s.robot, dest, d);
      var r := Add(s.robot, d);
      assert u.Keys == t.Keys;
      forall q | q in t
        ensures (u[q] == '#' <==> t[q] == '#') && (u[q] == '@' <==> q == r)
      {
        if q != s.robot && Ahead(s.robot, d, q) && !Ahead(dest, d, q) {
          var b := Sub(q, d);
          assert b == s.robot || (Ahead(s.robot, d, b) && Ahead(b, d, dest));
        }
      }
      assert Inside(r, width, height) by {
        if r != dest {
          assert Ahead(s.robot, d, r) && Ahead(r, d, dest);
        }
      }
    }
  }

  /** The scan of lines 92-103: where it stops, and whether it stopped on a free tile. */
  method Scan(t: map<Position, char>, robot: Position, d: Position, ghost width: int, ghost height: int)
    returns (canMove: bool, dest: Position)
    requires Walled(t, width, height) && Inside(robot, width, height) && Unit(d)
    ensures dest == ScanFrom(t, robot, d, width, height)
    ensures canMove <==> t[dest] == '.'
  {
    var current := robot;
    dest := Add(current, d);
    canMove := true;
    while Get(t, dest) != '.'
      invariant Inside(current, width, height) && dest == Add(current, d)
      invariant ScanFrom(t, robot, d, width, height) == ScanFrom(t, current, d, width, height)
      decreases Room(current, d, width, height)
    {
      if Get(t, dest) == '#' {
        canMove := false;
        break;
      }
      current := dest;
      dest := Add(current, d);
    }
  }

  /** The walk back can start: the robot, a free tile r ahead of it, and only present, robot-free tiles between. */
  ghost predicate Stretch(t: map<Position, char>, robot: Position, r: Position, d: Position)
  {
    robot in t && t[robot] == '@' && r in t && t[r] == '.' && Ahead(robot, d, r)
    && forall q :: Ahead(robot, d, q) && Ahead(q, d, r) ==> q in t && t[q] != '@'
  }

  /** How far q is from p along a row or a column. */
  function Gap(p: Position, q: Position): nat
  {
    (if q.x >= p.x then q.x - p.x else p.x - q.x) + (if q.y >= p.y then q.y - p.y else p.y - q.y)
  }

  /** One swap of the walk back turns the tiles pushed from `cur` into the tiles pushed from the tile behind it. */
  lemma WalkBackStep(t: map<Position, char>, robot: Position, r: Position, d: Position, cur: Position)
    requires Unit(d) && Stretch(t, robot, r, d)
    requires Ahead(robot, d, cur) && !Ahead(r, d, cur)
    ensures Sub(cur, d) in t && cur in t
    ensures var m := Pushed(t, cur, r, d);
      m[cur := m[Sub(cur, d)]][Sub(cur, d) := m[cur]] == Pushed(t, Sub(cur, d), r, d)
    ensures Pushed(t, Sub(cur, d), r, d)[cur] == t[Sub(cur, d)]
    ensures t[Sub(cur, d)] == '@' <==> Sub(cur, d) == robot
    ensures Sub(cur, d) != robot ==> Ahead(robot, d, Sub(cur, d)) && !Ahead(r, d, Sub(cur, d))
    ensures Gap(robot, Sub(cur, d)) < Gap(robot, cur)
  {
    var prev := Sub(cur, d);
    assert prev == robot || (Ahead(robot, d, prev) && Ahead(prev, d, r));
    var m := Pushed(t, cur, r, d);
    var u := m[cur := m[prev]][prev := m[cur]];
    forall q | q in t
      ensures u[q] == ShiftedAt(t, prev, r, d, q)
    {
      if q == prev {
        assert u[q] == m[cur] == '.';
      } else if q == cur {
        assert u[q] == m[prev] == t[prev];
      } else {
        assert u[q] == m[q];
        assert Ahead(prev, d, q) == Ahead(cur, d, q);
      }
    }
  }

  /** Before the walk back nothing has moved: the '.' is still at r. */
  lemma WalkBackStart(t: map<Position, char>, r: Position, d: Position)
    requires r in t && t[r] == '.'
    ensures Pushed(t, r, r, d) == t
  {
  }

  /**
   * The walk back of lines 105-121: from the free tile towards the robot, swap each tile with
   * the one behind it until the robot has been swapped forward.
   */
  method ShiftBack(tiles: Tiles, robot: Position, d: Position, dest: Position) returns (moved: Position)
    requires Unit(d) && Stretch(tiles.at, robot, dest, d)
    modifies tiles
    ensures tiles.at == Pushed(old(tiles.at), robot, dest, d)
    ensures moved == Add(robot, d)
    ensures forall c :: Count(tiles.at, c) == Count(old(tiles.at), c)
  {
    ghost var t := tiles.at;
    var current := dest;
    WalkBackStart(t, dest, d);
    while true
      invariant Ahead(robot, d, current) && !Ahead(dest, d, current)
      invariant tiles.at == Pushed(t, current, dest, d)
      invariant forall c :: Count(tiles.at, c) == Count(t, c)
      decreases Gap(robot, current)
    {
      var prev := Sub(current, d);
      WalkBackStep(t, robot, dest, d, current);
      forall c | true
        ensures Count(tiles.at[current := tiles.at[prev]][prev := tiles.at[current]], c) == Count(t, c)
      {
        SwapCount(tiles.at, current, prev, c);
      }
      tiles.at := tiles.at[current := tiles.at[prev]][prev := tiles.at[current]];
      if Get(tiles.at, current) == '@' {
        moved := current;
        break;
      }
      current := prev;
    }
  }

  /** One iteration of runRobot's loop on the shared tiles; returns the robot's new position. */
  method MoveRobot(tiles: Tiles, robot: Position, d: Position, ghost width: int, ghost height: int)
    returns (next: Position)
    requires Valid(Warehouse(tiles.at, robot), width, height) == true && Unit(d)
    modifies tiles
    ensures Warehouse(tiles.at, next) == Move(Warehouse(old(tiles.at), robot), d, width, height)
    ensures forall c :: Count(tiles.at, c) == Count(old(tiles.at), c)
  {
    var canMove, dest := Scan(tiles.at, robot, d, width, height);
    next := robot;
    if canMove {
      next := ShiftBack(tiles, robot, d, dest);
    }
  }

  /** The moves runRobot still has to make: from nextMove on. */
  function Pending(moves: string, nextMove: int): (r: string)
    requires nextMove >= 0
    ensures nextMove <= |moves| ==> r == moves[nextMove..]
    ensures nextMove >= |moves| ==> r == []
  {
    if nextMove <= |moves| then moves[nextMove..] else []
  }

  predicate AllArrows(moves: string)
  {
    forall i :: 0 <= i < |moves| ==> IsArrow(moves[i])
  }

  /**
   * runRobot's moves made in order. The warehouse stays walled with one robot, and no wall
   * ever moves.
   */
  function Run(s: Warehouse, moves: string, width: int, height: int): (r: Warehouse)
    requires Valid(s, width, height) == true && AllArrows(moves)
    ensures Valid(r, width, height) && SameWalls(s.tiles, r.tiles)
    decreases |moves|
  {
    if moves == [] then s
    else
      MoveKeeps(s, Delta(moves[0]), width, height);
      Run(Move(s, Delta(moves[0]), width, height), moves[1..], width, height)
  }

  /** Making `moves` from s ends in `final`. */
  ghost predicate Runs(s: Warehouse, moves: string, final: Warehouse, width: int, height: int)
  {
    Valid(s, width, height) && AllArrows(moves) && Run(s, moves, width, height) == final
  }

  /** After the first move, the rest of the moves still end in the same place. */
  lemma RunsStep(s: Warehouse, moves: string, final: Warehouse, width: int, height: int)
    requires Runs(s, moves, final, width, height) == true && moves != []
    ensures Unit(Delta(moves[0]))
    ensures Runs(Move(s, Delta(moves[0]), width, height), moves[1..], final, width, height) == true
  {
    MoveKeeps(s, Delta(moves[0]), width, height);
  }

  /**
   * runRobot (lines 70-123). Only the shared tiles change; the robot and nextMove updates stay
   * in the function's own copy of the board. Every tile is only ever swapped, so the number of
   * tiles of each kind is unchanged.
   */
  method RunRobot(board: Board)
    requires board.nextMove >= 0 && AllArrows(Pending(board.moves, board.nextMove))
    requires Valid(Warehouse(board.tiles.at, board.robot), board.width, board.height) == true
    modifies board.tiles
    ensures board.tiles.at == Run(Warehouse(old(board.tiles.at), board.robot), Pending(board.moves, board.nextMove), board.width, board.height).tiles
    ensures forall c :: Count(board.tiles.at, c) == Count(old(board.tiles.at), c)
  {
    var tiles, moves := board.tiles, board.moves;
    ghost var width, height := board.width, board.height;
    ghost var final := Run(Warehouse(tiles.at, board.robot), Pending(moves, board.nextMove), width, height);
    // The robot and nextMove fields of Go's by-value copy of the board.
    var robot, nextMove := board.robot, board.nextMove;
    while nextMove < |moves|
      invariant nextMove >= 0
      invariant Runs(Warehouse(tiles.at, robot), Pending(moves, nextMove), final, width, height) == true
      invariant forall c :: Count(tiles.at, c) == Count(old(tiles.at), c)
      decreases |moves| - nextMove
    {
      var move := moves[nextMove];
      RunsStep(Warehouse(tiles.at, robot), Pending(moves, nextMove), final, width, height);
      assert Pending(moves, nextMove)[1..] == Pending(moves, nextMove + 1);
      nextMove := nextMove + 1;
      robot := MoveRobot(tiles, robot, Delta(move), width, height);
    }
  }

  // ---------------------------------------------------------------------------------------
  // scoreBoard
  // ---------------------------------------------------------------------------------------

  /** The GPS coordinate of a tile: 100 times its row plus its column. */
  function Gps(p: Position): int
  {
    p.y * 100 + p.x
  }

  /** What the tile at p adds to the score of the tiles that show c. */
  function GpsOf(t: map<Position, char>, c: char, p: Position): int
  {
    if Get(t, p) == c then Gps(p) else 0
  }

  /** The score of the tiles among `keys` that show c, adding one tile after another. */
  ghost function GpsSum(t: map<Position, char>, c: char, keys: set<Position>): int
    decreases keys
  {
    if keys == {} then 0
    else
      var p :| p in keys;
      GpsOf(t, c, p) + GpsSum(t, c, keys - {p})
  }

  /** Any tile can be added first: the sum does not depend on the order Go's map iteration picks. */
  lemma {:induction false} GpsSumRemove(t: map<Position, char>, c: char, keys: set<Position>, p: Position)
    requires p in keys
    ensures GpsSum(t, c, keys) == GpsOf(t, c, p) + GpsSum(t, c, keys - {p})
    decreases keys
  {
    var q :| q in keys && GpsSum(t, c, keys) == GpsOf(t, c, q) + GpsSum(t, c, keys - {q});
    if q != p {
      GpsSumRemove(t, c, keys - {q}, p);
      GpsSumRemove(t, c, keys - {p}, q);
      assert keys - {q} - {p} == keys - {p} - {q};
    }
  }

  /** The loop of scoreBoard and wideScoreBoard: the tiles showing c, visited in any order. */
  method SumGps(t: map<Position, char>, c: char) returns (sum: int)
    ensures sum == GpsSum(t, c, t.Keys)
  {
    sum := 0;
    var keys := t.Keys;
    while keys != {}
      invariant keys <= t.Keys
      invariant sum + GpsSum(t, c, keys) == GpsSum(t, c, t.Keys)
      decreases |keys|
    {
      var p :| p in keys;
      GpsSumRemove(t, c, keys, p);
      if t[p] == c {
        sum := sum + Gps(p);
      }
      keys := keys - {p};
    }
  }

  /** scoreBoard (lines 134-143): the GPS coordinates of the 'O' boxes, summed. */
  method ScoreBoard(board: Board) returns (score: int)
    ensures score == GpsSum(board.tiles.at, 'O', board.tiles.at.Keys)
  {
    score := SumGps(board.tiles.at, 'O');
  }
}

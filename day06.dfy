/**
 * Day 6: a guard walks a rectangular lab, turning right at every obstacle, until it steps off
 * the map. Part 1 collects the tiles it visits; part 2 counts the tiles of that path (other
 * than the start) where one extra obstacle would trap the guard in a loop.
 * The map is given as already-split lines.
 */
module Day06 {
  import opened Common

  /** Facing 0 = up, 1 = right, 2 = down, 3 = left. */
  datatype GuardState = GuardState(pos: Position, facing: int)

  datatype Board = Board(width: int, height: int, obstacles: set<Position>, guardState: GuardState)

  predicate InBounds(board: Board, p: Position)
  {
    0 <= p.x < board.width && 0 <= p.y < board.height
  }

  /** A state the guard can be in while on the map: an in-bounds tile and one of the four facings. */
  predicate ValidState(board: Board, s: GuardState)
  {
    InBounds(board, s.pos) && 0 <= s.facing < 4
  }

  // ---------------------------------------------------------------------------------------
  // Parsing the map
  // ---------------------------------------------------------------------------------------

  /**
   * parseBoard: width from the first line, height from the number of lines, an obstacle at
   * every '#', and the guard, facing up, on the last '^' read (the zero position when none).
   */
  method ParseBoard(lines: seq<seq<char>>) returns (board: Board)
    requires |lines| >= 1
    ensures board.width == |lines[0]| && board.height == |lines|
    ensures forall p :: p in board.obstacles <==> IsCell(lines, p, '#')
    ensures board.guardState.facing == 0
    ensures var g := board.guardState.pos;
      (IsCell(lines, g, '^') || (g == Position(0, 0) && forall p :: !IsCell(lines, p, '^'))) &&
      forall p :: IsCell(lines, p, '^') ==> !ReadBefore(g, p)
  {
    var obstacles: set<Position> := {};
    var guardPos := Position(0, 0);
    var found := false;
    for y := 0 to |lines|
      invariant forall p :: p in obstacles <==> IsCell(lines, p, '#') && p.y < y
      invariant found ==> IsCell(lines, guardPos, '^') && guardPos.y < y
      invariant !found ==> guardPos == Position(0, 0)
      invariant forall p :: IsCell(lines, p, '^') && p.y < y ==> found && !ReadBefore(guardPos, p)
    {
      var line := lines[y];
      for x := 0 to |line|
        invariant forall p :: p in obstacles <==> IsCell(lines, p, '#') && (p.y < y || (p.y == y && p.x < x))
        invariant found ==> IsCell(lines, guardPos, '^') && guardPos.y <= y && (guardPos.y == y ==> guardPos.x < x)
        invariant !found ==> guardPos == Position(0, 0)
        invariant forall p :: IsCell(lines, p, '^') && (p.y < y || (p.y == y && p.x < x)) ==>
          found && !ReadBefore(guardPos, p)
      {
        if line[x] == '#' {
          obstacles := obstacles + {Position(x, y)};
        } else if line[x] == '^' {
          guardPos := Position(x, y);
          found := true;
        }
      }
    }
    board := Board(|lines[0]|, |lines|, obstacles, GuardState(guardPos, 0));
  }

  /** The guard found by parsing never stands on an obstacle, and it is on the map when a '^' exists. */
  lemma ParsedGuardIsFree(lines: seq<seq<char>>, board: Board)
    requires |lines| >= 1 && board.height == |lines|
    requires forall y :: 0 <= y < |lines| ==> |lines[y]| == board.width
    requires forall p :: p in board.obstacles <==> IsCell(lines, p, '#')
    requires IsCell(lines, board.guardState.pos, '^') && board.guardState.facing == 0
    ensures board.guardState.pos !in board.obstacles
    ensures ValidState(board, board.guardState)
  {
  }

  // ---------------------------------------------------------------------------------------
  // One step of the guard
  // ---------------------------------------------------------------------------------------

  /** The tile in front of the guard; a facing outside 0..3 leaves Go's zero position. */
  function NextTile(s: GuardState): Position
  {
    if s.facing == 0 then Position(s.pos.x, s.pos.y - 1)
    else if s.facing == 1 then Position(s.pos.x + 1, s.pos.y)
    else if s.facing == 2 then Position(s.pos.x, s.pos.y + 1)
    else if s.facing == 3 then Position(s.pos.x - 1, s.pos.y)
    else Position(0, 0)
  }

  /** Go's `(facing + 1) % 4`: the remainder takes the sign of the dividend. */
  function TurnRight(facing: int): (r: int)
    ensures 0 <= facing < 4 ==> 0 <= r < 4
  {
    if facing + 1 >= 0 then (facing + 1) % 4 else -((-(facing + 1)) % 4)
  }

  /**
   * stepGuard: (state, false) when the tile in front is off the map; otherwise a turn to the
   * right in place when that tile is an obstacle, or a step onto it.
   */
  function StepGuard(board: Board, s: GuardState): (GuardState, bool)
  {
    var next := NextTile(s);
    if next.x < 0 || next.x >= board.width || next.y < 0 || next.y >= board.height then
      (s, false)
    else if next in board.obstacles then
      (GuardState(s.pos, TurnRight(s.facing)), true)
    else
      (GuardState(next, s.facing), true)
  }

  /**
   * What one step does: it fails exactly when the tile in front is off the map, and then leaves
   * the state alone; a step that moves goes onto the free tile in front without turning; and a
   * valid state stays valid.
   */
  lemma StepGuardSpec(board: Board, s: GuardState)
    ensures var r := StepGuard(board, s);
      (!r.1 <==> !InBounds(board, NextTile(s))) &&
      (!r.1 ==> r.0 == s) &&
      (r.1 && r.0.pos != s.pos ==> r.0 == GuardState(NextTile(s), s.facing) && r.0.pos !in board.obstacles) &&
      (ValidState(board, s) && r.1 && r.0.pos == s.pos ==> r.0 == GuardState(s.pos, TurnRight(s.facing))) &&
      (ValidState(board, s) ==> ValidState(board, r.0))
  {
  }

  function Next(board: Board, s: GuardState): GuardState
  {
    StepGuard(board, s).0
  }

  predicate Ok(board: Board, s: GuardState)
  {
    StepGuard(board, s).1
  }

  /** The state after k calls of stepGuard (an exit leaves the state as it is). */
  function Run(board: Board, s: GuardState, k: nat): GuardState
    decreases k
  {
    if k == 0 then s else Next(board, Run(board, s, k - 1))
  }

  lemma {:induction false} RunAdd(board: Board, s: GuardState, a: nat, b: nat)
    ensures Run(board, s, a + b) == Run(board, Run(board, s, a), b)
    decreases b
  {
    if b > 0 {
      RunAdd(board, s, a, b - 1);
    }
  }

  /** Running k + 1 steps is one step followed by k steps. */
  lemma RunFirst(board: Board, s: GuardState, k: nat)
    ensures Run(board, s, k + 1) == Run(board, Next(board, s), k)
  {
    RunAdd(board, s, 1, k);
  }

  /** The guard, starting from s, steps off the map within n steps. */
  predicate ExitsWithin(board: Board, s: GuardState, n: nat)
    decreases n
  {
    !Ok(board, s) || (n > 0 && ExitsWithin(board, Next(board, s), n - 1))
  }

  ghost predicate Leaves(board: Board)
  {
    exists n: nat :: ExitsWithin(board, board.guardState, n)
  }

  /** Exiting within n steps means that one of the first n + 1 states has the map edge in front. */
  lemma ExitsWithinMeans(board: Board, s: GuardState, n: nat)
    ensures ExitsWithin(board, s, n) <==> exists k: nat :: k <= n && !Ok(board, Run(board, s, k))
  {
    if ExitsWithin(board, s, n) {
      var k := ExitStep(board, s, n);
    }
    if exists k: nat :: k <= n && !Ok(board, Run(board, s, k)) {
      var k: nat :| k <= n && !Ok(board, Run(board, s, k));
      ExitAt(board, s, n, k);
    }
  }

  /** A guard that exits within n steps meets the edge at some step k <= n. */
  lemma {:induction false} ExitStep(board: Board, s: GuardState, n: nat) returns (k: nat)
    requires ExitsWithin(board, s, n)
    ensures k <= n && !Ok(board, Run(board, s, k))
    decreases n
  {
    if !Ok(board, s) {
      k := 0;
    } else {
      var j := ExitStep(board, Next(board, s), n - 1);
      RunFirst(board, s, j);
      k := j + 1;
    }
  }

  /** Meeting the edge at step k <= n means exiting within n steps. */
  lemma {:induction false} ExitAt(board: Board, s: GuardState, n: nat, k: nat)
    requires k <= n && !Ok(board, Run(board, s, k))
    ensures ExitsWithin(board, s, n)
    decreases k
  {
    if k > 0 {
      RunFirst(board, s, k - 1);
      ExitAt(board, Next(board, s), n - 1, k - 1);
    }
  }

  // ---------------------------------------------------------------------------------------
  // Part 1: the tiles of the path
  // ---------------------------------------------------------------------------------------

  /** The tiles the guard occupies from s until it exits, which it does within n steps. */
  function Tiles(board: Board, s: GuardState, n: nat): set<Position>
    requires ExitsWithin(board, s, n)
    decreases n
  {
    if !Ok(board, s) then {s.pos} else {s.pos} + Tiles(board, Next(board, s), n - 1)
  }

  /** The tiles do not depend on which exit bound is used. */
  lemma {:induction false} TilesIndependent(board: Board, s: GuardState, n: nat, m: nat)
    requires ExitsWithin(board, s, n) && ExitsWithin(board, s, m)
    ensures Tiles(board, s, n) == Tiles(board, s, m)
    decreases n
  {
    if Ok(board, s) {
      TilesIndependent(board, Next(board, s), n - 1, m - 1);
    }
  }

  /** The path of a guard that starts off the obstacles never meets an obstacle. */
  lemma {:induction false} TilesAvoidObstacles(board: Board, s: GuardState, n: nat)
    requires ExitsWithin(board, s, n) && s.pos !in board.obstacles
    ensures Tiles(board, s, n) !! board.obstacles
    decreases n
  {
    if Ok(board, s) {
      StepGuardSpec(board, s);
      TilesAvoidObstacles(board, Next(board, s), n - 1);
    }
  }

  /** Starting on the map, every tile of the path is on the map. */
  lemma {:induction false} TilesInBounds(board: Board, s: GuardState, n: nat)
    requires ExitsWithin(board, s, n) && InBounds(board, s.pos)
    ensures forall p :: p in Tiles(board, s, n) ==> InBounds(board, p)
    decreases n
  {
    if Ok(board, s) {
      StepGuardSpec(board, s);
      TilesInBounds(board, Next(board, s), n - 1);
    }
  }

  /**
   * traceGuardPath: the start tile and every tile the guard occupies before it leaves.
   * The Go loop never ends for a guard that does not leave, hence the precondition.
   */
  method TraceGuardPath(board: Board) returns (seenTiles: set<Position>)
    requires Leaves(board)
    ensures forall n: nat :: ExitsWithin(board, board.guardState, n) ==> seenTiles == Tiles(board, board.guardState, n)
  {
    ghost var n: nat :| ExitsWithin(board, board.guardState, n);
    seenTiles := {board.guardState.pos};
    var current := board.guardState;
    ghost var rest := n;
    while true
      invariant ExitsWithin(board, current, rest)
      invariant current.pos in seenTiles
      invariant seenTiles + Tiles(board, current, rest) == Tiles(board, board.guardState, n)
      decreases rest
    {
      var (next, ok) := StepGuard(board, current);
      if !ok {
        break;
      }
      if current.pos != next.pos {
        seenTiles := seenTiles + {next.pos};
      }
      current := next;
      rest := rest - 1;
    }
    forall m: nat | ExitsWithin(board, board.guardState, m)
      ensures seenTiles == Tiles(board, board.guardState, m)
    {
      TilesIndependent(board, board.guardState, n, m);
    }
  }

  // ---------------------------------------------------------------------------------------
  // Part 2: obstacles that make the guard loop
  // ---------------------------------------------------------------------------------------

  /** Every state the guard can be in on a board: in-bounds tile, facing 0..3. */
  function States(board: Board): (r: set<GuardState>)
    ensures forall s :: s in r <==> ValidState(board, s)
  {
    set x, y, f | 0 <= x < board.width && 0 <= y < board.height && 0 <= f < 4 :: GuardState(Position(x, y), f)
  }

  ghost function StateCount(board: Board): nat
  {
    |States(board)|
  }

  /** A set of valid states that leaves out a valid state has room for it. */
  lemma RoomForNewState(board: Board, seen: set<GuardState>, next: GuardState)
    requires forall st :: st in seen ==> ValidState(board, st)
    requires ValidState(board, next) && next !in seen
    ensures |seen + {next}| <= StateCount(board)
  {
    SubsetCard(seen + {next}, States(board));
  }

  /** If a state repeats before the guard ever meets the edge, it never meets it. */
  lemma {:induction false} RepeatMeansNoExit(board: Board, s: GuardState, i: nat, j: nat, k: nat)
    requires i < j && Run(board, s, i) == Run(board, s, j)
    requires forall m: nat :: m < j ==> Ok(board, Run(board, s, m))
    ensures Ok(board, Run(board, s, k))
    decreases k
  {
    if k >= j {
      var back := k - (j - i);
      RunAdd(board, s, j, k - j);
      RunAdd(board, s, i, k - j);
      assert i + (k - j) == back;
      RepeatMeansNoExit(board, s, i, j, back);
    }
  }

  lemma RepeatMeansLoop(board: Board, i: nat, j: nat)
    requires i < j && Run(board, board.guardState, i) == Run(board, board.guardState, j)
    requires forall m: nat :: m < j ==> Ok(board, Run(board, board.guardState, m))
    ensures Loops(board)
  {
    forall n: nat
      ensures !ExitsWithin(board, board.guardState, n)
    {
      ExitsWithinMeans(board, board.guardState, n);
      forall m: nat | m <= n
        ensures Ok(board, Run(board, board.guardState, m))
      {
        RepeatMeansNoExit(board, board.guardState, i, j, m);
      }
    }
  }

  /** The guard is trapped: it never exits, however many steps are allowed. */
  ghost predicate Loops(board: Board)
  {
    !Leaves(board)
  }

  /**
   * The trial run of findLoops for one extra obstacle: it records every state and stops at the
   * map edge (no loop) or at the first repeated state (a loop). There are finitely many states,
   * so it always stops.
   */
  method DetectLoop(board: Board) returns (foundLoop: bool)
    requires ValidState(board, board.guardState)
    ensures foundLoop <==> Loops(board)
  {
    var start := board.guardState;
    var newPath := {start};
    var current := start;
    ghost var trace := [start];
    while true
      invariant RunPrefix(board, start, trace) && current == trace[|trace| - 1] && ValidState(board, current)
      invariant forall st :: st in newPath <==> st in trace
      invariant forall st :: st in newPath ==> ValidState(board, st)
      invariant |newPath| <= StateCount(board)
      decreases StateCount(board) - |newPath|
    {
      var (next, ok) := StepGuard(board, current);
      StepGuardSpec(board, current);
      if !ok {
        PrefixEndsInExit(board, trace);
        foundLoop := false;
        return;
      }
      if next in newPath {
        ghost var i :| 0 <= i < |trace| && trace[i] == next;
        PrefixRepeats(board, trace, i);
        foundLoop := true;
        return;
      }
      RoomForNewState(board, newPath, next);
      newPath := newPath + {next};
      current := next;
      PrefixExtends(board, start, trace);
      trace := trace + [next];
    }
  }

  /** trace holds the first |trace| states of the run from start, and all but the last step on. */
  ghost predicate RunPrefix(board: Board, start: GuardState, trace: seq<GuardState>)
  {
    |trace| >= 1 &&
    (forall m :: 0 <= m < |trace| ==> trace[m] == Run(board, start, m)) &&
    (forall m :: 0 <= m < |trace| - 1 ==> Ok(board, trace[m]))
  }

  /** A prefix whose last state steps on extends by that step. */
  lemma PrefixExtends(board: Board, start: GuardState, trace: seq<GuardState>)
    requires RunPrefix(board, start, trace) && Ok(board, trace[|trace| - 1])
    ensures RunPrefix(board, start, trace + [Next(board, trace[|trace| - 1])])
  {
  }

  /** A prefix of the guard's run whose last state meets the edge: the guard leaves. */
  lemma PrefixEndsInExit(board: Board, trace: seq<GuardState>)
    requires RunPrefix(board, board.guardState, trace) && !Ok(board, trace[|trace| - 1])
    ensures !Loops(board)
  {
    NoLoopAt(board, |trace| - 1);
  }

  /** A prefix of the guard's run whose next state is already in it: the guard loops. */
  lemma PrefixRepeats(board: Board, trace: seq<GuardState>, i: nat)
    requires RunPrefix(board, board.guardState, trace) && Ok(board, trace[|trace| - 1])
    requires i < |trace| && trace[i] == Next(board, trace[|trace| - 1])
    ensures Loops(board)
  {
    var j := |trace|;
    assert Run(board, board.guardState, j) == Next(board, Run(board, board.guardState, j - 1));
    forall m: nat | m < j
      ensures Ok(board, Run(board, board.guardState, m))
    {
      assert trace[m] == Run(board, board.guardState, m);
    }
    RepeatMeansLoop(board, i, j);
  }

  /** Meeting the edge after k steps means that the guard leaves. */
  lemma NoLoopAt(board: Board, k: nat)
    requires !Ok(board, Run(board, board.guardState, k))
    ensures !Loops(board)
  {
    ExitsWithinMeans(board, board.guardState, k);
  }

  /** The tiles of `candidates`, other than the start, where one extra obstacle traps the guard. */
  ghost function LoopTiles(board: Board, candidates: set<Position>): set<Position>
  {
    set p | p in candidates && p != board.guardState.pos && Loops(board.(obstacles := board.obstacles + {p}))
  }

  /**
   * findLoops: tries an extra obstacle on every tile of the path except the start and counts
   * the trials that loop. The obstacle map is shared with the caller; the second result is that
   * map after the call, with every temporary obstacle deleted again.
   */
  method FindLoops(board: Board, guardPath: set<Position>) returns (loopsFound: nat, obstacles: set<Position>)
    requires ValidState(board, board.guardState)
    requires guardPath !! board.obstacles
    ensures obstacles == board.obstacles
    ensures loopsFound == |LoopTiles(board, guardPath)| <= |guardPath|
  {
    loopsFound := 0;
    obstacles := board.obstacles;
    var remaining := guardPath;
    while remaining != {}
      invariant remaining <= guardPath && obstacles == board.obstacles
      invariant loopsFound == |LoopTiles(board, guardPath - remaining)|
      decreases |remaining|
    {
      var pos :| pos in remaining;
      ghost var done := guardPath - remaining;
      LoopTilesStep(board, done, pos);
      remaining := remaining - {pos};
      assert guardPath - remaining == done + {pos};
      if pos == board.guardState.pos {
        continue;
      }
      obstacles := obstacles + {pos};
      var foundLoop := DetectLoop(Board(board.width, board.height, obstacles, board.guardState));
      if foundLoop {
        loopsFound := loopsFound + 1;
      }
      obstacles := obstacles - {pos};
    }
    assert guardPath - remaining == guardPath;
    assert LoopTiles(board, guardPath) <= guardPath;
    SubsetCard(LoopTiles(board, guardPath), guardPath);
  }

  /** Trying one more tile adds one loop tile exactly when that tile traps the guard. */
  lemma LoopTilesStep(board: Board, done: set<Position>, pos: Position)
    requires pos !in done
    ensures |LoopTiles(board, done + {pos})| == |LoopTiles(board, done)|
      + (if pos != board.guardState.pos && Loops(board.(obstacles := board.obstacles + {pos})) then 1 else 0)
  {
    if pos != board.guardState.pos && Loops(board.(obstacles := board.obstacles + {pos})) {
      assert LoopTiles(board, done + {pos}) == LoopTiles(board, done) + {pos};
    } else {
      assert LoopTiles(board, done + {pos}) == LoopTiles(board, done);
    }
  }

  lemma SubsetCard<T>(a: set<T>, b: set<T>)
    requires a <= b
    ensures |a| <= |b|
  {
    assert b == a + (b - a);
  }
}

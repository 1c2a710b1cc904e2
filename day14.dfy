/**
 * Day 14: robots move on a board that wraps around at its edges like a torus. Each robot has
 * a position and a constant velocity. Part 1 advances every robot 100 steps and multiplies the
 * numbers of robots in the four quadrants; part 2 advances one step at a time until no two
 * robots share a tile. The robots are given already parsed.
 */
module Day14 {
  import opened Common

  /** The dimensions parseBoard gives every board (lines 13-14, 74-78). */
  const BoardWidth := 101
  const BoardHeight := 103

  datatype Vec2 = Vec2(x: int, y: int)

  datatype Robot = Robot(position: Vec2, velocity: Vec2)

  /**
   * Go's Board struct: the dimensions and a slice of robots. Passing the struct around copies
   * the slice header only, so every copy writes to the same robots, as this array does.
   */
  datatype Board = Board(width: int, height: int, robots: array<Robot>)

  predicate InBounds(p: Vec2, width: int, height: int)
  {
    0 <= p.x < width && 0 <= p.y < height
  }

  // ---------------------------------------------------------------------------------------
  // advanceBoard
  // ---------------------------------------------------------------------------------------

  /**
   * Lines 85-86: `((p + d) % n + n) % n` with Go's truncating `%`, which lands in [0, n) even
   * when p + d is negative. It is the Euclidean remainder of p + d.
   */
  function Wrap(p: int, d: int, n: int): (r: int)
    requires n > 0
    ensures 0 <= r < n
    ensures r == (p + d) % n
  {
    WrapIsMod(p, d, n);
    GoRem(GoRem(p + d, n) + n, n)
  }

  lemma WrapIsMod(p: int, d: int, n: int)
    requires n > 0
    ensures GoRem(GoRem(p + d, n) + n, n) == (p + d) % n
  {
    var a := p + d;
    var inner := GoRem(a, n);
    var r := GoRem(inner + n, n);
    var q1 := (a - inner) / n;
    assert a - inner == n * q1;
    var q2 := (inner + n - r) / n;
    assert inner + n - r == n * q2;
    assert n * (q1 + q2 - 1) == n * q1 + n * q2 - n;
    ModUnique(a, n, q1 + q2 - 1, r);
  }

  /** One robot after `steps` steps: its position moves by steps times its velocity and wraps. */
  function Advanced(r: Robot, width: int, height: int, steps: int): Robot
    requires width > 0 && height > 0
  {
    Robot(Vec2(Wrap(r.position.x, r.velocity.x * steps, width), Wrap(r.position.y, r.velocity.y * steps, height)),
          r.velocity)
  }

  /** All robots after `steps` steps: in bounds, in the same order, with the same velocities. */
  function AdvanceAll(robots: seq<Robot>, width: int, height: int, steps: int): (r: seq<Robot>)
    requires width > 0 && height > 0
    ensures |r| == |robots|
    ensures forall i :: 0 <= i < |r| ==> r[i].velocity == robots[i].velocity && InBounds(r[i].position, width, height)
  {
    seq(|robots|, i requires 0 <= i < |robots| => Advanced(robots[i], width, height, steps))
  }

  /** advanceBoard (lines 81-90): rewrites each robot's position in place, x first, then y. */
  method AdvanceBoard(board: Board, steps: int)
    requires board.width > 0 && board.height > 0
    modifies board.robots
    ensures board.robots[..] == AdvanceAll(old(board.robots[..]), board.width, board.height, steps)
  {
    var robots := board.robots;
    for i := 0 to robots.Length
      invariant forall k :: 0 <= k < i ==> robots[k] == Advanced(old(robots[k]), board.width, board.height, steps)
      invariant forall k :: i <= k < robots.Length ==> robots[k] == old(robots[k])
    {
      var r := robots[i];
      var deltaX := r.velocity.x * steps;
      var deltaY := r.velocity.y * steps;
      var nextX := GoRem(GoRem(r.position.x + deltaX, board.width) + board.width, board.width);
      var nextY := GoRem(GoRem(r.position.y + deltaY, board.height) + board.height, board.height);
      robots[i] := robots[i].(position := robots[i].position.(x := nextX));
      robots[i] := robots[i].(position := robots[i].position.(y := nextY));
    }
  }

  /** Advancing k steps and then m steps is advancing k + m steps. */
  lemma AdvanceCompose(robots: seq<Robot>, width: int, height: int, k: int, m: int)
    requires width > 0 && height > 0
    ensures AdvanceAll(AdvanceAll(robots, width, height, k), width, height, m) == AdvanceAll(robots, width, height, k + m)
  {
    var once := AdvanceAll(robots, width, height, k);
    forall i | 0 <= i < |robots|
      ensures Advanced(once[i], width, height, m) == Advanced(robots[i], width, height, k + m)
    {
      var p, v := robots[i].position, robots[i].velocity;
      WrapCompose(p.x, v.x, width, k, m);
      WrapCompose(p.y, v.y, height, k, m);
    }
  }

  lemma WrapCompose(p: int, v: int, n: int, k: int, m: int)
    requires n > 0
    ensures Wrap(Wrap(p, v * k, n), v * m, n) == Wrap(p, v * (k + m), n)
  {
    assert v * (k + m) == v * k + v * m;
    ModAdd(p + v * k, v * m, n);
  }

  /** Zero steps leave robots that are on the board where they are. */
  lemma AdvanceZero(robots: seq<Robot>, width: int, height: int)
    requires width > 0 && height > 0
    requires forall i :: 0 <= i < |robots| ==> InBounds(robots[i].position, width, height)
    ensures AdvanceAll(robots, width, height, 0) == robots
  {
    forall i | 0 <= i < |robots|
      ensures Advanced(robots[i], width, height, 0) == robots[i]
    {
      var p := robots[i].position;
      ModUnique(p.x, width, 0, p.x);
      ModUnique(p.y, height, 0, p.y);
    }
  }

  // ---------------------------------------------------------------------------------------
  // computeSafetyFactor
  // ---------------------------------------------------------------------------------------

  datatype Quadrant = TopLeft | TopRight | BottomLeft | BottomRight

  /** The quadrant that lines 98-106 count a robot at p in; None exactly on the middle row or column. */
  function QuadrantOf(p: Vec2, width: int, height: int): (r: Option<Quadrant>)
    ensures r == None <==> p.x == width / 2 || p.y == height / 2
  {
    if p.x < width / 2 && p.y < height / 2 then Some(TopLeft)
    else if p.x > width / 2 && p.y < height / 2 then Some(TopRight)
    else if p.x < width / 2 && p.y > height / 2 then Some(BottomLeft)
    else if p.x > width / 2 && p.y > height / 2 then Some(BottomRight)
    else None
  }

  /** The number of robots in quadrant q. */
  function CountIn(robots: seq<Robot>, q: Quadrant, width: int, height: int): (r: nat)
    ensures r <= |robots|
  {
    if robots == [] then 0
    else
      var last := robots[|robots| - 1];
      CountIn(robots[..|robots| - 1], q, width, height) + (if QuadrantOf(last.position, width, height) == Some(q) then 1 else 0)
  }

  /** The number of robots on the middle row or column. */
  function CountMiddle(robots: seq<Robot>, width: int, height: int): nat
  {
    if robots == [] then 0
    else
      var last := robots[|robots| - 1];
      CountMiddle(robots[..|robots| - 1], width, height) + (if QuadrantOf(last.position, width, height) == None then 1 else 0)
  }

  /** Every robot is counted in exactly one quadrant or in the middle. */
  lemma {:induction false} CountsAddUp(robots: seq<Robot>, width: int, height: int)
    ensures CountIn(robots, TopLeft, width, height) + CountIn(robots, TopRight, width, height)
            + CountIn(robots, BottomLeft, width, height) + CountIn(robots, BottomRight, width, height)
            + CountMiddle(robots, width, height) == |robots|
  {
    if robots != [] {
      CountsAddUp(robots[..|robots| - 1], width, height);
    }
  }

  /** The product of the four quadrant counts. */
  function SafetyFactor(robots: seq<Robot>, width: int, height: int): int
  {
    CountIn(robots, TopLeft, width, height) * CountIn(robots, TopRight, width, height)
    * CountIn(robots, BottomLeft, width, height) * CountIn(robots, BottomRight, width, height)
  }

  /** A robot on the middle row or column does not change the safety factor. */
  lemma MiddleRobotIgnored(robots: seq<Robot>, r: Robot, width: int, height: int)
    requires r.position.x == width / 2 || r.position.y == height / 2
    ensures SafetyFactor(robots + [r], width, height) == SafetyFactor(robots, width, height)
  {
    assert (robots + [r])[..|robots|] == robots;
  }

  /** computeSafetyFactor (lines 92-109). */
  method ComputeSafetyFactor(board: Board) returns (factor: int)
    ensures factor == SafetyFactor(board.robots[..], board.width, board.height)
  {
    var robots := board.robots[..];
    var tl, tr, bl, br := 0, 0, 0, 0;
    for i := 0 to |robots|
      invariant tl == CountIn(robots[..i], TopLeft, board.width, board.height)
      invariant tr == CountIn(robots[..i], TopRight, board.width, board.height)
      invariant bl == CountIn(robots[..i], BottomLeft, board.width, board.height)
      invariant br == CountIn(robots[..i], BottomRight, board.width, board.height)
    {
      assert robots[..i + 1][..i] == robots[..i];
      var r := robots[i];
      if r.position.x < board.width / 2 && r.position.y < board.height / 2 {
        tl := tl + 1;
      } else if r.position.x > board.width / 2 && r.position.y < board.height / 2 {
        tr := tr + 1;
      } else if r.position.x < board.width / 2 && r.position.y > board.height / 2 {
        bl := bl + 1;
      } else if r.position.x > board.width / 2 && r.position.y > board.height / 2 {
        br := br + 1;
      }
    }
    assert robots[..|robots|] == robots;
    factor := tl * tr * bl * br;
  }

  // ---------------------------------------------------------------------------------------
  // isBoardUnique
  // ---------------------------------------------------------------------------------------

  /** No two robots share a tile. */
  predicate Unique(robots: seq<Robot>)
  {
    forall i, j :: 0 <= i < j < |robots| ==> robots[i].position != robots[j].position
  }

  /** `robots[y][x] > 0` on the occupancy map, where a missing key reads as 0. */
  predicate Occupied(occupied: map<int, map<int, int>>, p: Vec2)
  {
    p.y in occupied && p.x in occupied[p.y] && occupied[p.y][p.x] > 0
  }

  /** isBoardUnique (lines 111-126): fills a row-then-column occupancy map and stops at the first clash. */
  method IsBoardUnique(board: Board) returns (unique: bool)
    ensures unique <==> Unique(board.robots[..])
  {
    var robots := board.robots[..];
    var occupied: map<int, map<int, int>> := map[];
    for i := 0 to |robots|
      invariant Unique(robots[..i])
      invariant forall k :: 0 <= k < i ==> Occupied(occupied, robots[k].position)
      invariant forall p :: Occupied(occupied, p) ==> exists k :: 0 <= k < i && robots[k].position == p
      invariant forall y, x :: y in occupied && x in occupied[y] ==> occupied[y][x] >= 0
    {
      var r := robots[i];
      ghost var before := occupied;
      if r.position.y !in occupied {
        occupied := occupied[r.position.y := map[]];
      }
      assert forall p :: Occupied(occupied, p) <==> Occupied(before, p);
      var row := occupied[r.position.y];
      var count := if r.position.x in row then row[r.position.x] else 0;
      if count > 0 {
        assert Occupied(occupied, r.position);
        var k :| 0 <= k < i && robots[k].position == r.position;
        assert !Unique(robots);
        return false;
      }
      ghost var mid := occupied;
      occupied := occupied[r.position.y := row[r.position.x := count + 1]];
      forall p
        ensures Occupied(occupied, p) <==> Occupied(before, p) || p == r.position
      {
        assert Occupied(mid, p) <==> Occupied(before, p);
        if p.y == r.position.y {
          assert occupied[p.y] == row[r.position.x := count + 1];
        } else if p.y in mid {
          assert occupied[p.y] == mid[p.y];
        }
      }
      assert robots[..i + 1] == robots[..i] + [r];
    }
    assert robots[..|robots|] == robots;
    return true;
  }
}

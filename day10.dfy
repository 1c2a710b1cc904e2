/**
 * Day 10: a topographic map of single-digit heights. A hiking trail starts at height 0, climbs
 * by exactly one at each orthogonal step and ends at height 9. Part 1 scores each trailhead by
 * the number of height-9 cells it reaches; part 2 rates it by the number of distinct trails.
 * The map is given as already-split lines.
 */
module Day10 {
  import opened Common

  /**
   * The parsed map. `trailCache` is created empty and nothing ever writes to it, so the
   * lookups into it never hit; it is kept so that the searches read it as the source does.
   */
  datatype Map = Map(width: int, height: int, heights: map<Position, int>, trailheads: seq<Position>,
                     trailCache: map<Position, int>)

  /** `m.heights[p]`: Go gives the zero value for a position that is not a key. */
  function HeightAt(m: Map, p: Position): int
  {
    if p in m.heights then m.heights[p] else 0
  }

  /** Every height is a digit, as parsing makes them. */
  predicate HeightsInRange(m: Map)
  {
    forall p :: p in m.heights ==> 0 <= m.heights[p] <= 9
  }

  predicate InBounds(m: Map, p: Position)
  {
    0 <= p.x < m.width && 0 <= p.y < m.height
  }

  // ---------------------------------------------------------------------------------------
  // Parsing
  // ---------------------------------------------------------------------------------------

  /** A character of the input: row y, column x. */
  predicate IsInput(lines: seq<seq<char>>, p: Position)
  {
    0 <= p.y < |lines| && 0 <= p.x < |lines[p.y]|
  }

  /**
   * parseMap: the width of the first line, the number of lines, the height of every character,
   * and the trailheads in reading order. The first line is read, so there must be one.
   */
  method ParseMap(lines: seq<seq<char>>) returns (m: Map)
    requires |lines| >= 1
    ensures m.width == |lines[0]| && m.height == |lines|
    ensures forall p :: p in m.heights <==> IsInput(lines, p)
    ensures forall p :: p in m.heights ==> IsInput(lines, p) && m.heights[p] == DigitValue(lines[p.y][p.x])
    ensures HeightsInRange(m)
    ensures forall p :: p in m.trailheads <==> p in m.heights && m.heights[p] == 0
    ensures forall i, j :: 0 <= i < j < |m.trailheads| ==> ReadBefore(m.trailheads[i], m.trailheads[j])
    ensures m.trailCache == map[]
  {
    var heights: map<Position, int> := map[];
    var trailheads: seq<Position> := [];
    for y := 0 to |lines|
      invariant forall p :: p in heights <==> IsInput(lines, p) && p.y < y
      invariant forall p :: p in heights ==> IsInput(lines, p) && heights[p] == DigitValue(lines[p.y][p.x])
      invariant forall p :: p in trailheads <==> p in heights && heights[p] == 0
      invariant forall i, j :: 0 <= i < j < |trailheads| ==> ReadBefore(trailheads[i], trailheads[j])
      invariant forall i :: 0 <= i < |trailheads| ==> trailheads[i].y < y
    {
      var line := lines[y];
      for x := 0 to |line|
        invariant forall p :: p in heights <==> IsInput(lines, p) && (p.y < y || (p.y == y && p.x < x))
        invariant forall p :: p in heights ==> IsInput(lines, p) && heights[p] == DigitValue(lines[p.y][p.x])
        invariant forall p :: p in trailheads <==> p in heights && heights[p] == 0
        invariant forall i, j :: 0 <= i < j < |trailheads| ==> ReadBefore(trailheads[i], trailheads[j])
        invariant forall i :: 0 <= i < |trailheads| ==> ReadBefore(trailheads[i], Position(x, y))
      {
        var h := DigitValue(line[x]);
        heights := heights[Position(x, y) := h];
        if h == 0 {
          trailheads := trailheads + [Position(x, y)];
        }
      }
    }
    m := Map(|lines[0]|, |lines|, heights, trailheads, map[]);
  }

  // ---------------------------------------------------------------------------------------
  // Neighbours
  // ---------------------------------------------------------------------------------------

  /**
   * The neighbour list of both searches: left, right, up and down, each only when the map's
   * width and height leave room for it. For a position on the map these are exactly its
   * orthogonal neighbours on the map.
   */
  function Neighbors(m: Map, p: Position): (r: seq<Position>)
    ensures |r| <= 4
    ensures forall i, j :: 0 <= i < j < |r| ==> r[i] != r[j]
    ensures forall n :: n in r ==> Adjacent(p, n)
    ensures InBounds(m, p) ==> forall n :: n in r <==> InBounds(m, n) && Adjacent(p, n)
  {
    (if p.x > 0 then [Position(p.x - 1, p.y)] else [])
    + (if p.x < m.width - 1 then [Position(p.x + 1, p.y)] else [])
    + (if p.y > 0 then [Position(p.x, p.y - 1)] else [])
    + (if p.y < m.height - 1 then [Position(p.x, p.y + 1)] else [])
  }

  /** The neighbours the searches climb to: exactly one higher. */
  predicate Climbs(m: Map, p: Position, n: Position)
  {
    HeightAt(m, n) - HeightAt(m, p) == 1
  }

  // ---------------------------------------------------------------------------------------
  // Part 2: the rating
  // ---------------------------------------------------------------------------------------

  /**
   * computeTrailRating: 1 at height 9; otherwise a cached value if there is one, or else the
   * sum of the ratings of the neighbours one higher. Heights only grow along the recursion and
   * stop at 9, so 9 minus the height decreases.
   */
  function Rating(m: Map, p: Position): int
    requires HeightsInRange(m)
    decreases 9 - HeightAt(m, p), 5
  {
    if HeightAt(m, p) == 9 then 1
    else if p in m.trailCache then m.trailCache[p]
    else RatingSum(m, p, Neighbors(m, p))
  }

  /** The ratings of the neighbours in ns that are one higher than p, added up. */
  function RatingSum(m: Map, p: Position, ns: seq<Position>): int
    requires HeightsInRange(m) && HeightAt(m, p) < 9 && |ns| <= 4
    decreases 9 - HeightAt(m, p), |ns|
  {
    if ns == [] then 0
    else (if Climbs(m, p, ns[0]) then Rating(m, ns[0]) else 0) + RatingSum(m, p, ns[1..])
  }

  /** The loop of computeTrailRating over the neighbour list, with the recursive calls. */
  method ComputeTrailRating(m: Map, p: Position) returns (score: int)
    requires HeightsInRange(m)
    ensures score == Rating(m, p)
    decreases 9 - HeightAt(m, p)
  {
    var currentHeight := HeightAt(m, p);
    if currentHeight == 9 {
      return 1;
    }
    if p in m.trailCache {
      return m.trailCache[p];
    }
    var neighbors := Neighbors(m, p);
    score := 0;
    for i := 0 to |neighbors|
      invariant score + RatingSum(m, p, neighbors[i..]) == Rating(m, p)
    {
      var neighbor := neighbors[i];
      assert neighbors[i..][1..] == neighbors[i + 1..];
      if HeightAt(m, neighbor) - currentHeight == 1 {
        var s := ComputeTrailRating(m, neighbor);
        score := score + s;
      }
    }
  }

  // ---------------------------------------------------------------------------------------
  // Hiking trails: the reference the rating and the score are measured against
  // ---------------------------------------------------------------------------------------

  /** One step of a hiking trail: to an orthogonal neighbour on the map, exactly one higher. */
  predicate Step(m: Map, a: Position, b: Position)
  {
    InBounds(m, b) && Adjacent(a, b) && HeightAt(m, b) == HeightAt(m, a) + 1
  }

  /** t is a hiking trail from p: steps as above, ending at height 9. */
  ghost predicate IsTrailFrom(m: Map, p: Position, t: seq<Position>)
  {
    |t| >= 1 && t[0] == p && HeightAt(m, t[|t| - 1]) == 9
    && forall i, j :: 0 <= i && j == i + 1 < |t| ==> Step(m, t[i], t[j])
  }

  /** A step followed by a trail is a trail. */
  lemma ConsTrail(m: Map, p: Position, rest: seq<Position>)
    requires |rest| >= 1 && IsTrailFrom(m, rest[0], rest) && Step(m, p, rest[0])
    ensures IsTrailFrom(m, p, [p] + rest)
  {
    var t := [p] + rest;
    forall i, j | 0 <= i && j == i + 1 < |t|
      ensures Step(m, t[i], t[j])
    {
      if i > 0 {
        assert t[i] == rest[i - 1] && t[j] == rest[j - 1];
      }
    }
  }

  /** A trail of two or more cells is a step followed by a trail. */
  lemma TailTrail(m: Map, p: Position, t: seq<Position>)
    requires IsTrailFrom(m, p, t) && |t| >= 2
    ensures Step(m, p, t[1]) && IsTrailFrom(m, t[1], t[1..]) && t == [p] + t[1..]
  {
    var rest := t[1..];
    forall i, j | 0 <= i && j == i + 1 < |rest|
      ensures Step(m, rest[i], rest[j])
    {
      assert rest[i] == t[i + 1] && rest[j] == t[j + 1];
    }
  }

  /** The trails from p, built the way the search walks them. */
  ghost function Trails(m: Map, p: Position): set<seq<Position>>
    requires HeightsInRange(m)
    decreases 9 - HeightAt(m, p), 5
  {
    if HeightAt(m, p) == 9 then {[p]} else TrailsVia(m, p, Neighbors(m, p))
  }

  /** The trails from p whose second cell is one of ns. */
  ghost function TrailsVia(m: Map, p: Position, ns: seq<Position>): set<seq<Position>>
    requires HeightsInRange(m) && HeightAt(m, p) < 9 && |ns| <= 4
    decreases 9 - HeightAt(m, p), |ns|
  {
    if ns == [] then {}
    else (if Climbs(m, p, ns[0]) then Prefixed(p, Trails(m, ns[0])) else {}) + TrailsVia(m, p, ns[1..])
  }

  ghost function Prefixed(p: Position, ts: set<seq<Position>>): set<seq<Position>>
  {
    set t | t in ts :: [p] + t
  }

  /** Putting the same cell in front of every trail loses none: as many trails as before. */
  lemma PrefixedCard(p: Position, ts: set<seq<Position>>)
    ensures |Prefixed(p, ts)| == |ts|
    decreases |ts|
  {
    if ts != {} {
      var t :| t in ts;
      assert Prefixed(p, ts) == Prefixed(p, ts - {t}) + {[p] + t};
      assert [p] + t !in Prefixed(p, ts - {t}) by {
        forall u | u in ts - {t}
          ensures [p] + u != [p] + t
        {
          assert u == ([p] + u)[1..] && t == ([p] + t)[1..];
        }
      }
      PrefixedCard(p, ts - {t});
    }
  }

  /** Every trail built by Trails starts at p and is not empty. */
  lemma {:induction false} TrailsStartAt(m: Map, p: Position)
    requires HeightsInRange(m)
    ensures forall t :: t in Trails(m, p) ==> |t| >= 1 && t[0] == p
    decreases 9 - HeightAt(m, p), 5
  {
    if HeightAt(m, p) < 9 {
      TrailsViaStartAt(m, p, Neighbors(m, p));
    }
  }

  lemma {:induction false} TrailsViaStartAt(m: Map, p: Position, ns: seq<Position>)
    requires HeightsInRange(m) && HeightAt(m, p) < 9 && |ns| <= 4
    ensures forall t :: t in TrailsVia(m, p, ns) ==> |t| >= 2 && t[0] == p && t[1] in ns && Climbs(m, p, t[1])
    decreases 9 - HeightAt(m, p), |ns|
  {
    if ns != [] {
      if Climbs(m, p, ns[0]) {
        TrailsStartAt(m, ns[0]);
      }
      TrailsViaStartAt(m, p, ns[1..]);
    }
  }

  /** With an empty cache, the rating of p is the number of hiking trails from p. */
  lemma {:induction false} RatingCountsTrails(m: Map, p: Position)
    requires HeightsInRange(m) && m.trailCache == map[]
    ensures Rating(m, p) == |Trails(m, p)|
    decreases 9 - HeightAt(m, p), 5
  {
    if HeightAt(m, p) < 9 {
      RatingSumCountsTrails(m, p, Neighbors(m, p));
    }
  }

  lemma {:induction false} RatingSumCountsTrails(m: Map, p: Position, ns: seq<Position>)
    requires HeightsInRange(m) && m.trailCache == map[] && HeightAt(m, p) < 9 && |ns| <= 4
    requires forall i, j :: 0 <= i < j < |ns| ==> ns[i] != ns[j]
    ensures RatingSum(m, p, ns) == |TrailsVia(m, p, ns)|
    decreases 9 - HeightAt(m, p), |ns|
  {
    if ns != [] {
      var first := if Climbs(m, p, ns[0]) then Prefixed(p, Trails(m, ns[0])) else {};
      RatingSumCountsTrails(m, p, ns[1..]);
      if Climbs(m, p, ns[0]) {
        RatingCountsTrails(m, ns[0]);
        PrefixedCard(p, Trails(m, ns[0]));
        TrailsStartAt(m, ns[0]);
      }
      TrailsViaStartAt(m, p, ns[1..]);
      assert first !! TrailsVia(m, p, ns[1..]) by {
        forall t | t in TrailsVia(m, p, ns[1..])
          ensures t !in first
        {
          assert t[1] in ns[1..];
          assert t[1] != ns[0];
        }
      }
    }
  }

  /** Trails builds hiking trails only, from a start on the map. */
  lemma {:induction false} TrailsAreTrails(m: Map, p: Position, t: seq<Position>)
    requires HeightsInRange(m) && InBounds(m, p) && t in Trails(m, p)
    ensures IsTrailFrom(m, p, t)
    decreases 9 - HeightAt(m, p)
  {
    TrailsStartAt(m, p);
    if HeightAt(m, p) < 9 {
      var rest := TrailVia(m, p, Neighbors(m, p), t);
      var n := t[1];
      assert Step(m, p, n);
      TrailsAreTrails(m, n, rest);
      ConsTrail(m, p, rest);
    }
  }

  /** A trail through the neighbour list came from the trails of its second cell. */
  lemma {:induction false} TrailVia(m: Map, p: Position, ns: seq<Position>, t: seq<Position>) returns (rest: seq<Position>)
    requires HeightsInRange(m) && HeightAt(m, p) < 9 && |ns| <= 4 && t in TrailsVia(m, p, ns)
    ensures |t| >= 2 && t == [p] + rest && rest in Trails(m, t[1]) && t[1] in ns && Climbs(m, p, t[1])
    decreases |ns|
  {
    TrailsViaStartAt(m, p, ns);
    if Climbs(m, p, ns[0]) && t in Prefixed(p, Trails(m, ns[0])) {
      rest :| rest in Trails(m, ns[0]) && t == [p] + rest;
      TrailsStartAt(m, ns[0]);
      assert t[1] == rest[0] == ns[0];
    } else {
      rest := TrailVia(m, p, ns[1..], t);
    }
  }

  /** Cell k of a trail is k higher than its start. */
  lemma {:induction false} TrailHeight(m: Map, p: Position, t: seq<Position>, k: nat)
    requires IsTrailFrom(m, p, t) && k < |t|
    ensures HeightAt(m, t[k]) == HeightAt(m, p) + k
  {
    if k > 0 {
      TrailHeight(m, p, t, k - 1);
      assert Step(m, t[k - 1], t[k]);
    }
  }

  /** A trail climbs from its start's height to 9 one cell at a time: it has 10 - height cells. */
  lemma TrailLength(m: Map, p: Position, t: seq<Position>)
    requires IsTrailFrom(m, p, t)
    ensures |t| == 10 - HeightAt(m, p)
  {
    TrailHeight(m, p, t, |t| - 1);
  }

  /** Every hiking trail from a start on the map is one that Trails builds. */
  lemma {:induction false} TrailsAreAll(m: Map, p: Position, t: seq<Position>)
    requires HeightsInRange(m) && InBounds(m, p) && IsTrailFrom(m, p, t)
    ensures t in Trails(m, p)
    decreases |t|
  {
    TrailLength(m, p, t);
    if HeightAt(m, p) < 9 {
      TailTrail(m, p, t);
      TrailsAreAll(m, t[1], t[1..]);
      ViaTrail(m, p, Neighbors(m, p), t[1], t[1..]);
    } else {
      assert t == [p];
    }
  }

  lemma {:induction false} ViaTrail(m: Map, p: Position, ns: seq<Position>, n: Position, rest: seq<Position>)
    requires HeightsInRange(m) && HeightAt(m, p) < 9 && |ns| <= 4
    requires n in ns && Climbs(m, p, n) && rest in Trails(m, n)
    ensures [p] + rest in TrailsVia(m, p, ns)
    decreases |ns|
  {
    if ns[0] != n {
      ViaTrail(m, p, ns[1..], n, rest);
    }
  }

  /** The two lemmas together: Trails(m, p) holds exactly the hiking trails from p. */
  lemma TrailsExactly(m: Map, p: Position, t: seq<Position>)
    requires HeightsInRange(m) && InBounds(m, p)
    ensures t in Trails(m, p) <==> IsTrailFrom(m, p, t)
  {
    if t in Trails(m, p) {
      TrailsAreTrails(m, p, t);
    }
    if IsTrailFrom(m, p, t) {
      TrailsAreAll(m, p, t);
    }
  }

  // ---------------------------------------------------------------------------------------
  // Part 1: the score
  // ---------------------------------------------------------------------------------------

  /**
   * The height-9 cells reachable from p by climbing one level at a time: the search that
   * computeTrailScore makes, without the cache and the cells seen before.
   */
  ghost function Nines(m: Map, p: Position): set<Position>
    requires HeightsInRange(m)
    decreases 9 - HeightAt(m, p), 5
  {
    if HeightAt(m, p) == 9 then {p} else NinesVia(m, p, Neighbors(m, p))
  }

  /** The nines reached through the neighbours in ns that are one higher than p. */
  ghost function NinesVia(m: Map, p: Position, ns: seq<Position>): set<Position>
    requires HeightsInRange(m) && HeightAt(m, p) < 9 && |ns| <= 4
    decreases 9 - HeightAt(m, p), |ns|
  {
    if ns == [] then {} else (if Climbs(m, p, ns[0]) then Nines(m, ns[0]) else {}) + NinesVia(m, p, ns[1..])
  }

  /** The nines reached are exactly the cells where the hiking trails from p end. */
  lemma {:induction false} NinesAreEnds(m: Map, p: Position)
    requires HeightsInRange(m)
    ensures forall t :: t in Trails(m, p) ==> |t| >= 1
    ensures Nines(m, p) == Ends(Trails(m, p))
    decreases 9 - HeightAt(m, p), 5
  {
    TrailsStartAt(m, p);
    if HeightAt(m, p) < 9 {
      NinesViaEnds(m, p, Neighbors(m, p));
    } else {
      assert [p][|[p]| - 1] == p;
    }
  }

  lemma {:induction false} NinesViaEnds(m: Map, p: Position, ns: seq<Position>)
    requires HeightsInRange(m) && HeightAt(m, p) < 9 && |ns| <= 4
    ensures forall t :: t in TrailsVia(m, p, ns) ==> |t| >= 1
    ensures NinesVia(m, p, ns) == Ends(TrailsVia(m, p, ns))
    decreases 9 - HeightAt(m, p), |ns|
  {
    TrailsViaStartAt(m, p, ns);
    if ns != [] {
      NinesViaEnds(m, p, ns[1..]);
      var first := if Climbs(m, p, ns[0]) then Prefixed(p, Trails(m, ns[0])) else {};
      TrailsViaStartAt(m, p, ns[1..]);
      if Climbs(m, p, ns[0]) {
        NinesAreEnds(m, ns[0]);
        EndsPrefixed(p, Trails(m, ns[0]));
      }
      EndsUnion(first, TrailsVia(m, p, ns[1..]));
    }
  }

  /** The last cells of a set of non-empty trails. */
  ghost function Ends(ts: set<seq<Position>>): set<Position>
    requires forall t :: t in ts ==> |t| >= 1
  {
    set t | t in ts :: t[|t| - 1]
  }

  lemma EndsUnion(a: set<seq<Position>>, b: set<seq<Position>>)
    requires forall t :: t in a ==> |t| >= 1
    requires forall t :: t in b ==> |t| >= 1
    ensures Ends(a + b) == Ends(a) + Ends(b)
  {
  }

  /** A cell put in front of non-empty trails does not change where they end. */
  lemma EndsPrefixed(p: Position, ts: set<seq<Position>>)
    requires forall t :: t in ts ==> |t| >= 1
    ensures forall t :: t in Prefixed(p, ts) ==> |t| >= 1
    ensures Ends(Prefixed(p, ts)) == Ends(ts)
  {
    forall e | e in Ends(ts)
      ensures e in Ends(Prefixed(p, ts))
    {
      var t :| t in ts && t[|t| - 1] == e;
      assert ([p] + t)[|[p] + t| - 1] == e;
    }
  }

  /** A head reaches no more nines than it has trails: the score is at most the rating. */
  lemma ScoreAtMostRating(m: Map, p: Position)
    requires HeightsInRange(m) && m.trailCache == map[]
    ensures |Nines(m, p)| <= Rating(m, p)
  {
    NinesAreEnds(m, p);
    EndsCard(Trails(m, p));
    RatingCountsTrails(m, p);
  }

  lemma EndsCard(ts: set<seq<Position>>)
    requires forall t :: t in ts ==> |t| >= 1
    ensures |Ends(ts)| <= |ts|
    decreases |ts|
  {
    if ts != {} {
      var t :| t in ts;
      var rest := ts - {t};
      EndsCard(rest);
      assert Ends(ts) == Ends(rest) + {t[|t| - 1]};
    }
  }

  /** Taking the nines of a second set: those not seen before, and the rest already seen. */
  lemma NewCard(a: set<Position>, b: set<Position>, seen: set<Position>)
    ensures |(a + b) - seen| == |a - seen| + |b - (seen + a)|
  {
    assert (a + b) - seen == (a - seen) + (b - (seen + a));
    assert (a - seen) !! (b - (seen + a));
  }

  /**
   * computeTrailScore: at height 9 it counts the cell once, the first time it is seen; below,
   * it adds up the scores of the neighbours one higher, all sharing seenNines. With the (always
   * empty) cache, the score is the number of nines reached that were not seen before, and they
   * are all seen after.
   */
  method ComputeTrailScore(m: Map, p: Position, seenNines: set<Position>) returns (score: int, seen: set<Position>)
    requires HeightsInRange(m)
    ensures m.trailCache == map[] ==> seen == seenNines + Nines(m, p) && score == |Nines(m, p) - seenNines|
    decreases 9 - HeightAt(m, p), 1
  {
    seen := seenNines;
    var currentHeight := HeightAt(m, p);
    if currentHeight == 9 {
      if p !in seen {
        seen := seen + {p};
        return 1, seen;
      } else {
        return 0, seen;
      }
    }
    if p in m.trailCache {
      return m.trailCache[p], seen;
    }
    var neighbors := Neighbors(m, p);
    score, seen := ScoreNeighbors(m, p, neighbors, seen);
  }

  /**
   * Part way through the neighbour loop of computeTrailScore, with rest still to visit: what is
   * seen now plus what rest reaches is what the whole loop ends with, and the score so far plus
   * the new nines rest still brings is the whole loop's score.
   */
  ghost predicate Scanned(m: Map, p: Position, all: seq<Position>, rest: seq<Position>,
                          seenNines: set<Position>, seen: set<Position>, score: int)
    requires HeightsInRange(m) && HeightAt(m, p) < 9 && |all| <= 4 && |rest| <= 4
  {
    seen + NinesVia(m, p, rest) == seenNines + NinesVia(m, p, all)
    && score + |NinesVia(m, p, rest) - seen| == |NinesVia(m, p, all) - seenNines|
  }

  /** Searching from a neighbour one higher moves the scan past that neighbour. */
  lemma ScannedClimb(m: Map, p: Position, all: seq<Position>, rest: seq<Position>,
                     seenNines: set<Position>, seen: set<Position>, score: int, s: int)
    requires HeightsInRange(m) && HeightAt(m, p) < 9 && |all| <= 4 && 1 <= |rest| <= 4
    requires Scanned(m, p, all, rest, seenNines, seen, score) && Climbs(m, p, rest[0])
    requires s == |Nines(m, rest[0]) - seen|
    ensures Scanned(m, p, all, rest[1..], seenNines, seen + Nines(m, rest[0]), score + s)
  {
    NewCard(Nines(m, rest[0]), NinesVia(m, p, rest[1..]), seen);
  }

  /** A neighbour that is not one higher is passed over. */
  lemma ScannedSkip(m: Map, p: Position, all: seq<Position>, rest: seq<Position>,
                    seenNines: set<Position>, seen: set<Position>, score: int)
    requires HeightsInRange(m) && HeightAt(m, p) < 9 && |all| <= 4 && 1 <= |rest| <= 4
    requires Scanned(m, p, all, rest, seenNines, seen, score) && !Climbs(m, p, rest[0])
    ensures Scanned(m, p, all, rest[1..], seenNines, seen, score)
  {
  }

  /** The neighbour loop of computeTrailScore, from a cell below 9. */
  method ScoreNeighbors(m: Map, p: Position, neighbors: seq<Position>, seenNines: set<Position>)
    returns (score: int, seen: set<Position>)
    requires HeightsInRange(m) && HeightAt(m, p) < 9 && |neighbors| <= 4
    ensures m.trailCache == map[] ==>
      seen == seenNines + NinesVia(m, p, neighbors) && score == |NinesVia(m, p, neighbors) - seenNines|
    decreases 9 - HeightAt(m, p), 0
  {
    var currentHeight := HeightAt(m, p);
    seen := seenNines;
    score := 0;
    for i := 0 to |neighbors|
      invariant m.trailCache == map[] ==> Scanned(m, p, neighbors, neighbors[i..], seenNines, seen, score)
    {
      var neighbor := neighbors[i];
      assert neighbors[i..][1..] == neighbors[i + 1..];
      if HeightAt(m, neighbor) - currentHeight == 1 {
        ghost var before, scoreBefore := seen, score;
        var s;
        s, seen := ComputeTrailScore(m, neighbor, seen);
        score := score + s;
        if m.trailCache == map[] {
          ScannedClimb(m, p, neighbors, neighbors[i..], seenNines, before, scoreBefore, s);
        }
      } else if m.trailCache == map[] {
        ScannedSkip(m, p, neighbors, neighbors[i..], seenNines, seen, score);
      }
    }
    assert neighbors[|neighbors|..] == [];
  }

  // ---------------------------------------------------------------------------------------
  // The sums over the trailheads
  // ---------------------------------------------------------------------------------------

  /** The rating of every head, added up. */
  function TotalRating(m: Map, heads: seq<Position>): int
    requires HeightsInRange(m)
  {
    if heads == [] then 0 else TotalRating(m, heads[..|heads| - 1]) + Rating(m, heads[|heads| - 1])
  }

  /** The number of nines every head reaches, added up. */
  ghost function TotalScore(m: Map, heads: seq<Position>): int
    requires HeightsInRange(m)
  {
    if heads == [] then 0 else TotalScore(m, heads[..|heads| - 1]) + |Nines(m, heads[|heads| - 1])|
  }

  /** computeTrailRatings: the ratings of the trailheads, added up. */
  method ComputeTrailRatings(m: Map) returns (sum: int)
    requires HeightsInRange(m)
    ensures sum == TotalRating(m, m.trailheads)
  {
    sum := 0;
    for i := 0 to |m.trailheads|
      invariant sum == TotalRating(m, m.trailheads[..i])
    {
      assert m.trailheads[..i + 1][..i] == m.trailheads[..i];
      var r := ComputeTrailRating(m, m.trailheads[i]);
      sum := sum + r;
    }
    assert m.trailheads[..|m.trailheads|] == m.trailheads;
  }

  /** computeTrailScores: each head starts with no nines seen; their scores added up. */
  method ComputeTrailScores(m: Map) returns (sum: int)
    requires HeightsInRange(m)
    ensures m.trailCache == map[] ==> sum == TotalScore(m, m.trailheads)
  {
    sum := 0;
    for i := 0 to |m.trailheads|
      invariant m.trailCache == map[] ==> sum == TotalScore(m, m.trailheads[..i])
    {
      assert m.trailheads[..i + 1][..i] == m.trailheads[..i];
      var s, _ := ComputeTrailScore(m, m.trailheads[i], {});
      sum := sum + s;
    }
    assert m.trailheads[..|m.trailheads|] == m.trailheads;
  }

  /** Over all trailheads, too, the score sum is at most the rating sum. */
  lemma {:induction false} TotalScoreAtMostRating(m: Map, heads: seq<Position>)
    requires HeightsInRange(m) && m.trailCache == map[]
    ensures TotalScore(m, heads) <= TotalRating(m, heads)
  {
    if heads != [] {
      TotalScoreAtMostRating(m, heads[..|heads| - 1]);
      ScoreAtMostRating(m, heads[|heads| - 1]);
    }
  }
}

/**
 * Day 8: antennae on a rectangular map, grouped by frequency. Part 1 finds, for every pair of
 * antennae of one frequency, the two points beyond them at the same spacing; part 2 finds every
 * grid point on the line through the pair, stepping by their spacing. Each part counts the
 * distinct in-bounds points over all frequencies.
 */
module Day08 {
  import opened Common

  datatype Board = Board(width: int, height: int, antennae: map<char, seq<Position>>)

  predicate InBounds(board: Board, p: Position)
  {
    0 <= p.x < board.width && 0 <= p.y < board.height
  }

  /** The positions of one frequency, in reading order; so no position is listed twice. */
  predicate Ordered(ants: seq<Position>)
  {
    forall i, j :: 0 <= i < j < |ants| ==> ReadBefore(ants[i], ants[j])
  }

  predicate Distinct(ants: seq<Position>)
  {
    forall i, j :: 0 <= i < j < |ants| ==> ants[i] != ants[j]
  }

  predicate DistinctAntennae(board: Board)
  {
    forall f :: f in board.antennae ==> Distinct(board.antennae[f])
  }

  // ---------------------------------------------------------------------------------------
  // Parsing the map
  // ---------------------------------------------------------------------------------------

  /** The cell p of lines was read once the scan has reached q. */
  predicate ReadCell(lines: seq<seq<char>>, p: Position, q: Position)
  {
    0 <= p.y < |lines| && 0 <= p.x < |lines[p.y]| && lines[p.y][p.x] != '.' && ReadBefore(p, q)
  }

  /** The antenna lists hold exactly the non-'.' cells read before q, each in reading order. */
  ghost predicate ParsedUpTo(lines: seq<seq<char>>, ants: map<char, seq<Position>>, q: Position)
  {
    (forall c :: c in ants ==> c != '.' && |ants[c]| > 0 && Ordered(ants[c])) &&
    (forall c, k :: c in ants && 0 <= k < |ants[c]| ==> IsCell(lines, ants[c][k], c) && ReadBefore(ants[c][k], q)) &&
    (forall p :: ReadCell(lines, p, q) ==> lines[p.y][p.x] in ants && p in ants[lines[p.y][p.x]])
  }

  /**
   * parseBoard: width from the first line, height from the number of lines, and for every
   * character other than '.' the list of its cells in reading order.
   */
  method ParseBoard(lines: seq<seq<char>>) returns (board: Board)
    requires |lines| >= 1
    ensures board.width == |lines[0]| && board.height == |lines|
    ensures forall c :: c in board.antennae ==> c != '.' && |board.antennae[c]| > 0 && Ordered(board.antennae[c])
    ensures forall c, k :: c in board.antennae && 0 <= k < |board.antennae[c]| ==> IsCell(lines, board.antennae[c][k], c)
    ensures forall p :: ReadCell(lines, p, Position(0, |lines|)) ==>
      lines[p.y][p.x] in board.antennae && p in board.antennae[lines[p.y][p.x]]
  {
    var ants: map<char, seq<Position>> := map[];
    for y := 0 to |lines|
      invariant ParsedUpTo(lines, ants, Position(0, y))
    {
      ants := ParseLine(lines, ants, y);
    }
    board := Board(|lines[0]|, |lines|, ants);
  }

  /** The body of parseBoard's row loop: record the non-'.' cells of line y. */
  method ParseLine(lines: seq<seq<char>>, ants0: map<char, seq<Position>>, y: int) returns (ants: map<char, seq<Position>>)
    requires 0 <= y < |lines| && ParsedUpTo(lines, ants0, Position(0, y))
    ensures ParsedUpTo(lines, ants, Position(0, y + 1))
  {
    ants := ants0;
    var line := lines[y];
    for x := 0 to |line|
      invariant ParsedUpTo(lines, ants, Position(x, y))
    {
      ghost var before := ants;
      ParseCell(lines, ants, x, y);
      var ch := line[x];
      if ch == '.' {
        continue;
      }
      if ch !in ants {
        ants := ants[ch := []];
      }
      ants := ants[ch := ants[ch] + [Position(x, y)]];
      assert ants == Record(before, ch, Position(x, y));
    }
    ParseRow(lines, ants, y);
  }

  /** The antenna lists after reading character c at p. */
  function Record(ants: map<char, seq<Position>>, c: char, p: Position): map<char, seq<Position>>
  {
    if c == '.' then ants else ants[c := (if c in ants then ants[c] else []) + [p]]
  }

  /** Reading one more cell keeps the lists exact. */
  lemma ParseCell(lines: seq<seq<char>>, ants: map<char, seq<Position>>, x: int, y: int)
    requires 0 <= y < |lines| && 0 <= x < |lines[y]|
    requires ParsedUpTo(lines, ants, Position(x, y))
    ensures ParsedUpTo(lines, Record(ants, lines[y][x], Position(x, y)), Position(x + 1, y))
  {
    var c := lines[y][x];
    var q := Position(x, y);
    var next := Record(ants, c, q);
    forall p | ReadCell(lines, p, Position(x + 1, y))
      ensures lines[p.y][p.x] in next && p in next[lines[p.y][p.x]]
    {
      if p != q {
        assert ReadCell(lines, p, q);
      }
    }
    if c != '.' {
      var old_ := if c in ants then ants[c] else [];
      assert forall k :: 0 <= k < |old_| ==> ReadBefore(old_[k], q);
      assert Ordered(next[c]);
    }
  }

  /** A finished row moves the scan to the start of the next one. */
  lemma ParseRow(lines: seq<seq<char>>, ants: map<char, seq<Position>>, y: int)
    requires 0 <= y < |lines|
    requires ParsedUpTo(lines, ants, Position(|lines[y]|, y))
    ensures ParsedUpTo(lines, ants, Position(0, y + 1))
  {
    forall p | ReadCell(lines, p, Position(0, y + 1))
      ensures lines[p.y][p.x] in ants && p in ants[lines[p.y][p.x]]
    {
      assert ReadCell(lines, p, Position(|lines[y]|, y));
    }
  }

  /** Lists in reading order never repeat a position. */
  lemma OrderedIsDistinct(ants: seq<Position>)
    requires Ordered(ants)
    ensures Distinct(ants)
  {
    forall i, j | 0 <= i < j < |ants|
      ensures ants[i] != ants[j]
    {
      assert ReadBefore(ants[i], ants[j]);
    }
  }

  // ---------------------------------------------------------------------------------------
  // The antinodes of one pair
  // ---------------------------------------------------------------------------------------

  /** The spacing from a to b. */
  function Offset(a: Position, b: Position): (d: Position)
    ensures d == Position(0, 0) <==> a == b
  {
    Position(b.x - a.x, b.y - a.y)
  }

  /** p moved once by d. */
  function Step(p: Position, d: Position): Position
  {
    Position(p.x + d.x, p.y + d.y)
  }

  function Neg(d: Position): Position
  {
    Position(-d.x, -d.y)
  }

  /** p moved k times by d. */
  function Shift(p: Position, d: Position, k: int): Position
  {
    Position(p.x + k * d.x, p.y + k * d.y)
  }

  /** A bound on the steps by d that stay on the map from p; it shrinks with every step. */
  function StepsLeft(board: Board, p: Position, d: Position): int
  {
    if d.x > 0 then board.width - p.x
    else if d.x < 0 then p.x + 1
    else if d.y > 0 then board.height - p.y
    else p.y + 1
  }

  /** The walk of part 2: the points p, p + d, p + 2d, ... up to where it leaves the map. */
  function Walk(board: Board, p: Position, d: Position): set<Position>
    requires d != Position(0, 0)
    decreases if InBounds(board, p) then StepsLeft(board, p, d) else 0
  {
    if !InBounds(board, p) then {} else {p} + Walk(board, Step(p, d), d)
  }

  /** Part 1's antinodes of the pair (a, b), b listed after a: b + d and a - d for the spacing d, when on the map. */
  function Beyond(board: Board, a: Position, b: Position): set<Position>
  {
    var d := Offset(a, b);
    (if InBounds(board, Step(b, d)) then {Step(b, d)} else {}) +
    (if InBounds(board, Step(a, Neg(d))) then {Step(a, Neg(d))} else {})
  }

  /** Part 2's antinodes of the pair: the walks from b by d and from a by -d. */
  function OnLine(board: Board, a: Position, b: Position): set<Position>
    requires a != b
  {
    var d := Offset(a, b);
    Walk(board, b, d) + Walk(board, a, Neg(d))
  }

  function PairNodes(board: Board, a: Position, b: Position, part2: bool): set<Position>
    requires part2 ==> a != b
  {
    if part2 then OnLine(board, a, b) else Beyond(board, a, b)
  }

  /** The walk holds exactly the in-bounds points p + k d for k >= 0, when p itself is on the map. */
  lemma WalkMeans(board: Board, p: Position, d: Position, q: Position)
    requires d != Position(0, 0) && InBounds(board, p)
    ensures q in Walk(board, p, d) <==> InBounds(board, q) && exists k: nat :: q == Shift(p, d, k)
  {
    if q in Walk(board, p, d) {
      var k := WalkStep(board, p, d, q);
    }
    if InBounds(board, q) && exists k: nat :: q == Shift(p, d, k) {
      var k: nat :| q == Shift(p, d, k);
      WalkReaches(board, p, d, k);
    }
  }

  /** Every point of the walk is on the map, some whole number of steps from p. */
  lemma {:induction false} WalkStep(board: Board, p: Position, d: Position, q: Position) returns (k: nat)
    requires d != Position(0, 0) && q in Walk(board, p, d)
    ensures InBounds(board, q) && q == Shift(p, d, k)
    decreases if InBounds(board, p) then StepsLeft(board, p, d) else 0
  {
    if q == p {
      k := 0;
    } else {
      var j := WalkStep(board, Step(p, d), d, q);
      ShiftStep(p, d, j);
      k := j + 1;
    }
  }

  /** A point k steps from p that is on the map is on the walk: the map is convex. */
  lemma {:induction false} WalkReaches(board: Board, p: Position, d: Position, k: nat)
    requires d != Position(0, 0) && InBounds(board, p) && InBounds(board, Shift(p, d, k))
    ensures Shift(p, d, k) in Walk(board, p, d)
    decreases k
  {
    if k > 0 {
      Between(p.x, d.x, k);
      Between(p.y, d.y, k);
      ShiftStep(p, d, k - 1);
      WalkReaches(board, Step(p, d), d, k - 1);
    }
  }

  /** One step lies between the start and k >= 1 steps. */
  lemma Between(v: int, dv: int, k: int)
    requires k >= 1
    ensures dv >= 0 ==> v <= v + dv <= v + k * dv
    ensures dv <= 0 ==> v + k * dv <= v + dv <= v
  {
    if dv >= 0 {
      assert k * dv >= 1 * dv;
    } else {
      assert k * dv <= 1 * dv;
    }
  }

  /** k steps after one step are k + 1 steps. */
  lemma ShiftStep(p: Position, d: Position, k: int)
    ensures Shift(Step(p, d), d, k) == Shift(p, d, k + 1)
  {
    assert (k + 1) * d.x == k * d.x + d.x;
    assert (k + 1) * d.y == k * d.y + d.y;
  }

  /** Part 2 contains part 1 for every pair of distinct antennae on the map. */
  lemma Part1WithinPart2(board: Board, a: Position, b: Position)
    requires a != b && InBounds(board, a) && InBounds(board, b)
    ensures Beyond(board, a, b) <= OnLine(board, a, b)
  {
    var d := Offset(a, b);
    assert Walk(board, b, d) == {b} + Walk(board, Step(b, d), d);
    assert Walk(board, a, Neg(d)) == {a} + Walk(board, Step(a, Neg(d)), Neg(d));
  }

  // ---------------------------------------------------------------------------------------
  // All pairs of one frequency
  // ---------------------------------------------------------------------------------------

  /** The antinodes of each index pair i < j of a frequency's list. */
  function PairsOf(board: Board, ants: seq<Position>, part2: bool): (nat, nat) -> set<Position>
    requires part2 ==> Distinct(ants)
  {
    (i: nat, j: nat) => if i < j < |ants| then PairNodes(board, ants[i], ants[j], part2) else {}
  }

  /** The union of nodes(i, j') over i < j' < j: what the inner pair loop has marked. */
  function RowNodes(nodes: (nat, nat) -> set<Position>, i: nat, j: nat): set<Position>
    requires i < j
    decreases j
  {
    if j == i + 1 then {} else RowNodes(nodes, i, j - 1) + nodes(i, j - 1)
  }

  /** The union over the rows before i of a list of length count: what the outer loop has marked. */
  function AllNodes(nodes: (nat, nat) -> set<Position>, i: nat, count: nat): set<Position>
    requires i <= count
  {
    if i == 0 then {} else AllNodes(nodes, i - 1, count) + RowNodes(nodes, i - 1, count)
  }

  function Antinodes(board: Board, ants: seq<Position>, part2: bool): set<Position>
    requires part2 ==> Distinct(ants)
  {
    AllNodes(PairsOf(board, ants, part2), |ants|, |ants|)
  }

  /** The antinodes of a frequency are those of its pairs i < j, and nothing else. */
  lemma AntinodesMeans(board: Board, ants: seq<Position>, part2: bool, p: Position)
    requires part2 ==> Distinct(ants)
    ensures p in Antinodes(board, ants, part2) <==>
      exists i, j :: 0 <= i < j < |ants| && p in PairNodes(board, ants[i], ants[j], part2)
  {
    var nodes := PairsOf(board, ants, part2);
    AllNodesMeans(nodes, |ants|, |ants|, p);
    if p in Antinodes(board, ants, part2) {
      var i, j :| 0 <= i < |ants| && i < j < |ants| && p in nodes(i, j);
      assert p in PairNodes(board, ants[i], ants[j], part2);
    }
    if exists i, j :: 0 <= i < j < |ants| && p in PairNodes(board, ants[i], ants[j], part2) {
      var i, j :| 0 <= i < j < |ants| && p in PairNodes(board, ants[i], ants[j], part2);
      assert p in nodes(i, j);
    }
  }

  lemma {:induction false} AllNodesMeans(nodes: (nat, nat) -> set<Position>, n: nat, count: nat, p: Position)
    requires n <= count
    ensures p in AllNodes(nodes, n, count) <==> exists i, j :: 0 <= i < n && i < j < count && p in nodes(i, j)
  {
    if n > 0 {
      AllNodesMeans(nodes, n - 1, count, p);
      RowNodesMeans(nodes, n - 1, count, p);
      if exists i, j :: 0 <= i < n && i < j < count && p in nodes(i, j) {
        var i, j :| 0 <= i < n && i < j < count && p in nodes(i, j);
        if i < n - 1 {
          assert p in AllNodes(nodes, n - 1, count);
        } else {
          assert p in RowNodes(nodes, n - 1, count);
        }
      }
    }
  }

  lemma {:induction false} RowNodesMeans(nodes: (nat, nat) -> set<Position>, i: nat, n: nat, p: Position)
    requires i < n
    ensures p in RowNodes(nodes, i, n) <==> exists j :: i < j < n && p in nodes(i, j)
    decreases n
  {
    if n > i + 1 {
      RowNodesMeans(nodes, i, n - 1, p);
    }
  }

  /** One antenna of a frequency has no partner, so it produces no antinode. */
  lemma SingleAntenna(board: Board, a: Position, part2: bool)
    ensures Antinodes(board, [a], part2) == {}
  {
    var nodes := PairsOf(board, [a], part2);
    assert AllNodes(nodes, 0, 1) == {};
    assert RowNodes(nodes, 0, 1) == {};
  }

  /** Every antinode, in either part, is on the map. */
  lemma AntinodesInBounds(board: Board, ants: seq<Position>, part2: bool, p: Position)
    requires part2 ==> Distinct(ants)
    requires p in Antinodes(board, ants, part2)
    ensures InBounds(board, p)
  {
    AntinodesMeans(board, ants, part2, p);
    var i, j :| 0 <= i < j < |ants| && p in PairNodes(board, ants[i], ants[j], part2);
    PairNodesInBounds(board, ants[i], ants[j], part2, p);
  }

  lemma PairNodesInBounds(board: Board, a: Position, b: Position, part2: bool, p: Position)
    requires part2 ==> a != b
    requires p in PairNodes(board, a, b, part2)
    ensures InBounds(board, p)
  {
    if part2 {
      OnLineInBounds(board, a, b, p);
    }
  }

  lemma OnLineInBounds(board: Board, a: Position, b: Position, p: Position)
    requires a != b && p in OnLine(board, a, b)
    ensures InBounds(board, p)
  {
    var d := Offset(a, b);
    if p in Walk(board, b, d) {
      WalkInBounds(board, b, d, p);
    } else {
      WalkInBounds(board, a, Neg(d), p);
    }
  }

  lemma {:induction false} WalkInBounds(board: Board, p: Position, d: Position, q: Position)
    requires d != Position(0, 0) && q in Walk(board, p, d)
    ensures InBounds(board, q)
    decreases if InBounds(board, p) then StepsLeft(board, p, d) else 0
  {
    if q != p {
      WalkInBounds(board, Step(p, d), d, q);
    }
  }

  /** In part 2, both antennae of a pair on the map are antinodes themselves. */
  lemma AntennaeAreAntinodes(board: Board, ants: seq<Position>, i: nat, j: nat)
    requires Distinct(ants) && i < j < |ants|
    requires InBounds(board, ants[i]) && InBounds(board, ants[j])
    ensures ants[i] in Antinodes(board, ants, true) && ants[j] in Antinodes(board, ants, true)
  {
    var d := Offset(ants[i], ants[j]);
    assert ants[j] in Walk(board, ants[j], d);
    assert ants[i] in Walk(board, ants[i], Neg(d));
    AntinodesMeans(board, ants, true, ants[i]);
    AntinodesMeans(board, ants, true, ants[j]);
  }

  // ---------------------------------------------------------------------------------------
  // The search loops
  // ---------------------------------------------------------------------------------------

  /** The list of a frequency, or the empty list Go's map gives for a missing key. */
  function Lookup(board: Board, freq: char): seq<Position>
  {
    if freq in board.antennae then board.antennae[freq] else []
  }

  /** findAntinodes: the in-bounds points beyond every pair of antennae of one frequency. */
  method FindAntinodes(board: Board, freq: char) returns (antinodes: set<Position>)
    ensures antinodes == Antinodes(board, Lookup(board, freq), false)
  {
    var ants := Lookup(board, freq);
    antinodes := {};
    for i := 0 to |ants|
      invariant antinodes == AllNodes(PairsOf(board, ants, false), i, |ants|)
    {
      antinodes := MarkRow(board, antinodes, ants, i);
    }
  }

  /**
   * findAllAntinodes: every point on the walks through each pair. A pair at one position would
   * walk forever (its spacing is zero), so the positions of the frequency must be distinct, as
   * parsing makes them.
   */
  method FindAllAntinodes(board: Board, freq: char) returns (antinodes: set<Position>)
    requires Distinct(Lookup(board, freq))
    ensures antinodes == Antinodes(board, Lookup(board, freq), true)
  {
    var ants := Lookup(board, freq);
    antinodes := {};
    for i := 0 to |ants|
      invariant antinodes == AllNodes(PairsOf(board, ants, true), i, |ants|)
    {
      antinodes := MarkAllRow(board, antinodes, ants, i);
    }
  }

  /** The inner loop of findAntinodes: mark the antinodes of every pair (i, j) with j > i. */
  method MarkRow(board: Board, marked: set<Position>, ants: seq<Position>, i: nat) returns (antinodes: set<Position>)
    requires i < |ants|
    ensures antinodes == marked + RowNodes(PairsOf(board, ants, false), i, |ants|)
  {
    ghost var nodes := PairsOf(board, ants, false);
    antinodes := marked;
    for j := i + 1 to |ants|
      invariant antinodes == marked + RowNodes(nodes, i, j)
    {
      assert nodes(i, j) == PairNodes(board, ants[i], ants[j], false);
      antinodes := MarkPair(board, antinodes, ants[i], ants[j]);
    }
  }

  /** The inner loop of findAllAntinodes. */
  method MarkAllRow(board: Board, marked: set<Position>, ants: seq<Position>, i: nat) returns (antinodes: set<Position>)
    requires i < |ants| && Distinct(ants)
    ensures antinodes == marked + RowNodes(PairsOf(board, ants, true), i, |ants|)
  {
    ghost var nodes := PairsOf(board, ants, true);
    antinodes := marked;
    for j := i + 1 to |ants|
      invariant antinodes == marked + RowNodes(nodes, i, j)
    {
      assert nodes(i, j) == PairNodes(board, ants[i], ants[j], true);
      antinodes := MarkWalks(board, antinodes, ants[i], ants[j]);
    }
  }

  /** The body of findAllAntinodes' pair loop: the walks from node2 onwards and from node1 backwards. */
  method MarkWalks(board: Board, marked: set<Position>, node1: Position, node2: Position) returns (antinodes: set<Position>)
    requires node1 != node2
    ensures antinodes == marked + OnLine(board, node1, node2)
  {
    var dx := node2.x - node1.x;
    var dy := node2.y - node1.y;
    antinodes := WalkInto(board, marked, node2, Position(dx, dy));
    antinodes := WalkInto(board, antinodes, node1, Position(-dx, -dy));
  }

  /** The body of findAntinodes' pair loop: mark the two points beyond the pair when on the map. */
  method MarkPair(board: Board, marked: set<Position>, node1: Position, node2: Position) returns (antinodes: set<Position>)
    ensures antinodes == marked + Beyond(board, node1, node2)
  {
    antinodes := marked;
    var dx := node2.x - node1.x;
    var dy := node2.y - node1.y;
    var antinode1 := Position(node2.x + dx, node2.y + dy);
    if antinode1.x >= 0 && antinode1.x < board.width && antinode1.y >= 0 && antinode1.y < board.height {
      antinodes := antinodes + {antinode1};
    }
    var antinode2 := Position(node1.x - dx, node1.y - dy);
    if antinode2.x >= 0 && antinode2.x < board.width && antinode2.y >= 0 && antinode2.y < board.height {
      antinodes := antinodes + {antinode2};
    }
  }

  /** One walk of findAllAntinodes: mark positions from start on, stepping by d, while on the map. */
  method WalkInto(board: Board, marked: set<Position>, start: Position, d: Position) returns (result: set<Position>)
    requires d != Position(0, 0)
    ensures result == marked + Walk(board, start, d)
  {
    result := marked;
    var currentPos := start;
    while currentPos.x >= 0 && currentPos.x < board.width && currentPos.y >= 0 && currentPos.y < board.height
      invariant result + Walk(board, currentPos, d) == marked + Walk(board, start, d)
      decreases if InBounds(board, currentPos) then StepsLeft(board, currentPos, d) else 0
    {
      result := result + {currentPos};
      currentPos := Position(currentPos.x + d.x, currentPos.y + d.y);
    }
  }

  // ---------------------------------------------------------------------------------------
  // Counting over all frequencies
  // ---------------------------------------------------------------------------------------

  /** The antinodes of the frequencies in fs, merged: a shared position counts once. */
  function UnionOver(board: Board, fs: set<char>, part2: bool): set<Position>
    requires part2 ==> DistinctAntennae(board)
  {
    set f, p | f in fs && f in board.antennae && p in Antinodes(board, board.antennae[f], part2) :: p
  }

  /** countAntinodes and countAllAntinodes: the number of distinct antinodes of all frequencies. */
  method CountAntinodes(board: Board, part2: bool) returns (count: nat)
    requires part2 ==> DistinctAntennae(board)
    ensures count == |UnionOver(board, board.antennae.Keys, part2)|
  {
    var allAntinodes: set<Position> := {};
    var remaining := board.antennae.Keys;
    while remaining != {}
      invariant remaining <= board.antennae.Keys
      invariant allAntinodes == UnionOver(board, board.antennae.Keys - remaining, part2)
      decreases |remaining|
    {
      var freq :| freq in remaining;
      var antinodes;
      if part2 {
        antinodes := FindAllAntinodes(board, freq);
      } else {
        antinodes := FindAntinodes(board, freq);
      }
      ghost var done := board.antennae.Keys - remaining;
      remaining := remaining - {freq};
      assert board.antennae.Keys - remaining == done + {freq};
      UnionAdd(board, done, freq, part2);
      allAntinodes := allAntinodes + antinodes;
    }
    assert board.antennae.Keys - remaining == board.antennae.Keys;
    count := |allAntinodes|;
  }

  lemma UnionAdd(board: Board, done: set<char>, f: char, part2: bool)
    requires part2 ==> DistinctAntennae(board)
    requires f in board.antennae
    ensures UnionOver(board, done + {f}, part2) == UnionOver(board, done, part2) + Antinodes(board, board.antennae[f], part2)
  {
    forall p | p in Antinodes(board, board.antennae[f], part2)
      ensures p in UnionOver(board, done + {f}, part2)
    {
      assert f in done + {f};
    }
  }

  /** Every counted antinode is on the map, so the count is at most width * height. */
  lemma UnionInBounds(board: Board, part2: bool, p: Position)
    requires part2 ==> DistinctAntennae(board)
    requires p in UnionOver(board, board.antennae.Keys, part2)
    ensures InBounds(board, p)
  {
    var f :| f in board.antennae && p in Antinodes(board, board.antennae[f], part2);
    AntinodesInBounds(board, board.antennae[f], part2, p);
  }
}

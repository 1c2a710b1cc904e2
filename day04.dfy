/**
 * Day 4: a word search. Part 1 counts every occurrence of XMAS horizontally, vertically or
 * diagonally, forwards or backwards; part 2 counts the 'A' cells crossed by two diagonal MAS words.
 * The grid is a sequence of equally long lines of characters.
 */
module Day04 {

  /** All lines have the same length, as in the puzzle input; the searches index neighbouring lines by x. */
  predicate Rectangular(lines: seq<seq<char>>)
  {
    forall y :: 0 <= y < |lines| ==> |lines[y]| == |lines[0]|
  }

  /** The cell (y, x) lies on the grid and holds c. */
  predicate CharIs(lines: seq<seq<char>>, y: int, x: int, c: char)
  {
    0 <= y < |lines| && 0 <= x < |lines[y]| && lines[y][x] == c
  }

  /** The four letters of w are read from (y, x) on, taking steps of (dy, dx). */
  predicate ReadsWord(lines: seq<seq<char>>, y: int, x: int, dy: int, dx: int, w: seq<char>)
    requires |w| == 4
  {
    CharIs(lines, y, x, w[0]) && CharIs(lines, y + dy, x + dx, w[1]) &&
    CharIs(lines, y + 2 * dy, x + 2 * dx, w[2]) && CharIs(lines, y + 3 * dy, x + 3 * dx, w[3])
  }

  function Bit(b: bool): nat
  {
    if b then 1 else 0
  }

  /**
   * The number of orientations in which a word starts at (y, x): rightwards, downwards,
   * down-right and up-right, reading XMAS or, for the same words backwards, SAMX.
   */
  function CellHits(lines: seq<seq<char>>, y: int, x: int): nat
  {
    Bit(ReadsWord(lines, y, x, 0, 1, "XMAS")) + Bit(ReadsWord(lines, y, x, 1, 0, "XMAS")) +
    Bit(ReadsWord(lines, y, x, 1, 1, "XMAS")) + Bit(ReadsWord(lines, y, x, -1, 1, "XMAS")) +
    Bit(ReadsWord(lines, y, x, 0, 1, "SAMX")) + Bit(ReadsWord(lines, y, x, 1, 0, "SAMX")) +
    Bit(ReadsWord(lines, y, x, 1, 1, "SAMX")) + Bit(ReadsWord(lines, y, x, -1, 1, "SAMX"))
  }

  /** Hits of the first n cells of row y. */
  function RowHits(lines: seq<seq<char>>, y: int, n: nat): nat
  {
    if n == 0 then 0 else RowHits(lines, y, n - 1) + CellHits(lines, y, n - 1)
  }

  /** Hits of the first m rows. */
  function GridHits(lines: seq<seq<char>>, m: nat): nat
    requires m <= |lines|
  {
    if m == 0 then 0 else GridHits(lines, m - 1) + RowHits(lines, m - 1, |lines[m - 1]|)
  }

  /** What part 1 answers: the number of (cell, orientation) pairs that read XMAS or SAMX. */
  function XmasCount(lines: seq<seq<char>>): nat
  {
    GridHits(lines, |lines|)
  }

  method DoXmasWordSearch(lines: seq<seq<char>>) returns (sum: nat)
    requires Rectangular(lines)
    ensures sum == XmasCount(lines)
  {
    sum := 0;
    for y := 0 to |lines|
      invariant sum == GridHits(lines, y)
    {
      var line := lines[y];
      for x := 0 to |line|
        invariant sum == GridHits(lines, y) + RowHits(lines, y, x)
      {
        var hits := WordsAt(lines, y, x);
        sum := sum + hits;
      }
    }
  }

  /** The body of the search loop for one cell: the eight bounds-guarded comparisons. */
  method WordsAt(lines: seq<seq<char>>, y: int, x: int) returns (hits: nat)
    requires Rectangular(lines) && 0 <= y < |lines| && 0 <= x < |lines[y]|
    ensures hits == CellHits(lines, y, x)
  {
    var line := lines[y];
    var ch := line[x];
    hits := 0;
    Probes(lines, y, x, "XMAS");
    Probes(lines, y, x, "SAMX");
    if ch == 'X' {
      if x + 3 < |line| && line[x + 1] == 'M' && line[x + 2] == 'A' && line[x + 3] == 'S' {
        hits := hits + 1;
      }
      if y + 3 < |lines| && lines[y + 1][x] == 'M' && lines[y + 2][x] == 'A' && lines[y + 3][x] == 'S' {
        hits := hits + 1;
      }
      if x + 3 < |line| && y + 3 < |lines|
        && lines[y + 1][x + 1] == 'M' && lines[y + 2][x + 2] == 'A' && lines[y + 3][x + 3] == 'S' {
        hits := hits + 1;
      }
      if x + 3 < |line| && y >= 3
        && lines[y - 1][x + 1] == 'M' && lines[y - 2][x + 2] == 'A' && lines[y - 3][x + 3] == 'S' {
        hits := hits + 1;
      }
    } else if ch == 'S' {
      if x + 3 < |line| && line[x + 1] == 'A' && line[x + 2] == 'M' && line[x + 3] == 'X' {
        hits := hits + 1;
      }
      if y + 3 < |lines| && lines[y + 1][x] == 'A' && lines[y + 2][x] == 'M' && lines[y + 3][x] == 'X' {
        hits := hits + 1;
      }
      if x + 3 < |line| && y + 3 < |lines|
        && lines[y + 1][x + 1] == 'A' && lines[y + 2][x + 2] == 'M' && lines[y + 3][x + 3] == 'X' {
        hits := hits + 1;
      }
      if x + 3 < |line| && y >= 3
        && lines[y - 1][x + 1] == 'A' && lines[y - 2][x + 2] == 'M' && lines[y - 3][x + 3] == 'X' {
        hits := hits + 1;
      }
    }
  }

  /**
   * The four bounds-guarded comparisons from (y, x) in a rectangular grid read exactly the
   * four orientations of w.
   */
  lemma Probes(lines: seq<seq<char>>, y: int, x: int, w: seq<char>)
    requires Rectangular(lines) && 0 <= y < |lines| && 0 <= x < |lines[y]| && |w| == 4
    ensures var line := lines[y];
      (ReadsWord(lines, y, x, 0, 1, w) <==>
        (line[x] == w[0] && x + 3 < |line|
         && line[x + 1] == w[1] && line[x + 2] == w[2] && line[x + 3] == w[3]))
      && (ReadsWord(lines, y, x, 1, 0, w) <==>
        (line[x] == w[0] && y + 3 < |lines|
         && lines[y + 1][x] == w[1] && lines[y + 2][x] == w[2] && lines[y + 3][x] == w[3]))
      && (ReadsWord(lines, y, x, 1, 1, w) <==>
        (line[x] == w[0] && x + 3 < |line| && y + 3 < |lines|
         && lines[y + 1][x + 1] == w[1] && lines[y + 2][x + 2] == w[2] && lines[y + 3][x + 3] == w[3]))
      && (ReadsWord(lines, y, x, -1, 1, w) <==>
        (line[x] == w[0] && x + 3 < |line| && y >= 3
         && lines[y - 1][x + 1] == w[1] && lines[y - 2][x + 2] == w[2] && lines[y - 3][x + 3] == w[3]))
  {
  }

  /** A word can only start on its first letter, so a grid without 'X' and 'S' has no hits. */
  lemma {:induction false} NoStartLettersNoHits(lines: seq<seq<char>>, m: nat)
    requires m <= |lines|
    requires forall y, x :: 0 <= y < |lines| && 0 <= x < |lines[y]| ==> lines[y][x] != 'X' && lines[y][x] != 'S'
    ensures GridHits(lines, m) == 0
  {
    if m > 0 {
      NoStartLettersNoHits(lines, m - 1);
      NoStartLettersNoRowHits(lines, m - 1, |lines[m - 1]|);
    }
  }

  lemma {:induction false} NoStartLettersNoRowHits(lines: seq<seq<char>>, y: int, n: nat)
    requires forall y, x :: 0 <= y < |lines| && 0 <= x < |lines[y]| ==> lines[y][x] != 'X' && lines[y][x] != 'S'
    ensures RowHits(lines, y, n) == 0
  {
    if n > 0 {
      NoStartLettersNoRowHits(lines, y, n - 1);
    }
  }

  // ---------------------------------------------------------------------------------------
  // Part 2: X-MAS
  // ---------------------------------------------------------------------------------------

  /** The two characters are M and S, in either order. */
  predicate MAndS(a: char, b: char)
  {
    (a == 'M' && b == 'S') || (a == 'S' && b == 'M')
  }

  /** (y, x) is an interior cell: all four diagonal neighbours exist. */
  predicate Interior(lines: seq<seq<char>>, y: int, x: int)
  {
    1 <= y < |lines| - 1 && 1 <= x < |lines[y]| - 1
  }

  /** An interior 'A' whose two diagonals each hold M and S. */
  predicate XMasAt(lines: seq<seq<char>>, y: int, x: int)
    requires Rectangular(lines)
  {
    Interior(lines, y, x) && lines[y][x] == 'A' &&
    MAndS(lines[y - 1][x - 1], lines[y + 1][x + 1]) && MAndS(lines[y + 1][x - 1], lines[y - 1][x + 1])
  }

  /** X-MAS centres among cells 1 .. n - 1 of row y. */
  function XMasRow(lines: seq<seq<char>>, y: int, n: int): nat
    requires Rectangular(lines)
  {
    if n <= 1 then 0 else XMasRow(lines, y, n - 1) + Bit(XMasAt(lines, y, n - 1))
  }

  /** X-MAS centres among rows 1 .. m - 1. */
  function XMasRows(lines: seq<seq<char>>, m: int): nat
    requires Rectangular(lines) && (m <= |lines| || m == 1)
  {
    if m <= 1 then 0 else XMasRows(lines, m - 1) + XMasRow(lines, m - 1, |lines[m - 1]| - 1)
  }

  /** What part 2 answers: the number of cells that are the centre of an X-MAS. */
  function XMasCount(lines: seq<seq<char>>): nat
    requires Rectangular(lines)
  {
    XMasRows(lines, |lines| - 1)
  }

  method DoXDashMasWordSearch(lines: seq<seq<char>>) returns (sum: nat)
    requires Rectangular(lines)
    ensures sum == XMasCount(lines)
  {
    sum := 0;
    var y := 1;
    while y < |lines| - 1
      invariant 1 <= y <= |lines| - 1 || (|lines| < 2 && y == 1)
      invariant sum == XMasRows(lines, y)
    {
      var line := lines[y];
      var x := 1;
      while x < |line| - 1
        invariant 1 <= x <= |line| - 1 || (|line| < 2 && x == 1)
        invariant sum == XMasRows(lines, y) + XMasRow(lines, y, x)
      {
        var ch := line[x];
        var found := false;
        if ch == 'A' {
          var downRightOk := false;
          var upRightOk := false;
          if (lines[y - 1][x - 1] == 'M' && lines[y + 1][x + 1] == 'S') || (lines[y - 1][x - 1] == 'S' && lines[y + 1][x + 1] == 'M') {
            downRightOk := true;
          }
          if (lines[y + 1][x - 1] == 'M' && lines[y - 1][x + 1] == 'S') || (lines[y + 1][x - 1] == 'S' && lines[y - 1][x + 1] == 'M') {
            upRightOk := true;
          }
          if downRightOk && upRightOk {
            found := true;
          }
        }
        assert found == XMasAt(lines, y, x);
        if found {
          sum := sum + 1;
        }
        x := x + 1;
      }
      y := y + 1;
    }
  }

  /** Interior 'A' cells among cells 1 .. n - 1 of row y. */
  function InteriorARow(lines: seq<seq<char>>, y: int, n: int): nat
  {
    if n <= 1 then 0 else InteriorARow(lines, y, n - 1) + Bit(Interior(lines, y, n - 1) && lines[y][n - 1] == 'A')
  }

  /** Interior 'A' cells among rows 1 .. m - 1. */
  function InteriorAs(lines: seq<seq<char>>, m: int): nat
    requires m <= |lines|
  {
    if m <= 1 then 0 else InteriorAs(lines, m - 1) + InteriorARow(lines, m - 1, |lines[m - 1]| - 1)
  }

  /** Every X-MAS centre is an interior 'A', so part 2 is at most the number of those. */
  lemma {:induction false} XMasAtMostInteriorAs(lines: seq<seq<char>>, m: int)
    requires Rectangular(lines) && m <= |lines|
    ensures XMasRows(lines, m) <= InteriorAs(lines, m)
  {
    if m > 1 {
      XMasAtMostInteriorAs(lines, m - 1);
      XMasRowAtMostInteriorARow(lines, m - 1, |lines[m - 1]| - 1);
    }
  }

  lemma {:induction false} XMasRowAtMostInteriorARow(lines: seq<seq<char>>, y: int, n: int)
    requires Rectangular(lines)
    ensures XMasRow(lines, y, n) <= InteriorARow(lines, y, n)
  {
    if n > 1 {
      XMasRowAtMostInteriorARow(lines, y, n - 1);
    }
  }
}

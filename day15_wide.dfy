/**
 * Day 15, part 2: the warehouse widened to two tiles per tile, where a box is a "[]" pair. A
 * horizontal move is the straight push of part 1; a vertical move pushes the box ahead, then
 * both halves of it push whatever is ahead of them, so the pushed tiles spread out like a cone.
 */
module Day15Wide {
  import opened Common
  import opened Day15

  // ---------------------------------------------------------------------------------------
  // The wide warehouse: vertical pushes of double-width boxes
  // ---------------------------------------------------------------------------------------

  predicate IsBox(c: char)
  {
    c == '[' || c == ']'
  }

  /** The other half of the box that has a half at p. */
  function Partner(t: map<Position, char>, p: Position): Position
  {
    if Get(t, p) == '[' then Position(p.x + 1, p.y) else Position(p.x - 1, p.y)
  }

  /** Every box is whole: a '[' has its ']' on the right and a ']' its '[' on the left. */
  ghost predicate Boxes(t: map<Position, char>)
  {
    forall p {:trigger Partner(t, p)} :: p in t && IsBox(t[p]) ==> Partner(t, p) in t && t[Partner(t, p)] == (if t[p] == '[' then ']' else '[')
  }

  /** The tiles of a board together with its dimensions. */
  datatype Floor = Floor(tiles: map<Position, char>, width: int, height: int)

  /** The floors the vertical push works on: walled all round, with whole boxes only. */
  type WideFloor = f: Floor | Walled(f.tiles, f.width, f.height) && Boxes(f.tiles) witness Floor(map[], 0, 0)

  /** The directions of '^' and 'v'. */
  type VerticalDelta = d: Position | d == Position(0, -1) || d == Position(0, 1) witness Position(0, 1)

  /** A tile off the top and bottom rows, where the vertical recursion may start. */
  predicate InRows(p: Position, height: int)
  {
    0 < p.y < height - 1
  }

  /** Rows left before a vertical walk from p leaves the board. */
  function RowsLeft(p: Position, d: Position, height: int): int
  {
    if d.y > 0 then height - p.y else p.y
  }

  /** q is on a row past p's row in the direction of d. */
  predicate RowAhead(p: Position, d: Position, q: Position)
  {
    if d.y > 0 then q.y > p.y else q.y < p.y
  }

  /**
   * isTileMovable (lines 255-269): the tile can move by d if the tile it moves into is free, or
   * holds a box both of whose halves can move. A wall, or anything else, blocks. It only reads.
   */
  function IsTileMovable(f: WideFloor, tile: Position, d: VerticalDelta): bool
    requires InRows(tile, f.height)
    decreases RowsLeft(tile, d, f.height)
  {
    var next := Add(tile, d);
    if Get(f.tiles, next) == '.' then true
    else if Get(f.tiles, next) == '#' then false
    else if Get(f.tiles, next) == '[' then
      IsTileMovable(f, next, d) && IsTileMovable(f, Position(next.x + 1, next.y), d)
    else if Get(f.tiles, next) == ']' then
      IsTileMovable(f, Position(next.x - 1, next.y), d) && IsTileMovable(f, next, d)
    else false
  }

  /**
   * The tiles a vertical push of `tile` moves: the tile itself and, when it runs into a box, both
   * halves of that box and what they push in turn. Apart from the tile, all lie on rows further
   * along.
   */
  ghost function Cone(f: WideFloor, tile: Position, d: VerticalDelta): (r: set<Position>)
    requires InRows(tile, f.height)
    ensures tile in r
    decreases RowsLeft(tile, d, f.height)
  {
    var next := Add(tile, d);
    {tile} + (
      if Get(f.tiles, next) == '[' then Cone(f, next, d) + Cone(f, Position(next.x + 1, next.y), d)
      else if Get(f.tiles, next) == ']' then Cone(f, Position(next.x - 1, next.y), d) + Cone(f, next, d)
      else {})
  }

  /** Apart from the pushed tile itself, everything a push moves lies on the rows ahead, off the edge rows. */
  lemma {:induction false} ConeAhead(f: WideFloor, x: Position, y: Position, d: VerticalDelta)
    requires InRows(x, f.height)
    ensures y in Cone(f, x, d) ==> InRows(y, f.height) && (y == x || RowAhead(x, d, y))
    decreases RowsLeft(x, d, f.height)
  {
    if y in Cone(f, x, d) && y != x {
      var next := Add(x, d);
      var left, right := Position(next.x - 1, next.y), Position(next.x + 1, next.y);
      if Get(f.tiles, next) == '[' {
        ConeAhead(f, next, y, d);
        ConeAhead(f, right, y, d);
      } else if Get(f.tiles, next) == ']' {
        ConeAhead(f, left, y, d);
        ConeAhead(f, next, y, d);
      }
    }
  }

  /** Whatever a pushed tile pushes is part of the push. */
  lemma {:induction false} ConeClosed(f: WideFloor, x: Position, y: Position, d: VerticalDelta)
    requires InRows(x, f.height) && y in Cone(f, x, d)
    ensures InRows(y, f.height) && Cone(f, y, d) <= Cone(f, x, d)
    decreases RowsLeft(x, d, f.height)
  {
    ConeAhead(f, x, y, d);
    if y != x {
      var next := Add(x, d);
      var left, right := Position(next.x - 1, next.y), Position(next.x + 1, next.y);
      if Get(f.tiles, next) == '[' {
        var a, b := Cone(f, next, d), Cone(f, right, d);
        assert Cone(f, x, d) == {x} + a + b;
        if y in a {
          ConeClosed(f, next, y, d);
        } else {
          ConeClosed(f, right, y, d);
        }
      } else if Get(f.tiles, next) == ']' {
        var a, b := Cone(f, left, d), Cone(f, next, d);
        assert Cone(f, x, d) == {x} + a + b;
        if y in a {
          ConeClosed(f, left, y, d);
        } else {
          ConeClosed(f, next, y, d);
        }
      }
    }
  }

  /** Past its first tile a push moves whole boxes: each pushed half takes its partner along. */
  lemma {:induction false} ConePartner(f: WideFloor, x: Position, y: Position, d: VerticalDelta)
    requires InRows(x, f.height) && y in Cone(f, x, d) && y != x
    ensures IsBox(Get(f.tiles, y)) && Partner(f.tiles, y) in Cone(f, x, d)
    decreases RowsLeft(x, d, f.height)
  {
    var t := f.tiles;
    var next := Add(x, d);
    var left, right := Position(next.x - 1, next.y), Position(next.x + 1, next.y);
    if Get(t, next) == '[' {
      var a, b := Cone(f, next, d), Cone(f, right, d);
      assert Cone(f, x, d) == {x} + a + b;
      if y == next {
        assert Partner(t, y) == right;
      } else if y == right {
        assert Partner(t, next) == right;
        assert t[right] == ']';
        assert Partner(t, y) == next;
      } else if y in a {
        ConePartner(f, next, y, d);
      } else {
        ConePartner(f, right, y, d);
      }
    } else if Get(t, next) == ']' {
      var a, b := Cone(f, left, d), Cone(f, next, d);
      assert Cone(f, x, d) == {x} + a + b;
      if y == next {
        assert Partner(t, y) == left;
      } else if y == left {
        assert Partner(t, next) == left;
        assert t[left] == '[';
        assert Partner(t, y) == next;
      } else if y in a {
        ConePartner(f, left, y, d);
      } else {
        ConePartner(f, next, y, d);
      }
    } else {
      assert false;
    }
  }

  /** A push that can happen can happen from every tile it moves. */
  lemma {:induction false} ConeMovable(f: WideFloor, x: Position, y: Position, d: VerticalDelta)
    requires InRows(x, f.height) && IsTileMovable(f, x, d) && y in Cone(f, x, d)
    ensures InRows(y, f.height) && IsTileMovable(f, y, d)
    decreases RowsLeft(x, d, f.height)
  {
    ConeAhead(f, x, y, d);
    if y != x {
      var next := Add(x, d);
      var left, right := Position(next.x - 1, next.y), Position(next.x + 1, next.y);
      if Get(f.tiles, next) == '[' {
        if y in Cone(f, next, d) {
          ConeMovable(f, next, y, d);
        } else {
          ConeMovable(f, right, y, d);
        }
      } else if Get(f.tiles, next) == ']' {
        if y in Cone(f, left, d) {
          ConeMovable(f, left, y, d);
        } else {
          ConeMovable(f, next, y, d);
        }
      }
    }
  }

  /** In a push that can happen, every moved tile moves onto a free tile or onto a tile that also moves. */
  lemma ConeFront(f: WideFloor, x: Position, y: Position, d: VerticalDelta)
    requires InRows(x, f.height) && IsTileMovable(f, x, d) && y in Cone(f, x, d)
    ensures Add(y, d) in f.tiles
    ensures f.tiles[Add(y, d)] == '.' || (IsBox(f.tiles[Add(y, d)]) && Add(y, d) in Cone(f, x, d))
  {
    ConeMovable(f, x, y, d);
    ConeClosed(f, x, y, d);
  }

  /**
   * The tiles after the tiles in `pushed` have each moved one step by d: a tile ahead of a
   * pushed one takes its value, a pushed tile that nothing moved into becomes '.', and every
   * other tile stays.
   */
  function Shift(t: map<Position, char>, pushed: set<Position>, d: Position): map<Position, char>
  {
    map q | q in t :: if Sub(q, d) in pushed then Get(t, Sub(q, d)) else if q in pushed then '.' else t[q]
  }

  /** The '[' half of the box that has a half at p. */
  function BoxLeft(t: map<Position, char>, p: Position): Position
  {
    if Get(t, p) == '[' then p else Position(p.x - 1, p.y)
  }

  /**
   * The tiles in `done` have already been pushed when the push of `tile` starts: neither the
   * tile nor the tile behind it is among them, they include everything they push, and on the
   * rows ahead of the tile they hold whole boxes.
   */
  ghost predicate Settled(f: WideFloor, done: set<Position>, tile: Position, d: VerticalDelta)
  {
    tile !in done && Sub(tile, d) !in done
    && (forall y :: y in done ==> InRows(y, f.height))
    && (forall y {:trigger Cone(f, y, d)} :: y in done ==> Cone(f, y, d) <= done)
    && (forall y {:trigger Partner(f.tiles, y)} :: y in done && RowAhead(tile, d, y) && IsBox(Get(f.tiles, y)) ==> Partner(f.tiles, y) in done)
  }

  /** What commitTileMovement needs of the original floor, `done` and the tile. */
  ghost predicate CanCommit(f: WideFloor, done: set<Position>, tile: Position, d: VerticalDelta)
  {
    InRows(tile, f.height) && tile in f.tiles && Settled(f, done, tile, d) && IsTileMovable(f, tile, d)
  }

  /**
   * What the final swap of commitTileMovement needs once `pushed` has been pushed: the tile
   * ahead shows '.', neither the tile nor the one behind it was pushed, and pushing the tile
   * too completes the tile's cone on top of `done`.
   */
  ghost predicate CommitEnd(f: WideFloor, done: set<Position>, tile: Position, pushed: set<Position>, d: VerticalDelta)
  {
    InRows(tile, f.height) && tile in f.tiles && Add(tile, d) in f.tiles
    && tile !in pushed && Sub(tile, d) !in pushed
    && Shift(f.tiles, pushed, d)[Add(tile, d)] == '.'
    && pushed + {tile} == done + Cone(f, tile, d)
  }

  /** The box ahead of a pushable tile: both its halves are on the next row and can move. */
  lemma BoxHalves(f: WideFloor, tile: Position, d: VerticalDelta)
    requires InRows(tile, f.height) && IsTileMovable(f, tile, d) == true && IsBox(Get(f.tiles, Add(tile, d)))
    ensures var first := BoxLeft(f.tiles, Add(tile, d)); var second := Position(first.x + 1, first.y);
      InRows(first, f.height) && first.y == tile.y + d.y && second.y == first.y
      && (Add(tile, d) == first || Add(tile, d) == second) && first in f.tiles && second in f.tiles
      && f.tiles[first] == '[' && f.tiles[second] == ']'
      && IsTileMovable(f, first, d) && IsTileMovable(f, second, d)
  {
    var next := Add(tile, d);
    assert Partner(f.tiles, next) == if Get(f.tiles, next) == '[' then Position(next.x + 1, next.y) else Position(next.x - 1, next.y);
  }

  /** Pushing a tile with a box ahead pushes the two halves' cones besides the tile. */
  lemma BoxCone(f: WideFloor, tile: Position, d: VerticalDelta)
    requires InRows(tile, f.height) && IsTileMovable(f, tile, d) == true && IsBox(Get(f.tiles, Add(tile, d)))
    ensures var first := BoxLeft(f.tiles, Add(tile, d));
      InRows(first, f.height) && Cone(f, tile, d) == {tile} + Cone(f, first, d) + Cone(f, Position(first.x + 1, first.y), d)
  {
    BoxHalves(f, tile, d);
  }

  /** The box ahead is untouched by `done`, and so are the tiles behind its halves. */
  lemma BoxUntouched(f: WideFloor, done: set<Position>, tile: Position, d: VerticalDelta)
    requires CanCommit(f, done, tile, d) == true
    requires IsBox(Get(Shift(f.tiles, done, d), Add(tile, d)))
    ensures Get(f.tiles, Add(tile, d)) == Get(Shift(f.tiles, done, d), Add(tile, d))
    ensures var first := BoxLeft(f.tiles, Add(tile, d)); var second := Position(first.x + 1, first.y);
      first !in done && second !in done && Sub(first, d) !in done && Sub(second, d) !in done
  {
    var t := f.tiles;
    var next := Add(tile, d);
    assert next !in done;
    assert Get(t, next) == Get(Shift(t, done, d), next);
    BoxHalves(f, tile, d);
    var first := BoxLeft(t, next);
    var second := Position(first.x + 1, first.y);
    var other := if first == next then second else first;
    var beside := if first == next then Position(tile.x + 1, tile.y) else Position(tile.x - 1, tile.y);
    assert Partner(t, next) == other;
    assert Partner(t, other) == next;
    assert other !in done;
    assert Add(beside, d) == other;
    assert other in Cone(f, beside, d);
    assert beside !in done;
  }

  /** What was pushed before a tile was pushed before the tile ahead of it too. */
  lemma SettledNext(f: WideFloor, done: set<Position>, tile: Position, first: Position, d: VerticalDelta)
    requires Settled(f, done, tile, d) == true
    requires first !in done && Sub(first, d) !in done && first.y == tile.y + d.y
    ensures Settled(f, done, first, d) == true
  {
  }

  /** Once the '[' half has been pushed, the ']' half can be. */
  lemma SettledAfter(f: WideFloor, done: set<Position>, first: Position, second: Position, d: VerticalDelta)
    requires Settled(f, done, first, d) == true && InRows(first, f.height)
    requires second !in done && Sub(second, d) !in done && second.y == first.y && second != first
    ensures Settled(f, done + Cone(f, first, d), second, d) == true
  {
    var a := Cone(f, first, d);
    var all := done + a;
    ConeAhead(f, first, second, d);
    ConeAhead(f, first, Sub(second, d), d);
    assert second !in a && Sub(second, d) !in a;
    forall y | y in all && RowAhead(second, d, y) && IsBox(Get(f.tiles, y))
      ensures Partner(f.tiles, y) in all
    {
      if y in a {
        ConePartner(f, first, y, d);
      } else {
        assert RowAhead(first, d, y);
      }
    }
    forall y | y in all
      ensures InRows(y, f.height)
    {
      ConeAhead(f, first, y, d);
    }
    forall y | y in all
      ensures Cone(f, y, d) <= all
    {
      if y in a {
        ConeClosed(f, first, y, d);
      }
    }
  }

  /**
   * When the tile ahead of a pushable tile shows a box half in the partly pushed tiles, it is an
   * untouched box of the original tiles, and its '[' half can be pushed first.
   */
  lemma CommitBoxFirst(f: WideFloor, done: set<Position>, tile: Position, d: VerticalDelta)
    requires CanCommit(f, done, tile, d) == true
    requires IsBox(Get(Shift(f.tiles, done, d), Add(tile, d)))
    ensures CanCommit(f, done, BoxLeft(Shift(f.tiles, done, d), Add(tile, d)), d) == true
  {
    BoxUntouched(f, done, tile, d);
    BoxHalves(f, tile, d);
    var first := BoxLeft(f.tiles, Add(tile, d));
    SettledNext(f, done, tile, first, d);
  }

  /** Once the '[' half of that box has been pushed, its ']' half can be. */
  lemma CommitBoxSecond(f: WideFloor, done: set<Position>, tile: Position, d: VerticalDelta)
    requires CanCommit(f, done, tile, d) == true
    requires IsBox(Get(Shift(f.tiles, done, d), Add(tile, d)))
    ensures var first := BoxLeft(Shift(f.tiles, done, d), Add(tile, d));
      CanCommit(f, done + Cone(f, first, d), Position(first.x + 1, first.y), d) == true
  {
    BoxUntouched(f, done, tile, d);
    BoxHalves(f, tile, d);
    var first := BoxLeft(f.tiles, Add(tile, d));
    assert BoxLeft(Shift(f.tiles, done, d), Add(tile, d)) == first;
    SettledNext(f, done, tile, first, d);
    SecondReady(f, done, first, Position(first.x + 1, first.y), d);
  }

  /** The ']' half of a box can be pushed once its '[' half has been. */
  lemma SecondReady(f: WideFloor, done: set<Position>, first: Position, second: Position, d: VerticalDelta)
    requires Settled(f, done, first, d) == true && InRows(first, f.height)
    requires second == Position(first.x + 1, first.y) && second in f.tiles && IsTileMovable(f, second, d) == true
    requires second !in done && Sub(second, d) !in done
    ensures CanCommit(f, done + Cone(f, first, d), second, d) == true
  {
    SettledAfter(f, done, first, second, d);
  }

  /** The pushes of the two halves of that box, with the tile itself, make up the tile's whole push. */
  lemma CommitBoxEnd(f: WideFloor, done: set<Position>, tile: Position, d: VerticalDelta)
    requires CanCommit(f, done, tile, d) == true
    requires IsBox(Get(Shift(f.tiles, done, d), Add(tile, d)))
    ensures var first := BoxLeft(Shift(f.tiles, done, d), Add(tile, d)); var second := Position(first.x + 1, first.y);
      CommitEnd(f, done, tile, done + Cone(f, first, d) + Cone(f, second, d), d) == true
  {
    BoxUntouched(f, done, tile, d);
    BoxHalves(f, tile, d);
    var first := BoxLeft(f.tiles, Add(tile, d));
    assert BoxLeft(Shift(f.tiles, done, d), Add(tile, d)) == first;
    BoxCone(f, tile, d);
    BoxEnd(f, done, tile, first, Position(first.x + 1, first.y), d);
  }

  /**
   * Pushing both halves of the box ahead, one of them the tile ahead, clears the tile ahead and
   * leaves only the tile itself to push.
   */
  lemma BoxEnd(f: WideFloor, done: set<Position>, tile: Position, first: Position, second: Position, d: VerticalDelta)
    requires InRows(tile, f.height) && tile in f.tiles && Add(tile, d) in f.tiles
    requires tile !in done && Sub(tile, d) !in done
    requires InRows(first, f.height) && first.y == tile.y + d.y && second.y == first.y
    requires Add(tile, d) == first || Add(tile, d) == second
    requires Cone(f, tile, d) == {tile} + Cone(f, first, d) + Cone(f, second, d)
    ensures CommitEnd(f, done, tile, done + Cone(f, first, d) + Cone(f, second, d), d) == true
  {
    var next := Add(tile, d);
    ConeAhead(f, first, tile, d);
    ConeAhead(f, first, Sub(tile, d), d);
    ConeAhead(f, second, tile, d);
    ConeAhead(f, second, Sub(tile, d), d);
    var a, b := Cone(f, first, d), Cone(f, second, d);
    var pushed := done + a + b;
    assert tile !in pushed && Sub(tile, d) !in pushed;
    assert next in pushed && Sub(next, d) == tile;
    assert Shift(f.tiles, pushed, d)[next] == '.';
    UnionRegroup(done, a, b, tile, Cone(f, tile, d));
  }

  lemma UnionRegroup(done: set<Position>, a: set<Position>, b: set<Position>, tile: Position, c: set<Position>)
    requires c == {tile} + a + b
    ensures done + a + b + {tile} == done + c
  {
  }

  /**
   * When the tile ahead of a pushable tile shows no box half in the partly pushed tiles, it
   * shows '.', and the tile's push adds nothing but the tile itself.
   */
  lemma CommitPlain(f: WideFloor, done: set<Position>, tile: Position, d: VerticalDelta)
    requires CanCommit(f, done, tile, d) == true
    requires !IsBox(Get(Shift(f.tiles, done, d), Add(tile, d)))
    ensures CommitEnd(f, done, tile, done, d) == true
  {
    var t := f.tiles;
    var next := Add(tile, d);
    assert next in t;
    assert Shift(t, done, d)[next] == if next in done then '.' else t[next];
    if IsBox(Get(t, next)) {
      var other := Partner(t, next);
      assert RowAhead(tile, d, next);
      assert other in done;
      var a, b := Cone(f, next, d), Cone(f, other, d);
      assert a <= done && b <= done;
      assert Cone(f, tile, d) <= done + {tile} by {
        if Get(t, next) == '[' {
          assert Cone(f, tile, d) == {tile} + a + b;
        } else {
          assert Cone(f, tile, d) == {tile} + b + a;
        }
      }
      PlainEnd(f, done, tile, d);
    } else {
      assert Cone(f, tile, d) == {tile};
      PlainEnd(f, done, tile, d);
    }
  }

  /** A tile whose push adds nothing to `done` but itself, with a free or pushed tile ahead. */
  lemma PlainEnd(f: WideFloor, done: set<Position>, tile: Position, d: VerticalDelta)
    requires InRows(tile, f.height) && tile in f.tiles && Add(tile, d) in f.tiles
    requires tile !in done && Sub(tile, d) !in done
    requires Add(tile, d) in done || f.tiles[Add(tile, d)] == '.'
    requires Cone(f, tile, d) <= done + {tile}
    ensures CommitEnd(f, done, tile, done, d) == true
  {
    assert Sub(Add(tile, d), d) == tile;
  }

  /** The swap that ends commitTileMovement adds the tile to the pushed tiles. */
  lemma CommitSwap(t: map<Position, char>, pushed: set<Position>, tile: Position, d: Position)
    requires tile in t && Add(tile, d) in t && Unit(d)
    requires tile !in pushed && Sub(tile, d) !in pushed
    requires Shift(t, pushed, d)[Add(tile, d)] == '.'
    ensures var m := Shift(t, pushed, d);
      m[tile := m[Add(tile, d)]][Add(tile, d) := m[tile]] == Shift(t, pushed + {tile}, d)
  {
    var next := Add(tile, d);
    var m := Shift(t, pushed, d);
    var u := m[tile := m[next]][next := m[tile]];
    forall q | q in t
      ensures u[q] == Shift(t, pushed + {tile}, d)[q]
    {
      if q != tile && q != next {
        assert Sub(q, d) != tile;
      }
    }
  }

  /**
   * commitTileMovement (lines 271-281): push the box ahead first, its '[' half then its ']' half,
   * then swap the tile with the free tile ahead of it. Called from a pushable tile after `done`
   * has already been pushed, it pushes the tile's whole cone, by swaps only.
   */
  method CommitTileMovement(tiles: Tiles, tile: Position, d: VerticalDelta, ghost f: WideFloor, ghost done: set<Position>)
    requires CanCommit(f, done, tile, d) == true
    requires tiles.at == Shift(f.tiles, done, d)
    modifies tiles
    ensures tiles.at == Shift(f.tiles, done + Cone(f, tile, d), d)
    ensures forall c :: Count(tiles.at, c) == Count(old(tiles.at), c)
    decreases RowsLeft(tile, d, f.height), 0
  {
    var next := Add(tile, d);
    ghost var pushed := done;
    if IsBox(Get(tiles.at, next)) {
      var first := BoxLeft(tiles.at, next);
      CommitBoxFirst(f, done, tile, d);
      CommitBoxSecond(f, done, tile, d);
      CommitBoxEnd(f, done, tile, d);
      CommitBox(tiles, first, d, f, done);
      pushed := done + Cone(f, first, d) + Cone(f, Position(first.x + 1, first.y), d);
    } else {
      CommitPlain(f, done, tile, d);
    }
    SwapAhead(tiles, tile, d, f, done, pushed);
  }

  /** Lines 273-278: the two recursive calls that push both halves of the box whose '[' half is at `first`. */
  method CommitBox(tiles: Tiles, first: Position, d: VerticalDelta, ghost f: WideFloor, ghost done: set<Position>)
    requires CanCommit(f, done, first, d) == true
    requires CanCommit(f, done + Cone(f, first, d), Position(first.x + 1, first.y), d) == true
    requires tiles.at == Shift(f.tiles, done, d)
    modifies tiles
    ensures tiles.at == Shift(f.tiles, done + Cone(f, first, d) + Cone(f, Position(first.x + 1, first.y), d), d)
    ensures forall c :: Count(tiles.at, c) == Count(old(tiles.at), c)
    decreases RowsLeft(first, d, f.height), 1
  {
    CommitTileMovement(tiles, first, d, f, done);
    CommitTileMovement(tiles, Position(first.x + 1, first.y), d, f, done + Cone(f, first, d));
  }

  /** Line 280: the swap of the tile with the tile ahead, once everything ahead has been pushed. */
  method SwapAhead(tiles: Tiles, tile: Position, d: VerticalDelta, ghost f: WideFloor, ghost done: set<Position>,
                   ghost pushed: set<Position>)
    requires CommitEnd(f, done, tile, pushed, d) == true
    requires tiles.at == Shift(f.tiles, pushed, d)
    modifies tiles
    ensures tiles.at == Shift(f.tiles, done + Cone(f, tile, d), d)
    ensures forall c :: Count(tiles.at, c) == Count(old(tiles.at), c)
  {
    var next := Add(tile, d);
    ghost var before := tiles.at;
    forall c | true
      ensures Count(before[tile := before[next]][next := before[tile]], c) == Count(before, c)
    {
      SwapCount(before, tile, next, c);
    }
    tiles.at := tiles.at[tile := Get(tiles.at, next)][next := Get(tiles.at, tile)];
    CommitSwap(f.tiles, pushed, tile, d);
  }

  // ---------------------------------------------------------------------------------------
  // What a push keeps
  // ---------------------------------------------------------------------------------------

  /**
   * What the tiles after a vertical push rely on, for any set of pushed tiles: the robot is
   * pushed, every pushed tile moves onto a free tile or onto a pushed box half, and every other
   * pushed tile is a box half pushed together with its partner.
   */
  ghost predicate PushesWhole(t: map<Position, char>, pushed: set<Position>, robot: Position, d: Position)
  {
    robot in pushed
    && (forall y {:trigger Add(y, d)} :: y in pushed ==>
          y in t && Add(y, d) in t && (t[Add(y, d)] == '.' || (IsBox(t[Add(y, d)]) && Add(y, d) in pushed)))
    && (forall y :: y in pushed && y != robot ==> IsBox(Get(t, y)))
    && (forall y {:trigger Partner(t, y)} :: y in pushed && y != robot ==> Partner(t, y) in pushed)
  }

  /** The cone of a robot that can move is such a set. */
  lemma ConePushesWhole(f: WideFloor, robot: Position, d: VerticalDelta)
    requires InRows(robot, f.height) && robot in f.tiles && IsTileMovable(f, robot, d) == true
    ensures PushesWhole(f.tiles, Cone(f, robot, d), robot, d) == true
  {
    var t, c := f.tiles, Cone(f, robot, d);
    forall y | y in c
      ensures y in t && Add(y, d) in t && (t[Add(y, d)] == '.' || (IsBox(t[Add(y, d)]) && Add(y, d) in c))
    {
      ConeFront(f, robot, y, d);
      if y != robot {
        ConePartner(f, robot, y, d);
      }
    }
    forall y | y in c && y != robot
      ensures IsBox(Get(t, y))
    {
      ConePartner(f, robot, y, d);
    }
    forall y | y in c && y != robot
      ensures Partner(t, y) in c
    {
      ConePartner(f, robot, y, d);
    }
  }

  /** A push moves no wall, so the ring stays walled. */
  lemma ShiftKeepsWalls(t: map<Position, char>, pushed: set<Position>, robot: Position, d: Position, width: int, height: int)
    requires Walled(t, width, height) && robot in t && t[robot] == '@'
    requires PushesWhole(t, pushed, robot, d) == true
    ensures Walled(Shift(t, pushed, d), width, height) && SameWalls(t, Shift(t, pushed, d))
  {
    forall q | q in t
      ensures Shift(t, pushed, d)[q] == '#' <==> t[q] == '#'
    {
      ShiftTileWall(t, pushed, robot, d, q);
    }
  }

  /** A tile shows a wall after a push exactly when it did before. */
  lemma ShiftTileWall(t: map<Position, char>, pushed: set<Position>, robot: Position, d: Position, q: Position)
    requires q in t && robot in t && t[robot] == '@'
    requires PushesWhole(t, pushed, robot, d) == true
    ensures Shift(t, pushed, d)[q] == '#' <==> t[q] == '#'
  {
    var b := Sub(q, d);
    assert Add(b, d) == q;
    assert b in pushed ==> t[q] == '.' || IsBox(t[q]);
    assert b in pushed && b != robot ==> IsBox(Get(t, b)) && Partner(t, b) in pushed;
    assert q in pushed && q != robot ==> IsBox(Get(t, q)) && Partner(t, q) in pushed;
  }

  /** After a push the robot stands one step further on, and it is still the only robot. */
  lemma ShiftMovesRobot(t: map<Position, char>, pushed: set<Position>, robot: Position, d: Position, width: int, height: int)
    requires Walled(t, width, height) && RobotAt(t, robot, width, height)
    requires PushesWhole(t, pushed, robot, d) == true
    ensures RobotAt(Shift(t, pushed, d), Add(robot, d), width, height)
  {
    var u := Shift(t, pushed, d);
    var r := Add(robot, d);
    assert Sub(r, d) == robot;
    assert robot in pushed;
    assert robot in t && Add(robot, d) in t;
    assert t[Add(robot, d)] == '.' || IsBox(t[Add(robot, d)]);
    assert r in t && t[r] != '#';
    forall p | p in u && u[p] == '@'
      ensures p == r
    {
      assert Sub(p, d) in pushed ==> Add(Sub(p, d), d) == p;
    }
  }

  /** A vertical push moves whole boxes, so every box stays whole. */
  lemma ShiftKeepsBoxes(t: map<Position, char>, pushed: set<Position>, robot: Position, d: Position)
    requires Boxes(t) && robot in t && t[robot] == '@' && d.x == 0
    requires PushesWhole(t, pushed, robot, d) == true
    ensures Boxes(Shift(t, pushed, d))
  {
    var u := Shift(t, pushed, d);
    forall p | p in u && IsBox(u[p])
      ensures Partner(u, p) in u && u[Partner(u, p)] == (if u[p] == '[' then ']' else '[')
    {
      var b := Sub(p, d);
      if b in pushed {
        var z := Partner(t, b);
        assert Partner(u, p) == Add(z, d);
        assert Sub(Add(z, d), d) == z;
      } else if p !in pushed {
        var z := Partner(t, p);
        assert Partner(t, z) == p;
        assert Add(Sub(z, d), d) == z;
      }
    }
  }

  /** A straight horizontal push moves whole boxes too: the stretch it shifts starts after the robot and ends on a free tile. */
  lemma PushKeepsBoxes(s: Warehouse, d: Position, width: int, height: int)
    requires Valid(s, width, height) == true && Boxes(s.tiles) && Unit(d) && d.y == 0
    ensures Boxes(Move(s, d, width, height).tiles)
  {
    var t, robot := s.tiles, s.robot;
    var dest := ScanFrom(t, robot, d, width, height);
    if t[dest] != '#' {
      var u := Pushed(t, robot, dest, d);
      forall p | p in u && IsBox(u[p])
        ensures Partner(u, p) in u && u[Partner(u, p)] == (if u[p] == '[' then ']' else '[')
      {
        var b := Sub(p, d);
        if Ahead(robot, d, p) && !Ahead(dest, d, p) {
          assert b == robot || (Ahead(robot, d, b) && Ahead(b, d, dest));
          var z := Partner(t, b);
          assert Partner(u, p) == Add(z, d);
          assert Sub(Add(z, d), d) == z;
        } else if p != robot {
          var z := Partner(t, p);
          assert Partner(u, p) == z;
        }
      }
    }
  }

  // ---------------------------------------------------------------------------------------
  // wideRunRobot
  // ---------------------------------------------------------------------------------------

  /** A wide warehouse: walled, one robot, and whole boxes only. */
  ghost predicate WideValid(s: Warehouse, width: int, height: int)
  {
    Valid(s, width, height) && Boxes(s.tiles)
  }

  /**
   * One move of wideRunRobot (lines 191-250). A vertical move pushes the robot's whole cone when
   * isTileMovable says it can and otherwise changes nothing; a horizontal move is the straight
   * push of part 1.
   */
  ghost function WideMove(s: Warehouse, d: Position, width: int, height: int): Warehouse
    requires WideValid(s, width, height) == true && Unit(d)
  {
    if d.y != 0 then
      var f: WideFloor := Floor(s.tiles, width, height);
      var vertical: VerticalDelta := d;
      if IsTileMovable(f, s.robot, vertical) then Warehouse(Shift(s.tiles, Cone(f, s.robot, vertical), d), Add(s.robot, d))
      else s
    else Move(s, d, width, height)
  }

  /** A wide move keeps the warehouse wide and valid, moves no wall, and moves the robot by d or not at all. */
  lemma WideMoveKeeps(s: Warehouse, d: Position, width: int, height: int)
    requires WideValid(s, width, height) == true && Unit(d)
    ensures WideValid(WideMove(s, d, width, height), width, height)
    ensures SameWalls(s.tiles, WideMove(s, d, width, height).tiles)
    ensures WideMove(s, d, width, height).robot in {s.robot, Add(s.robot, d)}
  {
    if d.y != 0 {
      var f: WideFloor := Floor(s.tiles, width, height);
      var vertical: VerticalDelta := d;
      if IsTileMovable(f, s.robot, vertical) {
        ConePushesWhole(f, s.robot, vertical);
        var c := Cone(f, s.robot, vertical);
        ShiftKeepsWalls(s.tiles, c, s.robot, d, width, height);
        ShiftMovesRobot(s.tiles, c, s.robot, d, width, height);
        ShiftKeepsBoxes(s.tiles, c, s.robot, d);
      }
    } else {
      MoveKeeps(s, d, width, height);
      PushKeepsBoxes(s, d, width, height);
    }
  }

  /** wideRunRobot's moves made in order; the warehouse stays wide and valid and no wall moves. */
  ghost function WideRun(s: Warehouse, moves: string, width: int, height: int): (r: Warehouse)
    requires WideValid(s, width, height) == true && AllArrows(moves)
    ensures WideValid(r, width, height) && SameWalls(s.tiles, r.tiles)
    decreases |moves|
  {
    if moves == [] then s
    else
      WideMoveKeeps(s, Delta(moves[0]), width, height);
      WideRun(WideMove(s, Delta(moves[0]), width, height), moves[1..], width, height)
  }

  /** Making `moves` from s in the wide warehouse ends in `final`. */
  ghost predicate WideRuns(s: Warehouse, moves: string, final: Warehouse, width: int, height: int)
  {
    WideValid(s, width, height) && AllArrows(moves) && WideRun(s, moves, width, height) == final
  }

  /** After the first move, the rest of the moves still end in the same place. */
  lemma WideRunsStep(s: Warehouse, moves: string, final: Warehouse, width: int, height: int)
    requires WideRuns(s, moves, final, width, height) == true && moves != []
    ensures Unit(Delta(moves[0]))
    ensures WideRuns(WideMove(s, Delta(moves[0]), width, height), moves[1..], final, width, height) == true
  {
    WideMoveKeeps(s, Delta(moves[0]), width, height);
  }

  /** Nothing pushed, nothing moved. */
  lemma ShiftNone(t: map<Position, char>, d: Position)
    ensures Shift(t, {}, d) == t
  {
  }

  /** One iteration of wideRunRobot's loop (lines 191-250) on the shared tiles; returns the robot's new position. */
  method WideMoveRobot(tiles: Tiles, robot: Position, d: Position, width: int, height: int) returns (next: Position)
    requires WideValid(Warehouse(tiles.at, robot), width, height) == true && Unit(d)
    modifies tiles
    ensures Warehouse(tiles.at, next) == WideMove(Warehouse(old(tiles.at), robot), d, width, height)
    ensures forall c :: Count(tiles.at, c) == Count(old(tiles.at), c)
  {
    if d.y != 0 {
      var f: WideFloor := Floor(tiles.at, width, height);
      var vertical: VerticalDelta := d;
      next := robot;
      if IsTileMovable(f, robot, vertical) {
        ShiftNone(f.tiles, d);
        CommitTileMovement(tiles, robot, vertical, f, {});
        assert {} + Cone(f, robot, vertical) == Cone(f, robot, vertical);
        next := Add(robot, d);
      }
    } else {
      next := MoveRobot(tiles, robot, d, width, height);
    }
  }

  /**
   * wideRunRobot (lines 190-253). As in runRobot, only the shared tiles change for the caller,
   * and every tile is only ever swapped.
   */
  method WideRunRobot(board: Board)
    requires board.nextMove >= 0 && AllArrows(Pending(board.moves, board.nextMove))
    requires WideValid(Warehouse(board.tiles.at, board.robot), board.width, board.height) == true
    modifies board.tiles
    ensures board.tiles.at == WideRun(Warehouse(old(board.tiles.at), board.robot), Pending(board.moves, board.nextMove), board.width, board.height).tiles
    ensures forall c :: Count(board.tiles.at, c) == Count(old(board.tiles.at), c)
  {
    var tiles, moves, width, height := board.tiles, board.moves, board.width, board.height;
    ghost var final := WideRun(Warehouse(tiles.at, board.robot), Pending(moves, board.nextMove), width, height);
    // The robot and nextMove fields of Go's by-value copy of the board.
    var robot, nextMove := board.robot, board.nextMove;
    while nextMove < |moves|
      invariant nextMove >= 0
      invariant WideRuns(Warehouse(tiles.at, robot), Pending(moves, nextMove), final, width, height) == true
      invariant forall c :: Count(tiles.at, c) == Count(old(tiles.at), c)
      decreases |moves| - nextMove
    {
      var move := moves[nextMove];
      WideRunsStep(Warehouse(tiles.at, robot), Pending(moves, nextMove), final, width, height);
      assert Pending(moves, nextMove)[1..] == Pending(moves, nextMove + 1);
      nextMove := nextMove + 1;
      robot := WideMoveRobot(tiles, robot, Delta(move), width, height);
    }
  }

  // ---------------------------------------------------------------------------------------
  // wideParseBoard
  // ---------------------------------------------------------------------------------------

  /**
   * The two tiles a character of the narrow map becomes (lines 160-174), left then right. The
   * switch has no default case, so any other character gives no tiles at all.
   */
  function Widen(c: char): Option<(char, char)>
  {
    match c
    case '#' => Some(('#', '#'))
    case '.' => Some(('.', '.'))
    case 'O' => Some(('[', ']'))
    case '@' => Some(('@', '.'))
    case _ => None
  }

  /** The tile of the wide map at p, if there is one: a half of the widened narrow character. */
  function WideTile(lines: seq<string>, p: Position): Option<char>
  {
    if 0 <= p.y < |lines| && 0 <= p.x < 2 * |lines[p.y]| then
      match Widen(lines[p.y][p.x / 2])
      case Some(pair) => Some(if p.x % 2 == 0 then pair.0 else pair.1)
      case None => None
    else None
  }

  /** A Go map read with the comma-ok form: the value if the key is there. */
  function Lookup(t: map<Position, char>, p: Position): Option<char>
  {
    if p in t then Some(t[p]) else None
  }

  /** The wide tiles of the rows before y and of the first x wide columns of row y. */
  function WideTileBefore(lines: seq<string>, p: Position, y: int, x: int): Option<char>
  {
    if p.y < y || (p.y == y && p.x < x) then WideTile(lines, p) else None
  }

  /** q is read before column x of row y. */
  predicate ReadFirst(q: Position, y: int, x: int)
  {
    q.y < y || (q.y == y && q.x < x)
  }

  /**
   * Where wideParseBoard has put the robot once it has read up to column x of row y: on the
   * left half of the last '@' read, or still at the zero position when it has read none.
   */
  ghost predicate RobotSoFar(lines: seq<string>, robotPos: Position, y: int, x: int)
  {
    var n := Position(robotPos.x / 2, robotPos.y);
    robotPos.x % 2 == 0
    && ((IsCell(lines, n, '@') && ReadFirst(n, y, x))
        || (robotPos == Position(0, 0) && forall q :: IsCell(lines, q, '@') ==> !ReadFirst(q, y, x)))
    && forall q :: IsCell(lines, q, '@') && ReadFirst(q, y, x) ==> !ReadBefore(n, q)
  }

  /** The robot of the whole map: the left half of its last '@', or the zero position when it has none. */
  ghost predicate LastRobot(lines: seq<string>, robotPos: Position)
  {
    RobotSoFar(lines, robotPos, |lines|, 0)
  }

  /**
   * wideParseBoard (lines 145-188), from the lines of the map section and the moves already
   * joined into one string: every narrow tile becomes two, and the robot is the left half of
   * the last '@' read.
   */
  method WideParseBoard(lines: seq<string>, moves: string) returns (board: Board)
    requires |lines| >= 1
    ensures board.width == 2 * |lines[0]| && board.height == |lines|
    ensures board.moves == moves && board.nextMove == 0
    ensures forall p :: Lookup(board.tiles.at, p) == WideTile(lines, p)
    ensures LastRobot(lines, board.robot)
  {
    var tiles: map<Position, char> := map[];
    var robotPos := Position(0, 0);
    for y := 0 to |lines|
      invariant forall p :: Lookup(tiles, p) == WideTileBefore(lines, p, y, 0)
      invariant RobotSoFar(lines, robotPos, y, 0) == true
    {
      tiles, robotPos := WideParseLine(lines, y, tiles, robotPos);
    }
    forall p
      ensures Lookup(tiles, p) == WideTile(lines, p)
    {
      assert WideTileBefore(lines, p, |lines|, 0) == WideTile(lines, p);
    }
    var t := new Tiles(tiles);
    board := Board(2 * |lines[0]|, |lines|, t, robotPos, moves, 0);
  }

  /** The inner loop of wideParseBoard over the characters of line y. */
  method WideParseLine(lines: seq<string>, y: int, tiles: map<Position, char>, robotPos: Position)
    returns (tiles': map<Position, char>, robotPos': Position)
    requires 0 <= y < |lines|
    requires forall p :: Lookup(tiles, p) == WideTileBefore(lines, p, y, 0)
    requires RobotSoFar(lines, robotPos, y, 0) == true
    ensures forall p :: Lookup(tiles', p) == WideTileBefore(lines, p, y + 1, 0)
    ensures RobotSoFar(lines, robotPos', y + 1, 0) == true
  {
    tiles', robotPos' := tiles, robotPos;
    var line := lines[y];
    for lx := 0 to |line|
      invariant forall p :: Lookup(tiles', p) == WideTileBefore(lines, p, y, 2 * lx)
      invariant RobotSoFar(lines, robotPos', y, lx) == true
    {
      var pos, pos2 := Position(lx * 2, y), Position(lx * 2 + 1, y);
      WidenedPair(lines, y, lx);
      RobotStep(lines, robotPos', y, lx);
      ghost var before := tiles';
      match line[lx] {
        case '#' =>
          tiles' := tiles'[pos := '#'][pos2 := '#'];
        case '.' =>
          tiles' := tiles'[pos := '.'][pos2 := '.'];
        case 'O' =>
          tiles' := tiles'[pos := '['][pos2 := ']'];
        case '@' =>
          tiles' := tiles'[pos := '@'][pos2 := '.'];
          robotPos' := pos;
        case _ =>
      }
      forall p
        ensures Lookup(tiles', p) == WideTileBefore(lines, p, y, 2 * lx + 2)
      {
        if p != pos && p != pos2 {
          assert Lookup(tiles', p) == Lookup(before, p);
        }
      }
    }
    forall p
      ensures Lookup(tiles', p) == WideTileBefore(lines, p, y + 1, 0)
    {
      assert WideTileBefore(lines, p, y, 2 * |line|) == WideTileBefore(lines, p, y + 1, 0);
    }
    RobotRowEnd(lines, robotPos', y);
  }

  /** Reading one more character keeps the robot, or moves it to that character when it is '@'. */
  lemma RobotStep(lines: seq<string>, robotPos: Position, y: int, x: int)
    requires 0 <= y < |lines| && 0 <= x < |lines[y]|
    requires RobotSoFar(lines, robotPos, y, x) == true
    ensures lines[y][x] != '@' ==> RobotSoFar(lines, robotPos, y, x + 1) == true
    ensures lines[y][x] == '@' ==> RobotSoFar(lines, Position(x * 2, y), y, x + 1) == true
  {
    assert Position(x * 2 / 2, y) == Position(x, y);
  }

  /** The end of row y is the start of row y + 1. */
  lemma RobotRowEnd(lines: seq<string>, robotPos: Position, y: int)
    requires 0 <= y < |lines|
    requires RobotSoFar(lines, robotPos, y, |lines[y]|) == true
    ensures RobotSoFar(lines, robotPos, y + 1, 0) == true
  {
  }

  /** Reading narrow column lx of row y adds its two wide tiles and nothing else. */
  lemma WidenedPair(lines: seq<string>, y: int, lx: int)
    requires 0 <= y < |lines| && 0 <= lx < |lines[y]|
    ensures var pos, pos2 := Position(lx * 2, y), Position(lx * 2 + 1, y);
      && WideTile(lines, pos) == (if Widen(lines[y][lx]).Some? then Some(Widen(lines[y][lx]).value.0) else None)
      && WideTile(lines, pos2) == (if Widen(lines[y][lx]).Some? then Some(Widen(lines[y][lx]).value.1) else None)
      && forall p :: p != pos && p != pos2 ==> WideTileBefore(lines, p, y, 2 * lx + 2) == WideTileBefore(lines, p, y, 2 * lx)
  {
  }

  /**
   * A map as the puzzle gives it: a rectangle of '#', '.', 'O' and '@' with wall all round and
   * exactly one robot.
   */
  ghost predicate NarrowMap(lines: seq<string>)
  {
    |lines| >= 1
    && (forall y :: 0 <= y < |lines| ==> |lines[y]| == |lines[0]|)
    && (forall p :: InBox(p, |lines[0]|, |lines|) ==> Widen(lines[p.y][p.x]).Some?)
    && (forall p :: InBox(p, |lines[0]|, |lines|) && !Inside(p, |lines[0]|, |lines|) ==> lines[p.y][p.x] == '#')
    && (exists r :: IsCell(lines, r, '@'))
    && (forall p, q :: IsCell(lines, p, '@') && IsCell(lines, q, '@') ==> p == q)
  }

  /** Such a map parses to a wide warehouse the robot can run in: walled, one robot, whole boxes. */
  lemma WideParsedValid(lines: seq<string>, t: map<Position, char>, robot: Position)
    requires NarrowMap(lines)
    requires forall p :: Lookup(t, p) == WideTile(lines, p)
    requires LastRobot(lines, robot)
    ensures WideValid(Warehouse(t, robot), 2 * |lines[0]|, |lines|)
  {
    ParsedWalled(lines, t);
    ParsedRobot(lines, t, robot);
    ParsedBoxes(lines, t);
  }

  /** Every tile of the doubled rectangle is there, nothing else is, and the ring is wall. */
  lemma ParsedWalled(lines: seq<string>, t: map<Position, char>)
    requires NarrowMap(lines)
    requires forall p :: Lookup(t, p) == WideTile(lines, p)
    ensures Walled(t, 2 * |lines[0]|, |lines|)
  {
    var w, h := |lines[0]|, |lines|;
    forall p
      ensures p in t <==> InBox(p, 2 * w, h)
      ensures p in t && !Inside(p, 2 * w, h) ==> t[p] == '#'
    {
      var n := Position(p.x / 2, p.y);
      assert Lookup(t, p) == WideTile(lines, p);
      if InBox(p, 2 * w, h) {
        assert InBox(n, w, h);
        assert Widen(lines[n.y][n.x]).Some?;
        assert !Inside(p, 2 * w, h) ==> !Inside(n, w, h);
      }
    }
  }

  /** The robot stands off the ring on the only '@' tile. */
  lemma ParsedRobot(lines: seq<string>, t: map<Position, char>, robot: Position)
    requires NarrowMap(lines)
    requires forall p :: Lookup(t, p) == WideTile(lines, p)
    requires LastRobot(lines, robot)
    ensures RobotAt(t, robot, 2 * |lines[0]|, |lines|)
  {
    var w, h := |lines[0]|, |lines|;
    var n := Position(robot.x / 2, robot.y);
    var r :| IsCell(lines, r, '@');
    assert ReadFirst(r, h, 0);
    assert IsCell(lines, n, '@');
    assert InBox(n, w, h) && Inside(n, w, h);
    assert Lookup(t, robot) == WideTile(lines, robot);
    forall p | p in t && t[p] == '@'
      ensures p == robot
    {
      assert Lookup(t, p) == WideTile(lines, p);
      assert IsCell(lines, Position(p.x / 2, p.y), '@');
    }
  }

  /** Every '[' has its ']' on the right and every ']' its '[' on the left: each was an 'O'. */
  lemma ParsedBoxes(lines: seq<string>, t: map<Position, char>)
    requires NarrowMap(lines)
    requires forall p :: Lookup(t, p) == WideTile(lines, p)
    ensures Boxes(t)
  {
    forall p | p in t && IsBox(t[p])
      ensures Partner(t, p) in t && t[Partner(t, p)] == (if t[p] == '[' then ']' else '[')
    {
      var q := Partner(t, p);
      assert Lookup(t, p) == WideTile(lines, p);
      assert Lookup(t, q) == WideTile(lines, q);
      assert q.x / 2 == p.x / 2;
    }
  }

  // ---------------------------------------------------------------------------------------
  // wideScoreBoard
  // ---------------------------------------------------------------------------------------

  /** wideScoreBoard (lines 283-292): the GPS coordinates of the '[' halves, summed. */
  method WideScoreBoard(board: Board) returns (score: int)
    ensures score == GpsSum(board.tiles.at, '[', board.tiles.at.Keys)
  {
    score := SumGps(board.tiles.at, '[');
  }
}

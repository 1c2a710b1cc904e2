/** Small helpers shared by the daily models. */
module Common {

  /** A value that may be absent: a missing map key, a search that found nothing, a crash. */
  datatype Option<T> = None | Some(value: T)

  /** A tile of a grid: column x, row y, with y growing downwards. */
  datatype Position = Position(x: int, y: int)

  /** p comes strictly before q in row-major reading order. */
  predicate ReadBefore(p: Position, q: Position)
  {
    p.y < q.y || (p.y == q.y && p.x < q.x)
  }

  /** p and q share a side: one step left, right, up or down. */
  predicate Adjacent(p: Position, q: Position)
  {
    (p.y == q.y && (q.x == p.x - 1 || q.x == p.x + 1)) || (p.x == q.x && (q.y == p.y - 1 || q.y == p.y + 1))
  }

  /** The last element of a non-empty sequence. */
  function Last<T>(s: seq<T>): T
    requires |s| >= 1
  {
    s[|s| - 1]
  }

  /** The grid given as lines holds c at p. */
  predicate IsCell(lines: seq<seq<char>>, p: Position, c: char)
  {
    0 <= p.y < |lines| && 0 <= p.x < |lines[p.y]| && lines[p.y][p.x] == c
  }

  /** strconv.Atoi of one character: its digit, or 0 (the ignored error) for anything else. */
  function DigitValue(ch: char): (r: int)
    ensures 0 <= r <= 9
  {
    if '0' <= ch <= '9' then (ch - '0') as int else 0
  }

  /**
   * Go's `a % b` for b > 0: the remainder of division truncated toward zero, which takes the
   * sign of a (Dafny's own `%` is Euclidean and never negative).
   */
  function GoRem(a: int, b: int): (r: int)
    requires b > 0
    ensures a >= 0 ==> 0 <= r < b
    ensures a < 0 ==> -b < r <= 0
    ensures (a - r) % b == 0
  {
    if a >= 0 then
      assert a - a % b == b * (a / b);
      ModUnique(a - a % b, b, a / b, 0);
      a % b
    else
      var q := (-a) / b;
      assert -a == b * q + (-a) % b;
      assert a + (-a) % b == b * -q;
      ModUnique(a + (-a) % b, b, -q, 0);
      -((-a) % b)
  }

  // ---------------------------------------------------------------------------------------
  // Facts about Euclidean division that the solver does not find by itself
  // ---------------------------------------------------------------------------------------

  lemma MulSmall(k: int, b: int)
    requires b > 0 && -b < b * k < b
    ensures k == 0
  {
    assert k >= 1 ==> b * k >= b * 1;
    assert k <= -1 ==> b * k <= b * -1;
  }

  /** Division and remainder are the unique q, r with x == b * q + r and 0 <= r < b. */
  lemma ModUnique(x: int, b: int, q: int, r: int)
    requires b > 0 && x == b * q + r && 0 <= r < b
    ensures x % b == r && x / b == q
  {
    assert x == b * (x / b) + x % b;
    assert b * (q - x / b) == b * q - b * (x / b);
    MulSmall(q - x / b, b);
  }

  /** Adding a multiple of b does not change the remainder. */
  lemma ModAddMultiple(x: int, b: int, k: int)
    requires b > 0
    ensures (x + b * k) % b == x % b
  {
    assert x == b * (x / b) + x % b;
    assert x + b * k == b * (x / b + k) + x % b;
    ModUnique(x + b * k, b, x / b + k, x % b);
  }

  /** Reducing one summand first does not change the remainder of a sum. */
  lemma ModAdd(x: int, y: int, b: int)
    requires b > 0
    ensures (x % b + y) % b == (x + y) % b
  {
    assert x == b * (x / b) + x % b;
    assert x % b + y == (x + y) + b * -(x / b);
    ModAddMultiple(x + y, b, -(x / b));
  }

  /** Numbers that differ by a multiple of b have the same remainder. */
  lemma ModCongruent(x: int, y: int, b: int)
    requires b > 0 && (x - y) % b == 0
    ensures x % b == y % b
  {
    var k := (x - y) / b;
    assert x - y == b * k + (x - y) % b;
    assert x == y + b * k;
    ModAddMultiple(y, b, k);
  }
}

/**
 * Day 11: a row of numbered stones changes at every blink. A 0 becomes a 1; a stone with an
 * even number of decimal digits splits into its left and right halves; any other stone is
 * multiplied by 2024. Part 1 keeps the row itself; part 2 keeps only how many stones carry
 * each number. Both count the stones after n blinks. The stones are given already parsed.
 */
module Day11 {

  // ---------------------------------------------------------------------------------------
  // Digits and powers of ten
  // ---------------------------------------------------------------------------------------

  function Pow10(n: nat): (r: int)
    ensures r >= 1
  {
    if n == 0 then 1 else 10 * Pow10(n - 1)
  }

  /** The number of decimal digits of v, as ord counts them: 1 below 10 (0 and negatives included). */
  function Digits(v: int): (r: int)
    ensures r >= 1
    decreases v
  {
    if v < 10 then 1 else 1 + Digits(v / 10)
  }

  lemma {:induction false} Pow10Add(a: nat, b: nat)
    ensures Pow10(a + b) == Pow10(a) * Pow10(b)
    decreases a
  {
    if a > 0 {
      Pow10Add(a - 1, b);
    }
  }

  lemma {:induction false} Pow10Mono(a: nat, b: nat)
    requires a <= b
    ensures Pow10(a) <= Pow10(b)
    decreases b
  {
    if a < b {
      Pow10Mono(a, b - 1);
    }
  }

  /** A non-negative v lies below 10 to the power of its digit count, and a positive one not below the power before. */
  lemma {:induction false} DigitsBounds(v: int)
    requires v >= 0
    ensures v < Pow10(Digits(v))
    ensures v >= 1 ==> Pow10(Digits(v) - 1) <= v
    decreases v
  {
    if v >= 10 {
      var q := v / 10;
      DigitsBounds(q);
      assert v == 10 * q + v % 10;
    }
  }

  /** For a positive v, d is its digit count exactly when 10^(d-1) <= v < 10^d. */
  lemma DigitsExactly(v: int, d: int)
    requires v >= 1 && d >= 1
    ensures Digits(v) == d <==> Pow10(d - 1) <= v < Pow10(d)
  {
    DigitsBounds(v);
    var e := Digits(v);
    if Pow10(d - 1) <= v < Pow10(d) && e != d {
      if e < d {
        Pow10Mono(e, d - 1);
      } else {
        Pow10Mono(d, e - 1);
      }
    }
  }

  /**
   * ord: counts the digits of value by dividing it by 10 until it is below 10. For a
   * non-negative value Go's truncating division is the division used here.
   */
  method Ord(value: int) returns (order: int)
    ensures order == Digits(value)
  {
    order := 1;
    var v := value;
    while v >= 10
      invariant order + Digits(v) == Digits(value) + 1
      decreases v
    {
      v := v / 10;
      order := order + 1;
    }
  }

  /** tenToThe: 10^n for n >= 1; any smaller n still gives 10. */
  method TenToThe(n: int) returns (v: int)
    ensures v == Pow10(if n <= 1 then 1 else n)
  {
    v := 10;
    var i := 1;
    while i < n
      invariant 1 <= i <= if n <= 1 then 1 else n
      invariant v == Pow10(i)
    {
      v := v * 10;
      i := i + 1;
    }
  }

  // ---------------------------------------------------------------------------------------
  // The rule of one blink
  // ---------------------------------------------------------------------------------------

  /** A stone that splits: non-zero with an even digit count. */
  predicate Splits(s: int)
  {
    s != 0 && Digits(s) % 2 == 0
  }

  /**
   * The stones one stone turns into. A splitting stone is at least 10, so Go's truncating
   * division and remainder agree with the ones used here.
   */
  function Rule(s: int): (r: seq<int>)
    ensures |r| == if Splits(s) then 2 else 1
  {
    if s == 0 then [1]
    else if Digits(s) % 2 == 0 then [s / Pow10(Digits(s) / 2), s % Pow10(Digits(s) / 2)]
    else [s * 2024]
  }

  /**
   * The halves of a splitting stone: the left half has exactly half the digits, the right half
   * fewer than that many (its leading zeros are dropped), and together they write the stone.
   */
  lemma SplitHalves(s: int)
    requires Splits(s)
    ensures var h := Digits(s) / 2; var left, right := Rule(s)[0], Rule(s)[1];
      s == left * Pow10(h) + right && Digits(left) == h && 0 <= right < Pow10(h)
  {
    var d := Digits(s);
    var h := d / 2;
    var p := Pow10(h);
    assert s >= 10;
    DigitsBounds(s);
    Pow10Add(h - 1, h);
    Pow10Add(h, h);
    var left := s / p;
    assert Rule(s) == [left, s % p];
    assert s == left * p + s % p;
    DivBetween(s, p, Pow10(h - 1), Pow10(h));
    DigitsExactly(left, h);
  }

  /** lo * p <= s < hi * p puts s / p between lo and hi. */
  lemma DivBetween(s: int, p: int, lo: int, hi: int)
    requires p >= 1 && lo * p <= s < hi * p
    ensures lo <= s / p < hi
  {
    var q, r := s / p, s % p;
    assert s == q * p + r && 0 <= r < p;
    assert (q + 1) * p == q * p + p;
    LessTimes(lo, q + 1, p);
    LessTimes(q, hi, p);
  }

  lemma LessTimes(a: int, b: int, p: int)
    requires p > 0 && a * p < b * p
    ensures a < b
  {
    assert (b - a) * p == b * p - a * p;
  }

  /** One blink over a row: every stone replaced, in place, by what it turns into. */
  function BlinkOnce(stones: seq<int>): seq<int>
  {
    if stones == [] then [] else BlinkOnce(stones[..|stones| - 1]) + Rule(stones[|stones| - 1])
  }

  /** The row after n blinks (none when n is not positive). */
  function Blinks(stones: seq<int>, n: int): seq<int>
    decreases n
  {
    if n <= 0 then stones else BlinkOnce(Blinks(stones, n - 1))
  }

  lemma BlinksNext(stones: seq<int>, i: int)
    requires i >= 0
    ensures Blinks(stones, i + 1) == BlinkOnce(Blinks(stones, i))
  {
  }

  /** The number of splitting stones in a row. */
  function SplitCount(stones: seq<int>): nat
  {
    if stones == [] then 0
    else SplitCount(stones[..|stones| - 1]) + (if Splits(stones[|stones| - 1]) then 1 else 0)
  }

  /** A blink adds one stone for every splitting stone. */
  lemma {:induction false} BlinkOnceCount(stones: seq<int>)
    ensures |BlinkOnce(stones)| == |stones| + SplitCount(stones)
  {
    if stones != [] {
      BlinkOnceCount(stones[..|stones| - 1]);
    }
  }

  /** Stones do not change places: a blink over two rows side by side is the two blinks side by side. */
  lemma {:induction false} BlinkOnceAppend(a: seq<int>, b: seq<int>)
    ensures BlinkOnce(a + b) == BlinkOnce(a) + BlinkOnce(b)
    decreases |b|
  {
    if b == [] {
      assert a + b == a;
    } else {
      var b' := b[..|b| - 1];
      assert (a + b)[..|a + b| - 1] == a + b';
      assert (a + b)[|a + b| - 1] == b[|b| - 1];
      BlinkOnceAppend(a, b');
    }
  }

  /** What a blink makes of a row depends, up to order, only on which stones the row holds. */
  lemma {:induction false} BlinkOncePermutation(a: seq<int>, b: seq<int>)
    requires multiset(a) == multiset(b)
    ensures multiset(BlinkOnce(a)) == multiset(BlinkOnce(b))
    decreases |a|
  {
    if a != [] {
      var a' := a[..|a| - 1];
      var x := a[|a| - 1];
      assert a == a' + [x];
      assert x in multiset(b);
      var q :| 0 <= q < |b| && b[q] == x;
      var rest := BlinkWithout(b, q);
      assert multiset(a') == multiset(a) - multiset{x};
      BlinkOncePermutation(a', rest);
      assert BlinkOnce(a) == BlinkOnce(a') + Rule(x);
    }
  }

  /** Taking the stone at q out of a row takes what it turns into out of the blink. */
  lemma BlinkWithout(b: seq<int>, q: int) returns (rest: seq<int>)
    requires 0 <= q < |b|
    ensures |rest| == |b| - 1
    ensures multiset(rest) == multiset(b) - multiset{b[q]}
    ensures multiset(BlinkOnce(b)) == multiset(BlinkOnce(rest)) + multiset(Rule(b[q]))
  {
    var x := b[q];
    var b1, b2 := b[..q], b[q + 1..];
    rest := b1 + b2;
    assert b == b1 + [x] + b2;
    BlinkOnceAppend(b1, b2);
    BlinkOnceAppend(b1, [x]);
    BlinkOnceAppend(b1 + [x], b2);
    assert BlinkOnce([x]) == Rule(x) by {
      assert [x][..0] == [];
    }
  }

  // ---------------------------------------------------------------------------------------
  // Part 1: the row itself
  // ---------------------------------------------------------------------------------------

  /**
   * blink: n times, walks the row and rewrites each stone in place; a splitting stone is
   * duplicated in the slice, the copies overwritten by the halves, and the walk skips the
   * second half. The result is the length of the final row.
   */
  method Blink(initial: seq<int>, n: int) returns (count: int)
    ensures count == |Blinks(initial, n)|
  {
    var stones := initial;
    if n > 0 {
      for i := 0 to n
        invariant stones == Blinks(initial, i)
      {
        BlinksNext(initial, i);
        stones := BlinkRow(stones);
      }
    }
    count := |stones|;
  }

  /** One pass of blink's inner loop over the row. */
  method BlinkRow(row: seq<int>) returns (stones: seq<int>)
    ensures stones == BlinkOnce(row)
  {
    stones := row;
    ghost var k := 0;
    var j := 0;
    while j < |stones|
      invariant 0 <= k <= |row|
      invariant stones == BlinkOnce(row[..k]) + row[k..]
      invariant j == |BlinkOnce(row[..k])|
      decreases |stones| - j
    {
      BlinkNext(row, k, stones, j);
      stones, j := BlinkStone(stones, j);
      k := k + 1;
    }
    assert row[..k] == row;
  }

  /** Blinking one more stone of the row: its replacements go after the ones made so far. */
  lemma BlinkNext(row: seq<int>, k: int, stones: seq<int>, j: int)
    requires 0 <= k < |row| && stones == BlinkOnce(row[..k]) + row[k..] && j == |BlinkOnce(row[..k])|
    ensures j < |stones| && stones[j] == row[k]
    ensures stones[..j] + Rule(stones[j]) + stones[j + 1..] == BlinkOnce(row[..k + 1]) + row[k + 1..]
    ensures j + |Rule(stones[j])| == |BlinkOnce(row[..k + 1])|
  {
    assert row[..k + 1][..k] == row[..k];
    assert stones[..j] == BlinkOnce(row[..k]);
    assert stones[j + 1..] == row[k + 1..];
  }

  /**
   * The body of blink's inner loop: the stone at j is replaced by what it turns into, and j
   * moves past the replacement (the `j++` after a split skips the second half).
   */
  method BlinkStone(row: seq<int>, j: int) returns (stones: seq<int>, j': int)
    requires 0 <= j < |row|
    ensures stones == row[..j] + Rule(row[j]) + row[j + 1..]
    ensures j' == j + |Rule(row[j])|
  {
    stones := row;
    j' := j;
    var stone := stones[j];
    var magnitude := Ord(stone);
    if stone == 0 {
      stones := stones[j := 1];
    } else if magnitude % 2 == 0 {
      var halfMag := TenToThe(magnitude / 2);
      var stone1 := stone / halfMag;
      var stone2 := stone % halfMag;
      stones := stones[..j + 1] + stones[j..];
      stones := stones[j := stone1][j + 1 := stone2];
      j' := j' + 1;
    } else {
      stones := stones[j := stone * 2024];
    }
    j' := j' + 1;
  }

  // ---------------------------------------------------------------------------------------
  // Part 2: counts per number
  // ---------------------------------------------------------------------------------------

  /** A count map's entry, 0 for a number it does not hold. */
  function Get(m: map<int, int>, key: int): int
  {
    if key in m then m[key] else 0
  }

  /** addToMap: count more stones carrying key; every other entry stays as it was. */
  function AddToMap(m: map<int, int>, key: int, count: int): (r: map<int, int>)
    ensures r.Keys == m.Keys + {key}
    ensures Get(r, key) == Get(m, key) + count
    ensures forall k :: k != key ==> Get(r, k) == Get(m, k)
  {
    m[key := Get(m, key) + count]
  }

  /** The count map m holds, for every number, how often the multiset has it. */
  ghost predicate Describes(m: map<int, int>, stones: multiset<int>)
  {
    forall v :: Get(m, v) == stones[v]
  }

  /** count stones carrying key. */
  function Repeat(key: int, count: nat): (r: seq<int>)
    ensures |r| == count
  {
    seq(count, _ => key)
  }

  lemma RepeatMultiset(key: int, count: nat)
    ensures forall v :: multiset(Repeat(key, count))[v] == if v == key then count else 0
  {
    if count > 0 {
      RepeatMultiset(key, count - 1);
      assert Repeat(key, count) == Repeat(key, count - 1) + [key];
    }
  }

  /** count equal stones blink into count copies of what the rule makes of one. */
  lemma {:induction false} BlinkRepeated(key: int, count: nat)
    ensures forall v :: multiset(BlinkOnce(Repeat(key, count)))[v] == count * multiset(Rule(key))[v]
  {
    if count == 0 {
      assert Repeat(key, 0) == [];
    } else {
      BlinkRepeated(key, count - 1);
      var made := Rule(key);
      assert Repeat(key, count)[..count - 1] == Repeat(key, count - 1);
      assert BlinkOnce(Repeat(key, count)) == BlinkOnce(Repeat(key, count - 1)) + made;
      forall v
        ensures multiset(BlinkOnce(Repeat(key, count)))[v] == count * multiset(made)[v]
      {
        assert (count - 1) * multiset(made)[v] + multiset(made)[v] == count * multiset(made)[v];
      }
    }
  }

  /**
   * Part way through a walk over the entries of m in some order, with entries still to visit:
   * src lists every stone of the numbers visited so far, as often as m counts it.
   */
  ghost predicate Visited(m: map<int, int>, entries: set<(int, int)>, src: seq<int>)
  {
    forall v :: multiset(src)[v] == if v in m && (v, m[v]) !in entries then m[v] else 0
  }

  /** The (number, count) pairs that Go's range over a count map yields, in some order. */
  function Entries(m: map<int, int>): (r: set<(int, int)>)
    ensures forall e :: e in r ==> e.0 in m && m[e.0] == e.1
    ensures forall k :: k in m ==> (k, m[k]) in r
  {
    set k | k in m :: (k, m[k])
  }

  /** Visiting one more key adds its stones. */
  lemma VisitKey(m: map<int, int>, entries: set<(int, int)>, src: seq<int>, key: int, stones: multiset<int>)
    requires Describes(m, stones) && Visited(m, entries, src) && entries <= Entries(m)
    requires key in m && (key, m[key]) in entries
    ensures m[key] >= 0
    ensures Visited(m, entries - {(key, m[key])}, src + Repeat(key, m[key]))
  {
    assert Get(m, key) == stones[key];
    RepeatMultiset(key, m[key]);
  }

  /** After every key is visited, the listed stones are the multiset the map describes. */
  lemma VisitedAll(m: map<int, int>, src: seq<int>, stones: multiset<int>)
    requires Describes(m, stones) && Visited(m, {}, src)
    ensures multiset(src) == stones
  {
    forall v
      ensures multiset(src)[v] == stones[v]
    {
      assert Get(m, v) == stones[v];
    }
  }

  /**
   * The body of blink2's inner loop for one number: count more of each stone that stone turns
   * into, and every other entry as it was.
   */
  method BlinkKey(next: map<int, int>, stone: int, count: int) returns (r: map<int, int>)
    ensures forall v :: Get(r, v) == Get(next, v) + count * multiset(Rule(stone))[v]
  {
    var magnitude := Ord(stone);
    if stone == 0 {
      r := AddToMap(next, 1, count);
      AddedOnce(next, 1, count);
    } else if magnitude % 2 == 0 {
      var halfMag := TenToThe(magnitude / 2);
      var stone1 := stone / halfMag;
      var stone2 := stone % halfMag;
      r := AddToMap(next, stone1, count);
      r := AddToMap(r, stone2, count);
      AddedTwice(next, stone1, stone2, count);
    } else {
      r := AddToMap(next, stone * 2024, count);
      AddedOnce(next, stone * 2024, count);
    }
  }

  lemma AddedOnce(m: map<int, int>, a: int, count: int)
    ensures forall v :: Get(AddToMap(m, a, count), v) == Get(m, v) + count * multiset([a])[v]
  {
    forall v
      ensures Get(AddToMap(m, a, count), v) == Get(m, v) + count * multiset([a])[v]
    {
      if v == a {
        assert multiset([a])[v] == 1;
      } else {
        assert multiset([a])[v] == 0;
      }
    }
  }

  lemma AddedTwice(m: map<int, int>, a: int, b: int, count: int)
    ensures forall v :: Get(AddToMap(AddToMap(m, a, count), b, count), v) == Get(m, v) + count * multiset([a, b])[v]
  {
    forall v
      ensures Get(AddToMap(AddToMap(m, a, count), b, count), v) == Get(m, v) + count * multiset([a, b])[v]
    {
      var k := multiset([a, b])[v];
      assert k == (if v == a then 1 else 0) + (if v == b then 1 else 0);
      assert count * k == (if v == a then count else 0) + (if v == b then count else 0);
    }
  }

  /** The counts of the next row grow by the blink of one more number's stones. */
  lemma CountsStep(next: map<int, int>, r: map<int, int>, src: seq<int>, stone: int, count: nat)
    requires Describes(next, multiset(BlinkOnce(src)))
    requires forall v :: Get(r, v) == Get(next, v) + count * multiset(Rule(stone))[v]
    ensures Describes(r, multiset(BlinkOnce(src + Repeat(stone, count))))
  {
    BlinkRepeated(stone, count);
    BlinkOnceAppend(src, Repeat(stone, count));
  }

  /**
   * One blink of blink2: visits the numbers of stoneMap in any order (Go's map order) and
   * builds the counts of the next row.
   */
  method BlinkCounts(stoneMap: map<int, int>, ghost row: seq<int>) returns (nextStoneMap: map<int, int>)
    requires Describes(stoneMap, multiset(row))
    ensures Describes(nextStoneMap, multiset(BlinkOnce(row)))
  {
    nextStoneMap := map[];
    var entries := Entries(stoneMap);
    ghost var src: seq<int> := [];
    while entries != {}
      invariant entries <= Entries(stoneMap)
      invariant Visited(stoneMap, entries, src)
      invariant Describes(nextStoneMap, multiset(BlinkOnce(src)))
      decreases |entries|
    {
      var entry :| entry in entries;
      var (stone, count) := entry;
      VisitKey(stoneMap, entries, src, stone, multiset(row));
      var r := BlinkKey(nextStoneMap, stone, count);
      CountsStep(nextStoneMap, r, src, stone, count);
      nextStoneMap := r;
      src := src + Repeat(stone, count);
      entries := entries - {entry};
    }
    VisitedAll(stoneMap, src, multiset(row));
    BlinkOncePermutation(src, row);
  }

  /** The counts of a row, built with addToMap one stone at a time. */
  method CountStones(stones: seq<int>) returns (stoneMap: map<int, int>)
    ensures Describes(stoneMap, multiset(stones))
  {
    stoneMap := map[];
    for i := 0 to |stones|
      invariant Describes(stoneMap, multiset(stones[..i]))
    {
      assert stones[..i + 1] == stones[..i] + [stones[i]];
      stoneMap := AddToMap(stoneMap, stones[i], 1);
    }
    assert stones[..|stones|] == stones;
  }

  /** The sum of the counts of a map, in any order: the size of the multiset it describes. */
  method SumCounts(stoneMap: map<int, int>, ghost stones: multiset<int>) returns (sum: int)
    requires Describes(stoneMap, stones)
    ensures sum == |stones|
  {
    sum := 0;
    var entries := Entries(stoneMap);
    ghost var src: seq<int> := [];
    while entries != {}
      invariant entries <= Entries(stoneMap)
      invariant Visited(stoneMap, entries, src)
      invariant sum == |src|
      decreases |entries|
    {
      var entry :| entry in entries;
      var (stone, count) := entry;
      VisitKey(stoneMap, entries, src, stone, stones);
      sum := sum + count;
      src := src + Repeat(stone, count);
      entries := entries - {entry};
    }
    VisitedAll(stoneMap, src, stones);
  }

  /**
   * blink2: the same n blinks on counts per number instead of the row. It ends with exactly as
   * many stones as blink does.
   */
  method Blink2(initial: seq<int>, n: int) returns (sum: int)
    ensures sum == |Blinks(initial, n)|
  {
    var stoneMap := CountStones(initial);
    stoneMap := BlinkCountsTimes(stoneMap, initial, n);
    sum := SumCounts(stoneMap, multiset(Blinks(initial, n)));
    assert |multiset(Blinks(initial, n))| == |Blinks(initial, n)|;
  }

  /** The blinking loop of blink2: n blinks of a count map that describes a row. */
  method BlinkCountsTimes(counts: map<int, int>, ghost initial: seq<int>, n: int) returns (stoneMap: map<int, int>)
    requires Describes(counts, multiset(initial))
    ensures Describes(stoneMap, multiset(Blinks(initial, n)))
  {
    stoneMap := counts;
    if n <= 0 {
      return;
    }
    ghost var row := initial;
    for i := 0 to n
      invariant row == Blinks(initial, i)
      invariant Describes(stoneMap, multiset(row))
    {
      stoneMap := BlinkCounts(stoneMap, row);
      BlinksNext(initial, i);
      row := BlinkOnce(row);
    }
  }
}

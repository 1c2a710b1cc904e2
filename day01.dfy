/**
 * Day 1: two columns of location IDs.
 * Part 1 pairs the i-th smallest left value with the i-th smallest right value and sums the
 * distances; part 2 weighs every left value by how often it occurs in the right column.
 * Each input line is given already split into its two integers.
 */
module Day01 {

  /** One entry of an input line: the right one when `right` holds, else the left one. */
  function Entry(line: (int, int), right: bool): int
  {
    if right then line.1 else line.0
  }

  /** A column of the input lines: Column(lines, false) is the left list, Column(lines, true) the right. */
  function Column(lines: seq<(int, int)>, right: bool): (r: seq<int>)
    ensures |r| == |lines| && forall i :: 0 <= i < |lines| ==> r[i] == Entry(lines[i], right)
  {
    seq(|lines|, i requires 0 <= i < |lines| => Entry(lines[i], right))
  }

  // ---------------------------------------------------------------------------------------
  // Sorting (slices.Sort is library code; it is modelled by this insertion sort)
  // ---------------------------------------------------------------------------------------

  predicate Sorted(s: seq<int>)
  {
    forall i, j :: 0 <= i < j < |s| ==> s[i] <= s[j]
  }

  function Insert(x: int, s: seq<int>): (r: seq<int>)
    requires Sorted(s)
    ensures Sorted(r) && multiset(r) == multiset(s) + multiset{x} && |r| == |s| + 1
  {
    if s == [] || x <= s[0] then
      InsertFront(x, s);
      [x] + s
    else
      var t := s[1..];
      assert s == [s[0]] + t;
      var r := Insert(x, t);
      HeadBelow(s[0], x, t, r);
      [s[0]] + r
  }

  lemma InsertFront(x: int, s: seq<int>)
    requires Sorted(s) && (s == [] || x <= s[0])
    ensures Sorted([x] + s)
  {
    forall i, j | 0 <= i < j < |[x] + s|
      ensures ([x] + s)[i] <= ([x] + s)[j]
    {
      assert ([x] + s)[j] == s[j - 1];
      if i > 0 {
        assert ([x] + s)[i] == s[i - 1];
      }
    }
  }

  /** h, below every element of t and below x, stays below t with x inserted. */
  lemma HeadBelow(h: int, x: int, t: seq<int>, r: seq<int>)
    requires Sorted([h] + t) && Sorted(r) && multiset(r) == multiset(t) + multiset{x} && h < x
    ensures Sorted([h] + r)
  {
    forall i, j | 0 <= i < j < |[h] + r|
      ensures ([h] + r)[i] <= ([h] + r)[j]
    {
      var y := r[j - 1];
      assert ([h] + r)[j] == y;
      if i == 0 {
        assert ([h] + r)[0] == h;
        assert y in multiset(r);
        if y != x {
          assert y in multiset(t);
          var k :| 0 <= k < |t| && t[k] == y;
          assert ([h] + t)[0] == h && ([h] + t)[k + 1] == y;
        }
      } else {
        assert ([h] + r)[i] == r[i - 1];
      }
    }
  }

  /** The ascending ordering of `s` that slices.Sort leaves in place. */
  function Sort(s: seq<int>): (r: seq<int>)
    ensures Sorted(r) && multiset(r) == multiset(s) && |r| == |s|
  {
    if s == [] then []
    else
      assert s == s[..|s| - 1] + [s[|s| - 1]];
      Insert(s[|s| - 1], Sort(s[..|s| - 1]))
  }

  /** Two sorted sequences holding the same multiset are equal: sorting forgets the order. */
  lemma {:induction false} SortedUnique(a: seq<int>, b: seq<int>)
    requires Sorted(a) && Sorted(b) && multiset(a) == multiset(b)
    ensures a == b
  {
    assert |a| == |multiset(a)| == |multiset(b)| == |b|;
    if a != [] {
      SameHeads(a, b);
      SortedUnique(a[1..], b[1..]);
      assert a == [a[0]] + a[1..] && b == [b[0]] + b[1..];
    }
  }

  /** Two non-empty sorted sequences with one multiset start alike and go on alike. */
  lemma SameHeads(a: seq<int>, b: seq<int>)
    requires Sorted(a) && Sorted(b) && multiset(a) == multiset(b) && |a| > 0 && |b| > 0
    ensures a[0] == b[0] && Sorted(a[1..]) && Sorted(b[1..]) && multiset(a[1..]) == multiset(b[1..])
  {
    assert a[0] in multiset(a) && b[0] in multiset(b);
    HeadIsLeast(a, b[0]);
    HeadIsLeast(b, a[0]);
    SortedTail(a);
    SortedTail(b);
  }

  /** The tail of a non-empty sorted sequence is sorted and holds all but its head. */
  lemma SortedTail(s: seq<int>)
    requires Sorted(s) && |s| > 0
    ensures Sorted(s[1..]) && multiset(s[1..]) == multiset(s) - multiset{s[0]}
  {
    assert s == [s[0]] + s[1..];
  }

  /** The head of a sorted sequence is at most each of its elements. */
  lemma HeadIsLeast(s: seq<int>, x: int)
    requires Sorted(s) && x in multiset(s)
    ensures s[0] <= x
  {
    assert x in s;
  }

  /** The result of sorting depends only on the multiset of the input. */
  lemma SortDependsOnlyOnMultiset(s: seq<int>, t: seq<int>)
    requires multiset(s) == multiset(t)
    ensures Sort(s) == Sort(t)
  {
    SortedUnique(Sort(s), Sort(t));
  }

  /** Sorting an array in place, as slices.Sort does. */
  method SortInPlace(a: array<int>)
    modifies a
    ensures a[..] == Sort(old(a[..]))
  {
    var sorted := Sort(a[..]);
    forall i | 0 <= i < a.Length {
      a[i] := sorted[i];
    }
  }

  // ---------------------------------------------------------------------------------------
  // Part 1: total distance between the sorted columns
  // ---------------------------------------------------------------------------------------

  function Distance(a: int, b: int): (r: nat)
    ensures r == a - b || r == b - a
  {
    if b > a then b - a else a - b
  }

  /** The sum of |xs[i] - ys[i]| over all positions. */
  function DistanceSum(xs: seq<int>, ys: seq<int>): (r: int)
    requires |xs| == |ys|
    ensures r >= 0
    ensures xs == ys ==> r == 0
  {
    if xs == [] then 0
    else DistanceSum(xs[..|xs| - 1], ys[..|ys| - 1]) + Distance(xs[|xs| - 1], ys[|ys| - 1])
  }

  /** What part 1 answers: the distances between the columns after sorting each of them. */
  function TotalDistance(lines: seq<(int, int)>): int
  {
    DistanceSum(Sort(Column(lines, false)), Sort(Column(lines, true)))
  }

  /** The first loop of sumSortedPairs: the two columns copied into fresh arrays. */
  method ReadColumns(lines: seq<(int, int)>) returns (list1: array<int>, list2: array<int>)
    ensures fresh(list1) && fresh(list2)
    ensures list1[..] == Column(lines, false) && list2[..] == Column(lines, true)
  {
    list1 := new int[|lines|];
    list2 := new int[|lines|];
    for i := 0 to |lines|
      invariant forall k :: 0 <= k < i ==> list1[k] == lines[k].0 && list2[k] == lines[k].1
    {
      list1[i] := lines[i].0;
      list2[i] := lines[i].1;
    }
  }

  /** The last loop of sumSortedPairs: pairwise distances of two equally long arrays. */
  method SumDistances(list1: array<int>, list2: array<int>) returns (sum: int)
    requires list1.Length == list2.Length
    ensures sum == DistanceSum(list1[..], list2[..])
  {
    sum := 0;
    for i := 0 to list1.Length
      invariant sum == DistanceSum(list1[..i], list2[..i])
    {
      var v1 := list1[i];
      var v2 := list2[i];
      assert list1[..i + 1][..i] == list1[..i] && list2[..i + 1][..i] == list2[..i];
      if v2 > v1 {
        sum := sum + (v2 - v1);
      } else {
        sum := sum + (v1 - v2);
      }
    }
    assert list1[..list1.Length] == list1[..] && list2[..list2.Length] == list2[..];
  }

  method SumSortedPairs(lines: seq<(int, int)>) returns (sum: int)
    ensures sum == TotalDistance(lines)
  {
    var list1, list2 := ReadColumns(lines);
    SortInPlace(list1);
    SortInPlace(list2);
    sum := SumDistances(list1, list2);
  }

  /** Part 1 depends only on the multiset of each column: reordering lines changes nothing. */
  lemma TotalDistanceDependsOnlyOnMultisets(lines1: seq<(int, int)>, lines2: seq<(int, int)>)
    requires multiset(Column(lines1, false)) == multiset(Column(lines2, false))
    requires multiset(Column(lines1, true)) == multiset(Column(lines2, true))
    ensures TotalDistance(lines1) == TotalDistance(lines2)
  {
    SortDependsOnlyOnMultiset(Column(lines1, false), Column(lines2, false));
    SortDependsOnlyOnMultiset(Column(lines1, true), Column(lines2, true));
  }

  /** Permuting the input lines leaves part 1 unchanged. */
  lemma TotalDistanceIgnoresLineOrder(lines1: seq<(int, int)>, lines2: seq<(int, int)>)
    requires multiset(lines1) == multiset(lines2)
    ensures TotalDistance(lines1) == TotalDistance(lines2)
  {
    ColumnOfPermutation(lines1, lines2, false);
    ColumnOfPermutation(lines1, lines2, true);
    TotalDistanceDependsOnlyOnMultisets(lines1, lines2);
  }

  /** Permuted lines give permuted columns. */
  lemma {:induction false} ColumnOfPermutation(lines1: seq<(int, int)>, lines2: seq<(int, int)>, right: bool)
    requires multiset(lines1) == multiset(lines2)
    ensures multiset(Column(lines1, right)) == multiset(Column(lines2, right))
    decreases |lines1|
  {
    if lines1 == [] {
      assert |lines2| == |multiset(lines2)| == 0;
    } else {
      var n := |lines1| - 1;
      assert lines1[n] in multiset(lines2);
      var k :| 0 <= k < |lines2| && lines2[k] == lines1[n];
      MultisetRemove(lines1, n);
      MultisetRemove(lines2, k);
      ColumnOfPermutation(lines1[..n] + lines1[n + 1..], lines2[..k] + lines2[k + 1..], right);
      ColumnRemove(lines1, n, right);
      ColumnRemove(lines2, k, right);
    }
  }

  /** Removing line k from the input removes its entry from the column's multiset. */
  lemma ColumnRemove(lines: seq<(int, int)>, k: int, right: bool)
    requires 0 <= k < |lines|
    ensures multiset(Column(lines, right))
         == multiset(Column(lines[..k] + lines[k + 1..], right)) + multiset{Entry(lines[k], right)}
  {
    var c := Column(lines, right);
    assert Column(lines[..k] + lines[k + 1..], right) == c[..k] + c[k + 1..];
    MultisetRemove(c, k);
  }

  /** Removing the element at index k removes one occurrence of it from the multiset. */
  lemma MultisetRemove<T>(s: seq<T>, k: int)
    requires 0 <= k < |s|
    ensures multiset(s[..k] + s[k + 1..]) == multiset(s) - multiset{s[k]}
  {
    assert s == s[..k] + [s[k]] + s[k + 1..];
  }

  lemma ColumnConcat(a: seq<(int, int)>, b: seq<(int, int)>, right: bool)
    ensures Column(a + b, right) == Column(a, right) + Column(b, right)
  {
  }

  /** When both columns hold the same multiset, sorting makes them equal and part 1 is 0. */
  lemma SameMultisetsGiveZero(lines: seq<(int, int)>)
    requires multiset(Column(lines, false)) == multiset(Column(lines, true))
    ensures TotalDistance(lines) == 0
  {
    SortDependsOnlyOnMultiset(Column(lines, false), Column(lines, true));
  }

  // ---------------------------------------------------------------------------------------
  // Part 2: similarity score
  // ---------------------------------------------------------------------------------------

  /** Sum over the left values v of v times the number of times v occurs on the right. */
  function Similarity(lefts: seq<int>, rights: seq<int>): int
  {
    if lefts == [] then 0
    else
      var v := lefts[|lefts| - 1];
      Similarity(lefts[..|lefts| - 1], rights) + v * multiset(rights)[v]
  }

  /** seen maps exactly the values of s, each to the number of times it occurs in s. */
  ghost predicate Counts(seen: map<int, int>, s: seq<int>)
  {
    (forall v :: v in seen <==> v in multiset(s))
    && forall v :: v in seen ==> seen[v] == multiset(s)[v]
  }

  /** Counting one more value keeps the map in step with the values counted. */
  lemma CountOne(seen: map<int, int>, s: seq<int>, x: int)
    requires Counts(seen, s)
    ensures Counts(seen[x := (if x in seen then seen[x] else 0) + 1], s + [x])
  {
    assert multiset(s + [x]) == multiset(s) + multiset{x};
  }

  method ComputeSimilarityScore(lines: seq<(int, int)>) returns (sum: int)
    ensures sum == Similarity(Column(lines, false), Column(lines, true))
  {
    var list1 := new int[|lines|];
    var seen: map<int, int> := map[];
    ghost var rights := Column(lines, true);

    for i := 0 to |lines|
      invariant forall k :: 0 <= k < i ==> list1[k] == lines[k].0
      invariant Counts(seen, rights[..i]) == true
    {
      list1[i] := lines[i].0;
      var val2 := lines[i].1;
      CountOne(seen, rights[..i], val2);
      assert rights[..i + 1] == rights[..i] + [val2];
      if val2 !in seen {
        seen := seen[val2 := 0];
      }
      seen := seen[val2 := seen[val2] + 1];
    }
    assert rights[..|lines|] == rights;
    assert list1[..] == Column(lines, false);
    sum := WeighByCounts(list1, seen, rights);
  }

  /** The last loop of computeSimilarityScore: each left value times its count on the right. */
  method WeighByCounts(list1: array<int>, seen: map<int, int>, ghost rights: seq<int>) returns (sum: int)
    requires Counts(seen, rights)
    ensures sum == Similarity(list1[..], rights)
  {
    sum := 0;
    for i := 0 to list1.Length
      invariant sum == Similarity(list1[..i], rights)
    {
      var val := list1[i];
      assert list1[..i + 1][..i] == list1[..i];
      if val in seen {
        sum := sum + val * seen[val];
      }
    }
    assert list1[..list1.Length] == list1[..];
  }

  /** A left value that never occurs on the right adds nothing to the score. */
  lemma {:induction false} AbsentValuesAddNothing(lefts: seq<int>, rights: seq<int>, v: int)
    requires v !in rights
    ensures Similarity(lefts + [v], rights) == Similarity(lefts, rights)
  {
    assert (lefts + [v])[..|lefts|] == lefts;
    assert multiset(rights)[v] == 0;
  }

  /** The score depends only on the multiset of the left column. */
  lemma {:induction false} SimilarityIgnoresLeftOrder(l1: seq<int>, l2: seq<int>, rights: seq<int>)
    requires multiset(l1) == multiset(l2)
    ensures Similarity(l1, rights) == Similarity(l2, rights)
    decreases |l1|
  {
    if l1 == [] {
      assert |l2| == |multiset(l2)| == 0;
    } else {
      var n := |l1| - 1;
      var v := l1[n];
      assert v in multiset(l2);
      var k :| 0 <= k < |l2| && l2[k] == v;
      var rest := l2[..k] + l2[k + 1..];
      assert l1 == l1[..n] + [v];
      assert l2 == l2[..k] + [v] + l2[k + 1..];
      assert multiset(l2) == multiset(l2[..k]) + multiset{v} + multiset(l2[k + 1..]);
      assert multiset(l1) == multiset(l1[..n]) + multiset{v};
      assert multiset(rest) == multiset(l2[..k]) + multiset(l2[k + 1..]);
      assert multiset(l1[..n]) == multiset(l1) - multiset{v};
      assert multiset(rest) == multiset(l2) - multiset{v};
      SimilarityIgnoresLeftOrder(l1[..n], rest, rights);
      SimilarityMoveToEnd(l2[..k], v, l2[k + 1..], rights);
    }
  }

  lemma {:induction false} SimilarityMoveToEnd(a: seq<int>, v: int, b: seq<int>, rights: seq<int>)
    ensures Similarity(a + [v] + b, rights) == Similarity(a + b, rights) + v * multiset(rights)[v]
    decreases |b|
  {
    if b == [] {
      assert a + [v] + b == a + [v];
      assert (a + [v])[..|a|] == a;
      assert a + b == a;
    } else {
      var n := |b| - 1;
      assert (a + [v] + b)[..|a + [v] + b| - 1] == a + [v] + b[..n];
      assert (a + b)[..|a + b| - 1] == a + b[..n];
      SimilarityMoveToEnd(a, v, b[..n], rights);
    }
  }
}

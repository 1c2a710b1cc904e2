/**
 * Day 5: page ordering rules "a|b" (a must be printed before b) and updates (lists of pages).
 * Correct updates contribute their middle page; incorrect ones are repaired by repeated swaps
 * and contribute the middle page of the repaired order.
 * Rules are given as parsed pairs (a, b) and updates as parsed page lists.
 */
module Day05 {
  import opened Common

  /** The pages that rules name as required before page b, in rule order. */
  function RequiredBefore(rules: seq<(int, int)>, b: int): (r: seq<int>)
  {
    if rules == [] then []
    else
      var last := rules[|rules| - 1];
      RequiredBefore(rules[..|rules| - 1], b) + (if last.1 == b then [last.0] else [])
  }

  /** a is listed before b exactly when some rule says "a|b". */
  lemma {:induction false} RequiredBeforeMeans(rules: seq<(int, int)>, a: int, b: int)
    ensures a in RequiredBefore(rules, b) <==> (a, b) in rules
  {
    if rules != [] {
      RequiredBeforeMeans(rules[..|rules| - 1], a, b);
      assert rules == rules[..|rules| - 1] + [rules[|rules| - 1]];
    }
  }

  /** Every rule adds exactly one entry to the list of its second page. */
  lemma {:induction false} RequiredBeforeLength(rules: seq<(int, int)>, b: int)
    ensures |RequiredBefore(rules, b)| == |set i | 0 <= i < |rules| && rules[i].1 == b|
  {
    if rules != [] {
      var n := |rules| - 1;
      RequiredBeforeLength(rules[..n], b);
      var before := set i | 0 <= i < n && rules[..n][i].1 == b;
      var now := set i | 0 <= i < |rules| && rules[i].1 == b;
      if rules[n].1 == b {
        assert now == before + {n};
      } else {
        assert now == before;
      }
    }
  }

  /** The prerequisite map: b is a key iff some rule ends in b, and maps to RequiredBefore(rules, b). */
  method ComputePrerequisitePages(rules: seq<(int, int)>) returns (prereqs: map<int, seq<int>>)
    ensures forall b :: b in prereqs <==> exists i :: 0 <= i < |rules| && rules[i].1 == b
    ensures forall b :: b in prereqs ==> prereqs[b] == RequiredBefore(rules, b)
  {
    prereqs := map[];
    for k := 0 to |rules|
      invariant forall b :: b in prereqs <==> exists i :: 0 <= i < k && rules[i].1 == b
      invariant forall b :: b in prereqs ==> prereqs[b] == RequiredBefore(rules[..k], b)
      invariant forall b :: b !in prereqs ==> RequiredBefore(rules[..k], b) == []
    {
      assert rules[..k + 1][..k] == rules[..k];
      var requiredPage, page := rules[k].0, rules[k].1;
      if page !in prereqs {
        prereqs := prereqs[page := []];
      }
      prereqs := prereqs[page := prereqs[page] + [requiredPage]];
    }
    assert rules[..|rules|] == rules;
  }

  // ---------------------------------------------------------------------------------------
  // Checking an update
  // ---------------------------------------------------------------------------------------

  /** No page has one of its listed prerequisites at the same or a later index. */
  predicate IsCorrect(pages: seq<int>, tree: map<int, seq<int>>)
  {
    forall i, j :: 0 <= i <= j < |pages| && pages[i] in tree ==> pages[j] !in tree[pages[i]]
  }

  predicate Distinct(pages: seq<int>)
  {
    forall i, j :: 0 <= i < j < |pages| ==> pages[i] != pages[j]
  }

  /** orderMap maps exactly the pages of the update to an index holding that page. */
  ghost predicate IndexesPages(orderMap: map<int, int>, pages: seq<int>)
  {
    (forall p :: p in orderMap <==> p in pages) &&
    (forall p :: p in orderMap ==> 0 <= orderMap[p] < |pages| && pages[orderMap[p]] == p)
  }

  /** For a page of the update, orderMap names its last index, as the building loop leaves it. */
  ghost predicate IndexesLast(orderMap: map<int, int>, pages: seq<int>)
  {
    IndexesPages(orderMap, pages) &&
    forall p, j :: p in orderMap && orderMap[p] < j < |pages| ==> pages[j] != p
  }

  function Middle(pages: seq<int>): int
    requires |pages| >= 1
  {
    pages[|pages| / 2]
  }

  /** The loop of computeUpdates that records each page's index; a later duplicate overwrites. */
  method BuildOrderMap(update: seq<int>) returns (pages: array<int>, orderMap: map<int, int>)
    ensures fresh(pages) && pages[..] == update
    ensures IndexesLast(orderMap, update)
  {
    pages := new int[|update|];
    orderMap := map[];
    for i := 0 to |update|
      invariant pages[..i] == update[..i]
      invariant IndexesLast(orderMap, update[..i])
    {
      pages[i] := update[i];
      orderMap := orderMap[update[i] := i];
      assert update[..i + 1] == update[..i] + [update[i]];
    }
    assert update[..|update|] == update;
  }

  /** The check loop of computeUpdates: it stops at the first prerequisite found at or after i. */
  method CheckUpdate(pages: array<int>, orderMap: map<int, int>, tree: map<int, seq<int>>)
    returns (isCorrect: bool)
    requires IndexesLast(orderMap, pages[..])
    ensures isCorrect == IsCorrect(pages[..], tree)
  {
    isCorrect := true;
    for i := 0 to pages.Length
      invariant isCorrect == NoViolationBefore(pages[..], tree, i)
    {
      var pageNum := pages[i];
      if pageNum in tree {
        var prereqs := tree[pageNum];
        for k := 0 to |prereqs|
          invariant isCorrect == NoViolationBefore(pages[..], tree, i)
          invariant forall m :: 0 <= m < k ==> !LaterOrSame(pages[..], prereqs[m], i)
        {
          var reqPage := prereqs[k];
          if reqPage in orderMap && orderMap[reqPage] >= i {
            assert pages[orderMap[reqPage]] == reqPage;
            isCorrect := false;
            break;
          }
          assert !LaterOrSame(pages[..], reqPage, i);
        }
      }
      if !isCorrect {
        break;
      }
    }
  }

  /** Page p occurs at index i or later. */
  ghost predicate LaterOrSame(pages: seq<int>, p: int, i: int)
  {
    exists j :: 0 <= i <= j < |pages| && pages[j] == p
  }

  /** No page before index i has a listed prerequisite at or after its own index. */
  ghost predicate NoViolationBefore(pages: seq<int>, tree: map<int, seq<int>>, n: int)
  {
    forall i, j :: 0 <= i < n && i <= j < |pages| && pages[i] in tree ==> pages[j] !in tree[pages[i]]
  }

  // ---------------------------------------------------------------------------------------
  // Repairing an incorrect update
  // ---------------------------------------------------------------------------------------

  /** The check of one pass at index i passes: every listed prerequisite of pages[i] is recorded before i. */
  ghost predicate CleanAt(pages: seq<int>, orderMap: map<int, int>, tree: map<int, seq<int>>, i: int)
    requires 0 <= i < |pages|
  {
    pages[i] in tree ==>
      forall m :: 0 <= m < |tree[pages[i]]| && tree[pages[i]][m] in orderMap ==> orderMap[tree[pages[i]][m]] < i
  }

  /** A whole pass finds no violation. */
  ghost predicate CleanPass(pages: seq<int>, orderMap: map<int, int>, tree: map<int, seq<int>>)
  {
    forall i :: 0 <= i < |pages| ==> CleanAt(pages, orderMap, tree, i)
  }

  /** For distinct pages a clean pass means the update is correct. */
  lemma CleanPassMeansCorrect(pages: seq<int>, orderMap: map<int, int>, tree: map<int, seq<int>>)
    requires IndexesPages(orderMap, pages) && Distinct(pages) && CleanPass(pages, orderMap, tree)
    ensures IsCorrect(pages, tree)
  {
    forall i, j | 0 <= i <= j < |pages| && pages[i] in tree
      ensures pages[j] !in tree[pages[i]]
    {
      assert CleanAt(pages, orderMap, tree, i);
      assert pages[orderMap[pages[j]]] == pages[j];
      assert orderMap[pages[j]] == j;
      forall m | 0 <= m < |tree[pages[i]]|
        ensures tree[pages[i]][m] != pages[j]
      {
      }
    }
  }

  /** The swap of the repair loop, with the two orderMap updates, keeps orderMap indexing the pages. */
  lemma SwapKeepsIndex(orderMap: map<int, int>, pages: seq<int>, i: int, reqPage: int)
    requires IndexesPages(orderMap, pages) && 0 <= i < |pages| && reqPage in orderMap
    ensures var idx := orderMap[reqPage];
      IndexesPages(orderMap[pages[i] := idx][reqPage := i], pages[i := pages[idx]][idx := pages[i]])
  {
    var idx := orderMap[reqPage];
    var swapped := pages[i := pages[idx]][idx := pages[i]];
    assert multiset(swapped) == multiset(pages) by {
      SwapMultiset(pages, i, idx);
    }
    forall p
      ensures p in swapped <==> p in pages
    {
      assert p in swapped <==> p in multiset(swapped);
    }
  }

  lemma SwapMultiset(s: seq<int>, i: int, j: int)
    requires 0 <= i < |s| && 0 <= j < |s|
    ensures multiset(s[i := s[j]][j := s[i]]) == multiset(s)
  {
    if i != j {
      var t := s[i := s[j]];
      assert multiset(t) == multiset(s) - multiset{s[i]} + multiset{s[j]};
      assert multiset(t[j := s[i]]) == multiset(t) - multiset{t[j]} + multiset{s[i]};
    }
  }

  /**
   * fixInvalidUpdate: passes over the update, swapping a page with the first listed prerequisite
   * found at or after it, until a pass finds nothing. Cyclic rules make it loop forever, so at most
   * `fuel` passes are made and None reports that they did not suffice.
   */
  method FixInvalidUpdate(pages: array<int>, orderMap: map<int, int>, tree: map<int, seq<int>>, fuel: nat)
    returns (r: Option<int>)
    requires pages.Length >= 1 && IndexesPages(orderMap, pages[..])
    modifies pages
    ensures multiset(pages[..]) == multiset(old(pages[..]))
    ensures r.Some? ==> r.value == Middle(pages[..])
    ensures r.Some? && Distinct(old(pages[..])) ==> IsCorrect(pages[..], tree)
  {
    var om := orderMap;
    var noErrors := false;
    var passes := 0;
    while !noErrors
      invariant passes <= fuel
      invariant multiset(pages[..]) == multiset(old(pages[..]))
      invariant IndexesPages(om, pages[..])
      invariant noErrors ==> CleanPass(pages[..], om, tree)
      decreases fuel - passes, !noErrors
    {
      if passes == fuel {
        return None;
      }
      passes := passes + 1;
      var foundError := false;
      for i := 0 to pages.Length
        invariant multiset(pages[..]) == multiset(old(pages[..]))
        invariant IndexesPages(om, pages[..])
        invariant !foundError ==> forall i' :: 0 <= i' < i ==> CleanAt(pages[..], om, tree, i')
      {
        var pageNum := pages[i];
        if pageNum in tree {
          var prereqs := tree[pageNum];
          for k := 0 to |prereqs|
            invariant pages[i] == pageNum
            invariant multiset(pages[..]) == multiset(old(pages[..]))
            invariant IndexesPages(om, pages[..])
            invariant !foundError ==> forall i' :: 0 <= i' < i ==> CleanAt(pages[..], om, tree, i')
            invariant forall m :: 0 <= m < k && prereqs[m] in om ==> om[prereqs[m]] < i
          {
            var reqPage := prereqs[k];
            if reqPage in om && om[reqPage] >= i {
              foundError := true;
              var idx := om[reqPage];
              SwapKeepsIndex(om, pages[..], i, reqPage);
              Swap(pages, i, idx);
              om := om[pageNum := idx][reqPage := i];
              break;
            }
          }
        }
      }
      if !foundError {
        noErrors := true;
      }
    }
    ghost var fin := pages[..];
    assert forall i :: 0 <= i < |fin| ==> pages[i] == fin[i];
    if Distinct(old(pages[..])) {
      DistinctOfPermutation(old(pages[..]), fin);
      CleanPassMeansCorrect(fin, om, tree);
    }
    r := Some(pages[pages.Length / 2]);
  }

  /** One swap of the repair loop: the two entries trade places and the multiset is unchanged. */
  method Swap(pages: array<int>, i: int, j: int)
    requires 0 <= i < pages.Length && 0 <= j < pages.Length
    modifies pages
    ensures pages[..] == old(pages[..])[i := old(pages[j])][j := old(pages[i])]
    ensures multiset(pages[..]) == multiset(old(pages[..]))
  {
    pages[i], pages[j] := pages[j], pages[i];
  }

  /** A permutation of distinct pages has distinct pages. */
  lemma DistinctOfPermutation(a: seq<int>, b: seq<int>)
    requires Distinct(a) && multiset(a) == multiset(b)
    ensures Distinct(b)
  {
    forall i, j | 0 <= i < j < |b|
      ensures b[i] != b[j]
    {
      if b[i] == b[j] {
        assert multiset(b)[b[i]] >= 2 by {
          assert b == b[..i] + [b[i]] + b[i + 1..j] + [b[j]] + b[j + 1..];
        }
        DistinctCountsOnce(a, b[i]);
      }
    }
  }

  lemma {:induction false} DistinctCountsOnce(a: seq<int>, v: int)
    requires Distinct(a)
    ensures multiset(a)[v] <= 1
  {
    if a != [] {
      var n := |a| - 1;
      assert a == a[..n] + [a[n]];
      DistinctCountsOnce(a[..n], v);
      if a[n] == v {
        assert v !in a[..n];
      }
    }
  }

  // ---------------------------------------------------------------------------------------
  // Summing over the updates
  // ---------------------------------------------------------------------------------------

  /** Every update has at least one page: splitting even an empty line yields one field. */
  predicate NonEmpty(updates: seq<seq<int>>)
  {
    forall k :: 0 <= k < |updates| ==> |updates[k]| >= 1
  }

  /** The sum of the middle pages of the correct updates. */
  function CorrectSum(updates: seq<seq<int>>, tree: map<int, seq<int>>): int
    requires NonEmpty(updates)
  {
    if updates == [] then 0
    else
      var last := updates[|updates| - 1];
      CorrectSum(updates[..|updates| - 1], tree) + (if IsCorrect(last, tree) then Middle(last) else 0)
  }

  /** The incorrect updates, in input order. */
  function Incorrect(updates: seq<seq<int>>, tree: map<int, seq<int>>): (r: seq<seq<int>>)
    ensures forall k :: 0 <= k < |r| ==> r[k] in updates && !IsCorrect(r[k], tree)
  {
    if updates == [] then []
    else
      var last := updates[|updates| - 1];
      Incorrect(updates[..|updates| - 1], tree) + (if IsCorrect(last, tree) then [] else [last])
  }

  function SumMiddles(us: seq<seq<int>>): int
    requires NonEmpty(us)
  {
    if us == [] then 0 else SumMiddles(us[..|us| - 1]) + Middle(us[|us| - 1])
  }

  /** `fixed` is a repair of the incorrect updates: each a permutation, correct when its pages are distinct. */
  ghost predicate Repairs(fixed: seq<seq<int>>, incorrect: seq<seq<int>>, tree: map<int, seq<int>>)
  {
    |fixed| == |incorrect| &&
    forall k :: 0 <= k < |fixed| ==>
      |fixed[k]| == |incorrect[k]| && multiset(fixed[k]) == multiset(incorrect[k]) &&
      (Distinct(incorrect[k]) ==> IsCorrect(fixed[k], tree))
  }

  /**
   * computeUpdates: the middle pages of the correct updates, and the middle pages of the repaired
   * incorrect ones (None when some repair needs more than `fuel` passes).
   */
  method ComputeUpdates(updates: seq<seq<int>>, tree: map<int, seq<int>>, fuel: nat)
    returns (correctSum: int, incorrectSum: Option<int>, ghost fixed: seq<seq<int>>)
    requires NonEmpty(updates)
    ensures correctSum == CorrectSum(updates, tree)
    ensures incorrectSum.Some? ==>
      Repairs(fixed, Incorrect(updates, tree), tree) && NonEmpty(fixed) && incorrectSum.value == SumMiddles(fixed)
  {
    correctSum := 0;
    incorrectSum := Some(0);
    fixed := [];
    for u := 0 to |updates|
      invariant correctSum == CorrectSum(updates[..u], tree)
      invariant incorrectSum.Some? ==> Tally(fixed, updates[..u], tree, incorrectSum.value) == true
    {
      assert updates[..u + 1] == updates[..u] + [updates[u]];
      var pages, orderMap := BuildOrderMap(updates[u]);
      var isCorrect := CheckUpdate(pages, orderMap, tree);
      if isCorrect {
        correctSum := correctSum + pages[pages.Length / 2];
        if incorrectSum.Some? {
          TallyCorrect(fixed, updates[..u], updates[u], tree, incorrectSum.value);
        }
      } else {
        var r := FixInvalidUpdate(pages, orderMap, tree, fuel);
        if r.Some? && incorrectSum.Some? {
          TallyRepaired(fixed, updates[..u], updates[u], pages[..], tree, incorrectSum.value);
          fixed := fixed + [pages[..]];
          incorrectSum := Some(incorrectSum.value + r.value);
        } else {
          incorrectSum := None;
        }
      }
    }
    assert updates[..|updates|] == updates;
  }

  /** The repairs of the incorrect updates among `done` so far, and the sum of their middle pages. */
  ghost predicate Tally(fixed: seq<seq<int>>, done: seq<seq<int>>, tree: map<int, seq<int>>, sum: int)
  {
    Repairs(fixed, Incorrect(done, tree), tree) && NonEmpty(fixed) && sum == SumMiddles(fixed)
  }

  /** A correct update leaves the tally of repairs as it was. */
  lemma TallyCorrect(fixed: seq<seq<int>>, done: seq<seq<int>>, update: seq<int>, tree: map<int, seq<int>>, sum: int)
    requires Tally(fixed, done, tree, sum) == true && IsCorrect(update, tree)
    ensures Tally(fixed, done + [update], tree, sum) == true
  {
    assert (done + [update])[..|done|] == done;
  }

  /** Repairing an incorrect update appends the repair and its middle page to the tally. */
  lemma TallyRepaired(fixed: seq<seq<int>>, done: seq<seq<int>>, update: seq<int>, repaired: seq<int>,
                      tree: map<int, seq<int>>, sum: int)
    requires Tally(fixed, done, tree, sum) == true && !IsCorrect(update, tree)
    requires |repaired| >= 1 && multiset(repaired) == multiset(update)
    requires Distinct(update) ==> IsCorrect(repaired, tree)
    ensures Tally(fixed + [repaired], done + [update], tree, sum + Middle(repaired)) == true
  {
    assert (done + [update])[..|done|] == done;
    assert Incorrect(done + [update], tree) == Incorrect(done, tree) + [update];
    RepairsAppend(fixed, Incorrect(done, tree), repaired, update, tree);
    assert (fixed + [repaired])[..|fixed|] == fixed;
  }

  lemma RepairsAppend(fixed: seq<seq<int>>, incorrect: seq<seq<int>>, repaired: seq<int>, update: seq<int>,
                      tree: map<int, seq<int>>)
    requires Repairs(fixed, incorrect, tree) && multiset(repaired) == multiset(update)
    requires Distinct(update) ==> IsCorrect(repaired, tree)
    ensures Repairs(fixed + [repaired], incorrect + [update], tree)
  {
    assert |repaired| == |multiset(repaired)| == |multiset(update)| == |update|;
    forall k | 0 <= k < |fixed| + 1
      ensures |(fixed + [repaired])[k]| == |(incorrect + [update])[k]|
      ensures multiset((fixed + [repaired])[k]) == multiset((incorrect + [update])[k])
      ensures Distinct((incorrect + [update])[k]) ==> IsCorrect((fixed + [repaired])[k], tree)
    {
      if k < |fixed| {
        assert (fixed + [repaired])[k] == fixed[k] && (incorrect + [update])[k] == incorrect[k];
      }
    }
  }

  // ---------------------------------------------------------------------------------------
  // The repaired order is determined when the rules order every pair
  // ---------------------------------------------------------------------------------------

  /** The rules order every pair of distinct pages of the update, one way or the other. */
  predicate TotallyOrdered(pages: seq<int>, tree: map<int, seq<int>>)
  {
    forall i, j :: 0 <= i < |pages| && 0 <= j < |pages| && i != j ==>
      (pages[j] in tree && pages[i] in tree[pages[j]]) || (pages[i] in tree && pages[j] in tree[pages[i]])
  }

  /** In a correct, totally ordered update the first page is required before every other one. */
  lemma FirstRequiredBeforeAll(pages: seq<int>, tree: map<int, seq<int>>)
    requires IsCorrect(pages, tree) && TotallyOrdered(pages, tree)
    ensures forall j :: 0 < j < |pages| ==> pages[j] in tree && pages[0] in tree[pages[j]]
  {
    forall j | 0 < j < |pages|
      ensures pages[j] in tree && pages[0] in tree[pages[j]]
    {
      assert pages[0] in tree ==> pages[j] !in tree[pages[0]];
    }
  }

  /**
   * Two correct orderings of the same distinct pages under rules that order every pair are equal,
   * so the middle page that fixInvalidUpdate returns does not depend on the order of its swaps.
   */
  lemma {:induction false} CorrectOrderIsUnique(a: seq<int>, b: seq<int>, tree: map<int, seq<int>>)
    requires Distinct(a) && multiset(a) == multiset(b)
    requires TotallyOrdered(a, tree) && IsCorrect(a, tree) && IsCorrect(b, tree)
    ensures a == b
    decreases |a|
  {
    assert |a| == |multiset(a)| == |multiset(b)| == |b|;
    if a != [] {
      SameFirstPage(a, b, tree);
      assert a == [a[0]] + a[1..] && b == [b[0]] + b[1..];
      assert multiset(a[1..]) == multiset(a) - multiset{a[0]};
      assert multiset(b[1..]) == multiset(b) - multiset{b[0]};
      TailKeepsOrder(a, tree);
      TailKeepsOrder(b, tree);
      CorrectOrderIsUnique(a[1..], b[1..], tree);
    }
  }

  lemma SameFirstPage(a: seq<int>, b: seq<int>, tree: map<int, seq<int>>)
    requires |a| > 0 && multiset(a) == multiset(b)
    requires TotallyOrdered(a, tree) && IsCorrect(a, tree) && IsCorrect(b, tree)
    ensures |b| > 0 && a[0] == b[0]
  {
    assert |a| == |multiset(a)| == |multiset(b)| == |b|;
    assert a[0] in multiset(b);
    var k :| 0 <= k < |b| && b[k] == a[0];
    assert b[0] in multiset(a);
    var m :| 0 <= m < |a| && a[m] == b[0];
    FirstRequiredBeforeAll(a, tree);
    if m > 0 {
      assert false;
    }
  }

  lemma TailKeepsOrder(a: seq<int>, tree: map<int, seq<int>>)
    requires |a| > 0
    ensures Distinct(a) ==> Distinct(a[1..])
    ensures TotallyOrdered(a, tree) ==> TotallyOrdered(a[1..], tree)
    ensures IsCorrect(a, tree) ==> IsCorrect(a[1..], tree)
  {
    if TotallyOrdered(a, tree) {
      forall i, j | 0 <= i < |a[1..]| && 0 <= j < |a[1..]| && i != j
        ensures (a[1..][j] in tree && a[1..][i] in tree[a[1..][j]]) || (a[1..][i] in tree && a[1..][j] in tree[a[1..][i]])
      {
        assert a[1..][i] == a[i + 1] && a[1..][j] == a[j + 1];
      }
    }
    if IsCorrect(a, tree) {
      forall i, j | 0 <= i <= j < |a[1..]| && a[1..][i] in tree
        ensures a[1..][j] !in tree[a[1..][i]]
      {
        assert a[1..][i] == a[i + 1] && a[1..][j] == a[j + 1];
      }
    }
  }
}

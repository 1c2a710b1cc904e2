/**
 * Day 19: towels carry stripe patterns; a design can be made when it is a concatenation of
 * towel patterns. The towel patterns go into a trie; findAllMatches walks a design down the
 * trie to list the lengths of the towel patterns it starts with; isSubpatternPossible and
 * countSubpatterns recurse on what is left, memoising in a cache. Designs and patterns are
 * byte strings, modelled as sequences of characters.
 */
module Day19 {

  type Word = seq<char>

  // ---------------------------------------------------------------------------------------
  // What the search computes, on the set W of towel patterns
  // ---------------------------------------------------------------------------------------

  /** The lengths k in 1..n, increasing, such that the first k letters of p are a towel pattern. */
  function Matches(W: set<Word>, p: Word, n: nat): seq<int>
    requires n <= |p|
  {
    if n == 0 then [] else Matches(W, p, n - 1) + (if p[..n] in W then [n] else [])
  }

  /** p splits into towel patterns: it is empty, or some towel pattern starts it and the rest splits. */
  predicate Possible(W: set<Word>, p: Word)
    decreases |p|, |p| + 1
  {
    |p| == 0 || PossibleUpTo(W, p, |p|)
  }

  /** Some towel pattern of length 1..n starts p and the rest of p splits. */
  predicate PossibleUpTo(W: set<Word>, p: Word, n: nat)
    requires n <= |p|
    decreases |p|, n
  {
    n > 0 && (PossibleUpTo(W, p, n - 1) || (p[..n] in W && Possible(W, p[n..])))
  }

  /** The number of ways to split p, counted by the length of the first towel pattern. */
  function Ways(W: set<Word>, p: Word): nat
    decreases |p|, |p| + 1
  {
    if |p| == 0 then 1 else WaysUpTo(W, p, |p|)
  }

  /** The splits of p whose first towel pattern has length 1..n. */
  function WaysUpTo(W: set<Word>, p: Word, n: nat): nat
    requires n <= |p|
    decreases |p|, n
  {
    if n == 0 then 0 else WaysUpTo(W, p, n - 1) + (if p[..n] in W then Ways(W, p[n..]) else 0)
  }

  // ---------------------------------------------------------------------------------------
  // Splits as lists of towel patterns
  // ---------------------------------------------------------------------------------------

  function Concat(parts: seq<Word>): Word
  {
    if |parts| == 0 then [] else parts[0] + Concat(parts[1..])
  }

  /** parts is a split of p: non-empty towel patterns whose concatenation is p. */
  predicate IsSplit(W: set<Word>, parts: seq<Word>, p: Word)
  {
    Concat(parts) == p && forall i :: 0 <= i < |parts| ==> parts[i] in W && |parts[i]| > 0
  }

  ghost function Prepend(w: Word, S: set<seq<Word>>): set<seq<Word>>
  {
    set s | s in S :: [w] + s
  }

  /** All splits of p. */
  ghost function Splits(W: set<Word>, p: Word): set<seq<Word>>
    decreases |p|, |p| + 1
  {
    if |p| == 0 then {[]} else SplitsUpTo(W, p, |p|)
  }

  /** The splits of p whose first towel pattern has length 1..n. */
  ghost function SplitsUpTo(W: set<Word>, p: Word, n: nat): set<seq<Word>>
    requires n <= |p|
    decreases |p|, n
  {
    if n == 0 then {} else SplitsUpTo(W, p, n - 1) + (if p[..n] in W then Prepend(p[..n], Splits(W, p[n..])) else {})
  }

  // ---------------------------------------------------------------------------------------
  // Lemmas on the specification
  // ---------------------------------------------------------------------------------------

  /** Matches lists, in increasing order, exactly the lengths of the towel patterns that start p. */
  lemma {:induction false} MatchesSpec(W: set<Word>, p: Word, n: nat)
    requires n <= |p|
    ensures forall k :: k in Matches(W, p, n) <==> 1 <= k <= n && p[..k] in W
    ensures forall i, j :: 0 <= i < j < |Matches(W, p, n)| ==> Matches(W, p, n)[i] < Matches(W, p, n)[j]
  {
    if n > 0 {
      MatchesSpec(W, p, n - 1);
      var m := Matches(W, p, n - 1);
      var r := Matches(W, p, n);
      forall i, j | 0 <= i < j < |r|
        ensures r[i] < r[j]
      {
        assert r[i] == m[i] && m[i] in m;
        if j < |m| {
          assert r[j] == m[j];
        }
      }
    }
  }

  /** A design can be made exactly when it can be made in at least one way. */
  lemma {:induction false} PossibleIffWays(W: set<Word>, p: Word)
    ensures Possible(W, p) <==> Ways(W, p) > 0
    decreases |p|, |p| + 1
  {
    if |p| > 0 {
      PossibleUpToIffWays(W, p, |p|);
    }
  }

  lemma {:induction false} PossibleUpToIffWays(W: set<Word>, p: Word, n: nat)
    requires n <= |p|
    ensures PossibleUpTo(W, p, n) <==> WaysUpTo(W, p, n) > 0
    decreases |p|, n
  {
    if n > 0 {
      PossibleUpToIffWays(W, p, n - 1);
      if p[..n] in W {
        PossibleIffWays(W, p[n..]);
      }
    }
  }

  lemma ConcatPrepend(w: Word, s: seq<Word>)
    ensures Concat([w] + s) == w + Concat(s)
  {
    assert ([w] + s)[1..] == s;
  }

  lemma PrependInjective(w: Word, s: seq<Word>, t: seq<Word>)
    requires [w] + s == [w] + t
    ensures s == t
  {
    assert s == ([w] + s)[1..];
  }

  lemma {:induction false} CardPrepend(w: Word, S: set<seq<Word>>)
    ensures |Prepend(w, S)| == |S|
    decreases |S|
  {
    if S != {} {
      var x :| x in S;
      var rest := S - {x};
      CardPrepend(w, rest);
      assert Prepend(w, S) == Prepend(w, rest) + {[w] + x};
      if [w] + x in Prepend(w, rest) {
        var y :| y in rest && [w] + y == [w] + x;
        PrependInjective(w, y, x);
      }
    }
  }

  /** Every split counted in SplitsUpTo(n) starts with a towel pattern of length 1..n. */
  lemma {:induction false} FirstPartUpTo(W: set<Word>, p: Word, n: nat, s: seq<Word>)
    requires n <= |p| && s in SplitsUpTo(W, p, n)
    ensures |s| > 0 && 1 <= |s[0]| <= n && s[0] == p[..|s[0]|]
    decreases n
  {
    if s !in SplitsUpTo(W, p, n - 1) {
      var t :| t in Splits(W, p[n..]) && s == [p[..n]] + t;
    } else {
      FirstPartUpTo(W, p, n - 1, s);
    }
  }

  /** The splits of p number exactly Ways(p). */
  lemma {:induction false} CountSplits(W: set<Word>, p: Word)
    ensures |Splits(W, p)| == Ways(W, p)
    decreases |p|, |p| + 1
  {
    if |p| > 0 {
      CountSplitsUpTo(W, p, |p|);
    }
  }

  lemma {:induction false} CountSplitsUpTo(W: set<Word>, p: Word, n: nat)
    requires n <= |p|
    ensures |SplitsUpTo(W, p, n)| == WaysUpTo(W, p, n)
    decreases |p|, n
  {
    if n > 0 {
      CountSplitsUpTo(W, p, n - 1);
      if p[..n] in W {
        var old_ := SplitsUpTo(W, p, n - 1);
        var new_ := Prepend(p[..n], Splits(W, p[n..]));
        CountSplits(W, p[n..]);
        CardPrepend(p[..n], Splits(W, p[n..]));
        forall s | s in old_ * new_
          ensures false
        {
          FirstPartUpTo(W, p, n - 1, s);
        }
        assert old_ * new_ == {};
        assert SplitsUpTo(W, p, n) == old_ + new_;
      }
    }
  }

  /** What Splits holds is exactly the splits of p. */
  lemma {:induction false} SplitsSound(W: set<Word>, p: Word, s: seq<Word>)
    requires s in Splits(W, p)
    ensures IsSplit(W, s, p)
    decreases |p|
  {
    if |p| > 0 {
      SplitsUpToSound(W, p, |p|, s);
    }
  }

  lemma {:induction false} SplitsUpToSound(W: set<Word>, p: Word, n: nat, s: seq<Word>)
    requires n <= |p| && s in SplitsUpTo(W, p, n)
    ensures IsSplit(W, s, p)
    decreases |p|, n
  {
    if s in SplitsUpTo(W, p, n - 1) {
      SplitsUpToSound(W, p, n - 1, s);
    } else {
      var t :| t in Splits(W, p[n..]) && s == [p[..n]] + t;
      SplitsSound(W, p[n..], t);
      ConcatPrepend(p[..n], t);
      assert p == p[..n] + p[n..];
      forall i | 0 <= i < |s|
        ensures s[i] in W && |s[i]| > 0
      {
        if i > 0 {
          assert s[i] == t[i - 1];
        }
      }
    }
  }

  /** Every split of p is in Splits. */
  lemma {:induction false} SplitsComplete(W: set<Word>, p: Word, s: seq<Word>)
    requires IsSplit(W, s, p)
    ensures s in Splits(W, p)
    decreases |p|
  {
    if |p| > 0 {
      assert |s| > 0;
      var w, t := s[0], s[1..];
      assert s == [w] + t;
      ConcatPrepend(w, t);
      var k := |w|;
      assert p[..k] == w && p[k..] == Concat(t);
      forall i | 0 <= i < |t|
        ensures t[i] in W && |t[i]| > 0
      {
        assert t[i] == s[i + 1];
      }
      SplitsComplete(W, p[k..], t);
      assert s in Prepend(w, Splits(W, p[k..]));
      SplitsUpToGrows(W, p, k, |p|, s);
    }
  }

  lemma {:induction false} SplitsUpToGrows(W: set<Word>, p: Word, k: nat, n: nat, s: seq<Word>)
    requires 1 <= k <= n <= |p| && p[..k] in W && s in Prepend(p[..k], Splits(W, p[k..]))
    ensures s in SplitsUpTo(W, p, n)
    decreases n
  {
    if n > k {
      SplitsUpToGrows(W, p, k, n - 1, s);
    }
  }

  /** countSubpatterns counts splits: Ways(p) is the number of lists of towel patterns making p. */
  lemma WaysCountsSplits(W: set<Word>, p: Word)
    ensures forall s :: s in Splits(W, p) <==> IsSplit(W, s, p)
    ensures Ways(W, p) == |Splits(W, p)|
  {
    forall s
      ensures s in Splits(W, p) <==> IsSplit(W, s, p)
    {
      if s in Splits(W, p) {
        SplitsSound(W, p, s);
      }
      if IsSplit(W, s, p) {
        SplitsComplete(W, p, s);
      }
    }
    CountSplits(W, p);
  }

  // ---------------------------------------------------------------------------------------
  // The trie
  // ---------------------------------------------------------------------------------------

  /** TrieNode's own fields (lines 10-14); its children are the nodes one letter further down. */
  datatype Node = Node(value: int, isTerminal: bool)

  /**
   * The trie built by parseInput. Each node is stored under the letters spelled on the way
   * from the root to it, so the child of node w for letter c is the node stored under w + [c].
   */
  class Trie {
    var nodes: map<Word, Node>

    /** A terminal node stores the length of the towel pattern that ends there. */
    ghost predicate Valid()
      reads this
    {
      [] in nodes
      && (forall w :: w in nodes && |w| > 0 ==> w[..|w| - 1] in nodes)
      && (forall w :: w in nodes && nodes[w].isTerminal ==> nodes[w].value == |w|)
    }

    /** The towel patterns the trie holds: the words that end at a terminal node. */
    ghost function Words(): set<Word>
      reads this
    {
      set w | w in nodes && nodes[w].isTerminal
    }

    /** NewTrieNode (lines 16-20) as the root of an empty trie. */
    constructor ()
      ensures Valid() && Words() == {} && nodes == map[[] := Node(0, false)]
    {
      nodes := map[[] := Node(0, false)];
    }

    /**
     * The loop body of lines 52-63 for one towel pattern: walk down, creating missing
     * children, and mark the node reached as terminal with the pattern's length.
     */
    method Insert(stripe: Word)
      requires Valid()
      modifies this
      ensures Valid()
      ensures Words() == old(Words()) + {stripe}
      ensures stripe in nodes && nodes[stripe] == Node(|stripe|, true)
      ensures forall w :: w in nodes <==> w in old(nodes) || w <= stripe
    {
      var current: Word := [];
      for i := 0 to |stripe|
        invariant current == stripe[..i] && current in nodes
        invariant [] in nodes
        invariant forall w :: w in nodes && |w| > 0 ==> w[..|w| - 1] in nodes
        invariant forall w :: w in nodes <==> w in old(nodes) || (w <= stripe && |w| <= i)
        invariant forall w :: w in old(nodes) ==> nodes[w] == old(nodes)[w]
        invariant forall w :: w in nodes && w !in old(nodes) ==> nodes[w] == Node(0, false)
      {
        var next := stripe[..i + 1];
        assert next[..|next| - 1] == current;
        forall w
          ensures (w <= stripe && |w| <= i + 1) <==> (w <= stripe && |w| <= i) || w == next
        {
          if w <= stripe && |w| == i + 1 {
            assert w == stripe[..|w|];
          }
        }
        if next !in nodes {
          nodes := nodes[next := Node(0, false)];
        }
        current := next;
      }
      assert current == stripe;
      nodes := nodes[current := Node(|stripe|, true)];
    }

    /** A node's ancestors are in the trie too. */
    lemma {:induction false} PrefixIn(w: Word, k: nat)
      requires Valid() && k <= |w|
      ensures w in nodes ==> w[..k] in nodes
      decreases |w| - k
    {
      if k < |w| {
        var parent := w[..|w| - 1];
        assert w in nodes ==> parent in nodes;
        PrefixIn(parent, k);
        assert parent[..k] == w[..k];
      } else {
        assert w[..k] == w;
      }
    }

    /**
     * findAllMatches (lines 150-165): walk the design down the trie, recording i + 1 at each
     * terminal node reached, until a letter has no child or the design ends.
     */
    method FindAllMatches(pattern: Word) returns (ends: seq<int>)
      requires Valid()
      ensures ends == Matches(Words(), pattern, |pattern|)
    {
      var current: Word := [];
      ends := [];
      var i := 0;
      while i < |pattern|
        invariant 0 <= i <= |pattern| && current == pattern[..i] && current in nodes
        invariant ends == Matches(Words(), pattern, i)
      {
        var next := pattern[..i + 1];
        if next !in nodes {
          NoLongerMatches(pattern, i);
          return;
        }
        current := next;
        if nodes[current].isTerminal {
          ends := ends + [i + 1];
        }
        i := i + 1;
      }
    }

    /** Past a letter with no child, no longer prefix of the design is a towel pattern. */
    lemma {:induction false} NoLongerMatches(pattern: Word, i: nat)
      requires Valid() && i < |pattern| && pattern[..i + 1] !in nodes
      ensures Matches(Words(), pattern, |pattern|) == Matches(Words(), pattern, i)
    {
      var n := |pattern|;
      while n > i
        invariant i <= n <= |pattern|
        invariant Matches(Words(), pattern, |pattern|) == Matches(Words(), pattern, n)
      {
        PrefixIn(pattern[..n], i + 1);
        assert pattern[..n][..i + 1] == pattern[..i + 1];
        n := n - 1;
      }
    }
  }

  /** parseInput's trie building (lines 49-64): the trie holds exactly the given towel patterns. */
  method BuildTrie(stripes: seq<Word>) returns (trie: Trie)
    ensures fresh(trie) && trie.Valid()
    ensures trie.Words() == set s | s in stripes
  {
    trie := new Trie();
    for i := 0 to |stripes|
      invariant trie.Valid() && trie.Words() == set s | s in stripes[..i]
    {
      trie.Insert(stripes[i]);
      assert stripes[..i + 1] == stripes[..i] + [stripes[i]];
    }
    assert stripes[..|stripes|] == stripes;
  }

  // ---------------------------------------------------------------------------------------
  // isSubpatternPossible and countSubpatterns
  // ---------------------------------------------------------------------------------------

  predicate InRange(ks: seq<int>, p: Word)
  {
    forall j :: 0 <= j < |ks| ==> 1 <= ks[j] <= |p|
  }

  /** Some suffix p[k..], for k in ks, splits. */
  predicate AnyOver(W: set<Word>, p: Word, ks: seq<int>)
    requires InRange(ks, p)
  {
    |ks| > 0 && (AnyOver(W, p, ks[..|ks| - 1]) || Possible(W, p[ks[|ks| - 1]..]))
  }

  /** The sum of Ways(p[k..]) over k in ks. */
  function SumOver(W: set<Word>, p: Word, ks: seq<int>): nat
    requires InRange(ks, p)
  {
    if |ks| == 0 then 0 else SumOver(W, p, ks[..|ks| - 1]) + Ways(W, p[ks[|ks| - 1]..])
  }

  lemma {:induction false} MatchesInRange(W: set<Word>, p: Word, n: nat)
    requires n <= |p|
    ensures InRange(Matches(W, p, n), p)
  {
    MatchesSpec(W, p, n);
    var m := Matches(W, p, n);
    forall j | 0 <= j < |m|
      ensures 1 <= m[j] <= |p|
    {
      assert m[j] in m;
    }
  }

  lemma {:induction false} AnyOverMatches(W: set<Word>, p: Word, n: nat)
    requires n <= |p|
    ensures InRange(Matches(W, p, n), p)
    ensures AnyOver(W, p, Matches(W, p, n)) == PossibleUpTo(W, p, n)
  {
    MatchesInRange(W, p, n);
    if n > 0 {
      AnyOverMatches(W, p, n - 1);
      var m := Matches(W, p, n - 1);
      if p[..n] in W {
        assert (m + [n])[..|m|] == m;
      } else {
        assert m + [] == m;
      }
    }
  }

  lemma {:induction false} SumOverMatches(W: set<Word>, p: Word, n: nat)
    requires n <= |p|
    ensures InRange(Matches(W, p, n), p)
    ensures SumOver(W, p, Matches(W, p, n)) == WaysUpTo(W, p, n)
  {
    MatchesInRange(W, p, n);
    if n > 0 {
      SumOverMatches(W, p, n - 1);
      var m := Matches(W, p, n - 1);
      if p[..n] in W {
        assert (m + [n])[..|m|] == m;
      } else {
        assert m + [] == m;
      }
    }
  }

  /** A true prefix makes the whole list true. */
  lemma {:induction false} AnyOverPrefix(W: set<Word>, p: Word, ks: seq<int>, i: nat)
    requires InRange(ks, p) && i <= |ks| && AnyOver(W, p, ks[..i])
    ensures AnyOver(W, p, ks)
    decreases |ks| - i
  {
    if i < |ks| {
      assert ks[..i + 1][..i] == ks[..i];
      AnyOverPrefix(W, p, ks, i + 1);
    } else {
      assert ks[..i] == ks;
    }
  }

  /** Every cached answer is the right one (isSubpatternPossible's cache). */
  ghost predicate PossibleCache(W: set<Word>, cache: map<Word, bool>)
  {
    forall q :: q in cache ==> cache[q] == Possible(W, q)
  }

  /** Every cached count is the right one (countSubpatterns' cache). */
  ghost predicate WaysCache(W: set<Word>, cache: map<Word, int>)
  {
    forall q :: q in cache ==> cache[q] == Ways(W, q)
  }

  /**
   * isSubpatternPossible (lines 87-107): whatever correct answers the cache holds, the result is
   * whether the design splits into towel patterns, and the cache stays correct.
   */
  method IsSubpatternPossible(trie: Trie, pattern: Word, cache: map<Word, bool>) returns (r: bool, cache': map<Word, bool>)
    requires trie.Valid() && PossibleCache(trie.Words(), cache)
    ensures r == Possible(trie.Words(), pattern) && PossibleCache(trie.Words(), cache')
    decreases |pattern|
  {
    if pattern in cache {
      return cache[pattern], cache;
    }
    if |pattern| == 0 {
      return true, cache;
    }

    var substrings := trie.FindAllMatches(pattern);
    AnyOverMatches(trie.Words(), pattern, |pattern|);
    var canMatch := false;
    cache' := cache;
    for i := 0 to |substrings|
      invariant PossibleCache(trie.Words(), cache')
      invariant !AnyOver(trie.Words(), pattern, substrings[..i])
    {
      var ok;
      ok, cache' := IsSubpatternPossible(trie, pattern[substrings[i]..], cache');
      assert substrings[..i + 1][..i] == substrings[..i];
      if ok {
        AnyOverPrefix(trie.Words(), pattern, substrings, i + 1);
        canMatch := true;
        break;
      }
    }
    if !canMatch {
      assert substrings[..|substrings|] == substrings;
    }

    cache' := cache'[pattern := canMatch];
    r := canMatch;
  }

  /**
   * countSubpatterns (lines 109-129): whatever correct counts the cache holds, the result is
   * the number of ways to split the design, and the cache stays correct.
   */
  method CountSubpatterns(trie: Trie, pattern: Word, cache: map<Word, int>) returns (r: int, cache': map<Word, int>)
    requires trie.Valid() && WaysCache(trie.Words(), cache)
    ensures r == Ways(trie.Words(), pattern) && WaysCache(trie.Words(), cache')
    decreases |pattern|
  {
    if pattern in cache {
      return cache[pattern], cache;
    }
    if |pattern| == 0 {
      return 1, cache;
    }

    var substrings := trie.FindAllMatches(pattern);
    SumOverMatches(trie.Words(), pattern, |pattern|);
    var matches := 0;
    cache' := cache;
    for i := 0 to |substrings|
      invariant WaysCache(trie.Words(), cache')
      invariant matches == SumOver(trie.Words(), pattern, substrings[..i])
    {
      var result;
      result, cache' := CountSubpatterns(trie, pattern[substrings[i]..], cache');
      assert substrings[..i + 1][..i] == substrings[..i];
      if result > 0 {
        matches := matches + result;
      }
    }
    assert substrings[..|substrings|] == substrings;

    cache' := cache'[pattern := matches];
    r := matches;
  }

  /** isPatternPossible (lines 67-80): start with an empty cache. */
  method IsPatternPossible(trie: Trie, pattern: Word) returns (r: bool)
    requires trie.Valid()
    ensures r == Possible(trie.Words(), pattern)
    ensures r <==> Ways(trie.Words(), pattern) > 0
  {
    var cache;
    r, cache := IsSubpatternPossible(trie, pattern, map[]);
    PossibleIffWays(trie.Words(), pattern);
  }

  /** countPossiblePatterns (lines 82-85): start with an empty cache. */
  method CountPossiblePatterns(trie: Trie, pattern: Word) returns (r: int)
    requires trie.Valid()
    ensures r == |Splits(trie.Words(), pattern)|
  {
    var cache;
    r, cache := CountSubpatterns(trie, pattern, map[]);
    CountSplits(trie.Words(), pattern);
  }
}

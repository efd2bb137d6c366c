/** The Fisher-Yates shuffle: a bijection between draw sequences and permutations. */
module Shuffle {
  function Swap<T>(s: seq<T>, i: nat, j: nat): seq<T>
    requires i < |s| && j < |s|
  {
    s[i := s[j]][j := s[i]]
  }

  /** One draw per index: `draws[i]` is the draw made at index `i`, from `0..i`. */
  ghost predicate ValidDraws(draws: seq<nat>, n: nat) {
    |draws| == n && forall i :: 0 <= i < n ==> draws[i] <= i
  }

  /** All but the last place once the last place has been swapped with place `j`. */
  function Front<T>(s: seq<T>, j: nat): seq<T>
    requires j < |s|
  {
    Swap(s, |s| - 1, j)[..|s| - 1]
  }

  /** The last index takes the element its draw names; the rest is shuffled in turn. */
  function Shuffled<T>(s: seq<T>, draws: seq<nat>): (r: seq<T>)
    requires ValidDraws(draws, |s|)
    ensures |r| == |s|
    decreases |s|
  {
    if |s| <= 1 then s
    else
      var n := |s| - 1;
      Shuffled(Front(s, draws[n]), draws[..n]) + [s[draws[n]]]
  }

  ghost predicate Distinct<T(!new)>(s: seq<T>) {
    forall i, j :: 0 <= i < j < |s| ==> s[i] != s[j]
  }

  ghost predicate Permutation<T>(a: seq<T>, b: seq<T>) {
    multiset(a) == multiset(b)
  }

  lemma SwapPermutes<T>(s: seq<T>, i: nat, j: nat)
    requires i < |s| && j < |s|
    ensures Permutation(Swap(s, i, j), s)
  {
  }

  lemma FrontAndLast<T>(s: seq<T>, j: nat)
    requires j < |s|
    ensures Swap(s, |s| - 1, j) == Front(s, j) + [s[j]]
    ensures multiset(Front(s, j)) + multiset{s[j]} == multiset(s)
  {
    SwapPermutes(s, |s| - 1, j);
    assert Swap(s, |s| - 1, j)[|s| - 1] == s[j];
  }

  /** Whatever the draws, the elements stay the same, with their multiplicities. */
  lemma {:induction false} ShuffledPermutes<T>(s: seq<T>, draws: seq<nat>)
    requires ValidDraws(draws, |s|)
    ensures Permutation(Shuffled(s, draws), s)
    decreases |s|
  {
    if |s| > 1 {
      var n := |s| - 1;
      FrontAndLast(s, draws[n]);
      ShuffledPermutes(Front(s, draws[n]), draws[..n]);
    }
  }

  /** The index of an element that occurs in `s`. */
  function IndexOf<T(==)>(s: seq<T>, x: T): (i: nat)
    requires x in s
    ensures i < |s| && s[i] == x
  {
    if s[0] == x then 0 else 1 + IndexOf(s[1..], x)
  }

  lemma PermutationMembers<T>(a: seq<T>, b: seq<T>, x: T)
    requires Permutation(a, b)
    ensures x in a <==> x in b
  {
    assert x in a <==> x in multiset(a);
    assert x in b <==> x in multiset(b);
  }

  lemma PermutationLength<T>(a: seq<T>, b: seq<T>)
    requires Permutation(a, b)
    ensures |a| == |b|
  {
    assert |multiset(a)| == |a| && |multiset(b)| == |b|;
  }

  /** The draws that turn `s` into `t`, read off from the last position. */
  ghost function DrawsFor<T(!new)>(s: seq<T>, t: seq<T>): (draws: seq<nat>)
    requires Permutation(s, t)
    ensures ValidDraws(draws, |s|)
    decreases |s|
  {
    PermutationLength(s, t);
    var n := |s|;
    if n == 0 then []
    else if n == 1 then [0]
    else
      PermutationMembers(s, t, t[n - 1]);
      var j := IndexOf(s, t[n - 1]);
      RemainderPermutes(s, t, j);
      DrawsFor(Front(s, j), t[..n - 1]) + [j]
  }

  lemma CancelLast<T>(a: seq<T>, b: seq<T>, x: T)
    requires Permutation(a + [x], b + [x])
    ensures Permutation(a, b)
  {
    assert multiset(a) == multiset(a + [x]) - multiset{x};
    assert multiset(b) == multiset(b + [x]) - multiset{x};
  }

  lemma RemainderPermutes<T(!new)>(s: seq<T>, t: seq<T>, j: nat)
    requires Permutation(s, t) && |s| == |t| > 0 && j < |s| && s[j] == t[|t| - 1]
    ensures Permutation(Front(s, j), t[..|s| - 1])
  {
    var n := |s| - 1;
    FrontAndLast(s, j);
    assert t == t[..n] + [t[n]];
    CancelLast(Front(s, j), t[..n], t[n]);
  }

  /** Surjective: every permutation is reached. */
  lemma {:induction false} DrawsReach<T(!new)>(s: seq<T>, t: seq<T>)
    requires Permutation(s, t)
    ensures Shuffled(s, DrawsFor(s, t)) == t
    decreases |s|
  {
    PermutationLength(s, t);
    var n := |s| - 1;
    if n > 0 {
      PermutationMembers(s, t, t[n]);
      var j := IndexOf(s, t[n]);
      RemainderPermutes(s, t, j);
      var front, draws := Front(s, j), DrawsFor(s, t);
      DrawsReach(front, t[..n]);
      assert draws == DrawsFor(front, t[..n]) + [j];
      assert draws[..n] == DrawsFor(front, t[..n]);
      assert t == t[..n] + [t[n]];
    } else if n == 0 {
      PermutationMembers(s, t, s[0]);
    }
  }

  lemma DistinctFront<T(!new)>(s: seq<T>, j: nat)
    requires Distinct(s) && j < |s|
    ensures Distinct(Front(s, j))
  {
  }

  lemma SameLast<T>(a: seq<T>, x: T, b: seq<T>, y: T)
    requires a + [x] == b + [y]
    ensures a == b && x == y
  {
    assert |a + [x]| == |b + [y]|;
    assert (a + [x])[|a|] == (b + [y])[|b|];
    assert a == (a + [x])[..|a|] && b == (b + [y])[..|b|];
  }

  /** Injective on distinct elements: different draws give different orders. */
  lemma {:induction false} DrawsAreUnique<T(!new)>(s: seq<T>, d: seq<nat>, e: seq<nat>)
    requires Distinct(s) && ValidDraws(d, |s|) && ValidDraws(e, |s|)
    requires Shuffled(s, d) == Shuffled(s, e)
    ensures d == e
    decreases |s|
  {
    var n := |s| - 1;
    if n > 0 {
      var fd, fe := Front(s, d[n]), Front(s, e[n]);
      SameLast(Shuffled(fd, d[..n]), s[d[n]], Shuffled(fe, e[..n]), s[e[n]]);
      assert d[n] == e[n];
      DistinctFront(s, d[n]);
      DrawsAreUnique(fd, d[..n], e[..n]);
      assert d == d[..n] + [d[n]] && e == e[..n] + [e[n]];
    }
  }

  /** Fisher-Yates is a bijection: on distinct elements each permutation comes from
      exactly one sequence of draws, so uniform draws give a uniform shuffle. */
  lemma ShuffleIsBijective<T(!new)>(s: seq<T>, t: seq<T>, draws: seq<nat>)
    requires Distinct(s) && Permutation(s, t) && ValidDraws(draws, |s|)
    ensures Shuffled(s, draws) == t <==> draws == DrawsFor(s, t)
  {
    DrawsReach(s, t);
    if Shuffled(s, draws) == t {
      DrawsAreUnique(s, draws, DrawsFor(s, t));
    }
  }

  // ------------------------------------------------------------- the loop

  /** The swaps at indexes `i`, `i - 1`, ..., 1, on the whole sequence. */
  function SwapsDown<T>(s: seq<T>, draws: seq<nat>, i: nat): (r: seq<T>)
    requires ValidDraws(draws, |s|) && i <= |s|
    requires i == |s| ==> i == 0
    ensures |r| == |s|
    decreases i
  {
    if i == 0 then s else SwapsDown(Swap(s, i, draws[i]), draws, i - 1)
  }

  lemma SwapInFront<T>(front: seq<T>, tail: seq<T>, i: nat, j: nat)
    requires i < |front| && j < |front|
    ensures Swap(front + tail, i, j) == Swap(front, i, j) + tail
  {
  }

  lemma MoveLast<T>(front: seq<T>, tail: seq<T>, draws: seq<nat>)
    requires ValidDraws(draws, |front| + |tail|) && |front| > 1
    ensures var i := |front| - 1;
      Swap(front + tail, i, draws[i]) == Front(front, draws[i]) + ([front[draws[i]]] + tail)
  {
    var i := |front| - 1;
    SwapInFront(front, tail, i, draws[i]);
    FrontAndLast(front, draws[i]);
  }

  lemma {:induction false} SwapsStayInFront<T>(front: seq<T>, tail: seq<T>, draws: seq<nat>)
    requires ValidDraws(draws, |front| + |tail|) && front != []
    ensures SwapsDown(front + tail, draws, |front| - 1) == Shuffled(front, draws[..|front|]) + tail
    decreases |front|
  {
    var i := |front| - 1;
    if i > 0 {
      var j := draws[i];
      MoveLast(front, tail, draws);
      SwapsStayInFront(Front(front, j), [front[j]] + tail, draws);
      assert draws[..i + 1][..i] == draws[..i];
    }
  }

  /** Swapping in place from the last index down to 1 is the recursive shuffle. */
  lemma SwapsDownIsShuffled<T>(s: seq<T>, draws: seq<nat>)
    requires ValidDraws(draws, |s|)
    ensures SwapsDown(s, draws, if s == [] then 0 else |s| - 1) == Shuffled(s, draws)
  {
    if s != [] {
      SwapsStayInFront(s, [], draws);
      assert s + [] == s && draws[..|s|] == draws;
      assert Shuffled(s, draws) + [] == Shuffled(s, draws);
    }
  }

  /** In-place swaps over a descending index, on a fresh copy. */
  method ShuffleArray<T>(original: array<T>, draws: seq<nat>) returns (shuffled: array<T>)
    requires ValidDraws(draws, original.Length)
    ensures fresh(shuffled)
    ensures shuffled[..] == Shuffled(original[..], draws)
  {
    shuffled := new T[original.Length](i requires 0 <= i < original.Length reads original => original[i]);
    ghost var s := original[..];
    assert shuffled[..] == s;
    SwapsDownIsShuffled(s, draws);
    var i: int := if shuffled.Length == 0 then 0 else shuffled.Length - 1;
    while i > 0
      invariant 0 <= i && (i < shuffled.Length || i == 0)
      invariant SwapsDown(shuffled[..], draws, i) == Shuffled(s, draws)
    {
      var j := draws[i];
      ghost var before := shuffled[..];
      shuffled[i], shuffled[j] := shuffled[j], shuffled[i];
      assert shuffled[..] == Swap(before, i, j);
      i := i - 1;
    }
  }
}

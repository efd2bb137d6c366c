/** What the random builder selections can return: exactly which results some run of
    the random number generator leads to. */
module SelectionReach {
  import opened Wrappers
  import opened Shuffle
  import opened BuilderSelection

  // --------------------------------------------------------------- chosen draws

  /** Randomness that makes the given draws, shuffle by shuffle. */
  function Fixed(draws: seq<seq<nat>>): Randomness {
    (shuffle: nat, i: nat) => if shuffle < |draws| && i < |draws[shuffle]| then draws[shuffle][i] else 0
  }

  /** If the draws of a shuffle are those for `ys`, it turns `xs` into `ys`. */
  lemma ShuffleReaches(draws: seq<seq<nat>>, shuffle: nat, xs: seq<Builder>, ys: seq<Builder>)
    requires Permutation(xs, ys) && shuffle < |draws| && draws[shuffle] == DrawsFor(xs, ys)
    ensures ShuffledBy(xs, Fixed(draws), shuffle) == ys
  {
    var d := draws[shuffle];
    forall i: nat | i < |xs|
      ensures DrawsOf(Fixed(draws), shuffle, |xs|)[i] == d[i]
    {
      Remainder(d[i], i + 1);
    }
    assert DrawsOf(Fixed(draws), shuffle, |xs|) == d;
    DrawsReach(xs, ys);
  }

  lemma Remainder(x: nat, n: nat)
    requires x < n
    ensures x % n == x
  {
  }

  /** What is left of `whole` without `part`. */
  lemma {:induction false} Rest(part: seq<Builder>, whole: seq<Builder>) returns (rest: seq<Builder>)
    requires multiset(part) <= multiset(whole)
    ensures multiset(part + rest) == multiset(whole)
    decreases |part|
  {
    if part == [] {
      rest := whole;
      assert part + rest == whole;
    } else {
      assert part == [part[0]] + part[1..];
      var more := Rest(part[1..], whole);
      StillLeft(part, more, whole);
      var i := IndexOf(more, part[0]);
      rest := more[..i] + more[i + 1..];
      RemoveAt(more, i);
    }
  }

  lemma StillLeft(part: seq<Builder>, more: seq<Builder>, whole: seq<Builder>)
    requires part != [] && multiset(part) <= multiset(whole) && multiset(part[1..] + more) == multiset(whole)
    ensures part[0] in more
  {
    assert part == [part[0]] + part[1..];
    assert multiset(part)[part[0]] == 1 + multiset(part[1..])[part[0]];
    assert multiset(more)[part[0]] > 0;
  }

  // ------------------------------------------------------------------- filters

  lemma {:induction false} FilteredCount(xs: seq<Builder>, allowlist: set<Address>, member: bool, b: Builder)
    ensures multiset(Filtered(xs, allowlist, member))[b]
         == if (b.address in allowlist) == member then multiset(xs)[b] else 0
  {
    if xs != [] {
      FilteredCount(xs[1..], allowlist, member, b);
      assert xs == [xs[0]] + xs[1..];
    }
  }

  lemma FilteredPart(r: seq<Builder>, xs: seq<Builder>, allowlist: set<Address>, member: bool)
    requires multiset(r) <= multiset(xs)
    ensures multiset(Filtered(r, allowlist, member)) <= multiset(Filtered(xs, allowlist, member))
  {
    forall b
      ensures multiset(Filtered(r, allowlist, member))[b] <= multiset(Filtered(xs, allowlist, member))[b]
    {
      FilteredCount(r, allowlist, member, b);
      FilteredCount(xs, allowlist, member, b);
    }
  }

  lemma {:induction false} FilterOfAllowlisted(r: seq<Builder>, allowlist: set<Address>)
    requires CountAllowlisted(r, allowlist) == |r|
    ensures Filtered(r, allowlist, true) == r
  {
    if r != [] {
      CountAtMost(r[1..], allowlist);
      FilterOfAllowlisted(r[1..], allowlist);
      assert r == [r[0]] + r[1..];
    }
  }

  lemma {:induction false} CountAtMost(xs: seq<Builder>, allowlist: set<Address>)
    ensures CountAllowlisted(xs, allowlist) <= |xs|
  {
    if xs != [] {
      CountAtMost(xs[1..], allowlist);
    }
  }

  // ------------------------------------------------------------- the list modes

  /** The top of a shuffle can be any part of the list, in any order. */
  lemma TopReaches(xs: seq<Builder>, r: seq<Builder>, end: nat) returns (random: Randomness)
    requires multiset(r) <= multiset(xs) && |r| == Min(end, |xs|)
    ensures SliceTo(ShuffledBy(xs, random, 0), end) == r
  {
    var rest := Rest(r, xs);
    PermutationLength(r + rest, xs);
    random := Fixed([DrawsFor(xs, r + rest)]);
    ShuffleReaches([DrawsFor(xs, r + rest)], 0, xs, r + rest);
  }

  /** Allowlist-only mode returns any list of as many allowlisted builders as `count`
      allows, and nothing else. */
  lemma AllowlistOnlyReachesIff(c: Config, xs: seq<Builder>, r: seq<Builder>)
    ensures (exists random :: BuildersByMode(c, xs, AllowlistOnly, random) == Some(r))
       <==> && multiset(r) <= multiset(xs) && CountAllowlisted(r, c.allowlist) == |r|
            && |r| == Min(c.count, CountAllowlisted(xs, c.allowlist))
  {
    var filtered := Filtered(xs, c.allowlist, true);
    FilterSplits(xs, c.allowlist);
    if random :| BuildersByMode(c, xs, AllowlistOnly, random) == Some(r) {
      ListModes(c, xs, random);
      OnlyAllowlisted(c, xs, r);
    }
    if && multiset(r) <= multiset(xs) && CountAllowlisted(r, c.allowlist) == |r|
       && |r| == Min(c.count, CountAllowlisted(xs, c.allowlist)) {
      FilteredPart(r, xs, c.allowlist, true);
      FilterOfAllowlisted(r, c.allowlist);
      var random := TopReaches(filtered, r, c.count);
      assert BuildersByMode(c, xs, AllowlistOnly, random) == Some(r);
    }
  }

  lemma OnlyAllowlisted(c: Config, xs: seq<Builder>, r: seq<Builder>)
    requires multiset(r) <= multiset(Filtered(xs, c.allowlist, true))
    ensures CountAllowlisted(r, c.allowlist) == |r|
  {
    FilterSplits(xs, c.allowlist);
    forall b | b in r
      ensures b.address in c.allowlist
    {
      assert b in multiset(r);
      assert b in Filtered(xs, c.allowlist, true);
    }
    AllAllowlisted(r, c.allowlist);
  }

  lemma RandomIsTop(c: Config, xs: seq<Builder>, random: Randomness)
    ensures RandomBuilders(c, xs, random) == SliceTo(ShuffledBy(xs, random, 0), c.count)
  {
  }

  lemma RandomReaches(c: Config, xs: seq<Builder>, r: seq<Builder>) returns (random: Randomness)
    requires multiset(r) <= multiset(xs) && |r| == Min(c.count, |xs|)
    ensures RandomBuilders(c, xs, random) == r
  {
    random := TopReaches(xs, r, c.count);
    RandomIsTop(c, xs, random);
  }

  /** Random mode returns any list of as many builders as `count` allows, and nothing else. */
  lemma RandomReachesIff(c: Config, xs: seq<Builder>, r: seq<Builder>)
    ensures (exists random :: BuildersByMode(c, xs, Random, random) == Some(r))
       <==> multiset(r) <= multiset(xs) && |r| == Min(c.count, |xs|)
  {
    if random :| BuildersByMode(c, xs, Random, random) == Some(r) {
      ListModes(c, xs, random);
    }
    if multiset(r) <= multiset(xs) && |r| == Min(c.count, |xs|) {
      var random := RandomReaches(c, xs, r);
      assert BuildersByMode(c, xs, Random, random) == Some(r);
    }
  }

  // -------------------------------------------------------------- the other modes

  /** Priority mode returns any one listed builder: an allowlisted one unless they are
      never favoured and others are listed, another unless allowlisted ones are listed
      and always favoured. */
  lemma PriorityReachesIff(c: Config, xs: seq<Builder>, r: seq<Builder>)
    ensures (exists random :: BuildersByMode(c, xs, AllowlistPriority, random) == Some(r))
       <==> && |r| == 1 && r[0] in xs
            && if r[0].address in c.allowlist then c.threshold > 0 || CountAllowlisted(xs, c.allowlist) == |xs|
               else c.threshold < 1000000 || CountAllowlisted(xs, c.allowlist) == 0
  {
    if random :| BuildersByMode(c, xs, AllowlistPriority, random) == Some(r) {
      PriorityMode(c, xs, random);
    }
    if && |r| == 1 && r[0] in xs
       && (if r[0].address in c.allowlist then c.threshold > 0 || CountAllowlisted(xs, c.allowlist) == |xs|
           else c.threshold < 1000000 || CountAllowlisted(xs, c.allowlist) == 0) {
      var random := PriorityReaches(c, xs, r[0]);
      assert r == [r[0]];
    }
  }

  lemma InGroup(xs: seq<Builder>, allowlist: set<Address>, b: Builder)
    requires b in xs
    ensures b in Filtered(xs, allowlist, b.address in allowlist)
  {
    FilteredCount(xs, allowlist, b.address in allowlist, b);
    assert b in multiset(xs);
    assert b in multiset(Filtered(xs, allowlist, b.address in allowlist));
  }

  /** Randomness whose first draw is `draw` and whose pick is number `i`. */
  function Picking(draw: nat, i: nat): Randomness {
    (shuffle: nat, k: nat) => if shuffle == 0 then draw else i
  }

  lemma PickIs(group: seq<Builder>, b: Builder, draw: nat)
    requires b in group
    ensures PickOne(group, Picking(draw, IndexOf(group, b))) == Some([b])
  {
    Remainder(IndexOf(group, b), |group|);
  }

  lemma AllOrNone(xs: seq<Builder>, allowlist: set<Address>)
    ensures Filtered(xs, allowlist, false) == [] <==> CountAllowlisted(xs, allowlist) == |xs|
    ensures Filtered(xs, allowlist, true) == [] <==> CountAllowlisted(xs, allowlist) == 0
  {
    FilterSplits(xs, allowlist);
    LengthOfSum(Filtered(xs, allowlist, true), Filtered(xs, allowlist, false), xs);
  }

  lemma PriorityReaches(c: Config, xs: seq<Builder>, b: Builder) returns (random: Randomness)
    requires b in xs
    requires if b.address in c.allowlist then c.threshold > 0 || CountAllowlisted(xs, c.allowlist) == |xs|
             else c.threshold < 1000000 || CountAllowlisted(xs, c.allowlist) == 0
    ensures BuildersByMode(c, xs, AllowlistPriority, random) == Some([b])
  {
    var member := b.address in c.allowlist;
    var group := Filtered(xs, c.allowlist, member);
    AllOrNone(xs, c.allowlist);
    InGroup(xs, c.allowlist, b);
    var draw := if member then 0 else 999999;
    random := Picking(draw, IndexOf(group, b));
    Remainder(draw, 1000000);
    PickIs(group, b, draw);
  }

  // ------------------------------------------------------------ guaranteed mode

  lemma CutBoth(ra: seq<Builder>, left: seq<Builder>, ro: seq<Builder>, k: nat)
    requires k <= |ra|
    ensures (ra + left)[..k] == ra[..k] && (ra + left)[k..] == ra[k..] + left
    ensures multiset(ra[..k] + (ra[k..] + ro)) == multiset(ra) + multiset(ro)
  {
    assert ra == ra[..k] + ra[k..];
  }

  /** The selection spelled out by what its four shuffles give. */
  lemma GuaranteedIs(c: Config, xs: seq<Builder>, random: Randomness)
    requires xs != []
    ensures var t0 := ShuffledBy(Filtered(xs, c.allowlist, true), random, 0);
      var others := ShuffledBy(Filtered(xs, c.allowlist, false), random, 1);
      var k := Min(c.minAllowlisted, |t0|);
      var t2 := ShuffledBy(t0[k..] + others, random, 2);
      WithGuaranteedAllowlist(c, xs, random) == ShuffledBy(t0[..k] + SliceTo(t2, c.count - k), random, 3)
  {
    var t0 := ShuffledBy(Filtered(xs, c.allowlist, true), random, 0);
    var others, k := ShuffledBy(Filtered(xs, c.allowlist, false), random, 1), Min(c.minAllowlisted, |t0|);
    assert SliceTo(t0, k) == t0[..k];
    assert GuaranteedShare(c, xs, random) == (t0[..k], t0[k..] + others);
  }

  lemma FourShuffles(a: seq<Builder>, a': seq<Builder>, o: seq<Builder>, m: seq<Builder>, m': seq<Builder>,
                     p: seq<Builder>, r: seq<Builder>) returns (random: Randomness)
    requires Permutation(a, a') && Permutation(m, m') && Permutation(p, r)
    ensures ShuffledBy(a, random, 0) == a' && ShuffledBy(o, random, 1) == o
    ensures ShuffledBy(m, random, 2) == m' && ShuffledBy(p, random, 3) == r
  {
    var draws := [DrawsFor(a, a'), DrawsFor(o, o), DrawsFor(m, m'), DrawsFor(p, r)];
    random := Fixed(draws);
    ShuffleReaches(draws, 0, a, a');
    ShuffleReaches(draws, 1, o, o);
    ShuffleReaches(draws, 2, m, m');
    ShuffleReaches(draws, 3, p, r);
  }

  /** How the first and the third shuffle must come out for a wanted result, whose
      allowlisted builders are `ra` and whose others are `ro`. */
  lemma Targets(ra: seq<Builder>, ro: seq<Builder>, allowlisted: seq<Builder>, others: seq<Builder>, k: nat, end: nat)
    returns (t0: seq<Builder>, t2: seq<Builder>)
    requires multiset(ra) <= multiset(allowlisted) && multiset(ro) <= multiset(others)
    requires k <= |ra| && k <= end && |ra| + |ro| == Min(end, |allowlisted| + |others|)
    ensures Permutation(allowlisted, t0) && |t0| == |allowlisted| >= k
    ensures Permutation(t0[k..] + others, t2)
    ensures multiset(t0[..k] + SliceTo(t2, end - k)) == multiset(ra) + multiset(ro)
  {
    var left := Rest(ra, allowlisted);
    t0 := ra + left;
    PermutationLength(t0, allowlisted);
    CutBoth(ra, left, ro, k);
    var top, remaining := ra[k..] + ro, t0[k..] + others;
    assert multiset(top) <= multiset(remaining);
    var below := Rest(top, remaining);
    t2 := top + below;
    PermutationLength(t2, remaining);
    assert SliceTo(t2, end - k) == top;
  }

  lemma GuaranteedReaches(c: Config, xs: seq<Builder>, r: seq<Builder>) returns (random: Randomness)
    requires xs != [] && Min(c.minAllowlisted, CountAllowlisted(xs, c.allowlist)) <= c.count
    requires multiset(r) <= multiset(xs) && |r| == Min(c.count, |xs|)
    requires CountAllowlisted(r, c.allowlist) >= Min(c.minAllowlisted, CountAllowlisted(xs, c.allowlist))
    ensures WithGuaranteedAllowlist(c, xs, random) == r
  {
    var allowlisted, others := Filtered(xs, c.allowlist, true), Filtered(xs, c.allowlist, false);
    var ra, ro := Filtered(r, c.allowlist, true), Filtered(r, c.allowlist, false);
    var k := Min(c.minAllowlisted, |allowlisted|);
    SplitSizes(c, xs);
    SplitSizes(c, r);
    FilteredPart(r, xs, c.allowlist, true);
    FilteredPart(r, xs, c.allowlist, false);
    random := GuaranteedWith(c, xs, r, allowlisted, others, ra, ro, k);
  }

  lemma GuaranteedWith(c: Config, xs: seq<Builder>, r: seq<Builder>, allowlisted: seq<Builder>, others: seq<Builder>,
                       ra: seq<Builder>, ro: seq<Builder>, k: nat) returns (random: Randomness)
    requires xs != [] && k == Min(c.minAllowlisted, |allowlisted|) && k <= |ra| && k <= c.count
    requires allowlisted == Filtered(xs, c.allowlist, true) && others == Filtered(xs, c.allowlist, false)
    requires multiset(ra) <= multiset(allowlisted) && multiset(ro) <= multiset(others)
    requires |ra| + |ro| == Min(c.count, |allowlisted| + |others|) && multiset(ra) + multiset(ro) == multiset(r)
    ensures WithGuaranteedAllowlist(c, xs, random) == r
  {
    var t0, t2 := Targets(ra, ro, allowlisted, others, k, c.count);
    var picked := t0[..k] + SliceTo(t2, c.count - k);
    random := FourShuffles(allowlisted, t0, others, t0[k..] + others, t2, picked, r);
    GuaranteedIs(c, xs, random);
  }

  lemma SplitSizes(c: Config, xs: seq<Builder>)
    ensures var a, o := Filtered(xs, c.allowlist, true), Filtered(xs, c.allowlist, false);
      && |a| == CountAllowlisted(xs, c.allowlist) && |a| + |o| == |xs|
      && multiset(a) + multiset(o) == multiset(xs)
  {
    FilterSplits(xs, c.allowlist);
    LengthOfSum(Filtered(xs, c.allowlist, true), Filtered(xs, c.allowlist, false), xs);
  }

  /** Guaranteed mode, which is also the default: if the guaranteed share fits into
      `count`, it returns any list of `min(count, n)` builders with at least that many
      allowlisted ones, in any order, and nothing else. */
  lemma GuaranteedReachesIff(c: Config, xs: seq<Builder>, mode: Mode, r: seq<Builder>)
    requires mode.GuaranteedAllowlist? || mode.Unknown?
    requires Min(c.minAllowlisted, CountAllowlisted(xs, c.allowlist)) <= c.count
    ensures (exists random :: BuildersByMode(c, xs, mode, random) == Some(r))
       <==> && multiset(r) <= multiset(xs) && |r| == Min(c.count, |xs|)
            && CountAllowlisted(r, c.allowlist) >= Min(c.minAllowlisted, CountAllowlisted(xs, c.allowlist))
  {
    if random :| BuildersByMode(c, xs, mode, random) == Some(r) {
      GuaranteedSelection(c, xs, random);
    }
    if && multiset(r) <= multiset(xs) && |r| == Min(c.count, |xs|)
       && CountAllowlisted(r, c.allowlist) >= Min(c.minAllowlisted, CountAllowlisted(xs, c.allowlist)) {
      var random := Fixed([]);
      if xs != [] {
        random := GuaranteedReaches(c, xs, r);
      }
      assert BuildersByMode(c, xs, mode, random) == Some(r);
    }
  }
}

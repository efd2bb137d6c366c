/** Selection of block builders: four modes over shuffled, allowlist-filtered lists. */
module BuilderSelection {
  import opened Wrappers
  import opened Shuffle

  datatype Address = Address(hex: string)

  datatype Builder = Builder(address: Address, url: string)

  /** `threshold` is the allowlist probability in millionths. */
  datatype Config = Config(allowlist: set<Address>, count: nat, minAllowlisted: nat, threshold: nat)

  datatype Mode = AllowlistOnly | AllowlistPriority | GuaranteedAllowlist | Random | Unknown

  /** The numbers behind `randomInt`: for each shuffle of a call, one per index. */
  type Randomness = (nat, nat) -> nat

  /** `randomInt(0, i + 1)` for each index of the given shuffle. */
  function DrawsOf(random: Randomness, shuffle: nat, n: nat): (draws: seq<nat>)
    ensures ValidDraws(draws, n)
  {
    seq(n, i requires 0 <= i => random(shuffle, i) % (i + 1))
  }

  function ShuffledBy(xs: seq<Builder>, random: Randomness, shuffle: nat): seq<Builder> {
    Shuffled(xs, DrawsOf(random, shuffle, |xs|))
  }

  /** The builders whose allowlist membership is `member`. */
  function Filtered(xs: seq<Builder>, allowlist: set<Address>, member: bool): seq<Builder> {
    if xs == [] then []
    else
      var rest := Filtered(xs[1..], allowlist, member);
      if (xs[0].address in allowlist) == member then [xs[0]] + rest else rest
  }

  /** JavaScript's `xs.slice(0, end)`: a negative end counts from the back. */
  function SliceTo<T>(xs: seq<T>, end: int): seq<T> {
    var stop := if end < 0 then |xs| + end else end;
    xs[..if stop < 0 then 0 else if stop > |xs| then |xs| else stop]
  }

  function Min(a: int, b: int): int { if a < b then a else b }

  function Max(a: int, b: int): int { if a < b then b else a }

  // ----------------------------------------------------------------- the modes

  function OnlyAllowlist(c: Config, xs: seq<Builder>, random: Randomness): seq<Builder> {
    SliceTo(ShuffledBy(Filtered(xs, c.allowlist, true), random, 0), c.count)
  }

  function RandomBuilders(c: Config, xs: seq<Builder>, random: Randomness): seq<Builder> {
    if |xs| <= c.count then ShuffledBy(xs, random, 0) else SliceTo(ShuffledBy(xs, random, 0), c.count)
  }

  /** Drawing from an empty list throws: None. */
  function PickOne(xs: seq<Builder>, random: Randomness): Option<seq<Builder>> {
    if xs == [] then None else Some([xs[random(1, 0) % |xs|]])
  }

  function WithAllowlistPriority(c: Config, xs: seq<Builder>, random: Randomness): Option<seq<Builder>> {
    var allowlisted, others := Filtered(xs, c.allowlist, true), Filtered(xs, c.allowlist, false);
    if random(0, 0) % 1000000 < c.threshold && allowlisted != [] then PickOne(allowlisted, random)
    else if others != [] then PickOne(others, random)
    else PickOne(allowlisted, random)
  }

  /** The guaranteed share, and what the rest is drawn from. */
  function GuaranteedShare(c: Config, xs: seq<Builder>, random: Randomness): (seq<Builder>, seq<Builder>) {
    var allowlisted := ShuffledBy(Filtered(xs, c.allowlist, true), random, 0);
    var others := ShuffledBy(Filtered(xs, c.allowlist, false), random, 1);
    var k := Min(c.minAllowlisted, |allowlisted|);
    (SliceTo(allowlisted, k), allowlisted[k..] + others)
  }

  /** The guaranteed share topped up from the shuffled remainder. */
  function Picked(c: Config, share: seq<Builder>, remaining: seq<Builder>, random: Randomness): seq<Builder> {
    share + SliceTo(ShuffledBy(remaining, random, 2), c.count - |share|)
  }

  function WithGuaranteedAllowlist(c: Config, xs: seq<Builder>, random: Randomness): seq<Builder> {
    if xs == [] then []
    else
      var (share, remaining) := GuaranteedShare(c, xs, random);
      ShuffledBy(Picked(c, share, remaining, random), random, 3)
  }

  function BuildersByMode(c: Config, xs: seq<Builder>, mode: Mode, random: Randomness): Option<seq<Builder>> {
    match mode
    case AllowlistOnly => Some(OnlyAllowlist(c, xs, random))
    case AllowlistPriority => WithAllowlistPriority(c, xs, random)
    case Random => Some(RandomBuilders(c, xs, random))
    case _ => Some(WithGuaranteedAllowlist(c, xs, random))
  }

  // ------------------------------------------------------------- as they run

  method ShuffleList(xs: seq<Builder>, random: Randomness, shuffle: nat) returns (r: seq<Builder>)
    ensures r == ShuffledBy(xs, random, shuffle)
  {
    var a := new Builder[|xs|](i requires 0 <= i < |xs| => xs[i]);
    assert a[..] == xs;
    var b := ShuffleArray(a, DrawsOf(random, shuffle, |xs|));
    r := b[..];
  }

  method GetRandomBuildersWithGuaranteedAllowlist(c: Config, activeBuilders: seq<Builder>, random: Randomness)
    returns (r: seq<Builder>)
    ensures r == WithGuaranteedAllowlist(c, activeBuilders, random)
  {
    if |activeBuilders| == 0 {
      return [];
    }
    var allowlisted := ShuffleList(Filtered(activeBuilders, c.allowlist, true), random, 0);
    var others := ShuffleList(Filtered(activeBuilders, c.allowlist, false), random, 1);
    var selected := SliceTo(allowlisted, Min(c.minAllowlisted, |allowlisted|));
    var remaining := c.count - |selected|;
    var allRemaining := allowlisted[|selected|..] + others;
    var shuffledRemaining := ShuffleList(allRemaining, random, 2);
    selected := selected + SliceTo(shuffledRemaining, remaining);
    r := ShuffleList(selected, random, 3);
  }

  method GetBuildersByMode(c: Config, activeBuilders: seq<Builder>, mode: Mode, random: Randomness)
    returns (r: Option<seq<Builder>>)
    ensures r == BuildersByMode(c, activeBuilders, mode, random)
  {
    match mode {
      case AllowlistOnly =>
        var allowlisted := Filtered(activeBuilders, c.allowlist, true);
        if |allowlisted| == 0 {
          return Some([]);
        }
        var shuffled := ShuffleList(allowlisted, random, 0);
        return Some(SliceTo(shuffled, c.count));
      case AllowlistPriority =>
        return WithAllowlistPriority(c, activeBuilders, random);
      case Random =>
        var shuffled := ShuffleList(activeBuilders, random, 0);
        if |activeBuilders| <= c.count {
          return Some(shuffled);
        }
        return Some(SliceTo(shuffled, c.count));
      case _ =>
        var guaranteed := GetRandomBuildersWithGuaranteedAllowlist(c, activeBuilders, random);
        return Some(guaranteed);
    }
  }

  // ------------------------------------------------------------ what they promise

  /** How many of `xs` are allowlisted. */
  function CountAllowlisted(xs: seq<Builder>, allowlist: set<Address>): nat {
    if xs == [] then 0 else (if xs[0].address in allowlist then 1 else 0) + CountAllowlisted(xs[1..], allowlist)
  }

  lemma {:induction false} CountAppend(a: seq<Builder>, b: seq<Builder>, allowlist: set<Address>)
    ensures CountAllowlisted(a + b, allowlist) == CountAllowlisted(a, allowlist) + CountAllowlisted(b, allowlist)
  {
    if a == [] {
      assert a + b == b;
    } else {
      assert (a + b)[1..] == a[1..] + b;
      CountAppend(a[1..], b, allowlist);
    }
  }

  lemma RemoveAt<T>(s: seq<T>, i: nat)
    requires i < |s|
    ensures multiset(s[..i] + s[i + 1..]) == multiset(s) - multiset{s[i]}
  {
    assert s == s[..i] + [s[i]] + s[i + 1..];
  }

  lemma CountRemoved(s: seq<Builder>, i: nat, allowlist: set<Address>)
    requires i < |s|
    ensures CountAllowlisted(s, allowlist)
         == CountAllowlisted(s[..i] + s[i + 1..], allowlist) + if s[i].address in allowlist then 1 else 0
  {
    assert s == s[..i] + s[i..];
    CountAppend(s[..i], s[i..], allowlist);
    CountAppend(s[..i], s[i + 1..], allowlist);
    assert s[i..][1..] == s[i + 1..];
  }

  lemma {:induction false} CountOfPermutation(a: seq<Builder>, b: seq<Builder>, allowlist: set<Address>)
    requires Permutation(a, b)
    ensures CountAllowlisted(a, allowlist) == CountAllowlisted(b, allowlist)
  {
    PermutationLength(a, b);
    if a != [] {
      PermutationMembers(a, b, a[0]);
      var i := IndexOf(b, a[0]);
      RemoveAt(b, i);
      RemoveAt(a, 0);
      assert a[..0] + a[1..] == a[1..];
      CountOfPermutation(a[1..], b[..i] + b[i + 1..], allowlist);
      CountRemoved(b, i, allowlist);
    }
  }

  lemma {:induction false} FilterSplits(xs: seq<Builder>, allowlist: set<Address>)
    ensures multiset(Filtered(xs, allowlist, true)) + multiset(Filtered(xs, allowlist, false)) == multiset(xs)
    ensures |Filtered(xs, allowlist, true)| == CountAllowlisted(xs, allowlist)
    ensures forall b :: b in Filtered(xs, allowlist, true) ==> b.address in allowlist
    ensures forall b :: b in Filtered(xs, allowlist, false) ==> b.address !in allowlist
  {
    if xs != [] {
      FilterSplits(xs[1..], allowlist);
      assert xs == [xs[0]] + xs[1..];
    }
  }

  lemma {:induction false} AllAllowlisted(xs: seq<Builder>, allowlist: set<Address>)
    requires forall b :: b in xs ==> b.address in allowlist
    ensures CountAllowlisted(xs, allowlist) == |xs|
  {
    if xs != [] {
      AllAllowlisted(xs[1..], allowlist);
    }
  }

  lemma SliceIsPart<T>(xs: seq<T>, end: int)
    ensures multiset(SliceTo(xs, end)) <= multiset(xs)
    ensures |SliceTo(xs, end)| == if end < 0 then (if |xs| + end < 0 then 0 else |xs| + end) else Min(end, |xs|)
  {
    assert xs == SliceTo(xs, end) + xs[|SliceTo(xs, end)|..];
  }

  lemma CutAndJoin<T>(a: seq<T>, b: seq<T>, k: nat)
    requires k <= |a|
    ensures multiset(a[..k]) + multiset(a[k..] + b) == multiset(a) + multiset(b)
  {
    assert a == a[..k] + a[k..];
  }

  /** Shuffling keeps a list's length, members and allowlisted count. */
  lemma ShuffleKeeps(xs: seq<Builder>, random: Randomness, shuffle: nat, allowlist: set<Address>)
    ensures multiset(ShuffledBy(xs, random, shuffle)) == multiset(xs)
    ensures |ShuffledBy(xs, random, shuffle)| == |xs|
    ensures CountAllowlisted(ShuffledBy(xs, random, shuffle), allowlist) == CountAllowlisted(xs, allowlist)
  {
    ShuffledPermutes(xs, DrawsOf(random, shuffle, |xs|));
    CountOfPermutation(ShuffledBy(xs, random, shuffle), xs, allowlist);
  }

  lemma {:induction false} CountIsFullIff(xs: seq<Builder>, allowlist: set<Address>)
    ensures CountAllowlisted(xs, allowlist) <= |xs|
    ensures CountAllowlisted(xs, allowlist) == |xs|
        ==> forall k :: 0 <= k <= |xs| ==> CountAllowlisted(xs[..k], allowlist) == k
  {
    if xs != [] {
      CountIsFullIff(xs[1..], allowlist);
      if CountAllowlisted(xs, allowlist) == |xs| {
        forall k | 0 <= k <= |xs|
          ensures CountAllowlisted(xs[..k], allowlist) == k
        {
          if k > 0 {
            assert xs[..k][1..] == xs[1..][..k - 1];
          }
        }
      }
    }
  }

  lemma LengthOfSum<T>(a: seq<T>, b: seq<T>, xs: seq<T>)
    requires multiset(a) + multiset(b) == multiset(xs)
    ensures |a| + |b| == |xs|
  {
    assert |multiset(a) + multiset(b)| == |a| + |b|;
    assert |multiset(xs)| == |xs|;
  }

  /** The share is all allowlisted, and with the remainder it is the whole list. */
  lemma ShareIsAllowlisted(c: Config, xs: seq<Builder>, random: Randomness)
    ensures var (share, remaining) := GuaranteedShare(c, xs, random);
      && |share| == Min(c.minAllowlisted, CountAllowlisted(xs, c.allowlist))
      && CountAllowlisted(share, c.allowlist) == |share|
      && multiset(share) + multiset(remaining) == multiset(xs)
  {
    var filtered, rejected := Filtered(xs, c.allowlist, true), Filtered(xs, c.allowlist, false);
    var allowlisted, others := ShuffledBy(filtered, random, 0), ShuffledBy(rejected, random, 1);
    FilterSplits(xs, c.allowlist);
    AllAllowlisted(filtered, c.allowlist);
    ShuffleKeeps(filtered, random, 0, c.allowlist);
    ShuffleKeeps(rejected, random, 1, c.allowlist);
    SplitShare(allowlisted, others, Min(c.minAllowlisted, |allowlisted|), c.allowlist);
  }

  lemma SplitShare(allowlisted: seq<Builder>, others: seq<Builder>, k: nat, allowlist: set<Address>)
    requires k <= |allowlisted| && CountAllowlisted(allowlisted, allowlist) == |allowlisted|
    ensures CountAllowlisted(SliceTo(allowlisted, k), allowlist) == |SliceTo(allowlisted, k)| == k
    ensures multiset(SliceTo(allowlisted, k)) + multiset(allowlisted[k..] + others)
         == multiset(allowlisted) + multiset(others)
  {
    assert SliceTo(allowlisted, k) == allowlisted[..k];
    CountIsFullIff(allowlisted, allowlist);
    CutAndJoin(allowlisted, others, k);
  }

  lemma JoinIsPart(share: seq<Builder>, top: seq<Builder>, remaining: seq<Builder>, allowlist: set<Address>)
    requires multiset(top) <= multiset(remaining)
    ensures multiset(share + top) <= multiset(share) + multiset(remaining)
    ensures CountAllowlisted(share + top, allowlist) >= CountAllowlisted(share, allowlist)
  {
    CountAppend(share, top, allowlist);
  }

  lemma TopIsPart(remaining: seq<Builder>, random: Randomness, end: int, allowlist: set<Address>)
    ensures multiset(SliceTo(ShuffledBy(remaining, random, 2), end)) <= multiset(remaining)
  {
    ShuffleKeeps(remaining, random, 2, allowlist);
    SliceIsPart(ShuffledBy(remaining, random, 2), end);
  }

  lemma PickedIsPart(c: Config, share: seq<Builder>, remaining: seq<Builder>, random: Randomness)
    ensures var r := Picked(c, share, remaining, random);
      && multiset(r) <= multiset(share) + multiset(remaining)
      && CountAllowlisted(r, c.allowlist) >= CountAllowlisted(share, c.allowlist)
  {
    TopIsPart(remaining, random, c.count - |share|, c.allowlist);
    JoinIsPart(share, SliceTo(ShuffledBy(remaining, random, 2), c.count - |share|), remaining, c.allowlist);
  }

  lemma PickedSize(c: Config, share: seq<Builder>, remaining: seq<Builder>, random: Randomness)
    ensures var r, n := Picked(c, share, remaining, random), |share| + |remaining|;
      |r| == if |share| <= c.count then Min(c.count, n) else |share| + Max(0, n - 2 * |share| + c.count)
  {
    ShuffleKeeps(remaining, random, 2, c.allowlist);
    SliceIsPart(ShuffledBy(remaining, random, 2), c.count - |share|);
  }

  /** Guaranteed selection: for all draws the result is a sub-multiset of the input
      with at least `min(minAllowlisted, available)` allowlisted builders, and it has
      `min(count, n)` builders if and only if that share fits into `count`. Else it
      is too long: `slice` drops from the back what the share exceeds `count` by. */
  lemma GuaranteedSelection(c: Config, xs: seq<Builder>, random: Randomness)
    ensures var r := WithGuaranteedAllowlist(c, xs, random);
      var share := Min(c.minAllowlisted, CountAllowlisted(xs, c.allowlist));
      && multiset(r) <= multiset(xs)
      && CountAllowlisted(r, c.allowlist) >= share
      && (|r| == Min(c.count, |xs|) <==> share <= c.count)
      && (share > c.count ==> |r| == share + Max(0, |xs| - 2 * share + c.count))
  {
    if xs != [] {
      var (share, remaining) := GuaranteedShare(c, xs, random);
      ShareIsAllowlisted(c, xs, random);
      LengthOfSum(share, remaining, xs);
      PickedIsPart(c, share, remaining, random);
      PickedSize(c, share, remaining, random);
      ShuffleKeeps(Picked(c, share, remaining, random), random, 3, c.allowlist);
      assert WithGuaranteedAllowlist(c, xs, random) == ShuffledBy(Picked(c, share, remaining, random), random, 3);
    }
  }

  /** One builder is wanted, two allowlisted ones are guaranteed: from these four
      builders any draws select three. */
  lemma OversizedSelection(a: Builder, b: Builder, x: Builder, y: Builder, random: Randomness)
    requires {a.address, b.address} !! {x.address, y.address}
    ensures |WithGuaranteedAllowlist(Config({a.address, b.address}, 1, 2, 0), [a, b, x, y], random)| == 3
  {
    var c, xs := Config({a.address, b.address}, 1, 2, 0), [a, b, x, y];
    assert xs[1..] == [b, x, y] && xs[1..][1..] == [x, y] && xs[1..][1..][1..] == [y];
    assert CountAllowlisted([x, y], c.allowlist) == 0 by {
      assert [x, y][1..] == [y] && CountAllowlisted([y], c.allowlist) == 0;
    }
    assert CountAllowlisted([b, x, y], c.allowlist) == 1;
    GuaranteedSelection(c, xs, random);
  }

  /** The other list modes: a sub-multiset of what they choose from, as large as `count` allows. */
  lemma ListModes(c: Config, xs: seq<Builder>, random: Randomness)
    ensures var only, any := OnlyAllowlist(c, xs, random), RandomBuilders(c, xs, random);
      && multiset(only) <= multiset(Filtered(xs, c.allowlist, true)) <= multiset(xs)
      && |only| == Min(c.count, CountAllowlisted(xs, c.allowlist))
      && multiset(any) <= multiset(xs)
      && |any| == Min(c.count, |xs|)
  {
    var filtered := Filtered(xs, c.allowlist, true);
    FilterSplits(xs, c.allowlist);
    ShuffledPermutes(filtered, DrawsOf(random, 0, |filtered|));
    ShuffledPermutes(xs, DrawsOf(random, 0, |xs|));
    SliceIsPart(ShuffledBy(filtered, random, 0), c.count);
    SliceIsPart(ShuffledBy(xs, random, 0), c.count);
  }

  /** Priority mode throws exactly on an empty list; otherwise it picks one listed
      builder, an allowlisted one exactly when the draw favours them or nobody else is left. */
  lemma PriorityMode(c: Config, xs: seq<Builder>, random: Randomness)
    ensures WithAllowlistPriority(c, xs, random).None? <==> xs == []
    ensures xs != [] ==>
      var r := WithAllowlistPriority(c, xs, random).value;
      var available := CountAllowlisted(xs, c.allowlist);
      && |r| == 1 && r[0] in xs
      && (r[0].address in c.allowlist
          <==> available > 0 && (random(0, 0) % 1000000 < c.threshold || available == |xs|))
  {
    FilterSplits(xs, c.allowlist);
    var allowlisted, others := Filtered(xs, c.allowlist, true), Filtered(xs, c.allowlist, false);
    LengthOfSum(allowlisted, others, xs);
    if xs != [] {
      var b := WithAllowlistPriority(c, xs, random).value[0];
      assert b in allowlisted || b in others;
      SumMembers(allowlisted, others, xs, b);
    }
  }

  lemma SumMembers<T>(a: seq<T>, b: seq<T>, xs: seq<T>, x: T)
    requires multiset(a) + multiset(b) == multiset(xs) && (x in a || x in b)
    ensures x in xs
  {
    assert x in multiset(a) + multiset(b);
  }
}

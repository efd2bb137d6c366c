/** Recovering which deposit ids a relayed message kept, and batching them. */
module DepositExtraction {
  import opened Wrappers

  datatype Hash = Hash(hex: string)

  datatype ValidDeposits = ValidDeposits(depositIds: seq<int>, depositHashes: seq<Hash>)

  datatype ExtractError = StartAfterEnd | InvalidDepositHashesLength

  /** The ids `startId + 1 .. endId`. */
  function IdsAfter(startId: int, endId: int): seq<int>
    decreases endId - startId
  {
    if startId >= endId then [] else IdsAfter(startId, endId - 1) + [endId]
  }

  method GenerateDepositIds(startId: int, endId: int) returns (r: Result<seq<int>, ExtractError>)
    ensures r == if startId > endId then Err(StartAfterEnd) else Ok(IdsAfter(startId, endId))
  {
    if startId > endId {
      return Err(StartAfterEnd);
    }
    var result: seq<int> := [];
    var i := startId + 1;
    while i <= endId
      invariant startId + 1 <= i <= endId + 1
      invariant result == IdsAfter(startId, i - 1)
    {
      result := result + [i];
      i := i + 1;
    }
    return Ok(result);
  }

  /** The ids that are not rejected, in order. */
  function Kept(ids: seq<int>, rejected: seq<int>): seq<int> {
    if ids == [] then []
    else
      var n := |ids| - 1;
      Kept(ids[..n], rejected) + if ids[n] in rejected then [] else [ids[n]]
  }

  /** The id before the first one the message covers. */
  function Previous(last: int, depositHashes: seq<Hash>, rejected: seq<int>): int {
    last - (|depositHashes| + |rejected|)
  }

  /** Pairs each kept id with the next hash, and throws when the hashes run out. */
  method ExtractValidDeposits(last: int, depositHashes: seq<Hash>, rejectedIds: seq<int>)
    returns (r: Result<ValidDeposits, ExtractError>)
    ensures var kept := Kept(IdsAfter(Previous(last, depositHashes, rejectedIds), last), rejectedIds);
      if |kept| <= |depositHashes| then r == Ok(ValidDeposits(kept, depositHashes[..|kept|]))
      else r == Err(InvalidDepositHashesLength)
  {
    var all := GenerateDepositIds(Previous(last, depositHashes, rejectedIds), last);
    var allDepositIds := all.value;
    var depositIds: seq<int> := [];
    var hashes: seq<Hash> := [];
    var validHashIndex := 0;
    for i := 0 to |allDepositIds|
      invariant validHashIndex == |depositIds| <= |depositHashes|
      invariant depositIds == Kept(allDepositIds[..i], rejectedIds)
      invariant hashes == depositHashes[..validHashIndex]
    {
      var depositId := allDepositIds[i];
      assert allDepositIds[..i + 1][..i] == allDepositIds[..i];
      if depositId !in rejectedIds {
        depositIds := depositIds + [depositId];
        if validHashIndex < |depositHashes| {
          hashes := hashes + [depositHashes[validHashIndex]];
          validHashIndex := validHashIndex + 1;
        } else {
          KeptPrefix(allDepositIds, rejectedIds, i + 1);
          return Err(InvalidDepositHashesLength);
        }
      }
    }
    assert allDepositIds[..|allDepositIds|] == allDepositIds;
    return Ok(ValidDeposits(depositIds, hashes));
  }

  lemma {:induction false} KeptPrefix(ids: seq<int>, rejected: seq<int>, i: nat)
    requires i <= |ids|
    ensures |Kept(ids[..i], rejected)| <= |Kept(ids, rejected)|
    decreases |ids| - i
  {
    if i < |ids| {
      assert ids[..i + 1][..i] == ids[..i];
      KeptPrefix(ids, rejected, i + 1);
    } else {
      assert ids[..i] == ids;
    }
  }

  // -------------------------------------------------- when extraction succeeds

  ghost predicate Distinct(s: seq<int>) {
    forall i, j :: 0 <= i < j < |s| ==> s[i] != s[j]
  }

  /** Rejections are sound: pairwise distinct, and all among the covered ids. */
  ghost predicate SoundRejections(rejected: seq<int>, prev: int, last: int) {
    Distinct(rejected) && forall i :: 0 <= i < |rejected| ==> prev < rejected[i] <= last
  }

  function Elements(s: seq<int>): set<int> { set x | x in s }

  /** The rejected ids that are covered at all. */
  function Hit(rejected: seq<int>, prev: int, last: int): set<int> {
    set x | x in rejected && prev < x <= last
  }

  lemma {:induction false} KeptCount(prev: int, last: int, rejected: seq<int>)
    requires prev <= last
    ensures |Kept(IdsAfter(prev, last), rejected)| == last - prev - |Hit(rejected, prev, last)|
    decreases last - prev
  {
    if prev < last {
      KeptCount(prev, last - 1, rejected);
      var ids := IdsAfter(prev, last);
      assert ids[..|ids| - 1] == IdsAfter(prev, last - 1);
      if last in rejected {
        assert Hit(rejected, prev, last) == Hit(rejected, prev, last - 1) + {last};
      } else {
        assert Hit(rejected, prev, last) == Hit(rejected, prev, last - 1);
      }
    } else {
      assert Hit(rejected, prev, last) == {};
    }
  }

  lemma {:induction false} ElementsCount(s: seq<int>)
    ensures |Elements(s)| <= |s|
    ensures |Elements(s)| == |s| <==> Distinct(s)
  {
    if s != [] {
      var n := |s| - 1;
      ElementsCount(s[..n]);
      assert Elements(s) == Elements(s[..n]) + {s[n]};
      DistinctSnoc(s);
      if s[n] in s[..n] {
        assert Elements(s) == Elements(s[..n]);
      }
    } else {
      assert Elements(s) == {};
    }
  }

  lemma DistinctSnoc(s: seq<int>)
    requires s != []
    ensures var init := s[..|s| - 1]; Distinct(s) <==> Distinct(init) && s[|s| - 1] !in init
  {
    var n := |s| - 1;
    if s[n] in s[..n] {
      var i :| 0 <= i < n && s[..n][i] == s[n];
      assert s[i] == s[n];
    }
  }

  lemma SubsetSize(a: set<int>, b: set<int>)
    requires a <= b
    ensures |a| <= |b| && (|a| == |b| <==> a == b)
  {
    assert b == a + (b - a);
    assert |b| == |a| + |b - a|;
  }

  /** The rejections all hit, without repetition, exactly when they are sound. */
  lemma HitsAllIffSound(rejected: seq<int>, prev: int, last: int)
    ensures |Hit(rejected, prev, last)| <= |rejected|
    ensures |Hit(rejected, prev, last)| == |rejected| <==> SoundRejections(rejected, prev, last)
  {
    var hit, all := Hit(rejected, prev, last), Elements(rejected);
    SubsetSize(hit, all);
    ElementsCount(rejected);
    if hit == all {
      forall i | 0 <= i < |rejected|
        ensures prev < rejected[i] <= last
      {
        assert rejected[i] in all;
      }
    } else {
      var x :| x in all && x !in hit;
      var i :| 0 <= i < |rejected| && rejected[i] == x;
      assert !(prev < rejected[i] <= last);
    }
  }

  /** Extraction succeeds if and only if the rejections are sound, and then every
      hash is used. */
  lemma ExtractionSucceedsIff(last: int, depositHashes: seq<Hash>, rejected: seq<int>)
    ensures var prev := Previous(last, depositHashes, rejected);
      var kept := Kept(IdsAfter(prev, last), rejected);
      && (|kept| <= |depositHashes| <==> SoundRejections(rejected, prev, last))
      && |kept| >= |depositHashes|
  {
    var prev := Previous(last, depositHashes, rejected);
    KeptCount(prev, last, rejected);
    HitsAllIffSound(rejected, prev, last);
  }

  lemma {:induction false} IdsAfterAt(prev: int, last: int, x: int)
    ensures x in IdsAfter(prev, last) <==> prev < x <= last
    ensures forall i :: 0 <= i < |IdsAfter(prev, last)| ==> IdsAfter(prev, last)[i] == prev + 1 + i
    ensures |IdsAfter(prev, last)| == if prev < last then last - prev else 0
    decreases last - prev
  {
    if prev < last {
      IdsAfterAt(prev, last - 1, x);
    }
  }

  lemma {:induction false} KeptMembers(ids: seq<int>, rejected: seq<int>, x: int)
    ensures x in Kept(ids, rejected) <==> x in ids && x !in rejected
  {
    if ids != [] {
      var n := |ids| - 1;
      KeptMembers(ids[..n], rejected, x);
      assert ids == ids[..n] + [ids[n]];
    }
  }

  ghost predicate Increasing(s: seq<int>) {
    forall i, j :: 0 <= i < j < |s| ==> s[i] < s[j]
  }

  lemma {:induction false} KeptIncreases(ids: seq<int>, rejected: seq<int>)
    requires Increasing(ids)
    ensures Increasing(Kept(ids, rejected))
  {
    if ids != [] {
      var n := |ids| - 1;
      KeptIncreases(ids[..n], rejected);
      var before := Kept(ids[..n], rejected);
      forall i | 0 <= i < |before|
        ensures before[i] < ids[n]
      {
        KeptMembers(ids[..n], rejected, before[i]);
      }
    }
  }

  /** What is kept is the increasing complement of the rejections. */
  lemma KeptIdsAreTheRest(last: int, depositHashes: seq<Hash>, rejected: seq<int>, x: int)
    ensures var prev := Previous(last, depositHashes, rejected);
      var kept := Kept(IdsAfter(prev, last), rejected);
      && (x in kept <==> prev < x <= last && x !in rejected)
      && Increasing(kept)
  {
    var prev := Previous(last, depositHashes, rejected);
    IdsAfterAt(prev, last, x);
    KeptMembers(IdsAfter(prev, last), rejected, x);
    KeptIncreases(IdsAfter(prev, last), rejected);
  }

  // ---------------------------------------------------------------- batching

  /** One `processDeposits` call. */
  datatype Calldata = Calldata(lastProcessedId: int, hashes: seq<Hash>)

  /** The calls for the deposits from index `i` on. */
  function BatchesFrom(d: ValidDeposits, i: nat, maxBatchSize: nat): seq<Calldata>
    requires maxBatchSize > 0 && |d.depositIds| == |d.depositHashes| && i <= |d.depositIds|
    decreases |d.depositIds| - i
  {
    if i == |d.depositIds| then []
    else
      var next := if i + maxBatchSize < |d.depositIds| then i + maxBatchSize else |d.depositIds|;
      [Calldata(d.depositIds[next - 1], d.depositHashes[i..next])] + BatchesFrom(d, next, maxBatchSize)
  }

  method GenerateBatchedCalldata(d: ValidDeposits, maxBatchSize: nat) returns (batched: seq<Calldata>)
    requires maxBatchSize > 0 && |d.depositIds| == |d.depositHashes|
    ensures batched == BatchesFrom(d, 0, maxBatchSize)
  {
    batched := [];
    if |d.depositIds| == 0 {
      return;
    }
    var i := 0;
    while i < |d.depositIds|
      invariant 0 <= i <= |d.depositIds|
      invariant batched + BatchesFrom(d, i, maxBatchSize) == BatchesFrom(d, 0, maxBatchSize)
    {
      var next := if i + maxBatchSize < |d.depositIds| then i + maxBatchSize else |d.depositIds|;
      var batchDepositIds, batchHashes := d.depositIds[i..next], d.depositHashes[i..next];
      var call := Calldata(batchDepositIds[|batchDepositIds| - 1], batchHashes);
      assert BatchesFrom(d, i, maxBatchSize) == [call] + BatchesFrom(d, next, maxBatchSize);
      batched := batched + [call];
      i := next;
    }
  }

  function AllHashes(bs: seq<Calldata>): seq<Hash> {
    if bs == [] then [] else bs[0].hashes + AllHashes(bs[1..])
  }

  /** The number of hashes in the first `n` batches. */
  function Sent(bs: seq<Calldata>, n: nat): nat
    requires n <= |bs|
  {
    if n == 0 then 0 else |bs[0].hashes| + Sent(bs[1..], n - 1)
  }

  /** Batching loses, repeats and reorders nothing. */
  lemma {:induction false} BatchesCoverDeposits(d: ValidDeposits, i: nat, maxBatchSize: nat)
    requires maxBatchSize > 0 && |d.depositIds| == |d.depositHashes| && i <= |d.depositIds|
    ensures AllHashes(BatchesFrom(d, i, maxBatchSize)) == d.depositHashes[i..]
    decreases |d.depositIds| - i
  {
    if i < |d.depositIds| {
      var next := if i + maxBatchSize < |d.depositIds| then i + maxBatchSize else |d.depositIds|;
      assert BatchesFrom(d, i, maxBatchSize)[1..] == BatchesFrom(d, next, maxBatchSize);
      assert d.depositHashes[i..] == d.depositHashes[i..next] + d.depositHashes[next..];
      BatchesCoverDeposits(d, next, maxBatchSize);
    }
  }

  /** It fills every batch but the last, leaves none empty, and each call names the id
      of its own last hash. */
  lemma {:induction false} BatchesAreFull(d: ValidDeposits, i: nat, maxBatchSize: nat, k: nat)
    requires maxBatchSize > 0 && |d.depositIds| == |d.depositHashes| && i <= |d.depositIds|
    requires k < |BatchesFrom(d, i, maxBatchSize)|
    ensures var bs := BatchesFrom(d, i, maxBatchSize);
      && 0 < |bs[k].hashes| <= maxBatchSize
      && (k + 1 < |bs| ==> |bs[k].hashes| == maxBatchSize)
      && 0 < Sent(bs, k + 1) <= |d.depositIds| - i
      && bs[k].lastProcessedId == d.depositIds[i + Sent(bs, k + 1) - 1]
    decreases |d.depositIds| - i
  {
    var next := if i + maxBatchSize < |d.depositIds| then i + maxBatchSize else |d.depositIds|;
    var bs := BatchesFrom(d, i, maxBatchSize);
    assert bs[1..] == BatchesFrom(d, next, maxBatchSize);
    if k > 0 {
      BatchesAreFull(d, next, maxBatchSize, k - 1);
    }
    assert Sent(bs, k + 1) == next - i + Sent(bs[1..], k);
  }
}

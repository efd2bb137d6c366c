/** The block-range scanner every job reads the chain with: a window is cut into
    block ranges, the ranges are queried ten at a time, and any failed query
    restarts the whole scan with half the range size. */
module Scanner {
  import opened Wrappers

  /** One event log: the block that emitted it and its decoded arguments. */
  datatype Entry<+T> = Entry(block: nat, data: T)

  datatype BlockRange = BlockRange(from: int, to: int)

  const BATCH_SIZE := 10

  ghost predicate ChainOrdered<T(!new)>(log: seq<Entry<T>>) {
    forall i, j :: 0 <= i < j < |log| ==> log[i].block <= log[j].block
  }

  /** A single `getLogs` query over the blocks `from..to`, both inclusive. */
  function LogsIn<T(!new)>(log: seq<Entry<T>>, from: int, to: int): seq<Entry<T>>
  {
    if log == [] then []
    else
      var rest := LogsIn(log[1..], from, to);
      if from <= log[0].block <= to then [log[0]] + rest else rest
  }

  /** How many entries of a chain-ordered log lie before block `b`. */
  function Cut<T(!new)>(log: seq<Entry<T>>, b: int): (n: nat)
    ensures n <= |log|
    ensures forall i :: 0 <= i < n ==> log[i].block < b
    ensures n < |log| ==> log[n].block >= b
  {
    if log == [] || log[0].block >= b then 0 else 1 + Cut(log[1..], b)
  }

  lemma CutUnique<T(!new)>(log: seq<Entry<T>>, b: int, n: nat)
    requires ChainOrdered(log) && n <= |log|
    requires (n > 0 ==> log[n - 1].block < b) && (n < |log| ==> log[n].block >= b)
    ensures Cut(log, b) == n
  {
  }

  /** Entries appended at or after block `b` do not move the cut at `b`. */
  lemma CutOfExtension<T(!new)>(log: seq<Entry<T>>, log': seq<Entry<T>>, b: int)
    requires ChainOrdered(log') && log <= log'
    requires |log| < |log'| ==> log'[|log|].block >= b
    ensures Cut(log', b) == Cut(log, b)
    ensures log'[..Cut(log, b)] == log[..Cut(log, b)]
  {
    var n := Cut(log, b);
    assert n < |log| ==> log'[n] == log[n];
    assert n > 0 ==> log'[n - 1] == log[n - 1];
    CutUnique(log', b, n);
    PrefixSlice(log, log', n);
  }

  lemma PrefixSlice<T>(a: seq<T>, b: seq<T>, n: nat)
    requires a <= b && n <= |a|
    ensures b[..n] == a[..n]
  {
  }

  lemma {:induction false} LogsInMembers<T(!new)>(log: seq<Entry<T>>, from: int, to: int, e: Entry<T>)
    ensures e in LogsIn(log, from, to) <==> e in log && from <= e.block <= to
  {
    if log != [] {
      LogsInMembers(log[1..], from, to, e);
      assert e in log <==> e == log[0] || e in log[1..];
    }
  }

  /** On a chain-ordered log a query returns one contiguous slice, in order. */
  lemma {:induction false} LogsInIsSlice<T(!new)>(log: seq<Entry<T>>, from: int, to: int)
    requires ChainOrdered(log) && from <= to + 1
    ensures Cut(log, from) <= Cut(log, to + 1)
    ensures LogsIn(log, from, to) == log[Cut(log, from)..Cut(log, to + 1)]
  {
    if log != [] {
      var rest := log[1..];
      assert ChainOrdered(rest);
      LogsInIsSlice(rest, from, to);
      if log[0].block >= from {
        CutUnique(rest, from, 0);
      }
      if log[0].block > to {
        CutUnique(rest, to + 1, 0);
      } else {
        assert log[1..][..Cut(rest, to + 1)] == log[1..Cut(log, to + 1)];
      }
    }
  }

  lemma {:induction false} EmptyWindow<T(!new)>(log: seq<Entry<T>>, from: int, to: int)
    requires from > to
    ensures LogsIn(log, from, to) == []
  {
    if log != [] {
      EmptyWindow(log[1..], from, to);
    }
  }

  /** The ranges that `CreateBlockRanges` produces. */
  function BlockRanges(start: int, end: int, size: nat): (rs: seq<BlockRange>)
    decreases end - start
  {
    if start > end then []
    else
      var last := if start + size > end then end else start + size;
      [BlockRange(start, last)] + BlockRanges(last + 1, end, size)
  }

  /** `rs` partitions `from..to` into adjacent non-empty ranges. */
  ghost predicate Tiles(rs: seq<BlockRange>, from: int, to: int) {
    && (rs == [] <==> from > to)
    && (rs != [] ==> rs[0].from == from && rs[|rs| - 1].to == to)
    && (forall i :: 0 <= i < |rs| ==> rs[i].from <= rs[i].to)
    && (forall i :: 0 < i < |rs| ==> rs[i].from == rs[i - 1].to + 1)
  }

  /** The ranges tile the window with ranges of at most `size + 1` blocks. */
  lemma {:induction false} BlockRangesTile(start: int, end: int, size: nat)
    ensures Tiles(BlockRanges(start, end, size), start, end)
    ensures forall rg :: rg in BlockRanges(start, end, size) ==> rg.to - rg.from <= size
    decreases end - start
  {
    if start <= end {
      var last := if start + size > end then end else start + size;
      BlockRangesTile(last + 1, end, size);
    }
  }

  /** The number of ranges is the window's length over `size + 1`, rounded up. */
  lemma {:induction false} BlockRangesCount(start: int, end: int, size: nat)
    requires start <= end
    ensures var n := |BlockRanges(start, end, size)|;
      (n - 1) * (size + 1) < end - start + 1 <= n * (size + 1)
    decreases end - start
  {
    if start + size < end {
      BlockRangesCount(start + size + 1, end, size);
      var n := |BlockRanges(start + size + 1, end, size)|;
      assert (n + 1) * (size + 1) == n * (size + 1) + (size + 1);
      assert (n - 1) * (size + 1) == n * (size + 1) - (size + 1);
    } else {
      assert BlockRanges(start, end, size) == [BlockRange(start, end)];
    }
  }

  method CreateBlockRanges(fromBlockNumber: int, latestBlockNumber: int, contractEventBatchSize: nat)
    returns (ranges: seq<BlockRange>)
    ensures ranges == BlockRanges(fromBlockNumber, latestBlockNumber, contractEventBatchSize)
  {
    ranges := [];
    if fromBlockNumber > latestBlockNumber {
      return;
    }
    var currentFromBlock := fromBlockNumber;
    while currentFromBlock <= latestBlockNumber
      invariant ranges + BlockRanges(currentFromBlock, latestBlockNumber, contractEventBatchSize)
             == BlockRanges(fromBlockNumber, latestBlockNumber, contractEventBatchSize)
      decreases latestBlockNumber - currentFromBlock
    {
      var chunkToBlock := if currentFromBlock + contractEventBatchSize > latestBlockNumber
                          then latestBlockNumber
                          else currentFromBlock + contractEventBatchSize;
      ranges := ranges + [BlockRange(currentFromBlock, chunkToBlock)];
      currentFromBlock := chunkToBlock + 1;
    }
  }

  /** The results of querying each range in turn. */
  function Scan<T(!new)>(log: seq<Entry<T>>, rs: seq<BlockRange>): seq<Entry<T>> {
    if rs == [] then [] else LogsIn(log, rs[0].from, rs[0].to) + Scan(log, rs[1..])
  }

  lemma {:induction false} ScanAppend<T(!new)>(log: seq<Entry<T>>, rs: seq<BlockRange>, rs': seq<BlockRange>)
    ensures Scan(log, rs + rs') == Scan(log, rs) + Scan(log, rs')
  {
    if rs == [] {
      assert rs + rs' == rs';
    } else {
      assert (rs + rs')[1..] == rs[1..] + rs';
      ScanAppend(log, rs[1..], rs');
    }
  }

  /** Two adjacent windows read what the joined window reads. */
  lemma AdjacentWindows<T(!new)>(log: seq<Entry<T>>, from: int, mid: int, to: int)
    requires ChainOrdered(log) && from <= mid + 1 && mid <= to
    ensures LogsIn(log, from, mid) + LogsIn(log, mid + 1, to) == LogsIn(log, from, to)
  {
    LogsInIsSlice(log, from, mid);
    LogsInIsSlice(log, mid + 1, to);
    LogsInIsSlice(log, from, to);
  }

  /** Any tiling reads exactly what a single query over the window reads. */
  lemma {:induction false} TilingScansWindow<T(!new)>(log: seq<Entry<T>>, rs: seq<BlockRange>, from: int, to: int)
    requires ChainOrdered(log) && Tiles(rs, from, to)
    ensures Scan(log, rs) == LogsIn(log, from, to)
  {
    if rs == [] {
      EmptyWindow(log, from, to);
    } else {
      var mid := rs[0].to;
      assert forall i :: 0 <= i < |rs| - 1 ==> rs[1..][i] == rs[i + 1];
      if |rs| > 1 {
        TileEndsGrow(rs, from, to, 0);
        TilingScansWindow(log, rs[1..], mid + 1, to);
        AdjacentWindows(log, from, mid, to);
      } else {
        assert Scan(log, rs[1..]) == [];
      }
    }
  }

  lemma {:induction false} TileEndsGrow(rs: seq<BlockRange>, from: int, to: int, i: nat)
    requires Tiles(rs, from, to) && i < |rs|
    ensures rs[i].to <= to && (i + 1 < |rs| ==> rs[i].to < to)
    decreases |rs| - i
  {
    if i + 1 < |rs| {
      TileEndsGrow(rs, from, to, i + 1);
      assert rs[i + 1].from == rs[i].to + 1;
    }
  }

  /** Which RPC queries fail: by retries left, and by the range queried. */
  type Faults = (nat, BlockRange) -> bool

  ghost predicate RoundFails(faults: Faults, retriesLeft: nat, rs: seq<BlockRange>) {
    exists i :: 0 <= i < |rs| && faults(retriesLeft, rs[i])
  }

  lemma RoundFailsAppend(faults: Faults, retriesLeft: nat, rs: seq<BlockRange>, rs': seq<BlockRange>)
    requires !RoundFails(faults, retriesLeft, rs) && !RoundFails(faults, retriesLeft, rs')
    ensures !RoundFails(faults, retriesLeft, rs + rs')
  {
  }

  /** The range size after `n` restarts. */
  function Halved(blockRange: nat, n: nat): nat {
    if n == 0 then blockRange else Halved(blockRange / 2, n - 1)
  }

  /** Round `n` of a scan: the query set after `n` restarts meets no fault. */
  ghost predicate RoundSucceeds(faults: Faults, start: int, end: int, blockRange: nat, maxRetries: nat, n: nat) {
    n <= maxRetries && !RoundFails(faults, maxRetries - n, BlockRanges(start, end, Halved(blockRange, n)))
  }

  /** `Promise.all` over one batch of ranges: all results in order, or a failure. */
  method QueryBatch<T(!new)>(log: seq<Entry<T>>, batch: seq<BlockRange>, faults: Faults, retriesLeft: nat)
    returns (r: Option<seq<Entry<T>>>)
    ensures r.None? <==> RoundFails(faults, retriesLeft, batch)
    ensures r.Some? ==> r.value == Scan(log, batch)
  {
    var events: seq<Entry<T>> := [];
    for i := 0 to |batch|
      invariant !RoundFails(faults, retriesLeft, batch[..i])
      invariant events == Scan(log, batch[..i])
    {
      if faults(retriesLeft, batch[i]) {
        return None;
      }
      ScanAppend(log, batch[..i], [batch[i]]);
      assert batch[..i + 1] == batch[..i] + [batch[i]];
      assert Scan(log, [batch[i]]) == LogsIn(log, batch[i].from, batch[i].to) + Scan(log, []);
      events := events + LogsIn(log, batch[i].from, batch[i].to);
    }
    assert batch[..|batch|] == batch;
    return Some(events);
  }

  /** The scan loop of one round, `BATCH_SIZE` ranges at a time. */
  method ScanRound<T(!new)>(log: seq<Entry<T>>, ranges: seq<BlockRange>, faults: Faults, retriesLeft: nat)
    returns (r: Option<seq<Entry<T>>>)
    ensures r.None? <==> RoundFails(faults, retriesLeft, ranges)
    ensures r.Some? ==> r.value == Scan(log, ranges)
  {
    var events: seq<Entry<T>> := [];
    var i := 0;
    while i < |ranges|
      invariant 0 <= i <= |ranges|
      invariant !RoundFails(faults, retriesLeft, ranges[..i])
      invariant events == Scan(log, ranges[..i])
    {
      var next := if i + BATCH_SIZE < |ranges| then i + BATCH_SIZE else |ranges|;
      var batch := ranges[i..next];
      var batchResults := QueryBatch(log, batch, faults, retriesLeft);
      if batchResults.None? {
        assert forall k :: 0 <= k < |batch| ==> batch[k] == ranges[i + k];
        return None;
      }
      ScanAppend(log, ranges[..i], batch);
      RoundFailsAppend(faults, retriesLeft, ranges[..i], batch);
      assert ranges[..next] == ranges[..i] + batch;
      events := events + batchResults.value;
      i := next;
    }
    assert ranges[..|ranges|] == ranges;
    return Some(events);
  }

  /** Whatever queries fail, a scan that returns has read exactly the window,
      once and in chain order; it returns exactly when one of its at most
      `maxRetries + 1` rounds meets no fault, and stops at the first such. */
  method FetchEvents<T(!new)>(log: seq<Entry<T>>, startBlockNumber: int, endBlockNumber: int,
                        blockRange: nat, maxRetries: nat, faults: Faults)
    returns (r: Option<seq<Entry<T>>>, rounds: nat)
    requires ChainOrdered(log)
    ensures r.Some? ==> r.value == LogsIn(log, startBlockNumber, endBlockNumber)
    ensures r.Some? <==> exists n :: RoundSucceeds(faults, startBlockNumber, endBlockNumber, blockRange, maxRetries, n)
    ensures 1 <= rounds <= maxRetries + 1
    ensures forall n :: 0 <= n < rounds - 1 ==>
              !RoundSucceeds(faults, startBlockNumber, endBlockNumber, blockRange, maxRetries, n)
    ensures r.Some? ==> RoundSucceeds(faults, startBlockNumber, endBlockNumber, blockRange, maxRetries, rounds - 1)
    decreases maxRetries
  {
    var blockRanges := CreateBlockRanges(startBlockNumber, endBlockNumber, blockRange);
    r := ScanRound(log, blockRanges, faults, maxRetries);
    rounds := 1;
    if r.Some? {
      BlockRangesTile(startBlockNumber, endBlockNumber, blockRange);
      TilingScansWindow(log, blockRanges, startBlockNumber, endBlockNumber);
      assert RoundSucceeds(faults, startBlockNumber, endBlockNumber, blockRange, maxRetries, 0);
      return;
    }
    assert !RoundSucceeds(faults, startBlockNumber, endBlockNumber, blockRange, maxRetries, 0);
    if maxRetries > 0 {
      r, rounds := FetchEvents(log, startBlockNumber, endBlockNumber, blockRange / 2, maxRetries - 1, faults);
      rounds := rounds + 1;
      assert forall n: nat :: n > 0 ==>
        (RoundSucceeds(faults, startBlockNumber, endBlockNumber, blockRange, maxRetries, n)
         <==> RoundSucceeds(faults, startBlockNumber, endBlockNumber, blockRange / 2, maxRetries - 1, n - 1));
      assert r.Some? ==> RoundSucceeds(faults, startBlockNumber, endBlockNumber, blockRange, maxRetries, rounds - 1);
      return;
    }
  }

  function Pow2(n: nat): (p: nat)
    ensures p > 0
  {
    if n == 0 then 1 else 2 * Pow2(n - 1)
  }

  /** After `n` restarts the range is the first one divided by 2 to the `n`, rounded down. */
  lemma {:induction false} HalvedIs(blockRange: nat, n: nat)
    ensures Halved(blockRange, n) * Pow2(n) <= blockRange < (Halved(blockRange, n) + 1) * Pow2(n)
    decreases n
  {
    if n > 0 {
      HalvedIs(blockRange / 2, n - 1);
      HalveOnce(blockRange, Halved(blockRange / 2, n - 1), Pow2(n - 1));
    }
  }

  lemma HalveOnce(blockRange: nat, h: nat, p: nat)
    requires h * p <= blockRange / 2 < (h + 1) * p
    ensures h * (2 * p) <= blockRange < (h + 1) * (2 * p)
  {
    assert h * (2 * p) == 2 * (h * p);
    assert (h + 1) * (2 * p) == 2 * ((h + 1) * p);
  }

  lemma ProductGrows(a: nat, b: nat, p: nat)
    requires a <= b
    ensures a * p <= b * p
  {
  }

  /** A provider that rejects only ranges wider than `cap` blocks is recovered from
      if enough retries are left to halve the range that far. */
  lemma WideRangeRejectionsRecover(faults: Faults, start: int, end: int, blockRange: nat, maxRetries: nat, cap: nat)
    requires forall k, rg :: faults(k, rg) ==> rg.to - rg.from + 1 > cap
    requires blockRange < cap * Pow2(maxRetries)
    ensures exists n :: RoundSucceeds(faults, start, end, blockRange, maxRetries, n)
  {
    var h := Halved(blockRange, maxRetries);
    HalvedIs(blockRange, maxRetries);
    if h >= cap {
      ProductGrows(cap, h, Pow2(maxRetries));
    }
    BlockRangesTile(start, end, h);
    assert RoundSucceeds(faults, start, end, blockRange, maxRetries, maxRetries);
  }
}

/** The deposit-analyzer job: what one run reads, how it batches the new
    deposits, and the relay and cursor writes it then performs. */
module DepositAnalyzer {
  import opened Wrappers
  import opened Scanner
  import opened EventStore
  import opened Liquidity

  const BASE_GAS := 220000
  const PER_DEPOSIT_GAS := 20000
  const BUFFER_GAS := 100000

  /** `batchSize` is MAX_DEPOSIT_BATCH_SIZE. */
  datatype Config = Config(deployed: nat, batchSize: nat)

  datatype Batch = Batch(upToDepositId: nat, numDepositsToRelay: int, gasLimit: int, blockNumber: nat)

  datatype Summary = Summary(shouldSubmit: bool, batches: seq<Batch>)

  datatype SplitError = NoMaxDepositId | DepositNotFound(depositId: nat)

  // ---------------------------------------------------------------- reading

  function DepositsAbove(events: seq<Entry<Deposit>>, depositId: nat): seq<Entry<Deposit>> {
    if events == [] then []
    else (if events[0].data.depositId > depositId then [events[0]] else []) + DepositsAbove(events[1..], depositId)
  }

  /** A first run, without a stored cursor, skips what the contract has already relayed. */
  function GetDepositedEvent(l: Ledger, start: nat, current: nat, doc: Option<EventDoc>): seq<Entry<Deposit>> {
    var depositEvents := LogsIn(l.deposits, start, current);
    if depositEvents != [] && doc.None?
    then DepositsAbove(depositEvents, LastRelayedAt(l, current))
    else depositEvents
  }

  function GetMaxDepositId(relays: seq<Entry<nat>>): nat {
    if relays == [] then 0
    else
      var max := GetMaxDepositId(relays[1..]);
      if relays[0].data > max then relays[0].data else max
  }

  /** The greatest listed id, 0 if none is listed. */
  lemma {:induction false} MaxIsGreatest(relays: seq<Entry<nat>>, bound: nat)
    ensures GetMaxDepositId(relays) >= bound <==> bound == 0 || exists r :: r in relays && r.data >= bound
  {
    if relays != [] {
      MaxIsGreatest(relays[1..], bound);
      assert forall r :: r in relays <==> r == relays[0] || r in relays[1..];
    }
  }

  // --------------------------------------------------------------- batching

  function MaxId(events: seq<Entry<Deposit>>): nat {
    if events == [] then 0
    else
      var max := MaxId(events[1..]);
      if events[0].data.depositId > max then events[0].data.depositId else max
  }

  function MinId(events: seq<Entry<Deposit>>): nat
    requires events != []
  {
    if |events| == 1 then events[0].data.depositId
    else
      var min := MinId(events[1..]);
      if events[0].data.depositId < min then events[0].data.depositId else min
  }

  /** The block of the first listed event with the given id. */
  function GetEventBlockNumber(events: seq<Entry<Deposit>>, depositId: nat): Option<nat> {
    if events == [] then None
    else if events[0].data.depositId == depositId then Some(events[0].block)
    else GetEventBlockNumber(events[1..], depositId)
  }

  function CalculateGasLimit(numDepositsToRelay: int): int {
    BASE_GAS + PER_DEPOSIT_GAS * numDepositsToRelay + BUFFER_GAS
  }

  /** The last id of the batch that starts at `first`. */
  function BatchEnd(first: nat, max: nat, batchSize: nat): nat
    requires batchSize > 0
  {
    if first + batchSize > max then max else first + batchSize - 1
  }

  function SplitFrom(events: seq<Entry<Deposit>>, first: nat, max: nat, current: nat, batchSize: nat)
    : Result<seq<Batch>, SplitError>
    requires batchSize > 0
    decreases max + 1 - first
  {
    if first > max then Ok([])
    else
      var upTo := BatchEnd(first, max, batchSize);
      match GetEventBlockNumber(events, upTo)
      case None => Err(DepositNotFound(upTo))
      case Some(blockNumber) =>
        var batch := Batch(upTo, upTo - first + 1, CalculateGasLimit(upTo - first + 1),
                           if upTo == max then current else blockNumber);
        match SplitFrom(events, upTo + 1, max, current, batchSize)
        case Err(e) => Err(e)
        case Ok(rest) => Ok([batch] + rest)
  }

  function DepositSummary(events: seq<Entry<Deposit>>, lastUpToDepositId: nat, current: nat, batchSize: nat)
    : Result<Summary, SplitError>
    requires batchSize > 0
  {
    var max := MaxId(events);
    if max == 0 then Err(NoMaxDepositId)
    else if lastUpToDepositId >= max then Ok(Summary(false, []))
    else
      match SplitFrom(events, MinId(events), max, current, batchSize)
      case Err(e) => Err(e)
      case Ok(batches) => Ok(Summary(true, batches))
  }

  function GenerateDepositIds(min: nat, max: nat): seq<nat>
    requires min <= max
  {
    seq(max - min + 1, i requires 0 <= i => min + i)
  }

  lemma {:induction false} MinIdAtMostMaxId(events: seq<Entry<Deposit>>)
    requires events != []
    ensures MinId(events) <= MaxId(events)
  {
    if |events| > 1 {
      MinIdAtMostMaxId(events[1..]);
    }
  }

  /** `whole` is what prepending `done` to `rest` gives. */
  ghost predicate Continues(whole: Result<seq<Batch>, SplitError>, done: seq<Batch>,
                            rest: Result<seq<Batch>, SplitError>) {
    match rest
    case Err(e) => whole == Err(e)
    case Ok(batches) => whole.Ok? && whole.value == done + batches
  }

  /** No batch is empty or above the batch size. */
  ghost predicate CountsInRange(batches: seq<Batch>, batchSize: nat) {
    forall i :: 0 <= i < |batches| ==> 1 <= batches[i].numDepositsToRelay <= batchSize
  }

  method SplitDepositSummary(events: seq<Entry<Deposit>>, lastUpToDepositId: nat, current: nat, batchSize: nat)
    returns (r: Result<Summary, SplitError>)
    requires batchSize > 0
    ensures r == DepositSummary(events, lastUpToDepositId, current, batchSize)
    ensures r.Ok? ==> CountsInRange(r.value.batches, batchSize)
  {
    var max := MaxId(events);
    if max == 0 {
      return Err(NoMaxDepositId);
    }
    var min := MinId(events);
    if lastUpToDepositId >= max {
      return Ok(Summary(false, []));
    }
    MinIdAtMostMaxId(events);
    var batches: seq<Batch> := [];
    var depositIds := GenerateDepositIds(min, max);
    var currentStart := min;
    var i := 0;
    while i < |depositIds|
      invariant 0 <= i && currentStart <= max + 1
      invariant currentStart == if i < |depositIds| then min + i else max + 1
      invariant Continues(SplitFrom(events, min, max, current, batchSize), batches,
                          SplitFrom(events, currentStart, max, current, batchSize))
    {
      var isLastBatch := i + batchSize >= |depositIds|;
      var batchDepositIds := depositIds[i..if isLastBatch then |depositIds| else i + batchSize];
      var upTo := if isLastBatch then max else batchDepositIds[|batchDepositIds| - 1];
      var numDepositsToRelay := upTo - currentStart + 1;
      assert numDepositsToRelay > 0;  // so the guard against a negative count never fires
      var blockNumber := GetEventBlockNumber(events, upTo);
      if blockNumber.None? {
        return Err(DepositNotFound(upTo));
      }
      batches := batches + [Batch(upTo, numDepositsToRelay, CalculateGasLimit(numDepositsToRelay),
                                  if isLastBatch then current else blockNumber.value)];
      currentStart := upTo + 1;
      i := i + batchSize;
    }
    assert batches + [] == batches;
    SplitCounts(events, min, max, current, batchSize);
    return Ok(Summary(true, batches));
  }

  /** The ids the batches end at must all be listed: the only way a split of a
      non-empty window fails. */
  ghost predicate BoundariesListed(events: seq<Entry<Deposit>>, first: nat, max: nat, batchSize: nat)
    requires batchSize > 0
    decreases max + 1 - first
  {
    first <= max ==>
      && GetEventBlockNumber(events, BatchEnd(first, max, batchSize)).Some?
      && BoundariesListed(events, BatchEnd(first, max, batchSize) + 1, max, batchSize)
  }

  function Total(batches: seq<Batch>): int {
    if batches == [] then 0 else batches[0].numDepositsToRelay + Total(batches[1..])
  }

  /** For any event list, with gaps or duplicates too: a split succeeds exactly
      when every boundary id is listed, and then its batches count each id of
      `first..max` once, are full but the last, and end at `max` and `current`. */
  lemma {:induction false} SplitPartitionsIds(events: seq<Entry<Deposit>>, first: nat, max: nat, current: nat,
                                              batchSize: nat)
    requires batchSize > 0 && first <= max
    ensures SplitFrom(events, first, max, current, batchSize).Ok? <==> BoundariesListed(events, first, max, batchSize)
    ensures match SplitFrom(events, first, max, current, batchSize)
      case Err(_) => true
      case Ok(batches) =>
        && batches != []
        && Total(batches) == max - first + 1
        && batches[|batches| - 1].upToDepositId == max
        && batches[|batches| - 1].blockNumber == current
        && CountsInRange(batches, batchSize)
        && (forall i :: 0 <= i < |batches| ==>
              && (i + 1 < |batches| ==> batches[i].numDepositsToRelay == batchSize)
              && batches[i].gasLimit == 320000 + 20000 * batches[i].numDepositsToRelay
              && batches[i].upToDepositId
                 == (if i == 0 then first - 1 else batches[i - 1].upToDepositId) + batches[i].numDepositsToRelay)
    decreases max + 1 - first
  {
    var upTo := BatchEnd(first, max, batchSize);
    if upTo < max {
      SplitPartitionsIds(events, upTo + 1, max, current, batchSize);
    } else {
      assert SplitFrom(events, upTo + 1, max, current, batchSize) == Ok([]);
    }
  }

  lemma SplitCounts(events: seq<Entry<Deposit>>, first: nat, max: nat, current: nat, batchSize: nat)
    requires batchSize > 0 && first <= max
    ensures var r := SplitFrom(events, first, max, current, batchSize);
      r.Ok? ==> CountsInRange(r.value, batchSize)
  {
    SplitPartitionsIds(events, first, max, current, batchSize);
  }

  // ------------------------------------------------------ the effects of a run

  datatype Effect =
    | RelayCall(upToDepositId: nat, numDepositsToRelay: int, gasLimit: int)
    | WriteCursor(blockNumber: nat)

  function EffectsOf(batches: seq<Batch>): seq<Effect> {
    if batches == [] then []
    else
      var b := batches[0];
      [RelayCall(b.upToDepositId, b.numDepositsToRelay, b.gasLimit), WriteCursor(b.blockNumber)]
      + EffectsOf(batches[1..])
  }

  /** Everything a run that observes block `current` will try to do, in order.
      All its reads are at or below `current`, so they cannot change while it runs. */
  function Plan(c: Config, l: Ledger, doc: Option<EventDoc>, current: nat): seq<Effect>
    requires c.batchSize > 0
  {
    var start := GetStartBlockNumber(doc, c.deployed);
    if start > current then []
    else
      var events := GetDepositedEvent(l, start, current, doc);
      if events == [] then [WriteCursor(current)]
      else
        match DepositSummary(events, GetMaxDepositId(LogsIn(l.relays, start, current)), current, c.batchSize)
        case Err(_) => []
        case Ok(summary) => EffectsOf(summary.batches)
  }

  datatype State = State(ledger: Ledger, doc: Option<EventDoc>, pending: seq<Effect>)

  /** One effect of the running job. An out-of-range relay throws, which ends the run. */
  function Perform(s: State): State {
    if s.pending == [] then s
    else
      match s.pending[0]
      case RelayCall(upTo, _, _) => (
        match RelayDeposits(s.ledger, upTo)
        case None => s.(pending := [])
        case Some(l) => s.(ledger := l, pending := s.pending[1..]))
      case WriteCursor(b) =>
        s.(doc := Some(Merge(s.doc, b, None)), pending := s.pending[1..])
  }

  /** The first `n` effects of the running job, uninterrupted. */
  function PerformMany(s: State, n: nat): State
    decreases n
  {
    if n == 0 then s else PerformMany(Perform(s), n - 1)
  }
}

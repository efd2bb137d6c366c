/** The deposit-analyzer over whole histories: deposits, runs and crashes at any
    point, in any order. */
module AnalyzerSafety {
  import opened Wrappers
  import opened Scanner
  import opened EventStore
  import opened Liquidity
  import opened DepositAnalyzer

  // ------------------------------------------ what a run reads from a valid ledger

  ghost predicate Numbered(d: seq<Entry<Deposit>>) {
    forall i :: 0 <= i < |d| ==> d[i].data.depositId == i + 1
  }

  lemma {:induction false} SliceExtremes(d: seq<Entry<Deposit>>, lo: nat, hi: nat)
    requires Numbered(d) && lo < hi <= |d|
    ensures MaxId(d[lo..hi]) == hi && MinId(d[lo..hi]) == lo + 1
    decreases hi - lo
  {
    assert d[lo..hi][1..] == d[lo + 1..hi];
    if lo + 1 < hi {
      SliceExtremes(d, lo + 1, hi);
    } else {
      assert MaxId(d[lo + 1..hi]) == 0;
    }
  }

  lemma {:induction false} SliceLookup(d: seq<Entry<Deposit>>, lo: nat, hi: nat, id: nat)
    requires Numbered(d) && lo < id <= hi <= |d|
    ensures GetEventBlockNumber(d[lo..hi], id) == Some(d[id - 1].block)
    decreases hi - lo
  {
    assert d[lo..hi][1..] == d[lo + 1..hi];
    if lo + 1 < id {
      SliceLookup(d, lo + 1, hi, id);
    }
  }

  lemma {:induction false} SliceAbove(d: seq<Entry<Deposit>>, lo: nat, hi: nat, id: nat)
    requires Numbered(d) && lo <= hi <= |d| && id <= hi
    ensures DepositsAbove(d[lo..hi], id) == d[if lo < id then id else lo..hi]
    decreases hi - lo
  {
    if lo < hi {
      assert d[lo..hi][1..] == d[lo + 1..hi];
      SliceAbove(d, lo + 1, hi, id);
      if lo >= id {
        assert [d[lo]] + d[lo + 1..hi] == d[lo..hi];
      }
    }
  }

  /** How many deposits lie before a run's window: those ids need no relaying by it. */
  function Skipped(c: Config, l: Ledger, doc: Option<EventDoc>, current: nat): nat {
    var before := Cut(l.deposits, GetStartBlockNumber(doc, c.deployed));
    if doc.None? && before < LastRelayedAt(l, current) then LastRelayedAt(l, current) else before
  }

  /** How many deposits exist at the end of block `current`. */
  function Deposited(l: Ledger, current: nat): nat { Cut(l.deposits, current + 1) }

  /** The relay and cursor writes for the ids `first..max`. */
  function Schedule(l: Ledger, first: nat, max: nat, current: nat, batchSize: nat): seq<Effect>
    requires batchSize > 0 && 0 < first && max <= |l.deposits|
    decreases max + 1 - first
  {
    if first > max then []
    else
      var upTo := BatchEnd(first, max, batchSize);
      [RelayCall(upTo, upTo - first + 1, CalculateGasLimit(upTo - first + 1)),
       WriteCursor(if upTo == max then current else l.deposits[upTo - 1].block)]
      + Schedule(l, upTo + 1, max, current, batchSize)
  }

  lemma {:induction false} SplitIsSchedule(l: Ledger, lo: nat, first: nat, max: nat, current: nat, batchSize: nat)
    requires batchSize > 0 && Numbered(l.deposits) && lo < first <= max + 1 && max <= |l.deposits|
    ensures var r := SplitFrom(l.deposits[lo..max], first, max, current, batchSize);
      r.Ok? && EffectsOf(r.value) == Schedule(l, first, max, current, batchSize)
    decreases max + 1 - first
  {
    if first <= max {
      var upTo := BatchEnd(first, max, batchSize);
      SliceLookup(l.deposits, lo, max, upTo);
      SplitIsSchedule(l, lo, upTo + 1, max, current, batchSize);
      SplitFirst(l.deposits[lo..max], l.deposits[upTo - 1].block, first, max, current, batchSize);
    }
  }

  lemma SplitFirst(events: seq<Entry<Deposit>>, block: nat, first: nat, max: nat, current: nat, batchSize: nat)
    requires batchSize > 0 && first <= max
    requires GetEventBlockNumber(events, BatchEnd(first, max, batchSize)) == Some(block)
    requires SplitFrom(events, BatchEnd(first, max, batchSize) + 1, max, current, batchSize).Ok?
    ensures var upTo, r := BatchEnd(first, max, batchSize), SplitFrom(events, first, max, current, batchSize);
      && r.Ok?
      && EffectsOf(r.value)
         == [RelayCall(upTo, upTo - first + 1, CalculateGasLimit(upTo - first + 1)),
             WriteCursor(if upTo == max then current else block)]
            + EffectsOf(SplitFrom(events, upTo + 1, max, current, batchSize).value)
  {
    var upTo := BatchEnd(first, max, batchSize);
    EffectsOfFirst(Batch(upTo, upTo - first + 1, CalculateGasLimit(upTo - first + 1),
                         if upTo == max then current else block),
                   SplitFrom(events, upTo + 1, max, current, batchSize).value);
  }

  lemma EffectsOfFirst(b: Batch, rest: seq<Batch>)
    ensures EffectsOf([b] + rest)
         == [RelayCall(b.upToDepositId, b.numDepositsToRelay, b.gasLimit), WriteCursor(b.blockNumber)] + EffectsOf(rest)
  {
    assert ([b] + rest)[1..] == rest;
  }

  /** The events a run works on are the deposits of its window from the first unskipped one on. */
  lemma WindowIsSlice(c: Config, l: Ledger, doc: Option<EventDoc>, current: nat)
    requires Valid(l, c.deployed) && GetStartBlockNumber(doc, c.deployed) <= current
    ensures Deposited(l, current) <= |l.deposits|
    ensures GetDepositedEvent(l, GetStartBlockNumber(doc, c.deployed), current, doc)
         == if Skipped(c, l, doc, current) < Deposited(l, current)
            then l.deposits[Skipped(c, l, doc, current)..Deposited(l, current)] else []
  {
    var start := GetStartBlockNumber(doc, c.deployed);
    LogsInIsSlice(l.deposits, start, current);
    RelayedAtBounds(l, c.deployed, current);
    SliceAbove(l.deposits, Cut(l.deposits, start), Deposited(l, current), LastRelayedAt(l, current));
  }

  lemma SliceSummary(l: Ledger, lo: nat, hi: nat, relayed: nat, current: nat, batchSize: nat)
    requires batchSize > 0 && Numbered(l.deposits) && lo < hi <= |l.deposits|
    ensures var r := DepositSummary(l.deposits[lo..hi], relayed, current, batchSize);
      r.Ok? && EffectsOf(r.value.batches) == if relayed >= hi then [] else Schedule(l, lo + 1, hi, current, batchSize)
  {
    SliceExtremes(l.deposits, lo, hi);
    SplitIsSchedule(l, lo, lo + 1, hi, current, batchSize);
  }

  /** Some relay in the blocks `from..to` reached deposit `id`. */
  ghost predicate RelaySeen(l: Ledger, from: nat, to: nat, id: nat) {
    exists r :: r in l.relays && from <= r.block <= to && r.data >= id
  }

  /** On a valid ledger a run never throws while planning. It does nothing in an empty
      range or if its window shows a relay of its last deposit; without deposits to
      relay it writes the cursor only; else it relays every deposit of its window. */
  lemma PlanShape(c: Config, l: Ledger, doc: Option<EventDoc>, current: nat)
    requires c.batchSize > 0 && Valid(l, c.deployed)
    ensures Deposited(l, current) <= |l.deposits|
    ensures var start, skip := GetStartBlockNumber(doc, c.deployed), Skipped(c, l, doc, current);
      var hi := Deposited(l, current);
      Plan(c, l, doc, current) ==
        if start > current then []
        else if skip >= hi then [WriteCursor(current)]
        else if RelaySeen(l, start, current, hi) then []
        else Schedule(l, skip + 1, hi, current, c.batchSize)
  {
    var start := GetStartBlockNumber(doc, c.deployed);
    if start <= current {
      WindowIsSlice(c, l, doc, current);
      var skip, hi := Skipped(c, l, doc, current), Deposited(l, current);
      if skip < hi {
        SliceSummary(l, skip, hi, GetMaxDepositId(LogsIn(l.relays, start, current)), current, c.batchSize);
        SeenIffInWindow(l, start, current, hi);
      }
    }
  }

  lemma SeenIffInWindow(l: Ledger, from: nat, to: nat, id: nat)
    requires id > 0
    ensures GetMaxDepositId(LogsIn(l.relays, from, to)) >= id <==> RelaySeen(l, from, to, id)
  {
    MaxIsGreatest(LogsIn(l.relays, from, to), id);
    forall r: Entry<nat>
      ensures r in LogsIn(l.relays, from, to) <==> r in l.relays && from <= r.block <= to
    {
      LogsInMembers(l.relays, from, to, r);
    }
  }

  // --------------------------------------------------------------- the machine

  /** `ExternalRelay` is any accepted relay that is not the running job's own: a
      transaction a crashed run left behind, or another account's. */
  datatype Step =
    | MakeDeposit(tokenIndex: nat)
    | SealBlock
    | ExternalRelay(upToDepositId: nat)
    | StartRun(observedBlock: nat)
    | PerformEffect
    | Crash

  /** A step that is not enabled changes nothing. The observed block may lag behind the head. */
  function Next(c: Config, s: State, step: Step): State
    requires c.batchSize > 0
  {
    match step
    case MakeDeposit(t) => s.(ledger := AddDeposit(s.ledger, t))
    case SealBlock => s.(ledger := Seal(s.ledger))
    case ExternalRelay(u) => (
      match RelayDeposits(s.ledger, u)
      case None => s
      case Some(l) => s.(ledger := l))
    case StartRun(b) =>
      if s.pending == [] && b <= s.ledger.head then s.(pending := Plan(c, s.ledger, s.doc, b)) else s
    case PerformEffect => Perform(s)
    case Crash => s.(pending := [])
  }

  function Exec(c: Config, s: State, steps: seq<Step>): State
    requires c.batchSize > 0
    decreases |steps|
  {
    if steps == [] then s else Exec(c, Next(c, s, steps[0]), steps[1..])
  }

  /** Deposit `id` and the one after it share a block. */
  predicate SplitsBlock(l: Ledger, id: nat) {
    0 < id < |l.deposits| && l.deposits[id - 1].block == l.deposits[id].block
  }

  ghost predicate NoSplitBlock(l: Ledger, plan: seq<Effect>) {
    forall e :: e in plan && e.RelayCall? ==> !SplitsBlock(l, e.upToDepositId)
  }

  /** No run of the history ends a batch inside a block. */
  ghost predicate UnsplitHistory(c: Config, s: State, steps: seq<Step>)
    requires c.batchSize > 0
    decreases |steps|
  {
    steps != [] ==>
    && (steps[0].StartRun? ==> NoSplitBlock(s.ledger, Next(c, s, steps[0]).pending))
    && UnsplitHistory(c, Next(c, s, steps[0]), steps[1..])
  }

  /** Every deposit in a block up to the stored cursor has been relayed. */
  ghost predicate CursorSafe(s: State) {
    s.doc.Some? ==>
      && s.doc.value.lastBlockNumber <= s.ledger.head
      && Covered(s.ledger, s.doc.value.lastBlockNumber, LastRelayed(s.ledger))
  }

  /** Each cursor write of `plan` comes when the relays before it, starting from
      `relayed`, cover the block it names. */
  ghost predicate WritesCovered(l: Ledger, plan: seq<Effect>, relayed: nat) {
    plan == [] ||
    match plan[0]
    case RelayCall(u, _, _) => WritesCovered(l, plan[1..], u)
    case WriteCursor(b) => b <= l.head && Covered(l, b, relayed) && WritesCovered(l, plan[1..], relayed)
  }

  ghost predicate Inv(c: Config, s: State) {
    && Valid(s.ledger, c.deployed)
    && CursorSafe(s)
    && WritesCovered(s.ledger, s.pending, LastRelayed(s.ledger))
  }

  ghost predicate Extends(l: Ledger, l': Ledger) {
    && l.head <= l'.head
    && l.deposits <= l'.deposits
    && forall i :: |l.deposits| <= i < |l'.deposits| ==> l'.deposits[i].block > l.head
  }

  lemma {:induction false} WritesStayCovered(l: Ledger, l': Ledger, plan: seq<Effect>, u: nat, u': nat)
    requires Extends(l, l') && u <= u' && WritesCovered(l, plan, u)
    ensures WritesCovered(l', plan, u')
  {
    if plan != [] {
      match plan[0]
      case RelayCall(v, _, _) => WritesStayCovered(l, l', plan[1..], v, v);
      case WriteCursor(_) => WritesStayCovered(l, l', plan[1..], u, u');
    }
  }

  /** The cursor written after a batch is safe unless the batch ends inside a block. */
  lemma BoundaryCovered(l: Ledger, id: nat)
    requires ChainOrdered(l.deposits) && 0 < id <= |l.deposits|
    ensures Covered(l, l.deposits[id - 1].block, id) <==> !SplitsBlock(l, id)
  {
    if id < |l.deposits| && !SplitsBlock(l, id) {
      forall i | id <= i < |l.deposits|
        ensures l.deposits[i].block > l.deposits[id - 1].block
      {
        assert l.deposits[id - 1].block <= l.deposits[id].block <= l.deposits[i].block;
      }
    }
  }

  lemma NoSplitInRest(l: Ledger, plan: seq<Effect>, rest: seq<Effect>)
    requires |plan| >= 2 && plan[1..][1..] == rest && NoSplitBlock(l, plan)
    ensures NoSplitBlock(l, rest)
  {
    assert forall e :: e in rest ==> e in plan;
  }

  lemma {:induction false} ScheduleWritesCovered(l: Ledger, first: nat, max: nat, current: nat,
                                                 batchSize: nat, relayed: nat)
    requires batchSize > 0 && ChainOrdered(l.deposits) && 0 < first && max <= |l.deposits|
    requires current <= l.head && Covered(l, current, max) && (max > 0 ==> l.deposits[max - 1].block <= current)
    requires NoSplitBlock(l, Schedule(l, first, max, current, batchSize))
    ensures WritesCovered(l, Schedule(l, first, max, current, batchSize), relayed)
    decreases max + 1 - first
  {
    if first <= max {
      var upTo := BatchEnd(first, max, batchSize);
      var plan := Schedule(l, first, max, current, batchSize);
      var rest := Schedule(l, upTo + 1, max, current, batchSize);
      assert plan[1..][1..] == rest;
      NoSplitInRest(l, plan, rest);
      ScheduleWritesCovered(l, upTo + 1, max, current, batchSize, upTo);
      assert plan[0] in plan && !SplitsBlock(l, upTo);
      BoundaryCovered(l, upTo);
      assert l.deposits[upTo - 1].block <= l.deposits[max - 1].block;
      assert WritesCovered(l, plan[1..], upTo);
    }
  }

  /** All deposits of the blocks up to `current` are the ids up to `Deposited`. */
  lemma DepositedCovers(l: Ledger, current: nat)
    requires ChainOrdered(l.deposits)
    ensures Covered(l, current, Deposited(l, current))
    ensures Deposited(l, current) > 0 ==> l.deposits[Deposited(l, current) - 1].block <= current
  {
    var n := Deposited(l, current);
    forall i | n <= i < |l.deposits|
      ensures l.deposits[i].block > current
    {
      assert l.deposits[n].block <= l.deposits[i].block;
    }
  }

  /** The three shapes a plan has; `skipped` ids are left out of the relays. */
  ghost predicate HasShape(l: Ledger, plan: seq<Effect>, skipped: nat, current: nat, batchSize: nat)
    requires batchSize > 0
  {
    || plan == []
    || (plan == [WriteCursor(current)] && Deposited(l, current) <= skipped)
    || (skipped < Deposited(l, current) && plan == Schedule(l, skipped + 1, Deposited(l, current), current, batchSize))
  }

  lemma PlanHasShape(c: Config, l: Ledger, doc: Option<EventDoc>, current: nat)
    requires c.batchSize > 0 && Valid(l, c.deployed)
    ensures HasShape(l, Plan(c, l, doc, current), Skipped(c, l, doc, current), current, c.batchSize)
  {
    PlanShape(c, l, doc, current);
  }

  lemma ShapeWritesCovered(l: Ledger, plan: seq<Effect>, skipped: nat, current: nat, batchSize: nat, relayed: nat)
    requires batchSize > 0 && ChainOrdered(l.deposits) && HasShape(l, plan, skipped, current, batchSize)
    requires current <= l.head && NoSplitBlock(l, plan)
    requires plan == [WriteCursor(current)] ==> skipped <= relayed
    ensures WritesCovered(l, plan, relayed)
  {
    DepositedCovers(l, current);
    if plan == [WriteCursor(current)] && Deposited(l, current) <= skipped {
      assert WritesCovered(l, plan[1..], relayed);
    } else if plan != [] {
      ScheduleWritesCovered(l, skipped + 1, Deposited(l, current), current, batchSize, relayed);
    }
  }

  lemma PlanWritesCovered(c: Config, s: State, current: nat)
    requires c.batchSize > 0 && Inv(c, s) && current <= s.ledger.head
    requires NoSplitBlock(s.ledger, Plan(c, s.ledger, s.doc, current))
    ensures WritesCovered(s.ledger, Plan(c, s.ledger, s.doc, current), LastRelayed(s.ledger))
  {
    var plan, skipped := Plan(c, s.ledger, s.doc, current), Skipped(c, s.ledger, s.doc, current);
    PlanHasShape(c, s.ledger, s.doc, current);
    if plan != [] {
      SkippedAreRelayed(c, s, current);
    }
    ShapeWritesCovered(s.ledger, plan, skipped, current, c.batchSize, LastRelayed(s.ledger));
  }

  /** Under a safe cursor, every id a run skips has been relayed. */
  lemma SkippedAreRelayed(c: Config, s: State, current: nat)
    requires Valid(s.ledger, c.deployed) && CursorSafe(s)
    requires GetStartBlockNumber(s.doc, c.deployed) <= current
    ensures Skipped(c, s.ledger, s.doc, current) <= LastRelayed(s.ledger)
  {
    var l := s.ledger;
    RelayedAtBounds(l, c.deployed, current);
    var start := GetStartBlockNumber(s.doc, c.deployed);
    var before := Cut(l.deposits, start);
    if before > 0 {
      assert l.deposits[before - 1].block < start;
    }
  }

  lemma NextKeepsInv(c: Config, s: State, step: Step)
    requires c.batchSize > 0 && Inv(c, s)
    requires step.StartRun? ==> NoSplitBlock(s.ledger, Next(c, s, step).pending)
    ensures Inv(c, Next(c, s, step))
  {
    var l := s.ledger;
    var l' := Next(c, s, step).ledger;
    match step
    case MakeDeposit(t) =>
      AddDepositKeepsValid(l, c.deployed, t);
      WritesStayCovered(l, l', s.pending, LastRelayed(l), LastRelayed(l'));
    case SealBlock =>
      SealKeepsValid(l, c.deployed);
      WritesStayCovered(l, l', s.pending, LastRelayed(l), LastRelayed(l'));
    case ExternalRelay(u) =>
      if RelayDeposits(l, u).Some? {
        RelayKeepsValid(l, c.deployed, u);
        WritesStayCovered(l, l', s.pending, LastRelayed(l), LastRelayed(l'));
      }
    case StartRun(b) =>
      if s.pending == [] && b <= l.head {
        PlanWritesCovered(c, s, b);
      }
    case PerformEffect =>
      if s.pending != [] && s.pending[0].RelayCall? {
        var u := s.pending[0].upToDepositId;
        if RelayDeposits(l, u).Some? {
          RelayKeepsValid(l, c.deployed, u);
          WritesStayCovered(l, l', s.pending[1..], u, u);
        }
      }
    case Crash =>
  }

  /** Crash-safe relay: however deposits, external relays, runs and crashes
      interleave, a deposit at or below the stored cursor is a relayed one, as
      long as no batch ends inside a block. */
  lemma {:induction false} CrashSafeRelay(c: Config, s: State, steps: seq<Step>)
    requires c.batchSize > 0 && Inv(c, s) && UnsplitHistory(c, s, steps)
    ensures Inv(c, Exec(c, s, steps))
    ensures CursorSafe(Exec(c, s, steps))
    decreases |steps|
  {
    if steps != [] {
      NextKeepsInv(c, s, steps[0]);
      CrashSafeRelay(c, Next(c, s, steps[0]), steps[1..]);
    }
  }

  lemma FreshStateIsSafe(c: Config, head: nat)
    requires c.deployed <= head + 1
    ensures Inv(c, State(Ledger([], [], head), None, []))
  {
  }
}

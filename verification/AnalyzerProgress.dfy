/** What a deposit-analyzer run achieves: when its relays are accepted, what they
    cost, what a completed run leaves behind, and when no run can succeed again. */
module AnalyzerProgress {
  import opened Wrappers
  import opened Scanner
  import opened EventStore
  import opened Liquidity
  import opened DepositAnalyzer
  import opened AnalyzerSafety

  // ----------------------------------------------------- a run without interference

  /** Every relay of `plan`, made in order from `l`, is accepted. */
  predicate Accepted(l: Ledger, plan: seq<Effect>)
    decreases plan
  {
    plan != [] ==>
      if plan[0].RelayCall?
      then var r := RelayDeposits(l, plan[0].upToDepositId); r.Some? && Accepted(r.value, plan[1..])
      else Accepted(l, plan[1..])
  }

  /** Every relay of `plan` is priced for exactly the deposits it newly relays. */
  predicate ExactlyCosted(l: Ledger, plan: seq<Effect>)
    decreases plan
  {
    plan != [] ==>
      if plan[0].RelayCall?
      then
        && plan[0].numDepositsToRelay == plan[0].upToDepositId - LastRelayed(l)
        && plan[0].gasLimit == CalculateGasLimit(plan[0].upToDepositId - LastRelayed(l))
        && (var r := RelayDeposits(l, plan[0].upToDepositId); r.Some? && ExactlyCosted(r.value, plan[1..]))
      else ExactlyCosted(l, plan[1..])
  }

  lemma {:induction false} ScheduleOutcome(l: Ledger, l': Ledger, first: nat, max: nat, current: nat, batchSize: nat)
    requires batchSize > 0 && 0 < first <= max <= |l.deposits| && l'.deposits == l.deposits
    ensures var plan := Schedule(l, first, max, current, batchSize);
      && (Accepted(l', plan) <==> LastRelayed(l') < BatchEnd(first, max, batchSize))
      && (ExactlyCosted(l', plan) <==> LastRelayed(l') == first - 1)
    decreases max + 1 - first
  {
    var upTo := BatchEnd(first, max, batchSize);
    var plan := Schedule(l, first, max, current, batchSize);
    var rest := Schedule(l, upTo + 1, max, current, batchSize);
    assert plan[1..][1..] == rest;
    if LastRelayed(l') < upTo {
      var next := RelayDeposits(l', upTo).value;
      assert LastRelayed(next) == upTo;
      if upTo < max {
        ScheduleOutcome(l, next, upTo + 1, max, current, batchSize);
      }
      assert Accepted(next, plan[1..]) == Accepted(next, rest);
      assert ExactlyCosted(next, plan[1..]) == ExactlyCosted(next, rest);
    }
  }

  /** In-range relays: a run that submits is accepted call by call exactly when
      its first batch still holds an unrelayed id. */
  lemma RunAcceptedIff(c: Config, l: Ledger, doc: Option<EventDoc>, current: nat)
    requires c.batchSize > 0 && Valid(l, c.deployed)
    requires Plan(c, l, doc, current) != [] && Plan(c, l, doc, current)[0].RelayCall?
    ensures Accepted(l, Plan(c, l, doc, current)) <==> LastRelayed(l) < Plan(c, l, doc, current)[0].upToDepositId
  {
    PlanHasShape(c, l, doc, current);
    ScheduleOutcome(l, l, Skipped(c, l, doc, current) + 1, Deposited(l, current), current, c.batchSize);
  }

  /** Exact cost: under a safe cursor a submitting run is accepted and pays for
      exactly what it relays if and only if no id of its window is relayed yet. */
  lemma RunExactlyCostedIff(c: Config, s: State, current: nat)
    requires c.batchSize > 0 && Valid(s.ledger, c.deployed) && CursorSafe(s)
    requires Plan(c, s.ledger, s.doc, current) != [] && Plan(c, s.ledger, s.doc, current)[0].RelayCall?
    ensures ExactlyCosted(s.ledger, Plan(c, s.ledger, s.doc, current))
       <==> LastRelayed(s.ledger) <= Skipped(c, s.ledger, s.doc, current)
  {
    var skipped := Skipped(c, s.ledger, s.doc, current);
    PlanHasShape(c, s.ledger, s.doc, current);
    SkippedAreRelayed(c, s, current);
    ScheduleOutcome(s.ledger, s.ledger, skipped + 1, Deposited(s.ledger, current), current, c.batchSize);
  }

  // ------------------------------------------ every crash point is safe iff nothing is split

  /** The cursor is safe now and after each further effect of the running job. */
  ghost predicate CrashPointsSafe(s: State)
    decreases |s.pending|
  {
    CursorSafe(s) && (s.pending != [] ==> CrashPointsSafe(Perform(s)))
  }

  lemma {:induction false} InvMakesCrashPointsSafe(c: Config, s: State)
    requires c.batchSize > 0 && Inv(c, s)
    ensures CrashPointsSafe(s)
    decreases |s.pending|
  {
    if s.pending != [] {
      NextKeepsInv(c, s, PerformEffect);
      InvMakesCrashPointsSafe(c, Perform(s));
    }
  }

  lemma UnsafeAfterSplit(s: State, id: nat)
    requires SplitsBlock(s.ledger, id) && LastRelayed(s.ledger) == id
    requires s.doc.Some? && s.doc.value.lastBlockNumber == s.ledger.deposits[id - 1].block
    ensures !CrashPointsSafe(s)
  {
    assert s.ledger.deposits[id].block == s.doc.value.lastBlockNumber;
    assert !CursorSafe(s);
  }

  lemma ScheduleStep(l: Ledger, first: nat, max: nat, current: nat, batchSize: nat)
    requires batchSize > 0 && 0 < first <= max <= |l.deposits|
    ensures var upTo, plan := BatchEnd(first, max, batchSize), Schedule(l, first, max, current, batchSize);
      && |plan| >= 2
      && plan[0] == RelayCall(upTo, upTo - first + 1, CalculateGasLimit(upTo - first + 1))
      && plan[1] == WriteCursor(if upTo == max then current else l.deposits[upTo - 1].block)
      && plan[1..][1..] == Schedule(l, upTo + 1, max, current, batchSize)
  {
  }

  /** The state after one accepted batch: a relay and the cursor write that follows it. */
  lemma AfterBatch(s: State)
    requires |s.pending| >= 2 && s.pending[0].RelayCall? && s.pending[1].WriteCursor? && Accepted(s.ledger, s.pending)
    ensures var u, b, s2 := s.pending[0].upToDepositId, s.pending[1].blockNumber, Perform(Perform(s));
      && s2.ledger.deposits == s.ledger.deposits && LastRelayed(s2.ledger) == u
      && s2.doc.Some? && s2.doc.value.lastBlockNumber == b
      && s2.pending == s.pending[1..][1..]
      && Accepted(s2.ledger, s2.pending)
  {
    var l := RelayDeposits(s.ledger, s.pending[0].upToDepositId).value;
    var s1 := s.(ledger := l, pending := s.pending[1..]);
    assert Perform(s) == s1;
    assert s1.pending[0] == s.pending[1];
  }

  lemma UnsafePropagates(s: State)
    requires |s.pending| >= 2 && s.pending[0].RelayCall? && s.pending[1].WriteCursor? && Accepted(s.ledger, s.pending)
    requires !CrashPointsSafe(Perform(Perform(s)))
    ensures !CrashPointsSafe(s)
  {
    assert Perform(s).pending == s.pending[1..];
    assert !CrashPointsSafe(Perform(s));
  }

  /** The first batch ends inside a block: its cursor write is unsafe. */
  lemma FirstBatchExposes(l: Ledger, s: State, first: nat, max: nat, current: nat, batchSize: nat)
    requires batchSize > 0 && 0 < first <= max <= |l.deposits| && s.ledger.deposits == l.deposits
    requires s.pending == Schedule(l, first, max, current, batchSize) && Accepted(s.ledger, s.pending)
    requires SplitsBlock(l, BatchEnd(first, max, batchSize)) && !SplitsBlock(l, max)
    ensures !CrashPointsSafe(s)
  {
    ScheduleStep(l, first, max, current, batchSize);
    AfterBatch(s);
    UnsafeAfterSplit(Perform(Perform(s)), BatchEnd(first, max, batchSize));
    UnsafePropagates(s);
  }

  /** A batch that ends inside a block exposes an unsafe cursor right after its write. */
  lemma {:induction false} SplitIsExposed(l: Ledger, s: State, first: nat, max: nat, current: nat,
                                         batchSize: nat, k: nat)
    requires batchSize > 0 && 0 < first && max <= |l.deposits| && s.ledger.deposits == l.deposits
    requires s.pending == Schedule(l, first, max, current, batchSize) && Accepted(s.ledger, s.pending)
    requires k < |s.pending| && s.pending[k].RelayCall? && SplitsBlock(l, s.pending[k].upToDepositId)
    requires !SplitsBlock(l, max)
    ensures !CrashPointsSafe(s)
    decreases k
  {
    ScheduleStep(l, first, max, current, batchSize);
    if k < 2 {
      FirstBatchExposes(l, s, first, max, current, batchSize);
    } else {
      AfterBatch(s);
      SplitIsExposed(l, Perform(Perform(s)), BatchEnd(first, max, batchSize) + 1, max, current, batchSize, k - 2);
      UnsafePropagates(s);
    }
  }

  /** The cursor is safe at every point where a run may die if and only if none of
      its batches ends inside a block, or its relays are refused from the first on. */
  lemma CrashPointsSafeIffUnsplit(c: Config, s: State, current: nat)
    requires c.batchSize > 0 && Inv(c, s) && s.pending == [] && current <= s.ledger.head
    ensures var plan := Plan(c, s.ledger, s.doc, current);
      CrashPointsSafe(s.(pending := plan)) <==> NoSplitBlock(s.ledger, plan) || !Accepted(s.ledger, plan)
  {
    var l, plan := s.ledger, Plan(c, s.ledger, s.doc, current);
    PlanHasShape(c, l, s.doc, current);
    if NoSplitBlock(l, plan) {
      PlanWritesCovered(c, s, current);
      InvMakesCrashPointsSafe(c, s.(pending := plan));
    } else if Accepted(l, plan) {
      SplitPlanIsExposed(l, s.(pending := plan), Skipped(c, l, s.doc, current), current, c.batchSize);
    } else {
      RunAcceptedIff(c, l, s.doc, current);
      RefusedAtOnceIsSafe(s.(pending := plan));
    }
  }

  lemma RefusedAtOnceIsSafe(s: State)
    requires CursorSafe(s) && s.pending != [] && s.pending[0].RelayCall?
    requires s.pending[0].upToDepositId <= LastRelayed(s.ledger)
    ensures CrashPointsSafe(s)
  {
    assert Perform(s) == s.(pending := []);
  }

  lemma SplitWitness(l: Ledger, plan: seq<Effect>) returns (k: nat)
    requires !NoSplitBlock(l, plan)
    ensures k < |plan| && plan[k].RelayCall? && SplitsBlock(l, plan[k].upToDepositId)
  {
    var e :| e in plan && e.RelayCall? && SplitsBlock(l, e.upToDepositId);
    k :| 0 <= k < |plan| && plan[k] == e;
  }

  lemma SplitPlanIsExposed(l: Ledger, s: State, skipped: nat, current: nat, batchSize: nat)
    requires batchSize > 0 && ChainOrdered(l.deposits) && s.ledger == l
    requires HasShape(l, s.pending, skipped, current, batchSize)
    requires Accepted(l, s.pending) && !NoSplitBlock(l, s.pending)
    ensures !CrashPointsSafe(s)
  {
    assert skipped < Deposited(l, current);
    assert !SplitsBlock(l, Deposited(l, current));
    var k := SplitWitness(l, s.pending);
    SplitIsExposed(l, s, skipped + 1, Deposited(l, current), current, batchSize, k);
  }

  // ------------------------------------------------------------ completed runs

  /** The relayed level once `plan` has been performed from level `relayed`. */
  function FinalLevel(plan: seq<Effect>, relayed: nat): nat {
    if plan == [] then relayed
    else if plan[0].RelayCall? then FinalLevel(plan[1..], plan[0].upToDepositId)
    else FinalLevel(plan[1..], relayed)
  }

  lemma {:induction false} FinalLevelMonotone(plan: seq<Effect>, u: nat, u': nat)
    requires u <= u'
    ensures FinalLevel(plan, u) <= FinalLevel(plan, u')
  {
    if plan != [] && !plan[0].RelayCall? {
      FinalLevelMonotone(plan[1..], u, u');
    }
  }

  /** `steps` let the running job go on: it neither dies nor meets a revert, while
      deposits, blocks and external relays interleave freely. */
  ghost predicate Undisturbed(c: Config, s: State, steps: seq<Step>)
    requires c.batchSize > 0
    decreases |steps|
  {
    steps != [] ==>
      && !steps[0].Crash? && !steps[0].StartRun?
      && (steps[0].PerformEffect? && s.pending != [] && s.pending[0].RelayCall? ==>
            RelayDeposits(s.ledger, s.pending[0].upToDepositId).Some?)
      && Undisturbed(c, Next(c, s, steps[0]), steps[1..])
  }

  /** The job will end with the cursor at `current` and everything up to it relayed. */
  ghost predicate HeadedFor(s: State, current: nat) {
    && current <= s.ledger.head
    && Covered(s.ledger, current, FinalLevel(s.pending, LastRelayed(s.ledger)))
    && (if s.pending == [] then s.doc.Some? && s.doc.value.lastBlockNumber == current
        else s.pending[|s.pending| - 1] == WriteCursor(current))
  }

  lemma {:induction false} StaysHeaded(c: Config, s: State, steps: seq<Step>, current: nat)
    requires c.batchSize > 0 && HeadedFor(s, current) && Undisturbed(c, s, steps)
    ensures HeadedFor(Exec(c, s, steps), current)
    decreases |steps|
  {
    if steps != [] {
      var s' := Next(c, s, steps[0]);
      FinalLevelMonotone(s.pending, LastRelayed(s.ledger), LastRelayed(s'.ledger));
      assert HeadedFor(s', current);
      StaysHeaded(c, s', steps[1..], current);
    }
  }

  lemma {:induction false} ScheduleIsHeaded(l: Ledger, first: nat, max: nat, current: nat, batchSize: nat, relayed: nat)
    requires batchSize > 0 && 0 < first <= max <= |l.deposits|
    ensures var plan := Schedule(l, first, max, current, batchSize);
      plan != [] && plan[|plan| - 1] == WriteCursor(current) && FinalLevel(plan, relayed) == max
    decreases max + 1 - first
  {
    var upTo := BatchEnd(first, max, batchSize);
    var plan := Schedule(l, first, max, current, batchSize);
    assert plan[1..][1..] == Schedule(l, upTo + 1, max, current, batchSize);
    assert FinalLevel(plan[1..], upTo) == FinalLevel(plan[1..][1..], upTo);
    if upTo < max {
      ScheduleIsHeaded(l, upTo + 1, max, current, batchSize, upTo);
    }
  }

  /** A submitting run that completes leaves every deposit up to its observed
      block relayed and a safe cursor there, even where earlier crashes or split
      blocks had left deposits behind the cursor. */
  lemma CompletedRunCatchesUp(c: Config, s: State, current: nat, steps: seq<Step>)
    requires c.batchSize > 0 && Valid(s.ledger, c.deployed) && s.pending == [] && current <= s.ledger.head
    requires Plan(c, s.ledger, s.doc, current) != [] && Plan(c, s.ledger, s.doc, current)[0].RelayCall?
    requires Undisturbed(c, Next(c, s, StartRun(current)), steps)
    requires Exec(c, Next(c, s, StartRun(current)), steps).pending == []
    ensures var end := Exec(c, Next(c, s, StartRun(current)), steps);
      && Covered(end.ledger, current, LastRelayed(end.ledger))
      && end.doc.Some? && end.doc.value.lastBlockNumber == current
      && CursorSafe(end)
  {
    PlanHasShape(c, s.ledger, s.doc, current);
    SubmittingPlanIsHeaded(s.(pending := Plan(c, s.ledger, s.doc, current)), Skipped(c, s.ledger, s.doc, current),
                           current, c.batchSize);
    StaysHeaded(c, Next(c, s, StartRun(current)), steps, current);
  }

  lemma SubmittingPlanIsHeaded(s: State, skipped: nat, current: nat, batchSize: nat)
    requires batchSize > 0 && ChainOrdered(s.ledger.deposits) && current <= s.ledger.head
    requires HasShape(s.ledger, s.pending, skipped, current, batchSize) && s.pending != [] && s.pending[0].RelayCall?
    ensures HeadedFor(s, current)
  {
    DepositedCovers(s.ledger, current);
    ScheduleIsHeaded(s.ledger, skipped + 1, Deposited(s.ledger, current), current, batchSize, LastRelayed(s.ledger));
  }

  // --------------------------------------------------------- the permanent stall

  /** With unrelayed deposits on the chain, a run that observes the head relays
      them all if and only if fewer than a whole batch of its window is already
      relayed. */
  lemma HeadRunSucceedsIff(c: Config, s: State)
    requires c.batchSize > 0 && Valid(s.ledger, c.deployed) && CursorSafe(s)
    requires GetStartBlockNumber(s.doc, c.deployed) <= s.ledger.head
    requires LastRelayed(s.ledger) < Deposited(s.ledger, s.ledger.head)
    ensures var plan := Plan(c, s.ledger, s.doc, s.ledger.head);
      plan != [] && plan[0].RelayCall? &&
      (Accepted(s.ledger, plan)
       <==> LastRelayed(s.ledger) < Skipped(c, s.ledger, s.doc, s.ledger.head) + c.batchSize)
  {
    var l := s.ledger;
    forall r | r in l.relays
      ensures r.data <= LastRelayed(l)
    {
      assert exists i :: 0 <= i < |l.relays| && l.relays[i] == r;
    }
    SkippedAreRelayed(c, s, l.head);
    PlanShape(c, l, s.doc, l.head);
    var plan := Plan(c, l, s.doc, l.head);
    assert plan == Schedule(l, Skipped(c, l, s.doc, l.head) + 1, Deposited(l, l.head), l.head, c.batchSize);
    RunAcceptedIff(c, l, s.doc, l.head);
  }

  /** The cursor lies just before deposit `first`, but a whole batch from `first`
      on is already relayed. */
  ghost predicate Stalled(c: Config, s: State, first: nat)
    requires c.batchSize > 0
  {
    && Valid(s.ledger, c.deployed)
    && s.doc.Some?
    && 0 < first <= |s.ledger.deposits|
    && Cut(s.ledger.deposits, GetStartBlockNumber(s.doc, c.deployed)) == first - 1
    && first + c.batchSize - 1 <= LastRelayed(s.ledger)
    && (s.pending != [] ==>
          if s.pending[0].RelayCall? then s.pending[0].upToDepositId <= LastRelayed(s.ledger)
          else |s.pending| == 1 &&
               GetStartBlockNumber(s.doc, c.deployed) <= s.pending[0].blockNumber < s.ledger.deposits[first - 1].block)
  }

  lemma PlanStaysStalled(c: Config, s: State, first: nat, current: nat)
    requires c.batchSize > 0 && Stalled(c, s, first)
    ensures Stalled(c, s.(pending := Plan(c, s.ledger, s.doc, current)), first)
  {
    var l := s.ledger;
    PlanHasShape(c, l, s.doc, current);
    assert Skipped(c, l, s.doc, current) == first - 1;
    DepositedCovers(l, current);
  }

  lemma DepositStaysStalled(c: Config, s: State, first: nat, l: Ledger)
    requires c.batchSize > 0 && Stalled(c, s, first) && Valid(l, c.deployed)
    requires s.ledger.deposits <= l.deposits && l.relays == s.ledger.relays
    ensures Stalled(c, s.(ledger := l), first)
  {
    var start := GetStartBlockNumber(s.doc, c.deployed);
    assert first - 1 < |s.ledger.deposits|;
    assert forall i :: 0 <= i < |s.ledger.deposits| ==> l.deposits[i] == s.ledger.deposits[i];
    CutUnique(l.deposits, start, first - 1);
  }

  lemma RelayStaysStalled(c: Config, s: State, first: nat, u: nat)
    requires c.batchSize > 0 && Stalled(c, s, first) && RelayDeposits(s.ledger, u).Some?
    ensures Stalled(c, s.(ledger := RelayDeposits(s.ledger, u).value), first)
  {
    RelayKeepsValid(s.ledger, c.deployed, u);
  }

  lemma PerformStaysStalled(c: Config, s: State, first: nat)
    requires c.batchSize > 0 && Stalled(c, s, first)
    ensures Stalled(c, Perform(s), first) && Perform(s).ledger == s.ledger
  {
    if s.pending != [] && s.pending[0].WriteCursor? {
      CutUnique(s.ledger.deposits, GetStartBlockNumber(Perform(s).doc, c.deployed), first - 1);
    }
  }

  lemma NextStaysStalled(c: Config, s: State, first: nat, step: Step)
    requires c.batchSize > 0 && Stalled(c, s, first)
    ensures Stalled(c, Next(c, s, step), first)
    ensures !step.ExternalRelay? ==> Next(c, s, step).ledger.relays == s.ledger.relays
  {
    match step
    case MakeDeposit(t) =>
      AddDepositKeepsValid(s.ledger, c.deployed, t);
      DepositStaysStalled(c, s, first, AddDeposit(s.ledger, t));
    case SealBlock => SealKeepsValid(s.ledger, c.deployed);
    case ExternalRelay(u) =>
      if RelayDeposits(s.ledger, u).Some? {
        RelayStaysStalled(c, s, first, u);
      }
    case StartRun(b) => PlanStaysStalled(c, s, first, b);
    case PerformEffect => PerformStaysStalled(c, s, first);
    case Crash =>
  }

  /** A stall is permanent: no history of deposits, runs, crashes and external
      relays ever moves the cursor past it or lets the job relay anything again. */
  lemma {:induction false} StallIsPermanent(c: Config, s: State, first: nat, steps: seq<Step>)
    requires c.batchSize > 0 && Stalled(c, s, first)
    ensures Stalled(c, Exec(c, s, steps), first)
    ensures (forall i :: 0 <= i < |steps| ==> !steps[i].ExternalRelay?) ==>
              Exec(c, s, steps).ledger.relays == s.ledger.relays
    decreases |steps|
  {
    if steps != [] {
      NextStaysStalled(c, s, first, steps[0]);
      StallIsPermanent(c, Next(c, s, steps[0]), first, steps[1..]);
    }
  }

  lemma StateAfterCrash(c: Config, s: State, current: nat)
    requires c.batchSize > 0 && s.pending == [] && current <= s.ledger.head
    requires Plan(c, s.ledger, s.doc, current) != [] && Plan(c, s.ledger, s.doc, current)[0].RelayCall?
    requires Accepted(s.ledger, Plan(c, s.ledger, s.doc, current))
    ensures var r := RelayDeposits(s.ledger, Plan(c, s.ledger, s.doc, current)[0].upToDepositId);
      r.Some? && Exec(c, s, [StartRun(current), PerformEffect, Crash]) == s.(ledger := r.value)
  {
    ExecThree(c, s, StartRun(current), PerformEffect, Crash);
  }

  /** How many deposits lie before the next run's window. */
  function BeforeCursor(c: Config, s: State): nat {
    Cut(s.ledger.deposits, GetStartBlockNumber(s.doc, c.deployed))
  }

  /** The job dies after the next `2 * k + 1` effects: `k` whole batches and a relay. */
  function DiesAfterRelay(s: State, k: nat): State { PerformMany(s, 2 * k + 1).(pending := []) }

  lemma DiesAfterFirstRelay(c: Config, s: State, first: nat, max: nat, current: nat)
    requires c.batchSize > 0 && Valid(s.ledger, c.deployed) && 0 < first <= max <= |s.ledger.deposits|
    requires s.pending == Schedule(s.ledger, first, max, current, c.batchSize) && Accepted(s.ledger, s.pending)
    requires s.doc.Some? ==> BeforeCursor(c, s) >= first - 1
    ensures var end := DiesAfterRelay(s, 0);
      Stalled(c, end, BeforeCursor(c, end) + 1)
      <==> s.doc.Some? && s.pending[0].numDepositsToRelay == c.batchSize && BeforeCursor(c, s) == first - 1
  {
    var u := s.pending[0].upToDepositId;
    RelayKeepsValid(s.ledger, c.deployed, u);
    var relayed := s.(ledger := RelayDeposits(s.ledger, u).value, pending := s.pending[1..]);
    assert Perform(s) == relayed && PerformMany(s, 1) == PerformMany(relayed, 0) == relayed;
  }

  /** The cursor written after a batch lies just after the batch, or beyond its
      successors in the same block. */
  lemma CursorAfterBatch(c: Config, s: State, id: nat)
    requires 0 < c.deployed && Valid(s.ledger, c.deployed) && 0 < id <= |s.ledger.deposits|
    requires s.doc.Some? && s.doc.value.lastBlockNumber == s.ledger.deposits[id - 1].block
    ensures BeforeCursor(c, s) >= id
    ensures BeforeCursor(c, s) == id <==> !SplitsBlock(s.ledger, id)
  {
    if !SplitsBlock(s.ledger, id) {
      CutUnique(s.ledger.deposits, s.ledger.deposits[id - 1].block + 1, id);
    }
  }

  /** The job is about to relay `first..max`, from a cursor not before `first`. */
  ghost predicate AtBatch(c: Config, s: State, first: nat, max: nat, current: nat)
    requires c.batchSize > 0
  {
    && Valid(s.ledger, c.deployed) && 0 < first && max <= |s.ledger.deposits|
    && s.pending == Schedule(s.ledger, first, max, current, c.batchSize) && Accepted(s.ledger, s.pending)
    && (s.doc.Some? ==> BeforeCursor(c, s) >= first - 1)
  }

  lemma DiesAfterBatch(s: State, k: nat)
    requires k > 0
    ensures DiesAfterRelay(s, k) == DiesAfterRelay(Perform(Perform(s)), k - 1)
  {
    assert PerformMany(s, 2 * k + 1) == PerformMany(Perform(s), 2 * k);
  }

  /** A batch that is not the last leads to the next. */
  lemma ToNextBatch(c: Config, s: State, first: nat, max: nat, current: nat)
    requires c.batchSize > 0 && 0 < c.deployed && AtBatch(c, s, first, max, current) && |s.pending| > 2
    ensures var upTo, s2 := BatchEnd(first, max, c.batchSize), Perform(Perform(s));
      && s.pending[0].RelayCall? && s.pending[0].upToDepositId == upTo
      && AtBatch(c, s2, upTo + 1, max, current) && s2.pending == s.pending[1..][1..]
      && s2.ledger.deposits == s.ledger.deposits && s2.doc.Some?
      && (BeforeCursor(c, s2) == upTo <==> !SplitsBlock(s.ledger, upTo))
  {
    var upTo, s2 := BatchEnd(first, max, c.batchSize), Perform(Perform(s));
    ScheduleStep(s.ledger, first, max, current, c.batchSize);
    AfterBatch(s);
    assert upTo < max;
    BatchKeepsValid(c, s);
    ScheduleOfDeposits(s.ledger, s2.ledger, upTo + 1, max, current, c.batchSize);
    CursorAfterBatch(c, s2, upTo);
  }

  /** The outcome of dying after relay number `k`. */
  ghost predicate StallsIff(c: Config, s: State, pending: seq<Effect>, beforeFirst: bool, k: nat)
    requires c.batchSize > 0 && 2 * k < |pending|
  {
    && pending[2 * k].RelayCall? && (k > 0 ==> pending[2 * k - 2].RelayCall?)
    && var end := DiesAfterRelay(s, k);
       (Stalled(c, end, BeforeCursor(c, end) + 1)
        <==> && pending[2 * k].numDepositsToRelay == c.batchSize
             && if k == 0 then beforeFirst else !SplitsBlock(s.ledger, pending[2 * k - 2].upToDepositId))
  }

  lemma {:induction false} DiesInSchedule(c: Config, s: State, first: nat, max: nat, current: nat, k: nat)
    requires c.batchSize > 0 && (k > 0 ==> 0 < c.deployed)
    requires AtBatch(c, s, first, max, current) && 2 * k < |s.pending|
    ensures StallsIff(c, s, s.pending, s.doc.Some? && BeforeCursor(c, s) == first - 1, k)
    decreases k
  {
    if k == 0 {
      ScheduleStep(s.ledger, first, max, current, c.batchSize);
      DiesAfterFirstRelay(c, s, first, max, current);
    } else {
      var upTo, s2 := BatchEnd(first, max, c.batchSize), Perform(Perform(s));
      ToNextBatch(c, s, first, max, current);
      DiesInSchedule(c, s2, upTo + 1, max, current, k - 1);
      DiesAfterBatch(s, k);
      StallsShift(c, s, s2, upTo, k);
    }
  }

  lemma StallsShift(c: Config, s: State, s2: State, upTo: nat, k: nat)
    requires c.batchSize > 0 && 0 < k && 2 * k < |s.pending| && s2.pending == s.pending[1..][1..]
    requires s.pending[0].RelayCall? && s.pending[0].upToDepositId == upTo
    requires s2.ledger.deposits == s.ledger.deposits && s2.doc.Some?
    requires BeforeCursor(c, s2) == upTo <==> !SplitsBlock(s.ledger, upTo)
    requires DiesAfterRelay(s, k) == DiesAfterRelay(s2, k - 1)
    requires StallsIff(c, s2, s2.pending, BeforeCursor(c, s2) == upTo, k - 1)
    ensures forall beforeFirst :: StallsIff(c, s, s.pending, beforeFirst, k)
  {
  }

  lemma {:induction false} ScheduleOfDeposits(l: Ledger, l': Ledger, first: nat, max: nat, current: nat, batchSize: nat)
    requires batchSize > 0 && 0 < first && max <= |l.deposits| && l'.deposits == l.deposits
    ensures Schedule(l, first, max, current, batchSize) == Schedule(l', first, max, current, batchSize)
    decreases max + 1 - first
  {
    if first <= max {
      ScheduleOfDeposits(l, l', BatchEnd(first, max, batchSize) + 1, max, current, batchSize);
    }
  }

  lemma BatchKeepsValid(c: Config, s: State)
    requires Valid(s.ledger, c.deployed)
    requires |s.pending| >= 2 && s.pending[0].RelayCall? && s.pending[1].WriteCursor? && Accepted(s.ledger, s.pending)
    ensures Valid(Perform(Perform(s)).ledger, c.deployed)
  {
    RelayKeepsValid(s.ledger, c.deployed, s.pending[0].upToDepositId);
    assert Perform(s).pending[0] == s.pending[1];
  }

  /** How a stall arises: dying between a relay of a run and the cursor write after it
      stalls the job exactly when that batch was a full one and the cursor stands
      right before it: from an earlier run, or from a batch that splits no block. */
  lemma CrashAfterRelayStallsIff(c: Config, s: State, current: nat, k: nat)
    requires c.batchSize > 0 && Valid(s.ledger, c.deployed) && (k > 0 ==> 0 < c.deployed)
    requires Plan(c, s.ledger, s.doc, current) != [] && Plan(c, s.ledger, s.doc, current)[0].RelayCall?
    requires Accepted(s.ledger, Plan(c, s.ledger, s.doc, current)) && 2 * k < |Plan(c, s.ledger, s.doc, current)|
    ensures var plan := Plan(c, s.ledger, s.doc, current);
      var end := DiesAfterRelay(s.(pending := plan), k);
      && plan[2 * k].RelayCall? && (k > 0 ==> plan[2 * k - 2].RelayCall?)
      && (Stalled(c, end, BeforeCursor(c, end) + 1)
          <==> && plan[2 * k].numDepositsToRelay == c.batchSize
               && if k == 0 then s.doc.Some? else !SplitsBlock(s.ledger, plan[2 * k - 2].upToDepositId))
  {
    var l := s.ledger;
    PlanHasShape(c, l, s.doc, current);
    DiesInSchedule(c, s.(pending := Plan(c, l, s.doc, current)), Skipped(c, l, s.doc, current) + 1,
                   Deposited(l, current), current, k);
  }

  // ------------------------------------------------------------------ examples

  /** Two deposits in block 5, relayed one by one by a job whose cursor is at block 4. */
  function TwoDepositsInOneBlock(): State {
    State(Ledger([Entry(5, Deposit(1, 0)), Entry(5, Deposit(2, 0))], [], 5), Some(EventDoc(4, None)), [])
  }

  lemma ExampleSchedule(l: Ledger)
    requires |l.deposits| == 2 && l.relays == []
    ensures Schedule(l, 1, 2, 5, 1) == [RelayCall(1, 1, CalculateGasLimit(1)), WriteCursor(l.deposits[0].block),
                                        RelayCall(2, 1, CalculateGasLimit(1)), WriteCursor(5)]
    ensures Accepted(l, Schedule(l, 1, 2, 5, 1))
  {
    assert Schedule(l, 3, 2, 5, 1) == [];
    assert Schedule(l, 2, 2, 5, 1) == [RelayCall(2, 1, CalculateGasLimit(1)), WriteCursor(5)];
    ScheduleOutcome(l, l, 1, 2, 5, 1);
  }

  lemma ExampleIsValid()
    ensures Inv(Config(0, 1), TwoDepositsInOneBlock())
    ensures Cut(TwoDepositsInOneBlock().ledger.deposits, 5) == 0
    ensures Deposited(TwoDepositsInOneBlock().ledger, 5) == 2
  {
    var l := TwoDepositsInOneBlock().ledger;
    CutUnique(l.deposits, 5, 0);
    CutUnique(l.deposits, 6, 2);
  }

  lemma ExamplePlan()
    ensures var c, s := Config(0, 1), TwoDepositsInOneBlock();
      && Inv(c, s)
      && Plan(c, s.ledger, s.doc, 5) == [RelayCall(1, 1, CalculateGasLimit(1)), WriteCursor(5),
                                         RelayCall(2, 1, CalculateGasLimit(1)), WriteCursor(5)]
      && Accepted(s.ledger, Plan(c, s.ledger, s.doc, 5))
  {
    var c, s := Config(0, 1), TwoDepositsInOneBlock();
    ExampleIsValid();
    assert LogsIn(s.ledger.relays, 5, 5) == [];
    PlanShape(c, s.ledger, s.doc, 5);
    ExampleSchedule(s.ledger);
  }

  /** Dying after the first cursor write strands deposit 2 behind the cursor. */
  lemma SplitBlockIsUnsafe()
    ensures var c, s := Config(0, 1), TwoDepositsInOneBlock();
      !CrashPointsSafe(s.(pending := Plan(c, s.ledger, s.doc, 5)))
  {
    var c, s := Config(0, 1), TwoDepositsInOneBlock();
    ExamplePlan();
    CrashPointsSafeIffUnsplit(c, s, 5);
    var plan := Plan(c, s.ledger, s.doc, 5);
    assert plan[0] in plan && SplitsBlock(s.ledger, plan[0].upToDepositId);
  }

  function AfterCrash(): State {
    Exec(Config(0, 1), TwoDepositsInOneBlock(), [StartRun(5), PerformEffect, Crash])
  }

  lemma ExampleStalls()
    ensures Stalled(Config(0, 1), AfterCrash(), 1)
    ensures AfterCrash().ledger.relays == [Entry(6, 1)]
  {
    var c, s := Config(0, 1), TwoDepositsInOneBlock();
    ExamplePlan();
    StateAfterCrash(c, s, 5);
    CrashAfterRelayStallsIff(c, s, 5, 0);
    var started := s.(pending := Plan(c, s.ledger, s.doc, 5));
    assert PerformMany(started, 1) == PerformMany(Perform(started), 0) == Perform(started);
    assert AfterCrash() == DiesAfterRelay(started, 0);
    CutUnique(s.ledger.deposits, 5, 0);
  }

  /** Dying after the first relay, before its cursor write, stalls the job for good:
      in no history without external relays is deposit 2 ever relayed. */
  lemma CrashStrandsDeposit(steps: seq<Step>)
    requires forall i :: 0 <= i < |steps| ==> !steps[i].ExternalRelay?
    ensures LastRelayed(Exec(Config(0, 1), AfterCrash(), steps).ledger) == 1
  {
    ExampleStalls();
    StallIsPermanent(Config(0, 1), AfterCrash(), 1, steps);
  }

  lemma ExecThree(c: Config, s: State, a: Step, b: Step, d: Step)
    requires c.batchSize > 0
    ensures Exec(c, s, [a, b, d]) == Next(c, Next(c, Next(c, s, a), b), d)
  {
    assert [a, b, d][1..] == [b, d] && [b, d][1..] == [d] && [d][1..] == [];
    var s1, s2 := Next(c, s, a), Next(c, Next(c, s, a), b);
    assert Exec(c, s, [a, b, d]) == Exec(c, s1, [b, d]);
    assert Exec(c, s1, [b, d]) == Exec(c, s2, [d]);
    assert Exec(c, s2, [d]) == Exec(c, Next(c, s2, d), []);
  }
}

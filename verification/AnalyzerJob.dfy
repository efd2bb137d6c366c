/** The deposit-analyzer job as it runs: an imperative loop over its batches that
    relays and then writes the cursor, and may die after any effect. */
module AnalyzerJob {
  import opened Wrappers
  import opened Scanner
  import opened EventStore
  import opened Liquidity
  import opened DepositAnalyzer
  import opened AnalyzerSafety

  class LiquidityContract {
    var ledger: Ledger

    constructor (l: Ledger)
      ensures ledger == l
    {
      ledger := l;
    }

    /** Returns whether the call was accepted; a reverted call changes nothing. */
    method SubmitRelayDeposits(upToDepositId: nat) returns (ok: bool)
      modifies this
      ensures ok <==> RelayDeposits(old(ledger), upToDepositId).Some?
      ensures ledger == if ok then RelayDeposits(old(ledger), upToDepositId).value else old(ledger)
    {
      var r := RelayDeposits(ledger, upToDepositId);
      ok := r.Some?;
      if ok {
        ledger := r.value;
      }
    }
  }

  lemma {:induction false} PerformManyIdle(s: State, n: nat)
    requires s.pending == []
    ensures PerformMany(s, n) == s
    decreases n
  {
    if n > 0 {
      PerformManyIdle(s, n - 1);
    }
  }

  /** One run that observes block `current` and lives for `life` effects: the
      ledger and the cursor end as the first `life` effects of its plan leave them. */
  method ProcessAnalyzer(c: Config, contract: LiquidityContract, event: Event, current: nat, life: nat)
    requires c.batchSize > 0
    modifies contract, event
    ensures var end := PerformMany(State(old(contract.ledger), old(event.doc),
                                         Plan(c, old(contract.ledger), old(event.doc), current)), life);
      contract.ledger == end.ledger && event.doc == end.doc
  {
    var doc := event.doc;
    ghost var s0 := State(contract.ledger, doc, Plan(c, contract.ledger, doc, current));
    var startBlockNumber := GetStartBlockNumber(doc, c.deployed);
    if startBlockNumber > current {
      PerformManyIdle(s0, life);
      return;
    }
    var processedDepositEvents := GetDepositedEvent(contract.ledger, startBlockNumber, current, doc);
    if processedDepositEvents == [] {
      if life > 0 {
        event.AddOrUpdateEvent(current, None);
        PerformManyIdle(Perform(s0), life - 1);
      }
      return;
    }
    var lastUpToDepositId := GetMaxDepositId(LogsIn(contract.ledger.relays, startBlockNumber, current));
    var summary := SplitDepositSummary(processedDepositEvents, lastUpToDepositId, current, c.batchSize);
    if summary.Err? || !summary.value.shouldSubmit {
      PerformManyIdle(s0, life);
      return;
    }
    var batches := summary.value.batches;
    var i, left := 0, life;
    while i < |batches|
      invariant 0 <= i <= |batches|
      invariant PerformMany(s0, life)
             == PerformMany(State(contract.ledger, event.doc, EffectsOf(batches[i..])), left)
    {
      ghost var s := State(contract.ledger, event.doc, EffectsOf(batches[i..]));
      assert batches[i..][1..] == batches[i + 1..];
      if left == 0 {
        return;
      }
      var ok := contract.SubmitRelayDeposits(batches[i].upToDepositId);
      if !ok {
        PerformManyIdle(Perform(s), left - 1);
        return;
      }
      assert s.pending[1..][1..] == EffectsOf(batches[i + 1..]);
      left := left - 1;
      if left == 0 {
        return;
      }
      event.AddOrUpdateEvent(batches[i].blockNumber, None);
      left := left - 1;
      i := i + 1;
    }
    PerformManyIdle(State(contract.ledger, event.doc, EffectsOf(batches[i..])), left);
  }

  function RunSteps(n: nat): seq<Step> {
    if n == 0 then [Crash] else [PerformEffect] + RunSteps(n - 1)
  }

  /** A run of the job that dies after `life` effects is a history of the machine,
      so everything proved of all histories holds of it. */
  lemma {:induction false} RunIsHistory(c: Config, s: State, life: nat)
    requires c.batchSize > 0
    ensures Exec(c, s, RunSteps(life)) == PerformMany(s, life).(pending := [])
    decreases life
  {
    if life == 0 {
      assert RunSteps(0)[1..] == [];
      assert Exec(c, Next(c, s, Crash), []) == Next(c, s, Crash);
    } else {
      assert RunSteps(life)[1..] == RunSteps(life - 1);
      RunIsHistory(c, Perform(s), life - 1);
    }
  }
}

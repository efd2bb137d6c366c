/** The Liquidity contract as an append-only ledger of `Deposited` and
    `DepositsRelayed` events. */
module Liquidity {
  import opened Wrappers
  import opened Scanner

  datatype Deposit = Deposit(depositId: nat, tokenIndex: nat)

  /** `head` is the newest sealed block; new events land in block `head + 1`.
      A relay entry carries its `upToDepositId`. */
  datatype Ledger = Ledger(deposits: seq<Entry<Deposit>>, relays: seq<Entry<nat>>, head: nat)

  /** Deposit ids are consecutive from 1, in block order, and never in the future. */
  ghost predicate ValidDeposits(deposits: seq<Entry<Deposit>>, deployed: nat, limit: nat) {
    && ChainOrdered(deposits)
    && forall i :: 0 <= i < |deposits| ==>
         deposits[i].data.depositId == i + 1 && deployed <= deposits[i].block <= limit
  }

  /** A relay names a deposit made no later than itself. */
  ghost predicate ValidRelay(deposits: seq<Entry<Deposit>>, relay: Entry<nat>, deployed: nat, limit: nat) {
    && deployed <= relay.block <= limit
    && 0 < relay.data <= |deposits|
    && deposits[relay.data - 1].block <= relay.block
  }

  ghost predicate Valid(l: Ledger, deployed: nat) {
    && deployed <= l.head + 1
    && ValidDeposits(l.deposits, deployed, l.head + 1)
    && ChainOrdered(l.relays)
    && (forall r :: r in l.relays ==> ValidRelay(l.deposits, r, deployed, l.head + 1))
    && (forall i, j :: 0 <= i < j < |l.relays| ==> l.relays[i].data < l.relays[j].data)
  }

  function UpTo(relays: seq<Entry<nat>>): nat {
    if relays == [] then 0 else relays[|relays| - 1].data
  }

  /** `getLastRelayedDepositId` now, and as of the end of block `b`. */
  function LastRelayed(l: Ledger): nat { UpTo(l.relays) }

  function LastRelayedAt(l: Ledger, b: int): nat { UpTo(LogsIn(l.relays, 0, b)) }

  function AddDeposit(l: Ledger, tokenIndex: nat): Ledger {
    l.(deposits := l.deposits + [Entry(l.head + 1, Deposit(|l.deposits| + 1, tokenIndex))])
  }

  function Seal(l: Ledger): Ledger { l.(head := l.head + 1) }

  /** `relayDeposits`: reverts with OutOfRange unless the id lies between the
      first unrelayed and the last deposit, and then relays everything up to it. */
  function RelayDeposits(l: Ledger, upToDepositId: nat): Option<Ledger> {
    if LastRelayed(l) < upToDepositId <= |l.deposits|
    then Some(l.(relays := l.relays + [Entry(l.head + 1, upToDepositId)]))
    else None
  }

  lemma AddDepositKeepsValid(l: Ledger, deployed: nat, tokenIndex: nat)
    requires Valid(l, deployed)
    ensures Valid(AddDeposit(l, tokenIndex), deployed)
  {
    var l' := AddDeposit(l, tokenIndex);
    forall r | r in l'.relays
      ensures ValidRelay(l'.deposits, r, deployed, l'.head + 1)
    {
      assert ValidRelay(l.deposits, r, deployed, l.head + 1);
    }
  }

  lemma SealKeepsValid(l: Ledger, deployed: nat)
    requires Valid(l, deployed)
    ensures Valid(Seal(l), deployed)
  {
    var l' := Seal(l);
    forall r | r in l'.relays
      ensures ValidRelay(l'.deposits, r, deployed, l'.head + 1)
    {
      assert ValidRelay(l.deposits, r, deployed, l.head + 1);
    }
  }

  lemma RelayKeepsValid(l: Ledger, deployed: nat, upTo: nat)
    requires Valid(l, deployed) && RelayDeposits(l, upTo).Some?
    ensures Valid(RelayDeposits(l, upTo).value, deployed)
  {
    var l' := RelayDeposits(l, upTo).value;
    var n := |l.relays|;
    assert ValidRelay(l.deposits, l'.relays[n], deployed, l.head + 1);
    forall i, j | 0 <= i < j < |l'.relays|
      ensures l'.relays[i].data < l'.relays[j].data && l'.relays[i].block <= l'.relays[j].block
    {
      if j == n {
        assert l.relays[i] in l.relays;
        assert ValidRelay(l.deposits, l.relays[i], deployed, l.head + 1);
        assert i < n - 1 ==> l.relays[i].data < l.relays[n - 1].data;
      }
    }
  }

  /** Every deposit in a block up to `b` has an id of at most `upTo`. */
  ghost predicate Covered(l: Ledger, b: int, upTo: int) {
    forall i :: 0 <= i < |l.deposits| && l.deposits[i].block <= b ==> i + 1 <= upTo
  }

  lemma LogsFromGenesis<T(!new)>(log: seq<Entry<T>>, b: int)
    requires ChainOrdered(log) && -1 <= b
    ensures LogsIn(log, 0, b) == log[..Cut(log, b + 1)]
  {
    LogsInIsSlice(log, 0, b);
    CutUnique(log, 0, 0);
  }

  /** What the chain relayed up to block `b` is already known to be deposited there. */
  lemma RelayedAtBounds(l: Ledger, deployed: nat, b: int)
    requires Valid(l, deployed) && -1 <= b
    ensures LastRelayedAt(l, b) <= LastRelayed(l)
    ensures LastRelayedAt(l, b) <= Cut(l.deposits, b + 1)
    ensures LastRelayedAt(l, b) == UpTo(l.relays[..Cut(l.relays, b + 1)])
  {
    var n := Cut(l.relays, b + 1);
    LogsFromGenesis(l.relays, b);
    if n > 0 {
      var r := l.relays[n - 1];
      assert r in l.relays;
      assert n - 1 < |l.relays| - 1 ==> r.data < l.relays[|l.relays| - 1].data;
    }
  }

  /** Relay number `i` is the one that relays deposit `id`. */
  predicate Relays(l: Ledger, i: nat, id: nat) {
    i < |l.relays| && id <= l.relays[i].data && (i > 0 ==> l.relays[i - 1].data < id)
  }

  /** Every id up to the last relayed one was relayed by exactly one accepted call,
      in a block no earlier than its deposit's. */
  lemma EachIdRelayedOnce(l: Ledger, deployed: nat, id: nat) returns (i: nat)
    requires Valid(l, deployed) && 0 < id <= LastRelayed(l)
    ensures Relays(l, i, id) && id <= |l.deposits| && l.deposits[id - 1].block <= l.relays[i].block
    ensures forall j: nat :: Relays(l, j, id) ==> j == i
  {
    i := |l.relays| - 1;
    while i > 0 && id <= l.relays[i - 1].data
      invariant i < |l.relays| && id <= l.relays[i].data
    {
      i := i - 1;
    }
    assert l.relays[i] in l.relays;
    assert ValidRelay(l.deposits, l.relays[i], deployed, l.head + 1);
  }
}

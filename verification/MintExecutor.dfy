/** The mint-executor job: recover unrecorded on-chain actions, run the actions
    whose interval has passed, then write the cursor. */
module MintExecutor {
  import opened Wrappers
  import opened Scanner
  import opened EventStore

  datatype TxHash = TxHash(hex: string)

  datatype Kind = Mint | Transfer

  /** A stored mint event. `automatic` is not stored: it tells the records of the
      job's own actions from those recovered from the chain. */
  datatype Record = Record(kind: Kind, transactionHash: TxHash, createdAt: int, automatic: bool)

  const DAY := 24 * 60 * 60 * 1000

  /** `offset` is the fixed distance of local midnight from UTC midnight. */
  datatype Config = Config(deployed: nat, mintWeeks: nat, transferWeeks: nat, availableFrom: int, offset: int)

  function Weeks(c: Config, k: Kind): nat { if k == Mint then c.mintWeeks else c.transferWeeks }

  // ------------------------------------------------------------- the interval

  /** `setHours(0, 0, 0, 0)`: the local midnight at or before `t`. */
  function Midnight(t: int, offset: int): int {
    t - (t + offset) % DAY
  }

  /** The number of the local day of `t`. */
  function DayIndex(t: int, offset: int): int {
    (t + offset) / DAY
  }

  function ShouldExecuteAction(c: Config, now: int, last: Option<Record>, intervalWeeks: nat): bool {
    match last
    case None => now >= c.availableFrom
    case Some(r) => Midnight(now, c.offset) >= Midnight(r.createdAt, c.offset) + intervalWeeks * 7 * DAY
  }

  /** The decision counts whole local days; a first action waits for the opening date. */
  lemma ShouldExecuteCountsDays(c: Config, now: int, r: Record, weeks: nat)
    ensures ShouldExecuteAction(c, now, Some(r), weeks)
       <==> DayIndex(now, c.offset) >= DayIndex(r.createdAt, c.offset) + 7 * weeks
    ensures ShouldExecuteAction(c, now, None, weeks) <==> now >= c.availableFrom
  {
    MidnightIs(now, c.offset);
    MidnightIs(r.createdAt, c.offset);
    assert weeks * 7 * DAY == (7 * weeks) * DAY;
    var a, b := DayIndex(now, c.offset), DayIndex(r.createdAt, c.offset) + 7 * weeks;
    assert b * DAY == DayIndex(r.createdAt, c.offset) * DAY + (7 * weeks) * DAY;
  }

  /** Local day `d` is the 24 hours from its local midnight on. */
  lemma DayIndexIs(t: int, offset: int, d: int)
    ensures DayIndex(t, offset) == d <==> d * 86400000 <= t + offset < (d + 1) * 86400000
  {
  }

  lemma MidnightIs(t: int, offset: int)
    ensures Midnight(t, offset) == DayIndex(t, offset) * DAY - offset
  {
    assert t + offset == DAY * ((t + offset) / DAY) + (t + offset) % DAY;
  }

  lemma DayIndexMonotone(a: int, b: int, offset: int)
    requires a <= b
    ensures DayIndex(a, offset) <= DayIndex(b, offset)
  {
  }

  // ----------------------------------------------------------------- the store

  /** `orderBy createdAt desc limit 1` among the records of a kind; a tie goes to the later one. */
  function Latest(records: seq<Record>, k: Kind): Option<Record> {
    if records == [] then None
    else
      var r := records[|records| - 1];
      var before := Latest(records[..|records| - 1], k);
      if r.kind == k && (before.None? || before.value.createdAt <= r.createdAt) then Some(r) else before
  }

  /** An on-chain event is new if it is not the latest stored one. */
  predicate IsNewEvent(window: seq<Entry<TxHash>>, last: Option<Record>) {
    window != [] && (last.None? || window[0].data != last.value.transactionHash)
  }

  // ----------------------------------------------------------------- a run

  datatype Action =
    | Save(kind: Kind, transactionHash: TxHash)
    | Decide
    | Execute(kind: Kind)
    | RecordOwn(kind: Kind, transactionHash: TxHash)
    | WriteCursor(block: nat)

  datatype State = State(minted: seq<Entry<TxHash>>, transferred: seq<Entry<TxHash>>, head: nat,
                         records: seq<Record>, doc: Option<EventDoc>, now: int, pending: seq<Action>)

  function LogOf(s: State, k: Kind): seq<Entry<TxHash>> {
    if k == Mint then s.minted else s.transferred
  }

  /** The save of the window's first event of a kind, if it is new. */
  function SaveOf(s: State, k: Kind, start: nat, current: nat): seq<Action> {
    var window := LogsIn(LogOf(s, k), start, current);
    if IsNewEvent(window, Latest(s.records, k)) then [Save(k, window[0].data)] else []
  }

  /** The actions of a run that observes block `current`. The two saves are
      concurrent and may happen in either order. */
  function StartRun(c: Config, s: State, current: nat, transferFirst: bool): seq<Action> {
    var start := GetStartBlockNumber(s.doc, c.deployed);
    if start > current then []
    else
      var mint, transfer := SaveOf(s, Mint, start, current), SaveOf(s, Transfer, start, current);
      (if transferFirst then transfer + mint else mint + transfer) + [Decide, WriteCursor(current)]
  }

  predicate Due(c: Config, s: State, k: Kind) {
    ShouldExecuteAction(c, s.now, Latest(s.records, k), Weeks(c, k))
  }

  function Add(s: State, r: Record): State { s.(records := s.records + [r]) }

  /** The next action of the run; `txHash` is the hash of the transaction if it sends one. */
  function Perform(c: Config, s: State, txHash: TxHash): State {
    if s.pending == [] then s
    else
      var rest := s.(pending := s.pending[1..]);
      match s.pending[0]
      case Save(k, h) => Add(rest, Record(k, h, s.now, false))
      case Decide =>
        rest.(pending := (if Due(c, s, Mint) then [Execute(Mint)] else [])
                         + (if Due(c, s, Transfer) then [Execute(Transfer)] else []) + rest.pending)
      case Execute(k) => (
        var e := Entry(s.head + 1, txHash);
        var s' := if k == Mint then rest.(minted := s.minted + [e]) else rest.(transferred := s.transferred + [e]);
        s'.(pending := [RecordOwn(k, txHash)] + rest.pending))
      case RecordOwn(k, h) => Add(rest, Record(k, h, s.now, true))
      case WriteCursor(b) => rest.(doc := Some(Merge(s.doc, b, None)))
  }

  // ------------------------------------------------------------ the job as it runs

  class MintEventStore {
    var records: seq<Record>

    constructor ()
      ensures records == []
    {
      records := [];
    }

    method AddEvent(r: Record)
      modifies this
      ensures records == old(records) + [r]
    {
      records := records + [r];
    }

    method GetLatestEventByType(k: Kind) returns (latest: Option<Record>)
      ensures latest == Latest(records, k)
    {
      latest := None;
      for i := 0 to |records|
        invariant latest == Latest(records[..i], k)
      {
        assert records[..i + 1][..i] == records[..i];
        if records[i].kind == k && (latest.None? || latest.value.createdAt <= records[i].createdAt) {
          latest := Some(records[i]);
        }
      }
      assert records[..|records|] == records;
    }
  }

  class Minter {
    var minted: seq<Entry<TxHash>>
    var transferred: seq<Entry<TxHash>>
    var head: nat

    constructor (head: nat)
      ensures minted == [] && transferred == [] && this.head == head
    {
      minted, transferred := [], [];
      this.head := head;
    }

    method Submit(k: Kind, txHash: TxHash)
      modifies this
      ensures head == old(head)
      ensures minted == if k == Mint then old(minted) + [Entry(head + 1, txHash)] else old(minted)
      ensures transferred == if k == Transfer then old(transferred) + [Entry(head + 1, txHash)] else old(transferred)
    {
      if k == Mint {
        minted := minted + [Entry(head + 1, txHash)];
      } else {
        transferred := transferred + [Entry(head + 1, txHash)];
      }
    }
  }

  /** `life` actions of a run with the clock at `now`; both transactions get the given hashes. */
  function PerformMany(c: Config, s: State, life: nat, mintHash: TxHash, transferHash: TxHash): State
    decreases life
  {
    if life == 0 then s
    else
      var hash := if s.pending != [] && s.pending[0] == Execute(Mint) then mintHash else transferHash;
      PerformMany(c, Perform(c, s, hash), life - 1, mintHash, transferHash)
  }

  lemma {:induction false} PerformManyIdle(c: Config, s: State, life: nat, mintHash: TxHash, transferHash: TxHash)
    requires s.pending == []
    ensures PerformMany(c, s, life, mintHash, transferHash) == s
    decreases life
  {
    if life > 0 {
      PerformManyIdle(c, s, life - 1, mintHash, transferHash);
    }
  }

  /** Carry out the first of the pending actions; returns what is left to do. */
  method PerformAction(c: Config, minter: Minter, store: MintEventStore, event: Event, now: int,
                       pending: seq<Action>, txHash: TxHash) returns (rest: seq<Action>)
    requires pending != []
    modifies minter, store, event
    ensures minter.head == old(minter.head)
    ensures State(minter.minted, minter.transferred, minter.head, store.records, event.doc, now, rest)
         == Perform(c, State(old(minter.minted), old(minter.transferred), old(minter.head), old(store.records),
                             old(event.doc), now, pending), txHash)
  {
    rest := pending[1..];
    match pending[0] {
      case Save(k, h) =>
        store.AddEvent(Record(k, h, now, false));
      case Decide =>
        var lastMint := store.GetLatestEventByType(Mint);
        var lastTransfer := store.GetLatestEventByType(Transfer);
        var shouldMint := ShouldExecuteAction(c, now, lastMint, c.mintWeeks);
        var shouldTransfer := ShouldExecuteAction(c, now, lastTransfer, c.transferWeeks);
        rest := (if shouldMint then [Execute(Mint)] else [])
                + (if shouldTransfer then [Execute(Transfer)] else []) + rest;
      case Execute(k) =>
        minter.Submit(k, txHash);
        rest := [RecordOwn(k, txHash)] + rest;
      case RecordOwn(k, h) =>
        store.AddEvent(Record(k, h, now, true));
      case WriteCursor(b) =>
        event.AddOrUpdateEvent(b, None);
    }
  }

  /** One run, its saves in the given order, that lives for `life` actions: chain, store and
      cursor end as those actions of its plan leave them. */
  method ProcessMinter(c: Config, minter: Minter, store: MintEventStore, event: Event, current: nat, now: int,
                       transferFirst: bool, life: nat, mintHash: TxHash, transferHash: TxHash)
    modifies minter, store, event
    ensures var s := State(old(minter.minted), old(minter.transferred), old(minter.head), old(store.records),
                           old(event.doc), now, []);
      var end := PerformMany(c, s.(pending := StartRun(c, s, current, transferFirst)), life, mintHash, transferHash);
      && minter.minted == end.minted && minter.transferred == end.transferred
      && store.records == end.records && event.doc == end.doc
  {
    ghost var s := State(minter.minted, minter.transferred, minter.head, store.records, event.doc, now, []);
    ghost var s0 := s.(pending := StartRun(c, s, current, transferFirst));
    var start := GetStartBlockNumber(event.doc, c.deployed);
    if start > current {
      PerformManyIdle(c, s0, life, mintHash, transferHash);
      return;
    }
    var lastMint := store.GetLatestEventByType(Mint);
    var lastTransfer := store.GetLatestEventByType(Transfer);
    var newMint := LogsIn(minter.minted, start, current);
    var newTransfer := LogsIn(minter.transferred, start, current);
    var mint := if IsNewEvent(newMint, lastMint) then [Save(Mint, newMint[0].data)] else [];
    var transfer := if IsNewEvent(newTransfer, lastTransfer) then [Save(Transfer, newTransfer[0].data)] else [];
    var pending := (if transferFirst then transfer + mint else mint + transfer) + [Decide, WriteCursor(current)];
    var left := life;
    while left > 0 && pending != []
      invariant minter.head == s.head
      invariant PerformMany(c, s0, life, mintHash, transferHash)
             == PerformMany(c, State(minter.minted, minter.transferred, minter.head, store.records, event.doc, now,
                                     pending),
                            left, mintHash, transferHash)
      decreases left
    {
      pending := PerformAction(c, minter, store, event, now, pending,
                               if pending[0] == Execute(Mint) then mintHash else transferHash);
      left := left - 1;
    }
    PerformManyIdle(c, State(minter.minted, minter.transferred, minter.head, store.records, event.doc, now, []),
                    left, mintHash, transferHash);
  }
}

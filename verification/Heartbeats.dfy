/** The indexer event watcher: fold a window of heartbeats to one per builder and
    merge the result into the builder documents. */
module Heartbeats {
  import opened Wrappers
  import opened Scanner
  import opened EventStore

  datatype Address = Address(hex: string)

  datatype Heartbeat = Heartbeat(builder: Address, url: string)

  /** A builder document; None fields have never been written. */
  datatype IndexerDoc = IndexerDoc(lastSyncedTime: Option<int>, url: Option<string>, active: Option<bool>)

  type Beat = Entry<Heartbeat>

  // ------------------------------------------------------------------ the fold

  /** One fold step: an event replaces the kept one only from a higher block. */
  function Keep(acc: map<Address, Beat>, e: Beat): map<Address, Beat> {
    if e.data.builder !in acc || acc[e.data.builder].block < e.block then acc[e.data.builder := e] else acc
  }

  function LastEvents(events: seq<Beat>): map<Address, Beat> {
    if events == [] then map[] else Keep(LastEvents(events[..|events| - 1]), events[|events| - 1])
  }

  /** Index `i` holds the first heartbeat of `b` in the highest block that has one. */
  ghost predicate FirstInHighestBlock(events: seq<Beat>, b: Address, i: nat) {
    && i < |events| && events[i].data.builder == b
    && forall j :: 0 <= j < |events| && events[j].data.builder == b ==>
         events[j].block < events[i].block || (events[j].block == events[i].block && i <= j)
  }

  /** The fold keeps exactly that heartbeat, for exactly the builders that have one;
      the events need not be in chain order. */
  lemma {:induction false} FoldKeepsFirstInHighestBlock(events: seq<Beat>, b: Address) returns (i: nat)
    ensures b in LastEvents(events) <==> exists j :: 0 <= j < |events| && events[j].data.builder == b
    ensures b in LastEvents(events) ==> FirstInHighestBlock(events, b, i) && LastEvents(events)[b] == events[i]
  {
    i := 0;
    if events != [] {
      var n := |events| - 1;
      var k := FoldKeepsFirstInHighestBlock(events[..n], b);
      assert forall j :: 0 <= j < n ==> events[..n][j] == events[j];
      var before := LastEvents(events[..n]);
      if events[n].data.builder == b && (b !in before || before[b].block < events[n].block) {
        i := n;
      } else {
        i := k;
      }
    }
  }

  // ---------------------------------------------------------------- the upsert

  /** A merging write of the synced fields; `active` is not among them. */
  function Merged(docs: map<Address, IndexerDoc>, b: Address, time: int, url: string): IndexerDoc {
    IndexerDoc(Some(time), Some(url), if b in docs then docs[b].active else None)
  }

  function Upsert(docs: map<Address, IndexerDoc>, latest: map<Address, Beat>, blockTime: nat -> int)
    : map<Address, IndexerDoc>
  {
    map b | b in docs.Keys + latest.Keys ::
      if b in latest then Merged(docs, b, blockTime(latest[b].block), latest[b].data.url) else docs[b]
  }

  class Indexers {
    var docs: map<Address, IndexerDoc>

    constructor ()
      ensures docs == map[]
    {
      docs := map[];
    }

    /** Fold the events, read each block's time, and write all documents as one
        batch; a block that cannot be read ends the job before it writes. */
    method ProcessIndexer(events: seq<Beat>, blockTime: nat -> int, blockFound: nat -> bool) returns (ok: bool)
      modifies this
      ensures ok <==> forall b :: b in LastEvents(events) ==> blockFound(LastEvents(events)[b].block)
      ensures docs == if ok then Upsert(old(docs), LastEvents(events), blockTime) else old(docs)
    {
      var lastIndexerEvents: map<Address, Beat> := map[];
      for i := 0 to |events|
        invariant lastIndexerEvents == LastEvents(events[..i])
      {
        assert events[..i + 1][..i] == events[..i];
        var existing := events[i].data.builder in lastIndexerEvents;
        if !existing || lastIndexerEvents[events[i].data.builder].block < events[i].block {
          lastIndexerEvents := lastIndexerEvents[events[i].data.builder := events[i]];
        }
      }
      assert events[..|events|] == events;
      var indexerInfos: map<Address, (int, string)> := map[];
      var todo := lastIndexerEvents.Keys;
      while todo != {}
        invariant todo <= lastIndexerEvents.Keys
        invariant indexerInfos.Keys == lastIndexerEvents.Keys - todo
        invariant forall b :: b in indexerInfos ==>
          && blockFound(lastIndexerEvents[b].block)
          && indexerInfos[b] == (blockTime(lastIndexerEvents[b].block), lastIndexerEvents[b].data.url)
        decreases todo
      {
        var b :| b in todo;
        var e := lastIndexerEvents[b];
        if !blockFound(e.block) {
          return false;
        }
        indexerInfos := indexerInfos[b := (blockTime(e.block), e.data.url)];
        todo := todo - {b};
      }
      docs := map b | b in docs.Keys + indexerInfos.Keys ::
        if b in indexerInfos then Merged(docs, b, indexerInfos[b].0, indexerInfos[b].1) else docs[b];
      return true;
    }
  }

  // ------------------------------------------------------------ whole histories

  /** `scanned` is the highest block whose heartbeats have been written, -1 at first. */
  datatype State = State(log: seq<Beat>, head: nat, docs: map<Address, IndexerDoc>, doc: Option<EventDoc>, scanned: int)

  /** A crashed run dies between its upsert and its cursor write. `SetActive` is the
      indexer monitor's own write to a document. */
  datatype Step =
    | Emit(heartbeat: Heartbeat)
    | SealBlock
    | Run(observedBlock: nat)
    | CrashedRun(observedBlock: nat)
    | SetActive(builder: Address, active: bool)

  function Scan(deployed: nat, blockTime: nat -> int, s: State, current: nat): State {
    s.(docs := Upsert(s.docs, LastEvents(LogsIn(s.log, GetStartBlockNumber(s.doc, deployed), current)), blockTime),
       scanned := if current > s.scanned then current else s.scanned)
  }

  function Next(deployed: nat, blockTime: nat -> int, s: State, step: Step): State {
    match step
    case Emit(h) => s.(log := s.log + [Entry(s.head + 1, h)])
    case SealBlock => s.(head := s.head + 1)
    case Run(b) =>
      if GetStartBlockNumber(s.doc, deployed) <= b <= s.head
      then Scan(deployed, blockTime, s, b).(doc := Some(Merge(s.doc, b, None))) else s
    case CrashedRun(b) =>
      if GetStartBlockNumber(s.doc, deployed) <= b <= s.head then Scan(deployed, blockTime, s, b) else s
    case SetActive(b, active) =>
      var indexer := if b in s.docs then s.docs[b] else IndexerDoc(None, None, None);
      s.(docs := s.docs[b := indexer.(active := Some(active))])
  }

  function Exec(deployed: nat, blockTime: nat -> int, s: State, steps: seq<Step>): State
    decreases |steps|
  {
    if steps == [] then s else Exec(deployed, blockTime, Next(deployed, blockTime, s, steps[0]), steps[1..])
  }

  /** The heartbeats of the blocks up to `b`. */
  function LogUpTo(log: seq<Beat>, b: int): seq<Beat> { log[..Cut(log, b + 1)] }

  /** A builder's document shows what one pass over `events` would have written. */
  ghost predicate ShowsPass(docs: map<Address, IndexerDoc>, events: seq<Beat>, blockTime: nat -> int, b: Address) {
    var latest := LastEvents(events);
    if b in latest then
      && b in docs
      && docs[b].lastSyncedTime == Some(blockTime(latest[b].block))
      && docs[b].url == Some(latest[b].data.url)
    else b in docs ==> docs[b].lastSyncedTime.None? && docs[b].url.None?
  }

  ghost predicate Synced(s: State, blockTime: nat -> int) {
    forall b :: ShowsPass(s.docs, LogUpTo(s.log, s.scanned), blockTime, b)
  }

  ghost predicate Inv(deployed: nat, blockTime: nat -> int, s: State) {
    && deployed <= s.head + 1
    && ChainOrdered(s.log)
    && (forall i :: 0 <= i < |s.log| ==> deployed <= s.log[i].block <= s.head + 1)
    && -1 <= s.scanned <= s.head
    && (s.doc.Some? ==> s.doc.value.lastBlockNumber <= s.scanned)
    && Synced(s, blockTime)
  }

  /** Folding `x` and then the later blocks of `y` is folding `y`, with `x` for the
      builders that `y` lacks. */
  lemma {:induction false} FoldLaterBlocks(x: seq<Beat>, y: seq<Beat>, b: Address)
    requires forall i, j :: 0 <= i < |x| && 0 <= j < |y| ==> x[i].block < y[j].block
    ensures b in LastEvents(x + y) <==> b in LastEvents(x) || b in LastEvents(y)
    ensures b in LastEvents(x + y) ==>
      LastEvents(x + y)[b] == if b in LastEvents(y) then LastEvents(y)[b] else LastEvents(x)[b]
  {
    if y == [] {
      assert x + y == x;
    } else {
      var n := |y| - 1;
      assert (x + y)[..|x + y| - 1] == x + y[..n];
      FoldLaterBlocks(x, y[..n], b);
      var i := FoldKeepsFirstInHighestBlock(x, b);
    }
  }

  /** A window that begins no later than the first unscanned block splits the log. */
  lemma WindowSplitsLog(log: seq<Beat>, start: nat, current: int)
    requires ChainOrdered(log) && start <= current + 1
    ensures LogUpTo(log, current) == LogUpTo(log, start - 1) + LogsIn(log, start, current)
  {
    LogsInIsSlice(log, start, current);
    var n, m := Cut(log, start), Cut(log, current + 1);
    assert log[..m] == log[..n] + log[n..m];
  }

  lemma WindowIsLater(log: seq<Beat>, start: nat, current: int, i: nat, j: nat)
    requires i < |LogUpTo(log, start - 1)| && j < |LogsIn(log, start, current)|
    ensures LogUpTo(log, start - 1)[i].block < LogsIn(log, start, current)[j].block
  {
    LogsInMembers(log, start, current, LogsIn(log, start, current)[j]);
  }

  /** What a pass up to `current` shows for a builder: the window's heartbeat if the
      window has one, and otherwise what a pass over the blocks before it shows. */
  lemma PassByWindow(log: seq<Beat>, start: nat, current: int, b: Address)
    requires ChainOrdered(log) && start <= current + 1
    ensures var all, before := LastEvents(LogUpTo(log, current)), LastEvents(LogUpTo(log, start - 1));
      var w := LastEvents(LogsIn(log, start, current));
      && (b in all <==> b in before || b in w)
      && (b in all ==> all[b] == if b in w then w[b] else before[b])
  {
    WindowSplitsLog(log, start, current);
    var x, y := LogUpTo(log, start - 1), LogsIn(log, start, current);
    forall i, j | 0 <= i < |x| && 0 <= j < |y|
      ensures x[i].block < y[j].block
    {
      WindowIsLater(log, start, current, i, j);
    }
    FoldLaterBlocks(x, y, b);
  }

  /** Scanning up to a block no lower than any scanned before keeps every document in
      step with one pass, even when the window overlaps earlier ones. */
  lemma ScanKeepsSynced(deployed: nat, blockTime: nat -> int, s: State, current: nat, b: Address)
    requires Inv(deployed, blockTime, s) && s.scanned <= current
    requires GetStartBlockNumber(s.doc, deployed) <= current
    ensures ShowsPass(Scan(deployed, blockTime, s, current).docs, LogUpTo(s.log, current), blockTime, b)
  {
    var start := GetStartBlockNumber(s.doc, deployed);
    PassByWindow(s.log, start, current, b);
    assert ShowsPass(s.docs, LogUpTo(s.log, s.scanned), blockTime, b);
    if b !in LastEvents(LogsIn(s.log, start, current)) {
      PassUpToScanned(deployed, s, start, current, b);
    }
  }

  /** A builder without a heartbeat in the window shows the same up to `scanned` and `current`. */
  lemma PassUpToScanned(deployed: nat, s: State, start: nat, current: nat, b: Address)
    requires ChainOrdered(s.log) && (forall i :: 0 <= i < |s.log| ==> deployed <= s.log[i].block)
    requires -1 <= s.scanned <= current && start == GetStartBlockNumber(s.doc, deployed) <= current
    requires s.doc.Some? ==> s.doc.value.lastBlockNumber <= s.scanned
    requires b !in LastEvents(LogsIn(s.log, start, current))
    ensures var all, seen := LastEvents(LogUpTo(s.log, current)), LastEvents(LogUpTo(s.log, s.scanned));
      (b in all <==> b in seen) && (b in all ==> all[b] == seen[b])
  {
    PassByWindow(s.log, start, current, b);
    if start <= s.scanned + 1 {
      PassByWindow(s.log, start, s.scanned, b);
      var k := FoldKeepsFirstInHighestBlock(LogsIn(s.log, start, s.scanned), b);
      if b in LastEvents(LogsIn(s.log, start, s.scanned)) {
        var e := LogsIn(s.log, start, s.scanned)[k];
        LogsInMembers(s.log, start, s.scanned, e);
        LogsInMembers(s.log, start, current, e);
        var k' := FoldKeepsFirstInHighestBlock(LogsIn(s.log, start, current), b);
      }
    } else {
      CutUnique(s.log, start, 0);
      CutUnique(s.log, s.scanned + 1, 0);
    }
  }

  /** The run is not skipped and takes the builder's document back: its window has a
      heartbeat of the builder, whose latest one is already scanned and lies higher. */
  predicate GoesBack(deployed: nat, s: State, current: nat, b: Address) {
    var start, latest := GetStartBlockNumber(s.doc, deployed), LastEvents(LogUpTo(s.log, s.scanned));
    && start <= current <= s.head && current < s.scanned
    && b in LastEvents(LogsIn(s.log, start, current)) && b in latest && latest[b].block > current
  }

  /** If the step is a run, it takes no document back. */
  ghost predicate MovesOn(deployed: nat, s: State, step: Step) {
    match step
    case Run(current) => forall b :: !GoesBack(deployed, s, current, b)
    case CrashedRun(current) => forall b :: !GoesBack(deployed, s, current, b)
    case _ => true
  }

  ghost predicate AlwaysMovesOn(deployed: nat, blockTime: nat -> int, s: State, steps: seq<Step>)
    decreases |steps|
  {
    steps != [] ==>
      && MovesOn(deployed, s, steps[0])
      && AlwaysMovesOn(deployed, blockTime, Next(deployed, blockTime, s, steps[0]), steps[1..])
  }

  lemma ScanKeepsInv(deployed: nat, blockTime: nat -> int, s: State, current: nat)
    requires Inv(deployed, blockTime, s) && GetStartBlockNumber(s.doc, deployed) <= current <= s.head
    requires forall b :: !GoesBack(deployed, s, current, b)
    ensures Inv(deployed, blockTime, Scan(deployed, blockTime, s, current))
  {
    var s' := Scan(deployed, blockTime, s, current);
    forall b
      ensures ShowsPass(s'.docs, LogUpTo(s.log, s'.scanned), blockTime, b)
    {
      if s.scanned <= current {
        ScanKeepsSynced(deployed, blockTime, s, current, b);
      } else {
        assert !GoesBack(deployed, s, current, b);
        LaggingRunKeeps(deployed, blockTime, s, current, b);
      }
    }
  }

  lemma SealKeepsInv(deployed: nat, blockTime: nat -> int, s: State)
    requires Inv(deployed, blockTime, s)
    ensures Inv(deployed, blockTime, s.(head := s.head + 1))
  {
    assert Synced(s.(head := s.head + 1), blockTime) by {
      assert Synced(s, blockTime);
    }
  }

  lemma EmitKeepsSynced(blockTime: nat -> int, s: State, log: seq<Beat>)
    requires Synced(s, blockTime) && ChainOrdered(log) && s.log <= log
    requires |s.log| < |log| ==> log[|s.log|].block > s.scanned
    ensures Synced(s.(log := log), blockTime)
  {
    CutOfExtension(s.log, log, s.scanned + 1);
    assert LogUpTo(log, s.scanned) == LogUpTo(s.log, s.scanned);
    forall b
      ensures ShowsPass(s.docs, LogUpTo(log, s.scanned), blockTime, b)
    {
      assert ShowsPass(s.docs, LogUpTo(s.log, s.scanned), blockTime, b);
    }
  }

  lemma EmitKeepsInv(deployed: nat, blockTime: nat -> int, s: State, h: Heartbeat, log: seq<Beat>)
    requires Inv(deployed, blockTime, s) && log == s.log + [Entry(s.head + 1, h)]
    ensures Inv(deployed, blockTime, s.(log := log))
  {
    EmitKeepsSynced(blockTime, s, log);
  }

  lemma ActiveKeepsSynced(deployed: nat, blockTime: nat -> int, s: State, builder: Address, active: bool)
    requires Synced(s, blockTime)
    ensures Synced(Next(deployed, blockTime, s, SetActive(builder, active)), blockTime)
  {
    var s' := Next(deployed, blockTime, s, SetActive(builder, active));
    forall b
      ensures ShowsPass(s'.docs, LogUpTo(s.log, s.scanned), blockTime, b)
    {
      assert ShowsPass(s.docs, LogUpTo(s.log, s.scanned), blockTime, b);
    }
  }

  lemma NextKeepsInv(deployed: nat, blockTime: nat -> int, s: State, step: Step)
    requires Inv(deployed, blockTime, s) && MovesOn(deployed, s, step)
    ensures Inv(deployed, blockTime, Next(deployed, blockTime, s, step))
  {
    match step
    case Emit(h) =>
      EmitKeepsInv(deployed, blockTime, s, h, s.log + [Entry(s.head + 1, h)]);
    case SealBlock => SealKeepsInv(deployed, blockTime, s);
    case Run(b) =>
      if GetStartBlockNumber(s.doc, deployed) <= b <= s.head {
        ScanKeepsInv(deployed, blockTime, s, b);
      }
    case CrashedRun(b) =>
      if GetStartBlockNumber(s.doc, deployed) <= b <= s.head {
        ScanKeepsInv(deployed, blockTime, s, b);
      }
    case SetActive(b, active) => ActiveKeepsSynced(deployed, blockTime, s, b, active);
  }

  /** Incremental equals one-shot: after any history of runs, crashes that make
      windows overlap, and activity updates, in which no run takes a document back,
      every document shows what one pass over all scanned blocks would have written. */
  lemma {:induction false} IncrementalIsOneShot(deployed: nat, blockTime: nat -> int, s: State, steps: seq<Step>)
    requires Inv(deployed, blockTime, s) && AlwaysMovesOn(deployed, blockTime, s, steps)
    ensures Inv(deployed, blockTime, Exec(deployed, blockTime, s, steps))
    ensures Synced(Exec(deployed, blockTime, s, steps), blockTime)
    decreases |steps|
  {
    if steps != [] {
      NextKeepsInv(deployed, blockTime, s, steps[0]);
      IncrementalIsOneShot(deployed, blockTime, Next(deployed, blockTime, s, steps[0]), steps[1..]);
    }
  }

  /** The cursor stands where the scans have got to. */
  predicate CursorIsScanned(s: State) {
    s.scanned == if s.doc.Some? then s.doc.value.lastBlockNumber else -1
  }

  /** Without crashes no run goes back, even when the observed block does: such a
      run is skipped. So every crash-free history is in step with one pass. */
  lemma {:induction false} CrashFreeIsOneShot(deployed: nat, blockTime: nat -> int, s: State, steps: seq<Step>)
    requires Inv(deployed, blockTime, s) && CursorIsScanned(s)
    requires forall i :: 0 <= i < |steps| ==> !steps[i].CrashedRun?
    ensures AlwaysMovesOn(deployed, blockTime, s, steps)
    ensures Synced(Exec(deployed, blockTime, s, steps), blockTime)
    decreases |steps|
  {
    if steps != [] {
      assert !steps[0].CrashedRun?;
      NextKeepsInv(deployed, blockTime, s, steps[0]);
      CrashFreeIsOneShot(deployed, blockTime, Next(deployed, blockTime, s, steps[0]), steps[1..]);
    }
  }

  /** A builder's active flag; None if it was never set. */
  function ActiveFlag(docs: map<Address, IndexerDoc>, b: Address): Option<bool> {
    if b in docs then docs[b].active else None
  }

  /** Only the indexer monitor changes a builder's active flag. */
  lemma {:induction false} ActiveUntouched(deployed: nat, blockTime: nat -> int, s: State, steps: seq<Step>, b: Address)
    requires forall i :: 0 <= i < |steps| && steps[i].SetActive? ==> steps[i].builder != b
    ensures ActiveFlag(Exec(deployed, blockTime, s, steps).docs, b) == ActiveFlag(s.docs, b)
    decreases |steps|
  {
    if steps != [] {
      ActiveUntouched(deployed, blockTime, Next(deployed, blockTime, s, steps[0]), steps[1..], b);
    }
  }

  lemma FreshStateIsValid(deployed: nat, blockTime: nat -> int, head: nat)
    requires deployed <= head + 1
    ensures Inv(deployed, blockTime, State([], head, map[], None, -1))
  {
  }

  // ------------------------------------------------------------- lagging runs

  lemma LaggingRunKeeps(deployed: nat, blockTime: nat -> int, s: State, current: nat, b: Address)
    requires Inv(deployed, blockTime, s) && GetStartBlockNumber(s.doc, deployed) <= current < s.scanned
    requires !GoesBack(deployed, s, current, b)
    ensures ShowsPass(Scan(deployed, blockTime, s, current).docs, LogUpTo(s.log, s.scanned), blockTime, b)
  {
    assert ShowsPass(s.docs, LogUpTo(s.log, s.scanned), blockTime, b);
    LatestAcrossLag(s.log, GetStartBlockNumber(s.doc, deployed), current, s.scanned, b);
  }

  /** After a crash, a run that observes a lower block than was scanned takes a
      document out of step exactly when its window has a heartbeat of the builder
      and the builder's latest one lies above that block. */
  lemma LaggingRunKeepsIff(deployed: nat, blockTime: nat -> int, s: State, current: nat, b: Address)
    requires Inv(deployed, blockTime, s) && GetStartBlockNumber(s.doc, deployed) <= current < s.scanned
    requires forall x: nat, y: nat :: x < y ==> blockTime(x) < blockTime(y)
    ensures ShowsPass(Scan(deployed, blockTime, s, current).docs, LogUpTo(s.log, s.scanned), blockTime, b)
       <==> !GoesBack(deployed, s, current, b)
  {
    assert ShowsPass(s.docs, LogUpTo(s.log, s.scanned), blockTime, b);
    LatestAcrossLag(s.log, GetStartBlockNumber(s.doc, deployed), current, s.scanned, b);
  }

  /** A builder's heartbeats of the blocks 1 and 3, neither scanned yet. */
  function TwoBeats(b: Address): State {
    State([Entry(1, Heartbeat(b, "old")), Entry(3, Heartbeat(b, "new"))], 3, map[], None, -1)
  }

  lemma TwoBeatsFolds(b: Address)
    ensures var log := TwoBeats(b).log;
      && LogUpTo(log, -1) == []
      && LastEvents(LogsIn(log, 1, 1)) == map[b := log[0]]
      && LastEvents(LogsIn(log, 1, 3)) == LastEvents(LogUpTo(log, 3)) == map[b := log[1]]
  {
    var log := TwoBeats(b).log;
    CutUnique(log, 0, 0);
    CutUnique(log, 1, 0);
    CutUnique(log, 2, 1);
    CutUnique(log, 4, 2);
    LogsInIsSlice(log, 1, 1);
    LogsInIsSlice(log, 1, 3);
    assert log[0..1] == log[..1] && log[0..2] == log[..2] == log;
    assert log[..1][..0] == [];
    assert LastEvents(log[..1]) == map[b := log[0]];
  }

  /** A run up to block 3 dies before its cursor write, and the next one observes
      block 1: the builder's document goes back to the heartbeat of block 1. */
  lemma LaggingRunGoesBack(b: Address, blockTime: nat -> int)
    ensures Inv(1, blockTime, TwoBeats(b))
    ensures var crashed := Next(1, blockTime, TwoBeats(b), CrashedRun(3));
      var end := Next(1, blockTime, crashed, Run(1));
      && GoesBack(1, crashed, 1, b)
      && b in crashed.docs && crashed.docs[b].url == Some("new")
      && b in end.docs && end.docs[b].url == Some("old") && end.docs[b].lastSyncedTime == Some(blockTime(1))
  {
    TwoBeatsFolds(b);
    assert LastEvents([]) == map[];
  }

  /** With block times that grow, a step keeps all documents in step with one pass
      if and only if it takes none back. */
  lemma StepKeepsSyncIff(deployed: nat, blockTime: nat -> int, s: State, step: Step)
    requires Inv(deployed, blockTime, s)
    requires forall x: nat, y: nat :: x < y ==> blockTime(x) < blockTime(y)
    ensures Inv(deployed, blockTime, Next(deployed, blockTime, s, step)) <==> MovesOn(deployed, s, step)
  {
    if MovesOn(deployed, s, step) {
      NextKeepsInv(deployed, blockTime, s, step);
    } else {
      var current := step.observedBlock;
      var b :| GoesBack(deployed, s, current, b);
      LaggingRunKeepsIff(deployed, blockTime, s, current, b);
    }
  }

  lemma WindowBlocks(log: seq<Beat>, from: int, to: int, b: Address)
    ensures b in LastEvents(LogsIn(log, from, to)) ==> from <= LastEvents(LogsIn(log, from, to))[b].block <= to
  {
    var i := FoldKeepsFirstInHighestBlock(LogsIn(log, from, to), b);
    if b in LastEvents(LogsIn(log, from, to)) {
      LogsInMembers(log, from, to, LogsIn(log, from, to)[i]);
    }
  }

  /** A builder seen in the window is seen up to `scanned` too: at its window
      heartbeat, or else above the window. */
  lemma LatestAcrossLag(log: seq<Beat>, start: nat, current: nat, scanned: int, b: Address)
    requires ChainOrdered(log) && start <= current < scanned
    ensures var w, latest := LastEvents(LogsIn(log, start, current)), LastEvents(LogUpTo(log, scanned));
      b in w ==> b in latest && w[b].block <= current && (latest[b] == w[b] || latest[b].block > current)
  {
    PassByWindow(log, start, current, b);
    PassByWindow(log, current + 1, scanned, b);
    WindowBlocks(log, start, current, b);
    WindowBlocks(log, current + 1, scanned, b);
  }
}

/** Watcher and monitor together over whole histories: who is saved as QUEUED, which
    records never change again, and how often a message is cleared. */
module BridgeSafety {
  import opened Wrappers
  import opened Scanner
  import opened EventStore
  import opened BridgeMonitor

  /** `saving` is the block of a watcher run between its save and its cursor write;
      `queue` what is left of a monitor run. `saved` and `submitted` are histories,
      and so is `lost`: the clears whose record did not become FAILED. */
  datatype State = State(
    chain: seq<Entry<Request>>, head: nat, doc: Option<EventDoc>, records: map<Guid, Record>,
    saving: Option<nat>, queue: seq<Listed>,
    saved: seq<Guid>, submitted: seq<Submitted>, lost: seq<Guid>)

  datatype Step =
    | EmitRequest(request: Request)
    | SealBlock
    | WatcherSave(observedBlock: nat, now: int)
    | WatcherWriteCursor
    | WatcherCrash
    | MonitorStart(listed: seq<Listed>)
    | MonitorPoll(poll: Poll)
    | MonitorCrash

  function Guids(entries: seq<Entry<Request>>): (gs: seq<Guid>)
    ensures |gs| == |entries| && forall i :: 0 <= i < |gs| ==> gs[i] == entries[i].data.guid
  {
    seq(|entries|, i requires 0 <= i < |entries| => entries[i].data.guid)
  }

  /** The store's answer to the status query: every active record once. */
  predicate IsListing(records: map<Guid, Record>, listed: seq<Listed>) {
    && (forall i :: 0 <= i < |listed| ==>
          listed[i].guid in records && listed[i].record == records[listed[i].guid] && Active(listed[i].record.status))
    && (forall i, j :: 0 <= i < j < |listed| ==> listed[i].guid != listed[j].guid)
    && (forall g :: g in records && Active(records[g].status) ==> Listed(g, records[g]) in listed)
  }

  function PollHead(s: State, p: Poll): State
    requires s.queue != []
  {
    var x := s.queue[0];
    var r := Process(x.record, p);
    var lost := ClearMessage in r.submitted && (r.update.None? || r.update.value.status != Failed);
    var s' := s.(submitted := s.submitted + Tagged(x.guid, r.submitted),
                 lost := if lost then s.lost + [x.guid] else s.lost);
    if r.update.None? || x.guid !in s.records then s'.(queue := [])
    else s'.(queue := s.queue[1..], records := s.records[x.guid := Apply(s.records[x.guid], r.update.value)])
  }

  /** A step that is not enabled changes nothing. Request guids are never reused. */
  function Next(deployed: nat, s: State, step: Step): State {
    match step
    case EmitRequest(r) =>
      if r.guid in Guids(s.chain) then s else s.(chain := s.chain + [Entry(s.head + 1, r)])
    case SealBlock => s.(head := s.head + 1)
    case WatcherSave(b, now) =>
      var start := GetStartBlockNumber(s.doc, deployed);
      if s.saving.Some? || start > b || b > s.head then s
      else
        var events := LogsIn(s.chain, start, b);
        s.(records := SaveAll(s.records, events, now), saving := Some(b), saved := s.saved + Guids(events))
    case WatcherWriteCursor =>
      if s.saving.None? then s else s.(doc := Some(Merge(s.doc, s.saving.value, None)), saving := None)
    case WatcherCrash => s.(saving := None)
    case MonitorStart(listed) =>
      if s.queue == [] && IsListing(s.records, listed) then s.(queue := SortByNonce(listed)) else s
    case MonitorPoll(p) => if s.queue == [] then s else PollHead(s, p)
    case MonitorCrash => s.(queue := [])
  }

  function Exec(deployed: nat, s: State, steps: seq<Step>): State
    decreases |steps|
  {
    if steps == [] then s else Exec(deployed, Next(deployed, s, steps[0]), steps[1..])
  }

  // ----------------------------------------------------------------- invariants

  /** Requests are chain-ordered, not before deployment, and have distinct guids. */
  ghost predicate ValidChain(deployed: nat, chain: seq<Entry<Request>>, head: nat) {
    && deployed <= head + 1
    && ChainOrdered(chain)
    && (forall i :: 0 <= i < |chain| ==> deployed <= chain[i].block <= head + 1)
    && (forall i, j :: 0 <= i < j < |chain| ==> chain[i].data.guid != chain[j].data.guid)
  }

  /** The block the watcher has saved up to, -1 before its first run. */
  function SavedUpTo(s: State): int {
    if s.saving.Some? then s.saving.value else if s.doc.Some? then s.doc.value.lastBlockNumber else -1
  }

  /** How many requests the watcher has saved. */
  function SavedCount(s: State): nat { Cut(s.chain, SavedUpTo(s) + 1) }

  ghost predicate WatcherInv(deployed: nat, s: State) {
    && 0 < deployed && ValidChain(deployed, s.chain, s.head)
    && (s.doc.Some? ==> deployed <= s.doc.value.lastBlockNumber <= SavedUpTo(s))
    && (s.saving.Some? ==> deployed <= s.saving.value)
    && SavedUpTo(s) <= s.head
    && SavedMatches(s.chain, SavedUpTo(s), s.saved)
    && (forall g :: g in s.records <==> g in s.saved)
  }

  /** `saved` names the requests of the blocks up to `b`, once each and in order. */
  ghost predicate SavedMatches(chain: seq<Entry<Request>>, b: int, saved: seq<Guid>) {
    saved == Guids(chain[..Cut(chain, b + 1)])
  }

  ghost predicate MonitorInv(s: State) {
    && (forall i :: 0 <= i < |s.queue| ==>
          && s.queue[i].guid in s.records
          && s.queue[i].record == s.records[s.queue[i].guid]
          && Active(s.queue[i].record.status))
    && (forall i, j :: 0 <= i < j < |s.queue| ==> s.queue[i].guid != s.queue[j].guid)
  }

  function Clears(submitted: seq<Submitted>, g: Guid): nat {
    multiset(submitted)[Submitted(g, ClearMessage)]
  }

  predicate IsFailed(s: State, g: Guid) { g in s.records && s.records[g].status == Failed }

  /** The accepted clears of `g` that neither a loss nor a FAILED record accounts for. */
  function Unaccounted(s: State, g: Guid): int {
    Clears(s.submitted, g) - multiset(s.lost)[g] - if IsFailed(s, g) then 1 else 0
  }

  ghost predicate Inv(deployed: nat, s: State) {
    WatcherInv(deployed, s) && MonitorInv(s)
  }

  // ---------------------------------------------------------------- the watcher

  ghost predicate Entered(inputs: seq<Entry<Request>>, r: Request) {
    exists i :: 0 <= i < |inputs| && inputs[i].data == r
  }

  lemma {:induction false} SaveAllAt(records: map<Guid, Record>, inputs: seq<Entry<Request>>, now: int, g: Guid)
    ensures var r := SaveAll(records, inputs, now);
      && (g in r <==> g in records || g in Guids(inputs))
      && (g in Guids(inputs) ==>
            && r[g] == Record(Queued, r[g].nonce, now, None, false, None, None, None)
            && Entered(inputs, Request(g, r[g].nonce)))
      && (g in records && g !in Guids(inputs) ==> r[g] == records[g])
    decreases |inputs|
  {
    if inputs != [] {
      var g0 := inputs[0].data.guid;
      SaveAllAt(records[g0 := QueuedRecord(inputs[0].data, now)], inputs[1..], now, g);
      assert Guids(inputs) == [g0] + Guids(inputs[1..]);
      var r := SaveAll(records, inputs, now);
      if g in Guids(inputs[1..]) {
        var i :| 0 <= i < |inputs| - 1 && inputs[1..][i].data == Request(g, r[g].nonce);
        assert inputs[i + 1].data == Request(g, r[g].nonce);
      } else if g == g0 {
        assert inputs[0].data == Request(g, r[g].nonce);
      }
    }
  }

  /** The window of a watcher run is exactly the requests not saved before. */
  lemma WatcherWindow(deployed: nat, s: State, b: nat)
    requires WatcherInv(deployed, s) && s.saving.None? && GetStartBlockNumber(s.doc, deployed) <= b
    ensures SavedCount(s) <= Cut(s.chain, b + 1)
    ensures LogsIn(s.chain, GetStartBlockNumber(s.doc, deployed), b) == s.chain[SavedCount(s)..Cut(s.chain, b + 1)]
  {
    LogsInIsSlice(s.chain, GetStartBlockNumber(s.doc, deployed), b);
    if s.doc.None? {
      CutUnique(s.chain, deployed, 0);
      CutUnique(s.chain, 0, 0);
    }
  }

  /** A crash-free watcher run saves only guids that have no record yet. */
  lemma WindowIsNew(deployed: nat, s: State, b: nat, g: Guid)
    requires WatcherInv(deployed, s) && s.saving.None? && GetStartBlockNumber(s.doc, deployed) <= b
    requires g in s.records
    ensures g !in Guids(LogsIn(s.chain, GetStartBlockNumber(s.doc, deployed), b))
  {
    var events := LogsIn(s.chain, GetStartBlockNumber(s.doc, deployed), b);
    WatcherWindow(deployed, s, b);
    assert g in s.saved;
    var i :| 0 <= i < SavedCount(s) && s.chain[i].data.guid == g;
    forall j | 0 <= j < |events|
      ensures events[j].data.guid != g
    {
      assert events[j] == s.chain[SavedCount(s) + j];
    }
  }

  /** A crash-free watcher run leaves every existing record alone. */
  lemma SaveKeepsRecords(deployed: nat, s: State, b: nat, now: int, g: Guid)
    requires WatcherInv(deployed, s)
    ensures var r := Next(deployed, s, WatcherSave(b, now)).records;
      && (g in s.records ==> g in r && r[g] == s.records[g])
      && (g in r && g !in s.records ==> r[g].status == Queued)
  {
    var start := GetStartBlockNumber(s.doc, deployed);
    if s.saving.None? && start <= b <= s.head {
      SaveAllAt(s.records, LogsIn(s.chain, start, b), now, g);
      if g in s.records {
        WindowIsNew(deployed, s, b, g);
      }
    }
  }

  lemma SaveExtendsSaved(deployed: nat, s: State, b: nat)
    requires WatcherInv(deployed, s) && s.saving.None? && GetStartBlockNumber(s.doc, deployed) <= b
    ensures SavedMatches(s.chain, b, s.saved + Guids(LogsIn(s.chain, GetStartBlockNumber(s.doc, deployed), b)))
  {
    WatcherWindow(deployed, s, b);
    WindowExtendsSaved(s.chain, SavedCount(s), b, s.saved);
  }

  lemma WindowExtendsSaved(chain: seq<Entry<Request>>, count: nat, b: int, saved: seq<Guid>)
    requires count <= Cut(chain, b + 1) && saved == Guids(chain[..count])
    ensures SavedMatches(chain, b, saved + Guids(chain[count..Cut(chain, b + 1)]))
  {
  }

  lemma SaveKeepsWatcherInv(deployed: nat, s: State, b: nat, now: int, events: seq<Entry<Request>>)
    requires WatcherInv(deployed, s) && s.saving.None? && GetStartBlockNumber(s.doc, deployed) <= b <= s.head
    requires events == LogsIn(s.chain, GetStartBlockNumber(s.doc, deployed), b)
    ensures WatcherInv(deployed, s.(records := SaveAll(s.records, events, now), saving := Some(b),
                                    saved := s.saved + Guids(events)))
  {
    SaveExtendsSaved(deployed, s, b);
    forall g
      ensures g in SaveAll(s.records, events, now) <==> g in s.saved + Guids(events)
    {
      SaveAllAt(s.records, events, now, g);
    }
  }

  lemma KeptRecordsKeepQueue(s: State, s': State)
    requires MonitorInv(s) && s'.queue == s.queue
    requires forall g :: g in s.records ==> g in s'.records && s'.records[g] == s.records[g]
    ensures MonitorInv(s')
  {
  }

  lemma SaveKeepsInv(deployed: nat, s: State, b: nat, now: int)
    requires Inv(deployed, s)
    ensures Inv(deployed, Next(deployed, s, WatcherSave(b, now)))
  {
    var start, s' := GetStartBlockNumber(s.doc, deployed), Next(deployed, s, WatcherSave(b, now));
    if s.saving.None? && start <= b <= s.head {
      SaveKeepsWatcherInv(deployed, s, b, now, LogsIn(s.chain, start, b));
      forall g | g in s.records
        ensures g in s'.records && s'.records[g] == s.records[g]
      {
        SaveKeepsRecords(deployed, s, b, now, g);
      }
      KeptRecordsKeepQueue(s, s');
    }
  }

  // ---------------------------------------------------------------- the monitor

  /** A record becomes FAILED only by a poll whose clear was accepted. */
  lemma ProcessFacts(r: Record, p: Poll)
    ensures |Process(r, p).submitted| <= 1
    ensures Process(r, p).update.Some? && Process(r, p).update.value.status == Failed
            ==> Process(r, p).submitted == [ClearMessage]
  {
  }

  lemma PollKeepsMonitorInv(s: State, p: Poll)
    requires MonitorInv(s) && s.queue != []
    ensures MonitorInv(PollHead(s, p))
    ensures forall g :: g in s.records && g != s.queue[0].guid ==>
              g in PollHead(s, p).records && PollHead(s, p).records[g] == s.records[g]
    ensures PollHead(s, p).records.Keys == s.records.Keys
  {
    var s' := PollHead(s, p);
    assert forall i :: 0 <= i < |s.queue| - 1 ==> s.queue[1..][i] == s.queue[i + 1];
  }

  /** One poll of a queued record, on the whole state: the transaction its answer calls
      for enters the history under the record's guid, no other record changes, and an
      error that is not written down as NOT_FOUND ends the run. */
  lemma PollHeadIs(s: State, p: Poll, g: Guid)
    requires MonitorInv(s) && s.queue != []
    ensures var x, s' := s.queue[0], PollHead(s, p);
      && s'.submitted == s.submitted + (if !p.submit.Returns? then []
                                        else if p.fetch == Returns(Failed) then [Submitted(x.guid, ClearMessage)]
                                        else if RetriesFor(x.record, p) then [Submitted(x.guid, ManualRetry)]
                                        else [])
      && (g in s.records && g != x.guid ==> g in s'.records && s'.records[g] == s.records[g])
      && (Writes(x.record, p) ==> s'.queue == s.queue[1..])
      && (!Writes(x.record, p) ==> s'.queue == [] && s'.records == s.records)
  {
    var x, sent := s.queue[0], Process(s.queue[0].record, p).submitted;
    SubmitsIff(x.record, p);
    RecordAfterPoll(x.record, p);
    if sent != [] {
      assert Tagged(x.guid, sent) == [Submitted(x.guid, sent[0])];
    }
  }

  /** The poll ends with a write of the record. */
  predicate Writes(r: Record, p: Poll) {
    Completes(r, p) || (FirstError(r, p).mentions404 && p.notFoundWrite.Returns?)
  }

  /** How much one poll of `x` adds to the clears of a guid, and to its losses. */
  function ClearsBy(x: Listed, p: Poll): nat {
    if Process(x.record, p).submitted == [ClearMessage] then 1 else 0
  }

  function LostBy(x: Listed, p: Poll): nat {
    var r := Process(x.record, p);
    if ClearMessage in r.submitted && (r.update.None? || r.update.value.status != Failed) then 1 else 0
  }

  lemma PollCounts(s: State, p: Poll, g: Guid)
    requires s.queue != []
    ensures var x, s' := s.queue[0], PollHead(s, p);
      && Clears(s'.submitted, g) == Clears(s.submitted, g) + (if x.guid == g then ClearsBy(x, p) else 0)
      && multiset(s'.lost)[g] == multiset(s.lost)[g] + if x.guid == g then LostBy(x, p) else 0
  {
    var x := s.queue[0];
    ProcessFacts(x.record, p);
    TagsCount(s.submitted, x.guid, Process(x.record, p).submitted, g);
  }

  lemma TagsCount(before: seq<Submitted>, guid: Guid, what: seq<Submission>, g: Guid)
    requires |what| <= 1
    ensures Clears(before + Tagged(guid, what), g)
         == Clears(before, g) + if guid == g && what == [ClearMessage] then 1 else 0
  {
    if what != [] {
      assert Tagged(guid, what) == [Submitted(guid, what[0])];
    }
  }

  lemma {:induction false} ListingStarts(s: State, listed: seq<Listed>)
    requires s.queue == [] && IsListing(s.records, listed)
    ensures MonitorInv(s.(queue := SortByNonce(listed)))
  {
    SortByNonceSorts(listed);
    var q := SortByNonce(listed);
    forall i | 0 <= i < |q|
      ensures q[i] in listed
    {
      assert q[i] in multiset(q);
    }
    forall i, j | 0 <= i < j < |q|
      ensures q[i].guid != q[j].guid
    {
      if q[i].guid == q[j].guid {
        assert q[i] == q[j];
        TwiceInSequence(q, i, j);
        OnceInListing(listed, q[i]);
      }
    }
  }

  lemma TwiceInSequence(q: seq<Listed>, i: nat, j: nat)
    requires i < j < |q| && q[i] == q[j]
    ensures multiset(q)[q[i]] >= 2
  {
    assert q == q[..j] + [q[j]] + q[j + 1..];
    assert q[i] in q[..j];
  }

  lemma {:induction false} OnceInListing(listed: seq<Listed>, x: Listed)
    requires forall i, j :: 0 <= i < j < |listed| ==> listed[i].guid != listed[j].guid
    ensures multiset(listed)[x] <= 1
  {
    if listed != [] {
      OnceInListing(listed[1..], x);
      assert listed == [listed[0]] + listed[1..];
      if x == listed[0] {
        assert x !in listed[1..];
      }
    }
  }

  lemma AppendKeepsChain(deployed: nat, chain: seq<Entry<Request>>, head: nat, r: Request)
    requires ValidChain(deployed, chain, head) && r.guid !in Guids(chain)
    ensures ValidChain(deployed, chain + [Entry(head + 1, r)], head)
  {
    forall i | 0 <= i < |chain|
      ensures chain[i].data.guid != r.guid
    {
      assert Guids(chain)[i] == chain[i].data.guid;
    }
  }

  lemma AppendKeepsSaved(chain: seq<Entry<Request>>, chain': seq<Entry<Request>>, b: int, saved: seq<Guid>)
    requires ChainOrdered(chain') && chain <= chain' && SavedMatches(chain, b, saved)
    requires |chain| < |chain'| ==> chain'[|chain|].block > b
    ensures SavedMatches(chain', b, saved)
  {
    CutOfExtension(chain, chain', b + 1);
  }

  lemma EmitKeepsWatcherInv(deployed: nat, s: State, r: Request, chain: seq<Entry<Request>>)
    requires WatcherInv(deployed, s) && r.guid !in Guids(s.chain)
    requires chain == s.chain + [Entry(s.head + 1, r)]
    ensures WatcherInv(deployed, s.(chain := chain))
  {
    AppendKeepsChain(deployed, s.chain, s.head, r);
    AppendKeepsSaved(s.chain, chain, SavedUpTo(s), s.saved);
    EmittedInv(deployed, s, chain);
  }

  lemma EmittedInv(deployed: nat, s: State, chain: seq<Entry<Request>>)
    requires WatcherInv(deployed, s) && ValidChain(deployed, chain, s.head)
    requires SavedMatches(chain, SavedUpTo(s), s.saved)
    ensures WatcherInv(deployed, s.(chain := chain))
  {
  }

  lemma WriteKeepsWatcherInv(deployed: nat, s: State)
    requires WatcherInv(deployed, s)
    ensures WatcherInv(deployed, Next(deployed, s, WatcherWriteCursor))
  {
    assert SavedUpTo(Next(deployed, s, WatcherWriteCursor)) == SavedUpTo(s);
  }

  lemma SealKeepsWatcherInv(deployed: nat, s: State)
    requires WatcherInv(deployed, s)
    ensures WatcherInv(deployed, s.(head := s.head + 1))
  {
  }

  lemma MonitorPollKeepsInv(deployed: nat, s: State, p: Poll)
    requires Inv(deployed, s) && s.queue != []
    ensures Inv(deployed, PollHead(s, p))
  {
    PollKeepsMonitorInv(s, p);
    WatcherUntouched(deployed, s, PollHead(s, p));
  }

  lemma WatcherUntouched(deployed: nat, s: State, s': State)
    requires WatcherInv(deployed, s) && s'.records.Keys == s.records.Keys
    requires s'.chain == s.chain && s'.head == s.head && s'.doc == s.doc && s'.saving == s.saving && s'.saved == s.saved
    ensures WatcherInv(deployed, s')
  {
  }

  lemma EmitKeepsInv(deployed: nat, s: State, r: Request)
    requires Inv(deployed, s)
    ensures Inv(deployed, Next(deployed, s, EmitRequest(r)))
  {
    var s' := Next(deployed, s, EmitRequest(r));
    if r.guid !in Guids(s.chain) {
      EmitKeepsWatcherInv(deployed, s, r, s'.chain);
    }
  }

  lemma StartKeepsInv(deployed: nat, s: State, listed: seq<Listed>)
    requires Inv(deployed, s)
    ensures Inv(deployed, Next(deployed, s, MonitorStart(listed)))
  {
    var s' := Next(deployed, s, MonitorStart(listed));
    if s.queue == [] && IsListing(s.records, listed) {
      ListingStarts(s, listed);
      WatcherUntouched(deployed, s, s');
    }
  }

  lemma NextKeepsInv(deployed: nat, s: State, step: Step)
    requires Inv(deployed, s) && step != WatcherCrash
    ensures Inv(deployed, Next(deployed, s, step))
  {
    var s' := Next(deployed, s, step);
    match step
    case EmitRequest(r) =>
      EmitKeepsInv(deployed, s, r);
    case SealBlock =>
      SealKeepsWatcherInv(deployed, s);
    case WatcherSave(b, now) => SaveKeepsInv(deployed, s, b, now);
    case WatcherWriteCursor =>
      WriteKeepsWatcherInv(deployed, s);
    case MonitorStart(listed) =>
      StartKeepsInv(deployed, s, listed);
    case MonitorPoll(p) =>
      if s.queue != [] {
        MonitorPollKeepsInv(deployed, s, p);
      }
    case MonitorCrash =>
      WatcherUntouched(deployed, s, s');
  }

  ghost predicate WatcherCrashFree(steps: seq<Step>) {
    forall i :: 0 <= i < |steps| ==> steps[i] != WatcherCrash
  }

  lemma {:induction false} HistoryKeepsInv(deployed: nat, s: State, steps: seq<Step>)
    requires Inv(deployed, s) && WatcherCrashFree(steps)
    ensures Inv(deployed, Exec(deployed, s, steps))
    decreases |steps|
  {
    if steps != [] {
      assert steps[0] != WatcherCrash;
      NextKeepsInv(deployed, s, steps[0]);
      HistoryKeepsInv(deployed, Next(deployed, s, steps[0]), steps[1..]);
    }
  }

  lemma StepKeepsTerminal(deployed: nat, s: State, step: Step, g: Guid)
    requires Inv(deployed, s) && step != WatcherCrash
    requires g in s.records && !Active(s.records[g].status)
    ensures g in Next(deployed, s, step).records && Next(deployed, s, step).records[g] == s.records[g]
  {
    match step
    case WatcherSave(b, now) => SaveKeepsRecords(deployed, s, b, now, g);
    case MonitorPoll(p) =>
      if s.queue != [] {
        PollKeepsMonitorInv(s, p);
      }
    case _ =>
  }

  ghost predicate Names(xs: seq<Listed>, g: Guid) { exists x :: x in xs && x.guid == g }

  lemma ListingNamesOpen(records: map<Guid, Record>, listed: seq<Listed>, g: Guid)
    requires IsListing(records, listed)
    ensures Names(listed, g)
       <==> g in records && records[g].status in {Queued, Inflight, Confirming, Verified, Blocked}
  {
    if g in records && Active(records[g].status) {
      assert Listed(g, records[g]) in listed;
    }
    if x :| x in listed && x.guid == g {
      var i :| 0 <= i < |listed| && listed[i] == x;
    }
  }

  lemma SortNamesSame(listed: seq<Listed>, g: Guid)
    ensures Names(SortByNonce(listed), g) <==> Names(listed, g)
  {
    var queue := SortByNonce(listed);
    SortByNonceSorts(listed);
    if x :| x in queue && x.guid == g {
      assert x in multiset(queue);
      assert x in listed;
    }
    if x :| x in listed && x.guid == g {
      assert x in multiset(listed);
      assert x in queue;
    }
  }

  /** A monitor run that starts looks at exactly the records of the five open statuses. */
  lemma StartQueuesOpen(deployed: nat, s: State, listed: seq<Listed>, g: Guid)
    requires s.queue == [] && IsListing(s.records, listed)
    ensures Names(Next(deployed, s, MonitorStart(listed)).queue, g)
       <==> g in s.records && s.records[g].status in {Queued, Inflight, Confirming, Verified, Blocked}
  {
    ListingNamesOpen(s.records, listed, g);
    SortNamesSame(listed, g);
  }

  /** Absorbing terminals: in every interleaving in which the watcher does not die
      between its save and its cursor write (the monitor may die anywhere), a
      record that is DELIVERED, FAILED, PAYLOAD_STORED, NOT_FOUND or of an unlisted
      status never changes again. */
  lemma {:induction false} TerminalsAreAbsorbing(deployed: nat, s: State, steps: seq<Step>, g: Guid)
    requires Inv(deployed, s) && WatcherCrashFree(steps)
    requires g in s.records && s.records[g].status !in {Queued, Inflight, Confirming, Verified, Blocked}
    ensures g in Exec(deployed, s, steps).records && Exec(deployed, s, steps).records[g] == s.records[g]
    decreases |steps|
  {
    if steps != [] {
      assert steps[0] != WatcherCrash;
      NextKeepsInv(deployed, s, steps[0]);
      StepKeepsTerminal(deployed, s, steps[0], g);
      TerminalsAreAbsorbing(deployed, Next(deployed, s, steps[0]), steps[1..], g);
    }
  }

  lemma {:induction false} CountOfDistinct(gs: seq<Guid>, g: Guid)
    requires forall i, j :: 0 <= i < j < |gs| ==> gs[i] != gs[j]
    ensures multiset(gs)[g] == if g in gs then 1 else 0
  {
    if gs != [] {
      CountOfDistinct(gs[1..], g);
      assert gs == [gs[0]] + gs[1..];
    }
  }

  /** Every request up to the cursor is saved as QUEUED exactly once, and nothing else is. */
  lemma SavedExactlyOnce(deployed: nat, s: State, steps: seq<Step>, i: nat)
    requires Inv(deployed, s) && WatcherCrashFree(steps)
    requires i < |Exec(deployed, s, steps).chain|
    ensures var end := Exec(deployed, s, steps);
      && |end.saved| == SavedCount(end)
      && multiset(end.saved)[end.chain[i].data.guid] == if end.chain[i].block <= SavedUpTo(end) then 1 else 0
  {
    HistoryKeepsInv(deployed, s, steps);
    InvSavesOnce(deployed, Exec(deployed, s, steps), i);
  }

  lemma InvSavesOnce(deployed: nat, s: State, i: nat)
    requires WatcherInv(deployed, s) && i < |s.chain|
    ensures |s.saved| == SavedCount(s)
    ensures multiset(s.saved)[s.chain[i].data.guid] == if s.chain[i].block <= SavedUpTo(s) then 1 else 0
  {
    var n := SavedCount(s);
    CountOfDistinct(s.saved, s.chain[i].data.guid);
    if i < n {
      assert s.saved[i] == s.chain[i].data.guid;
    } else {
      assert s.chain[n].block <= s.chain[i].block;
    }
  }

  // ----------------------------------------------------------------- the clears

  /** Each queued guid is queued once and has a record that is not FAILED. */
  ghost predicate QueueOpen(s: State) {
    && (forall i :: 0 <= i < |s.queue| ==> s.queue[i].guid in s.records && !IsFailed(s, s.queue[i].guid))
    && (forall i, j :: 0 <= i < j < |s.queue| ==> s.queue[i].guid != s.queue[j].guid)
  }

  /** A watcher save that turns the guid's FAILED record back to QUEUED. */
  predicate Requeues(deployed: nat, s: State, step: Step, g: Guid) {
    step.WatcherSave? && IsFailed(s, g) && !IsFailed(Next(deployed, s, step), g)
  }

  function RequeueCount(deployed: nat, s: State, steps: seq<Step>, g: Guid): nat
    decreases |steps|
  {
    if steps == [] then 0
    else (if Requeues(deployed, s, steps[0], g) then 1 else 0)
         + RequeueCount(deployed, Next(deployed, s, steps[0]), steps[1..], g)
  }

  lemma SaveOnlyQueues(deployed: nat, s: State, b: nat, now: int, g: Guid)
    ensures var s' := Next(deployed, s, WatcherSave(b, now));
      && (g in s.records ==> g in s'.records)
      && (IsFailed(s', g) ==> IsFailed(s, g))
  {
    SaveAllAt(s.records, LogsIn(s.chain, GetStartBlockNumber(s.doc, deployed), b), now, g);
  }

  lemma PollKeepsOpen(s: State, p: Poll)
    requires QueueOpen(s) && s.queue != []
    ensures QueueOpen(PollHead(s, p))
  {
    assert forall i :: 0 <= i < |s.queue| - 1 ==> s.queue[1..][i] == s.queue[i + 1];
  }

  lemma NextKeepsOpen(deployed: nat, s: State, step: Step)
    requires QueueOpen(s)
    ensures QueueOpen(Next(deployed, s, step))
  {
    match step
    case WatcherSave(b, now) =>
      forall g
        ensures g in s.records ==> g in Next(deployed, s, step).records
        ensures IsFailed(Next(deployed, s, step), g) ==> IsFailed(s, g)
      {
        SaveOnlyQueues(deployed, s, b, now, g);
      }
    case MonitorStart(listed) =>
      if s.queue == [] && IsListing(s.records, listed) {
        ListingStarts(s, listed);
      }
    case MonitorPoll(p) =>
      if s.queue != [] {
        PollKeepsOpen(s, p);
      }
    case _ =>
  }

  lemma PollFails(s: State, p: Poll, g: Guid)
    requires s.queue != [] && s.queue[0].guid in s.records
    ensures var x, u := s.queue[0], Process(s.queue[0].record, p).update;
      IsFailed(PollHead(s, p), g)
      <==> if x.guid == g && u.Some? then u.value.status == Failed else IsFailed(s, g)
  {
  }

  lemma PollAccounts(s: State, p: Poll, g: Guid)
    requires QueueOpen(s) && s.queue != []
    ensures Unaccounted(PollHead(s, p), g) == Unaccounted(s, g)
  {
    var x := s.queue[0];
    assert x.guid in s.records && !IsFailed(s, x.guid);
    PollFails(s, p, g);
    PollCounts(s, p, g);
    ProcessFacts(x.record, p);
  }

  lemma StepAccounts(deployed: nat, s: State, step: Step, g: Guid)
    requires QueueOpen(s)
    ensures Unaccounted(Next(deployed, s, step), g)
         == Unaccounted(s, g) + if Requeues(deployed, s, step, g) then 1 else 0
  {
    match step
    case WatcherSave(b, now) => SaveOnlyQueues(deployed, s, b, now, g);
    case MonitorPoll(p) =>
      if s.queue != [] {
        PollAccounts(s, p, g);
      }
    case _ =>
  }

  /** Every clear is accounted for, in every history, with crashes of both jobs: the
      accepted clears of a guid that no lost clear and no FAILED record stand for
      grow by exactly the saves that requeue its FAILED record. */
  lemma {:induction false} ClearsAreAccounted(deployed: nat, s: State, steps: seq<Step>, g: Guid)
    requires QueueOpen(s)
    ensures Unaccounted(Exec(deployed, s, steps), g) == Unaccounted(s, g) + RequeueCount(deployed, s, steps, g)
    decreases |steps|
  {
    if steps != [] {
      NextKeepsOpen(deployed, s, steps[0]);
      StepAccounts(deployed, s, steps[0], g);
      ClearsAreAccounted(deployed, Next(deployed, s, steps[0]), steps[1..], g);
    }
  }

  lemma {:induction false} CrashFreeNeverRequeues(deployed: nat, s: State, steps: seq<Step>, g: Guid)
    requires Inv(deployed, s) && WatcherCrashFree(steps)
    ensures RequeueCount(deployed, s, steps, g) == 0
    decreases |steps|
  {
    if steps != [] {
      assert steps[0] != WatcherCrash;
      NextKeepsInv(deployed, s, steps[0]);
      if IsFailed(s, g) {
        StepKeepsTerminal(deployed, s, steps[0], g);
      }
      CrashFreeNeverRequeues(deployed, Next(deployed, s, steps[0]), steps[1..], g);
    }
  }

  /** So without a watcher crash the clears of a guid are its lost ones plus one if its
      record is FAILED; without a lost one it is cleared at most once, and exactly once
      if and only if its record has become FAILED. */
  lemma AtMostOneClear(deployed: nat, s: State, steps: seq<Step>, g: Guid)
    requires Inv(deployed, s) && Unaccounted(s, g) == 0 && WatcherCrashFree(steps)
    ensures var end := Exec(deployed, s, steps);
      && Clears(end.submitted, g) == multiset(end.lost)[g] + (if IsFailed(end, g) then 1 else 0)
      && (g !in end.lost ==> Clears(end.submitted, g) <= 1 && (Clears(end.submitted, g) == 1 <==> IsFailed(end, g)))
  {
    ClearsAreAccounted(deployed, s, steps, g);
    CrashFreeNeverRequeues(deployed, s, steps, g);
  }

  /** The poll clears the message, and then its alert or its document write fails. */
  predicate LosesClear(p: Poll) {
    p.fetch == Returns(Failed) && p.submit.Returns? && (p.alert.Throws? || p.write.Throws?)
  }

  /** The poll's clear is lost to an error that mentions "404", and that is written. */
  predicate BecomesNotFound(p: Poll) {
    LosesClear(p) && (if p.alert.Throws? then p.alert else p.write).mentions404 && p.notFoundWrite.Returns?
  }

  /** These are exactly the polls that lose a clear. They leave the record active, to
      be cleared again, unless they make it NOT_FOUND. */
  lemma PollLosesIff(s: State, p: Poll)
    requires s.queue != [] && s.queue[0].guid in s.records
    ensures var x, s' := s.queue[0], PollHead(s, p);
      && s'.lost == (if LosesClear(p) then s.lost + [x.guid] else s.lost)
      && (LosesClear(p) && !BecomesNotFound(p) ==> s'.records == s.records && s'.queue == [])
      && (BecomesNotFound(p) ==> x.guid in s'.records && s'.records[x.guid].status == NotFound)
  {
  }

  lemma PollOfFailed(s: State, p: Poll)
    requires s.queue != [] && s.queue[0].guid in s.records
    requires p.fetch == Returns(Failed) && p.submit.Returns?
    ensures var g, s' := s.queue[0].guid, PollHead(s, p);
      && Clears(s'.submitted, g) == Clears(s.submitted, g) + 1
      && (!LosesClear(p) ==> IsFailed(s', g) && s'.lost == s.lost)
  {
    PollCounts(s, p, s.queue[0].guid);
  }

  lemma StartLone(deployed: nat, s: State, x: Listed)
    requires s.queue == [] && IsListing(s.records, [x])
    ensures Next(deployed, s, MonitorStart([x])) == s.(queue := [x])
  {
    assert SortByNonce([x][1..]) == [];
  }

  /** First cause of a second clear: a lone active record is cleared by a monitor run
      that cannot write that down, and the next run clears it again. */
  lemma LostClearIsRepeated(deployed: nat, s: State, x: Listed, p: Poll, q: Poll)
    requires s.queue == [] && IsListing(s.records, [x])
    requires LosesClear(p) && !BecomesNotFound(p)
    requires q.fetch == Returns(Failed) && q.submit.Returns? && !LosesClear(q)
    ensures var s1 := Next(deployed, Next(deployed, s, MonitorStart([x])), MonitorPoll(p));
      var s2 := Next(deployed, Next(deployed, s1, MonitorStart([x])), MonitorPoll(q));
      Clears(s2.submitted, x.guid) == Clears(s.submitted, x.guid) + 2 && IsFailed(s2, x.guid)
  {
    assert x == [x][0] && x.guid in s.records;
    StartLone(deployed, s, x);
    PollOfFailed(s.(queue := [x]), p);
    PollLosesIff(s.(queue := [x]), p);
    var s1 := PollHead(s.(queue := [x]), p);
    StartLone(deployed, s1, x);
    PollOfFailed(s1.(queue := [x]), q);
  }

  lemma FreshStateIsValid(deployed: nat, head: nat)
    requires 0 < deployed <= head + 1
    ensures var s := State([], head, None, map[], None, [], [], [], []);
      Inv(deployed, s) && QueueOpen(s) && forall g :: Unaccounted(s, g) == 0
  {
  }

  /** The polls from index `i` on, as steps. */
  function PollSteps(polls: seq<Poll>, i: nat, n: nat): seq<Step>
    requires i <= n <= |polls|
    decreases n - i
  {
    if i == n then [] else [MonitorPoll(polls[i])] + PollSteps(polls, i + 1, n)
  }

  lemma {:induction false} IdlePolls(deployed: nat, s: State, polls: seq<Poll>, i: nat, n: nat)
    requires i <= n <= |polls| && s.queue == []
    ensures Exec(deployed, s, PollSteps(polls, i, n)) == s
    decreases n - i
  {
    if i < n {
      assert PollSteps(polls, i, n)[1..] == PollSteps(polls, i + 1, n);
      IdlePolls(deployed, s, polls, i + 1, n);
    }
  }

  /** A monitor run as the job's loop performs it is a history of polls. */
  lemma {:induction false} MonitorRunIsHistory(deployed: nat, s: State, queue: seq<Listed>, polls: seq<Poll>, i: nat)
    requires i <= |queue| <= |polls| && s.queue == queue[i..]
    ensures var end := Exec(deployed, s, PollSteps(polls, i, |queue|));
      (end.records, end.submitted) == RunQueue(s.records, s.submitted, queue, polls, i)
    decreases |queue| - i
  {
    if i < |queue| {
      var s' := PollHead(s, polls[i]);
      assert PollSteps(polls, i, |queue|)[1..] == PollSteps(polls, i + 1, |queue|);
      assert Exec(deployed, s, PollSteps(polls, i, |queue|)) == Exec(deployed, s', PollSteps(polls, i + 1, |queue|));
      if s'.queue == s.queue[1..] {
        assert s'.queue == queue[i + 1..];
      }
      if Process(queue[i].record, polls[i]).update.None? || queue[i].guid !in s.records {
        IdlePolls(deployed, s', polls, i + 1, |queue|);
      } else {
        MonitorRunIsHistory(deployed, s', queue, polls, i + 1);
      }
    }
  }

  /** The steps of a watcher run that lives for `life` effects. */
  function WatcherSteps(current: nat, now: int, life: nat): seq<Step> {
    if life == 0 then []
    else if life == 1 then [WatcherSave(current, now), WatcherCrash]
    else [WatcherSave(current, now), WatcherWriteCursor]
  }

  /** A watcher run as the job performs it is a history: the save, then the cursor
      write or a crash. */
  lemma WatcherRunIsHistory(deployed: nat, s: State, current: nat, now: int, life: nat)
    requires s.saving.None? && current <= s.head
    ensures var end := Exec(deployed, s, WatcherSteps(current, now, life));
      (end.records, end.doc) == WatcherRun(s.chain, deployed, s.records, s.doc, current, now, life)
  {
    var steps := WatcherSteps(current, now, life);
    if life > 0 {
      var s' := Next(deployed, s, steps[0]);
      assert steps[1..] == [steps[1]] && steps[1..][1..] == [];
      assert Exec(deployed, s, steps) == Exec(deployed, s', steps[1..]);
      assert Exec(deployed, s', steps[1..]) == Next(deployed, s', steps[1]);
    }
  }

  // ---------------------------------------------------------- the watcher's crash

  /** After a watcher that died between its save and its cursor write, the next
      save keeps a record as it was if and only if its request lies outside the
      window it reads again: inside, even a final status goes back to QUEUED. */
  lemma ResaveKeepsIff(deployed: nat, s: State, b: nat, now: int, g: Guid)
    requires GetStartBlockNumber(s.doc, deployed) <= b <= s.head
    requires g in s.records && s.records[g].status != Queued
    ensures var s' := Next(deployed, Next(deployed, s, WatcherCrash), WatcherSave(b, now));
      && g in s'.records
      && (s'.records[g] == s.records[g] <==> g !in Guids(LogsIn(s.chain, GetStartBlockNumber(s.doc, deployed), b)))
      && (s'.records[g] != s.records[g] ==> s'.records[g].status == Queued)
  {
    SaveAllAt(s.records, LogsIn(s.chain, GetStartBlockNumber(s.doc, deployed), b), now, g);
  }

  /** The request of block 1, saved and with a final status, whose watcher has not
      written its cursor; `submitted` tells what the monitor did on the way. */
  function FinalBeforeCursor(status: Status, submitted: seq<Submitted>): State {
    var record := QueuedRecord(Request(Guid("g"), 1), 0).(status := status);
    State([Entry(1, Request(Guid("g"), 1))], 1, None, map[Guid("g") := record], Some(1), [], [Guid("g")], submitted, [])
  }

  lemma FinalBeforeCursorIsValid(status: Status, submitted: seq<Submitted>)
    ensures Inv(1, FinalBeforeCursor(status, submitted))
  {
    var s := FinalBeforeCursor(status, submitted);
    CutUnique(s.chain, 2, 1);
    assert s.chain[..1] == s.chain;
  }

  /** If that watcher dies, the next one queues the message again. */
  lemma CrashRequeues(status: Status, submitted: seq<Submitted>, now: int)
    ensures var s := FinalBeforeCursor(status, submitted);
      Next(1, Next(1, s, WatcherCrash), WatcherSave(1, now))
      == s.(records := map[Guid("g") := QueuedRecord(Request(Guid("g"), 1), now)], saved := [Guid("g"), Guid("g")])
  {
    var s := FinalBeforeCursor(status, submitted);
    assert s.chain[1..] == [];
    assert LogsIn(s.chain, 1, 1) == s.chain;
    assert Guids(s.chain) == [Guid("g")];
    assert SaveAll(s.records, s.chain, now) == s.records[Guid("g") := QueuedRecord(Request(Guid("g"), 1), now)];
  }

  /** A delivered message is queued again. */
  lemma CrashRequeuesDelivered(now: int)
    ensures Inv(1, FinalBeforeCursor(Delivered, []))
    ensures var r := Next(1, Next(1, FinalBeforeCursor(Delivered, []), WatcherCrash), WatcherSave(1, now)).records;
      Guid("g") in r && r[Guid("g")].status == Queued
  {
    FinalBeforeCursorIsValid(Delivered, []);
    CrashRequeues(Delivered, [], now);
  }

  function ClearedBeforeCursor(): State {
    FinalBeforeCursor(Failed, [Submitted(Guid("g"), ClearMessage)])
  }

  /** Second cause of a second clear: a message that failed and was cleared is queued
      again, and the next poll that goes through clears it again, with none lost. */
  lemma RequeuedIsClearedAgain(now: int, q: Poll)
    requires q.fetch == Returns(Failed) && q.submit.Returns? && !LosesClear(q)
    ensures var s := ClearedBeforeCursor();
      var s1 := Next(1, Next(1, s, WatcherCrash), WatcherSave(1, now));
      var x := Listed(Guid("g"), QueuedRecord(Request(Guid("g"), 1), now));
      var end := Next(1, Next(1, s1, MonitorStart([x])), MonitorPoll(q));
      && Inv(1, s) && Unaccounted(s, Guid("g")) == 0
      && Clears(end.submitted, Guid("g")) == 2 && end.lost == []
  {
    var s := ClearedBeforeCursor();
    FinalBeforeCursorIsValid(Failed, s.submitted);
    CrashRequeues(Failed, s.submitted, now);
    var s1 := Next(1, Next(1, s, WatcherCrash), WatcherSave(1, now));
    var x := Listed(Guid("g"), QueuedRecord(Request(Guid("g"), 1), now));
    assert IsListing(s1.records, [x]);
    StartLone(1, s1, x);
    PollOfFailed(s1.(queue := [x]), q);
    assert Clears(s.submitted, Guid("g")) == 1;
  }
}

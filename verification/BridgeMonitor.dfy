/** The bridge watcher and the bridge monitor: the stored bridge records, the
    QUEUED records the watcher saves, and what one LayerZero poll does to one. */
module BridgeMonitor {
  import opened Wrappers
  import opened Scanner
  import opened EventStore

  datatype Guid = Guid(hex: string)

  /** `Unlisted` is any other status name the scan API may answer. */
  datatype Status = Queued | Inflight | Confirming | Verified | Delivered | Failed | PayloadStored | Blocked | NotFound
                  | Unlisted(name: string)

  datatype Record = Record(status: Status, nonce: nat, createdAt: int, verifiedAt: Option<int>,
                           alertSent: bool, lastAlertAt: Option<int>, manualRetryAt: Option<int>,
                           clearedAt: Option<int>)

  datatype Request = Request(guid: Guid, nonce: nat)

  const DAY := 24 * 60 * 60 * 1000

  /** The statuses a monitor run still looks at. */
  predicate Active(s: Status) {
    s == Queued || s == Inflight || s == Confirming || s == Verified || s == Blocked
  }

  // ---------------------------------------------------------------- the store

  function QueuedRecord(r: Request, now: int): Record {
    Record(Queued, r.nonce, now, None, false, None, None, None)
  }

  /** Overwriting saves, in order. */
  function SaveAll(records: map<Guid, Record>, inputs: seq<Entry<Request>>, now: int): map<Guid, Record>
    decreases |inputs|
  {
    if inputs == [] then records
    else SaveAll(records[inputs[0].data.guid := QueuedRecord(inputs[0].data, now)], inputs[1..], now)
  }

  /** The fields of a document update; None leaves a field as it is. */
  datatype Update = Update(status: Status, verifiedAt: Option<int>, alertAt: Option<int>,
                           manualRetryAt: Option<int>, clearedAt: Option<int>)

  function Apply(r: Record, u: Update): Record {
    r.(status := u.status,
       verifiedAt := if u.verifiedAt.Some? then u.verifiedAt else r.verifiedAt,
       alertSent := r.alertSent || u.alertAt.Some?,
       lastAlertAt := if u.alertAt.Some? then u.alertAt else r.lastAlertAt,
       manualRetryAt := if u.manualRetryAt.Some? then u.manualRetryAt else r.manualRetryAt,
       clearedAt := if u.clearedAt.Some? then u.clearedAt else r.clearedAt)
  }

  // -------------------------------------------------------------- one poll

  /** An outside call returns, or throws an error that does or does not mention "404". */
  datatype Call<+T> = Returns(value: T) | Throws(mentions404: bool)

  /** What the outside world answers while one record is processed; `notFoundWrite`
      is the second document write, after an error that mentions "404". */
  datatype Poll = Poll(fetch: Call<Status>, storedPayload: Call<bool>, submit: Call<()>, alert: Call<()>,
                       write: Call<()>, notFoundWrite: Call<()>, checkedAt: int, stampedAt: int)

  datatype Submission = ClearMessage | ManualRetry

  /** The submissions that went through, and how the handler ended. */
  datatype Handled = Handled(submitted: seq<Submission>, result: Call<Update>)

  function StatusOnly(s: Status): Update { Update(s, None, None, None, None) }

  /** Sends an alert, then ends with `u`. */
  function Alerted(submitted: seq<Submission>, alert: Call<()>, u: Update): Handled {
    match alert
    case Throws(m) => Handled(submitted, Throws(m))
    case Returns(_) => Handled(submitted, Returns(u))
  }

  function HandleFailed(p: Poll): Handled {
    match p.submit
    case Throws(m) => Handled([], Throws(m))
    case Returns(_) => Alerted([ClearMessage], p.alert, StatusOnly(Failed).(clearedAt := Some(p.stampedAt)))
  }

  function HandleInflightOrConfirming(r: Record, s: Status, p: Poll): Handled {
    if r.createdAt < p.checkedAt - DAY
    then Alerted([], p.alert, StatusOnly(s).(alertAt := Some(p.stampedAt)))
    else Handled([], Returns(StatusOnly(s)))
  }

  /** Whether a VERIFIED poll retries: the stored verification is over a day old. */
  predicate RetryDue(r: Record, p: Poll) {
    r.verifiedAt.Some? && r.verifiedAt.value < p.checkedAt - DAY
  }

  function HandleVerified(r: Record, p: Poll): Handled {
    if RetryDue(r, p) then
      match p.submit
      case Throws(m) => Handled([], Throws(m))
      case Returns(_) =>
        Handled([ManualRetry],
                Returns(StatusOnly(Verified).(alertAt := Some(p.stampedAt), manualRetryAt := Some(p.stampedAt))))
    else Handled([], Returns(StatusOnly(Verified).(verifiedAt := Some(p.stampedAt))))
  }

  function HandlePayloadStored(p: Poll): Handled {
    match p.storedPayload
    case Throws(m) => Handled([], Throws(m))
    case Returns(true) => (
      match p.submit
      case Throws(m) => Handled([], Throws(m))
      case Returns(_) =>
        Handled([ManualRetry], Returns(StatusOnly(PayloadStored).(manualRetryAt := Some(p.stampedAt)))))
    case Returns(false) => Alerted([], p.alert, StatusOnly(PayloadStored).(alertAt := Some(p.stampedAt)))
  }

  function Handle(r: Record, p: Poll): Handled {
    match p.fetch
    case Throws(m) => Handled([], Throws(m))
    case Returns(s) =>
      if s == Failed then HandleFailed(p)
      else if s == Inflight || s == Confirming then HandleInflightOrConfirming(r, s, p)
      else if s == Verified then HandleVerified(r, p)
      else if s == PayloadStored then HandlePayloadStored(p)
      else Handled([], Returns(StatusOnly(s)))
  }

  /** What processing one record submits and writes. An error that mentions "404"
      turns into a NOT_FOUND update, unless that write throws in turn; any other
      error is rethrown and ends the run. */
  datatype Processed = Processed(submitted: seq<Submission>, update: Option<Update>)

  function Process(r: Record, p: Poll): Processed {
    var h := Handle(r, p);
    match if h.result.Throws? then Throws(h.result.mentions404) else p.write
    case Throws(m) => Processed(h.submitted, if m && p.notFoundWrite.Returns? then Some(StatusOnly(NotFound)) else None)
    case Returns(_) => Processed(h.submitted, Some(h.result.value))
  }

  /** Whether the handler of the answered status runs to its end, and its write too. */
  predicate Completes(r: Record, p: Poll) { Handle(r, p).result.Returns? && p.write.Returns? }

  /** The error that ends the processing of a record: its handler's or its write's. */
  function FirstError(r: Record, p: Poll): Call<()>
    requires !Completes(r, p)
    ensures FirstError(r, p).Throws?
  {
    match Handle(r, p).result
    case Throws(m) => Throws(m)
    case Returns(_) => p.write
  }

  /** A record takes the answered status exactly when its handler and its write go
      through; a "404" anywhere on the way makes it NOT_FOUND instead if that is
      written, and any other error leaves it as it was. Nothing but the status, the alert and the
      timestamps can change. */
  lemma RecordFollowsAnswer(r: Record, p: Poll)
    ensures var u := Process(r, p).update;
      && (Completes(r, p) ==> u.Some? && p.fetch == Returns(u.value.status))
      && (!Completes(r, p) && u.Some? ==> u.value == StatusOnly(NotFound) && p.notFoundWrite.Returns?)
      && (!Completes(r, p) && u.None? && p.notFoundWrite.Returns? ==> !FirstError(r, p).mentions404)
      && (u.Some? ==> var r' := Apply(r, u.value);
            && r'.nonce == r.nonce && r'.createdAt == r.createdAt && (r.alertSent ==> r'.alertSent)
            && (r'.clearedAt != r.clearedAt ==> r'.status == Failed)
            && (r'.verifiedAt != r.verifiedAt ==> r'.status == Verified && !RetryDue(r, p)))
  {
  }

  /** More than 24 hours lie between the two times. */
  predicate DayOld(since: int, now: int) { now - since > 86400000 }

  /** The stored verification is over a day old. */
  predicate Overdue(r: Record, p: Poll) { r.verifiedAt.Some? && DayOld(r.verifiedAt.value, p.checkedAt) }

  /** What a poll submits, whatever else fails: a clear exactly for a FAILED answer; a
      manual retry exactly for an overdue VERIFIED answer or a stored payload; and in
      each case only if the transaction is accepted. */
  lemma SubmitsIff(r: Record, p: Poll)
    ensures var sent := Process(r, p).submitted;
      && |sent| <= 1
      && (ClearMessage in sent <==> p.submit.Returns? && p.fetch == Returns(Failed))
      && (ManualRetry in sent <==> p.submit.Returns? && RetriesFor(r, p))
  {
  }

  /** The answer calls for a manual retry. */
  predicate RetriesFor(r: Record, p: Poll) {
    (p.fetch == Returns(Verified) && Overdue(r, p))
    || (p.fetch == Returns(PayloadStored) && p.storedPayload == Returns(true))
  }

  /** Whether the answer calls for a Discord alert on its way. */
  predicate NeedsAlert(r: Record, p: Poll) {
    || p.fetch == Returns(Failed)
    || (p.fetch in {Returns(Inflight), Returns(Confirming)} && DayOld(r.createdAt, p.checkedAt))
    || (p.fetch == Returns(PayloadStored) && p.storedPayload == Returns(false))
  }

  /** Whether the poll stamps an alert: every alert but that of a FAILED answer, and
      the manual retry of a VERIFIED one. */
  predicate StampsAlert(r: Record, p: Poll) {
    (NeedsAlert(r, p) && p.fetch != Returns(Failed)) || (p.fetch == Returns(Verified) && Overdue(r, p))
  }

  /** Exactly which outside calls must return for a record to be processed to its end. */
  lemma CompletesIff(r: Record, p: Poll)
    ensures Completes(r, p)
       <==> && p.fetch.Returns? && p.write.Returns?
            && (p.fetch == Returns(PayloadStored) ==> p.storedPayload.Returns?)
            && (p.fetch == Returns(Failed) || RetriesFor(r, p) ==> p.submit.Returns?)
            && (NeedsAlert(r, p) ==> p.alert.Returns?)
  {
  }

  /** The whole record after a poll: of the answered status, with the stamps of exactly
      what was done; NOT_FOUND and otherwise as it was after a "404" that is written; or
      untouched, and then the run is over. */
  lemma RecordAfterPoll(r: Record, p: Poll)
    ensures var u, sent, now := Process(r, p).update, Process(r, p).submitted, Some(p.stampedAt);
      var alerted := StampsAlert(r, p);
      && (Completes(r, p) ==> u.Some?)
      && (Completes(r, p) ==> AppliesTo(r, u, Record(p.fetch.value, r.nonce, r.createdAt,
            if p.fetch == Returns(Verified) && !Overdue(r, p) then now else r.verifiedAt,
            r.alertSent || alerted, if alerted then now else r.lastAlertAt,
            if ManualRetry in sent then now else r.manualRetryAt,
            if ClearMessage in sent then now else r.clearedAt)))
      && (!Completes(r, p) ==> (u.Some? <==> FirstError(r, p).mentions404 && p.notFoundWrite.Returns?))
      && (!Completes(r, p) && u.Some? ==> AppliesTo(r, u, r.(status := NotFound)))
  {
  }

  predicate AppliesTo(r: Record, u: Option<Update>, r': Record) { u.Some? && Apply(r, u.value) == r' }

  // ------------------------------------------------------------- listing

  datatype Listed = Listed(guid: Guid, record: Record)

  function InsertByNonce(x: Listed, sorted: seq<Listed>): seq<Listed> {
    if sorted == [] || x.record.nonce <= sorted[0].record.nonce then [x] + sorted
    else [sorted[0]] + InsertByNonce(x, sorted[1..])
  }

  /** The stable sort by nonce. */
  function SortByNonce(xs: seq<Listed>): seq<Listed> {
    if xs == [] then [] else InsertByNonce(xs[0], SortByNonce(xs[1..]))
  }

  ghost predicate NonceOrdered(xs: seq<Listed>) {
    forall i, j :: 0 <= i < j < |xs| ==> xs[i].record.nonce <= xs[j].record.nonce
  }

  lemma {:induction false} InsertKeepsOrder(x: Listed, sorted: seq<Listed>)
    requires NonceOrdered(sorted)
    ensures NonceOrdered(InsertByNonce(x, sorted))
  {
    if sorted != [] && x.record.nonce > sorted[0].record.nonce {
      InsertKeepsOrder(x, sorted[1..]);
      var r := InsertByNonce(x, sorted[1..]);
      assert r[0] == x || r[0] == sorted[1];
      assert sorted[0].record.nonce <= r[0].record.nonce;
    }
  }

  lemma {:induction false} InsertKeepsElements(x: Listed, sorted: seq<Listed>)
    ensures multiset(InsertByNonce(x, sorted)) == multiset{x} + multiset(sorted)
  {
    if sorted != [] && x.record.nonce > sorted[0].record.nonce {
      InsertKeepsElements(x, sorted[1..]);
      assert sorted == [sorted[0]] + sorted[1..];
    }
  }

  /** Records are processed in nonce order, each listed one exactly once. */
  lemma {:induction false} SortByNonceSorts(xs: seq<Listed>)
    ensures NonceOrdered(SortByNonce(xs)) && multiset(SortByNonce(xs)) == multiset(xs)
  {
    if xs != [] {
      SortByNonceSorts(xs[1..]);
      InsertKeepsOrder(xs[0], SortByNonce(xs[1..]));
      InsertKeepsElements(xs[0], SortByNonce(xs[1..]));
      assert xs == [xs[0]] + xs[1..];
    }
  }

  /** The entries of one nonce, in order. */
  function OfNonce(xs: seq<Listed>, n: nat): seq<Listed> {
    if xs == [] then [] else (if xs[0].record.nonce == n then [xs[0]] else []) + OfNonce(xs[1..], n)
  }

  lemma {:induction false} InsertIsStable(x: Listed, sorted: seq<Listed>, n: nat)
    requires NonceOrdered(sorted)
    ensures OfNonce(InsertByNonce(x, sorted), n) == OfNonce([x] + sorted, n)
    decreases |sorted|
  {
    assert ([x] + sorted)[1..] == sorted;
    if sorted != [] && x.record.nonce > sorted[0].record.nonce {
      InsertIsStable(x, sorted[1..], n);
      assert ([x] + sorted[1..])[1..] == sorted[1..];
      var r := InsertByNonce(x, sorted[1..]);
      assert ([sorted[0]] + r)[1..] == r;
    }
  }

  /** Records with the same nonce keep the order in which the store listed them. */
  lemma {:induction false} SortByNonceIsStable(xs: seq<Listed>, n: nat)
    ensures OfNonce(SortByNonce(xs), n) == OfNonce(xs, n)
  {
    if xs != [] {
      SortByNonceSorts(xs[1..]);
      SortByNonceIsStable(xs[1..], n);
      InsertIsStable(xs[0], SortByNonce(xs[1..]), n);
      assert ([xs[0]] + SortByNonce(xs[1..]))[1..] == SortByNonce(xs[1..]);
    }
  }

  lemma SortKeepsLength(xs: seq<Listed>)
    ensures |SortByNonce(xs)| == |xs|
  {
    SortByNonceSorts(xs);
    assert |multiset(SortByNonce(xs))| == |multiset(xs)|;
  }

  // --------------------------------------------------------- the jobs as they run

  datatype Submitted = Submitted(guid: Guid, what: Submission)

  function Tagged(guid: Guid, what: seq<Submission>): seq<Submitted> {
    seq(|what|, i requires 0 <= i < |what| => Submitted(guid, what[i]))
  }

  /** The effect of a monitor run over `queue` from index `i` on, each record
      answered by the poll of its index; it stops at the first rethrown error. */
  function RunQueue(records: map<Guid, Record>, submitted: seq<Submitted>, queue: seq<Listed>, polls: seq<Poll>, i: nat)
    : (map<Guid, Record>, seq<Submitted>)
    requires i <= |queue| <= |polls|
    decreases |queue| - i
  {
    if i == |queue| then (records, submitted)
    else
      var guid, p := queue[i].guid, Process(queue[i].record, polls[i]);
      var now := submitted + Tagged(guid, p.submitted);
      if p.update.None? || guid !in records then (records, now)
      else RunQueue(records[guid := Apply(records[guid], p.update.value)], now, queue, polls, i + 1)
  }

  class BridgeTransactions {
    var records: map<Guid, Record>

    constructor ()
      ensures records == map[]
    {
      records := map[];
    }

    method SaveBridgeTransactionsBatch(inputs: seq<Entry<Request>>, now: int)
      modifies this
      ensures records == SaveAll(old(records), inputs, now)
    {
      var i := 0;
      while i < |inputs|
        invariant 0 <= i <= |inputs|
        invariant SaveAll(records, inputs[i..], now) == SaveAll(old(records), inputs, now)
      {
        assert inputs[i..][1..] == inputs[i + 1..];
        records := records[inputs[i].data.guid := QueuedRecord(inputs[i].data, now)];
        i := i + 1;
      }
    }

    /** Updating a document that does not exist fails. */
    method UpdateBridgeTransaction(guid: Guid, u: Update) returns (ok: bool)
      modifies this
      ensures ok <==> guid in old(records)
      ensures records == if ok then old(records)[guid := Apply(old(records)[guid], u)] else old(records)
    {
      ok := guid in records;
      if ok {
        records := records[guid := Apply(records[guid], u)];
      }
    }

    /** One monitor run over the listed records. */
    method PerformJob(listed: seq<Listed>, polls: seq<Poll>) returns (submitted: seq<Submitted>)
      requires |polls| >= |listed|
      modifies this
      ensures |SortByNonce(listed)| == |listed|
      ensures (records, submitted) == RunQueue(old(records), [], SortByNonce(listed), polls, 0)
    {
      var queue := SortByNonce(listed);
      SortKeepsLength(listed);
      submitted := [];
      var i := 0;
      while i < |queue|
        invariant 0 <= i <= |queue| <= |polls|
        invariant RunQueue(records, submitted, queue, polls, i) == RunQueue(old(records), [], queue, polls, 0)
      {
        var p := Process(queue[i].record, polls[i]);
        submitted := submitted + Tagged(queue[i].guid, p.submitted);
        if p.update.None? {
          return;
        }
        var ok := UpdateBridgeTransaction(queue[i].guid, p.update.value);
        if !ok {
          return;
        }
        i := i + 1;
      }
    }
  }

  /** The two effects of a watcher run that observes block `current` and lives for
      `life` effects: save the window's requests, then write the cursor. */
  function WatcherRun(chain: seq<Entry<Request>>, deployed: nat, records: map<Guid, Record>, doc: Option<EventDoc>,
                      current: nat, now: int, life: nat): (map<Guid, Record>, Option<EventDoc>) {
    var start := GetStartBlockNumber(doc, deployed);
    if start > current || life == 0 then (records, doc)
    else (SaveAll(records, LogsIn(chain, start, current), now),
          if life == 1 then doc else Some(Merge(doc, current, None)))
  }

  /** The watcher job as it runs; it may die after either effect. */
  method ProcessBridgeMonitor(chain: seq<Entry<Request>>, deployed: nat, store: BridgeTransactions, event: Event,
                              current: nat, now: int, life: nat)
    modifies store, event
    ensures (store.records, event.doc)
         == WatcherRun(chain, deployed, old(store.records), old(event.doc), current, now, life)
  {
    var startBlockNumber := GetStartBlockNumber(event.doc, deployed);
    if startBlockNumber > current || life == 0 {
      return;
    }
    store.SaveBridgeTransactionsBatch(LogsIn(chain, startBlockNumber, current), now);
    if life == 1 {
      return;
    }
    event.AddOrUpdateEvent(current, None);
  }
}

/** The mint-executor over whole histories: automatic actions keep their distance,
    and what a recovery scan does to the next decision. */
module MintSafety {
  import opened Wrappers
  import opened Scanner
  import opened EventStore
  import opened MintExecutor

  /** `ForeignAction` is an action mined by someone else. Time only moves forward. */
  datatype Step =
    | Tick(millis: nat)
    | SealBlock
    | ForeignAction(kind: Kind, transactionHash: TxHash)
    | Start(observedBlock: nat, transferFirst: bool)
    | PerformAction(txHash: TxHash)
    | Crash

  function Next(c: Config, s: State, step: Step): State {
    match step
    case Tick(d) => s.(now := s.now + d)
    case SealBlock => s.(head := s.head + 1)
    case ForeignAction(k, h) =>
      if k == Mint then s.(minted := s.minted + [Entry(s.head + 1, h)])
      else s.(transferred := s.transferred + [Entry(s.head + 1, h)])
    case Start(b, transferFirst) =>
      if s.pending == [] && b <= s.head then s.(pending := StartRun(c, s, b, transferFirst)) else s
    case PerformAction(h) => Perform(c, s, h)
    case Crash => s.(pending := [])
  }

  function Exec(c: Config, s: State, steps: seq<Step>): State
    decreases |steps|
  {
    if steps == [] then s else Exec(c, Next(c, s, steps[0]), steps[1..])
  }

  // -------------------------------------------------------------------- spacing

  /** The action at day `day` comes at least the interval after every record of its kind. */
  ghost predicate FarFrom(c: Config, records: seq<Record>, k: Kind, day: int) {
    forall i :: 0 <= i < |records| && records[i].kind == k ==>
      day >= DayIndex(records[i].createdAt, c.offset) + 7 * Weeks(c, k)
  }

  ghost predicate Spaced(c: Config, records: seq<Record>) {
    forall j :: 0 <= j < |records| && records[j].automatic ==>
      FarFrom(c, records[..j], records[j].kind, DayIndex(records[j].createdAt, c.offset))
  }

  ghost predicate TimeOrdered(records: seq<Record>, now: int) {
    && (forall i, j :: 0 <= i < j < |records| ==> records[i].createdAt <= records[j].createdAt)
    && (forall i :: 0 <= i < |records| ==> records[i].createdAt <= now)
  }

  predicate Acts(a: Action) { a.Execute? || a.RecordOwn? }

  predicate Early(a: Action) { a.Save? || a.Decide? }

  /** A run has no action pending until it has decided, decides once, and then
      has each kind pending at most once. */
  ghost predicate Shaped(p: seq<Action>) {
    && (forall i, j :: 0 <= i < |p| && 0 <= j < |p| && Early(p[i]) ==> !Acts(p[j]))
    && (forall i, j :: 0 <= i < j < |p| && p[i].Decide? ==> !Early(p[j]))
    && (forall i, j :: 0 <= i < j < |p| && Acts(p[i]) && Acts(p[j]) ==> p[i].kind != p[j].kind)
  }

  ghost predicate Inv(c: Config, s: State) {
    && TimeOrdered(s.records, s.now)
    && Spaced(c, s.records)
    && Shaped(s.pending)
    && PendingFar(c, s.records, s.pending, DayIndex(s.now, c.offset))
  }

  lemma {:induction false} LatestIsLast(records: seq<Record>, k: Kind, now: int)
    requires TimeOrdered(records, now)
    ensures Latest(records, k).None? ==> forall i :: 0 <= i < |records| ==> records[i].kind != k
    ensures Latest(records, k).Some? ==>
      && Latest(records, k).value in records && Latest(records, k).value.kind == k
      && forall i :: 0 <= i < |records| && records[i].kind == k
           ==> records[i].createdAt <= Latest(records, k).value.createdAt
  {
    if records != [] {
      LatestIsLast(records[..|records| - 1], k, now);
    }
  }

  /** A due action is far from every record of its kind, not only from the latest. */
  lemma DueIsFar(c: Config, s: State, k: Kind)
    requires TimeOrdered(s.records, s.now) && Due(c, s, k)
    ensures FarFrom(c, s.records, k, DayIndex(s.now, c.offset))
  {
    LatestIsLast(s.records, k, s.now);
    var last := Latest(s.records, k);
    if last.Some? {
      ShouldExecuteCountsDays(c, s.now, last.value, Weeks(c, k));
      forall i | 0 <= i < |s.records| && s.records[i].kind == k
        ensures DayIndex(s.records[i].createdAt, c.offset) <= DayIndex(last.value.createdAt, c.offset)
      {
        DayIndexMonotone(s.records[i].createdAt, last.value.createdAt, c.offset);
      }
    }
  }

  lemma SpacedAppend(c: Config, records: seq<Record>, r: Record)
    requires Spaced(c, records)
    requires r.automatic ==> FarFrom(c, records, r.kind, DayIndex(r.createdAt, c.offset))
    ensures Spaced(c, records + [r])
  {
    var all := records + [r];
    forall j | 0 <= j < |all| && all[j].automatic
      ensures FarFrom(c, all[..j], all[j].kind, DayIndex(all[j].createdAt, c.offset))
    {
      if j < |records| {
        assert all[..j] == records[..j];
      } else {
        assert all[..j] == records;
      }
    }
  }

  lemma TailShaped(p: seq<Action>)
    requires p != [] && Shaped(p)
    ensures Shaped(p[1..])
    ensures forall a :: a in p[1..] && Acts(a) && Acts(p[0]) ==> a.kind != p[0].kind
  {
    assert forall i :: 0 <= i < |p| - 1 ==> p[1..][i] == p[i + 1];
  }

  /** Every pending action is far from every record of its kind. */
  ghost predicate PendingFar(c: Config, records: seq<Record>, p: seq<Action>, day: int) {
    forall a :: a in p && Acts(a) ==> FarFrom(c, records, a.kind, day)
  }

  lemma FarLater(c: Config, records: seq<Record>, p: seq<Action>, day: int, day': int)
    requires PendingFar(c, records, p, day) && day <= day'
    ensures PendingFar(c, records, p, day')
  {
    forall a | a in p && Acts(a)
      ensures FarFrom(c, records, a.kind, day')
    {
      assert FarFrom(c, records, a.kind, day);
    }
  }

  /** A record of kind `k` leaves the other kind's actions far. */
  lemma FarAfterAdd(c: Config, records: seq<Record>, r: Record, p: seq<Action>, day: int)
    requires PendingFar(c, records, p, day) && forall a :: a in p && Acts(a) ==> a.kind != r.kind
    ensures PendingFar(c, records + [r], p, day)
  {
    forall a | a in p && Acts(a)
      ensures FarFrom(c, records + [r], a.kind, day)
    {
      assert FarFrom(c, records, a.kind, day);
    }
  }

  lemma SaveKeepsInv(c: Config, s: State, r: Record)
    requires Inv(c, s) && s.pending != [] && r.createdAt == s.now
    requires Early(s.pending[0]) && !r.automatic
    ensures Inv(c, Add(s.(pending := s.pending[1..]), r))
  {
    TailShaped(s.pending);
    SpacedAppend(c, s.records, r);
    assert forall a :: a in s.pending[1..] ==> a in s.pending;
    FarAfterAdd(c, s.records, r, s.pending[1..], DayIndex(s.now, c.offset));
  }

  lemma RecordKeepsInv(c: Config, s: State, r: Record)
    requires Inv(c, s) && s.pending != [] && r.createdAt == s.now
    requires s.pending[0] == RecordOwn(r.kind, r.transactionHash)
    ensures Inv(c, Add(s.(pending := s.pending[1..]), r))
  {
    TailShaped(s.pending);
    assert s.pending[0] in s.pending && Acts(s.pending[0]);
    SpacedAppend(c, s.records, r);
    assert forall a :: a in s.pending[1..] ==> a in s.pending;
    FarAfterAdd(c, s.records, r, s.pending[1..], DayIndex(s.now, c.offset));
  }

  lemma DecideKeepsInv(c: Config, s: State, txHash: TxHash)
    requires Inv(c, s) && s.pending != [] && s.pending[0].Decide?
    ensures Inv(c, Perform(c, s, txHash))
  {
    var rest := s.pending[1..];
    TailShaped(s.pending);
    assert forall i :: 0 <= i < |rest| ==> rest[i] == s.pending[i + 1];
    assert forall a :: a in rest ==> !Acts(a) && !Early(a);
    var day := DayIndex(s.now, c.offset);
    if Due(c, s, Mint) {
      DueIsFar(c, s, Mint);
    }
    if Due(c, s, Transfer) {
      DueIsFar(c, s, Transfer);
    }
    DecidedShape(c, s, rest, day);
  }

  lemma DecidedShape(c: Config, s: State, rest: seq<Action>, day: int)
    requires forall a :: a in rest ==> !Acts(a) && !Early(a)
    requires Due(c, s, Mint) ==> FarFrom(c, s.records, Mint, day)
    requires Due(c, s, Transfer) ==> FarFrom(c, s.records, Transfer, day)
    ensures var p := (if Due(c, s, Mint) then [Execute(Mint)] else [])
                     + (if Due(c, s, Transfer) then [Execute(Transfer)] else []) + rest;
      Shaped(p) && PendingFar(c, s.records, p, day)
  {
  }

  lemma ExecuteKeepsInv(c: Config, s: State, txHash: TxHash)
    requires Inv(c, s) && s.pending != [] && s.pending[0].Execute?
    ensures Inv(c, Perform(c, s, txHash))
  {
    var k := s.pending[0].kind;
    var p' := [RecordOwn(k, txHash)] + s.pending[1..];
    TailShaped(s.pending);
    assert s.pending[0] in s.pending && Acts(s.pending[0]);
    assert forall i :: 0 <= i < |p'| ==> i > 0 ==> p'[i] == s.pending[i];
    assert PendingFar(c, s.records, p', DayIndex(s.now, c.offset)) by {
      assert forall a :: a in p' ==> a == p'[0] || a in s.pending;
      assert FarFrom(c, s.records, k, DayIndex(s.now, c.offset));
    }
  }

  lemma PlanShaped(saves: seq<Action>, b: nat)
    requires forall i :: 0 <= i < |saves| ==> saves[i].Save?
    ensures Shaped(saves + [Decide, WriteCursor(b)])
    ensures forall a :: a in saves + [Decide, WriteCursor(b)] ==> !Acts(a)
  {
  }

  lemma StartShaped(c: Config, s: State, b: nat, transferFirst: bool)
    ensures Shaped(StartRun(c, s, b, transferFirst))
    ensures forall a :: a in StartRun(c, s, b, transferFirst) ==> !Acts(a)
  {
    var start := GetStartBlockNumber(s.doc, c.deployed);
    var m, t := SaveOf(s, Mint, start, b), SaveOf(s, Transfer, start, b);
    PlanShaped(if transferFirst then t + m else m + t, b);
  }

  lemma NextKeepsInv(c: Config, s: State, step: Step)
    requires Inv(c, s)
    ensures Inv(c, Next(c, s, step))
  {
    match step
    case Tick(d) =>
      DayIndexMonotone(s.now, s.now + d, c.offset);
      FarLater(c, s.records, s.pending, DayIndex(s.now, c.offset), DayIndex(s.now + d, c.offset));
    case SealBlock =>
    case ForeignAction(k, h) =>
    case Start(b, transferFirst) => StartShaped(c, s, b, transferFirst);
    case PerformAction(h) =>
      if s.pending != [] {
        match s.pending[0] {
          case Save(k, sh) => SaveKeepsInv(c, s, Record(k, sh, s.now, false));
          case Decide => DecideKeepsInv(c, s, h);
          case Execute(_) => ExecuteKeepsInv(c, s, h);
          case RecordOwn(k, rh) => RecordKeepsInv(c, s, Record(k, rh, s.now, true));
          case WriteCursor(_) =>
            TailShaped(s.pending);
            assert forall a :: a in s.pending[1..] ==> a in s.pending;
        }
      }
    case Crash =>
  }

  lemma {:induction false} HistoryKeepsInv(c: Config, s: State, steps: seq<Step>)
    requires Inv(c, s)
    ensures Inv(c, Exec(c, s, steps))
    decreases |steps|
  {
    if steps != [] {
      NextKeepsInv(c, s, steps[0]);
      HistoryKeepsInv(c, Next(c, s, steps[0]), steps[1..]);
    }
  }

  /** Mint spacing: in every history, with runs that crash anywhere and recovered
      records in between, an automatic action is recorded at least `7 * weeks`
      local days after every earlier record of its kind. */
  lemma AutomaticActionsAreSpaced(c: Config, s: State, steps: seq<Step>, i: nat, j: nat)
    requires Inv(c, s)
    requires i < j < |Exec(c, s, steps).records|
    requires var rs := Exec(c, s, steps).records; rs[j].automatic && rs[i].kind == rs[j].kind
    ensures var rs := Exec(c, s, steps).records;
      DayIndex(rs[j].createdAt, c.offset) >= DayIndex(rs[i].createdAt, c.offset) + 7 * Weeks(c, rs[j].kind)
  {
    HistoryKeepsInv(c, s, steps);
    var rs := Exec(c, s, steps).records;
    assert rs[..j][i] == rs[i];
  }

  /** So `n` automatic actions of a kind span at least `(n - 1)` intervals. */
  lemma {:induction false} ActionsSpan(c: Config, s: State, steps: seq<Step>, at: seq<nat>, k: Kind)
    requires Inv(c, s) && at != []
    requires var rs := Exec(c, s, steps).records;
      && (forall x :: 0 <= x < |at| ==> at[x] < |rs| && rs[at[x]].automatic && rs[at[x]].kind == k)
      && (forall x, y :: 0 <= x < y < |at| ==> at[x] < at[y])
    ensures var rs := Exec(c, s, steps).records;
      DayIndex(rs[at[|at| - 1]].createdAt, c.offset)
      >= DayIndex(rs[at[0]].createdAt, c.offset) + (|at| - 1) * (7 * Weeks(c, k))
    decreases |at|
  {
    var n := |at| - 1;
    if n > 0 {
      ActionsSpan(c, s, steps, at[..n], k);
      AutomaticActionsAreSpaced(c, s, steps, at[n - 1], at[n]);
      OneMoreInterval(n, 7 * Weeks(c, k));
    }
  }

  lemma OneMoreInterval(n: nat, w: nat)
    requires n > 0
    ensures n * w == (n - 1) * w + w
  {
  }

  // ------------------------------------------------------------------- recovery

  /** The records once a run's recovery save of kind `k` is done. */
  function Recovered(records: seq<Record>, k: Kind, window: seq<Entry<TxHash>>, now: int): seq<Record> {
    if IsNewEvent(window, Latest(records, k)) then records + [Record(k, window[0].data, now, false)] else records
  }

  /** A decision made within the interval after the recovery save executes the
      action if and only if it was due and the window's first event, if any, is
      the latest recorded one: an action mined by a crashed run is recorded and
      not repeated when it comes first in the window. */
  lemma DecisionAfterRecovery(c: Config, records: seq<Record>, k: Kind, window: seq<Entry<TxHash>>,
                              savedAt: int, now: int)
    requires TimeOrdered(records, savedAt) && savedAt <= now
    requires DayIndex(now, c.offset) < DayIndex(savedAt, c.offset) + 7 * Weeks(c, k)
    ensures ShouldExecuteAction(c, now, Latest(Recovered(records, k, window, savedAt), k), Weeks(c, k))
       <==> ShouldExecuteAction(c, now, Latest(records, k), Weeks(c, k)) && !IsNewEvent(window, Latest(records, k))
  {
    if IsNewEvent(window, Latest(records, k)) {
      var r := Record(k, window[0].data, savedAt, false);
      LatestIsLast(records, k, savedAt);
      assert (records + [r])[..|records + [r]| - 1] == records;
      assert Latest(records + [r], k) == Some(r);
      ShouldExecuteCountsDays(c, now, r, Weeks(c, k));
    }
  }

  lemma LatestIgnoresOtherKind(records: seq<Record>, r: Record, k: Kind)
    requires r.kind != k
    ensures Latest(records + [r], k) == Latest(records, k)
  {
    assert (records + [r])[..|records|] == records;
  }

  /** The latest record of kind `k` once its recovery save is done. */
  function LatestAfterSave(last: Option<Record>, k: Kind, window: seq<Entry<TxHash>>, now: int): Option<Record> {
    if IsNewEvent(window, last) && (last.None? || last.value.createdAt <= now)
    then Some(Record(k, window[0].data, now, false)) else last
  }

  lemma RecoveredLatest(records: seq<Record>, k: Kind, window: seq<Entry<TxHash>>, now: int)
    ensures Latest(Recovered(records, k, window, now), k) == LatestAfterSave(Latest(records, k), k, window, now)
  {
    if IsNewEvent(window, Latest(records, k)) {
      var all := records + [Record(k, window[0].data, now, false)];
      assert all[..|all| - 1] == records;
    }
  }

  lemma RecoveredOther(records: seq<Record>, k: Kind, window: seq<Entry<TxHash>>, now: int, other: Kind)
    requires other != k
    ensures Latest(Recovered(records, k, window, now), other) == Latest(records, other)
  {
    if IsNewEvent(window, Latest(records, k)) {
      LatestIgnoresOtherKind(records, Record(k, window[0].data, now, false), other);
    }
  }

  function Other(k: Kind): Kind { if k == Mint then Transfer else Mint }

  /** The latest record of a kind after both saves of a run depends on that kind's
      window alone, in either order. */
  lemma SavesDoNotInterfere(records: seq<Record>, first: Kind, w1: seq<Entry<TxHash>>, w2: seq<Entry<TxHash>>, now: int)
    ensures var rs := Recovered(Recovered(records, first, w1, now), Other(first), w2, now);
      && Latest(rs, first) == Latest(Recovered(records, first, w1, now), first)
      && Latest(rs, Other(first)) == Latest(Recovered(records, Other(first), w2, now), Other(first))
  {
    var mid := Recovered(records, first, w1, now);
    RecoveredOther(mid, Other(first), w2, now, first);
    RecoveredOther(records, first, w1, now, Other(first));
    RecoveredLatest(mid, Other(first), w2, now);
    RecoveredLatest(records, Other(first), w2, now);
  }

  /** The records when a run decides: both recovery saves done, that of `first` first. */
  function AtDecision(s: State, start: nat, current: nat, first: Kind): seq<Record> {
    Recovered(Recovered(s.records, first, LogsIn(LogOf(s, first), start, current), s.now),
              Other(first), LogsIn(LogOf(s, Other(first)), start, current), s.now)
  }

  /** The first event of a run's window of kind `k` is not the latest record. */
  predicate ScansNew(s: State, start: nat, current: nat, k: Kind) {
    IsNewEvent(LogsIn(LogOf(s, k), start, current), Latest(s.records, k))
  }

  function FirstSaved(transferFirst: bool): Kind { if transferFirst then Transfer else Mint }

  /** The state of a run that is about to decide. */
  function Deciding(s: State, start: nat, current: nat, transferFirst: bool): State {
    s.(records := AtDecision(s, start, current, FirstSaved(transferFirst)), pending := [Decide, WriteCursor(current)])
  }

  function SavesFor(last: Option<Record>, k: Kind, window: seq<Entry<TxHash>>): seq<Action> {
    if IsNewEvent(window, last) then [Save(k, window[0].data)] else []
  }

  /** A run whose next actions are the saves of one kind recovers that kind. */
  lemma SaveStep(c: Config, s: State, k: Kind, window: seq<Entry<TxHash>>, rest: seq<Action>, n: nat,
                 mintHash: TxHash, transferHash: TxHash)
    requires s.pending == SavesFor(Latest(s.records, k), k, window) + rest
    ensures PerformMany(c, s, |SavesFor(Latest(s.records, k), k, window)| + n, mintHash, transferHash)
         == PerformMany(c, s.(records := Recovered(s.records, k, window, s.now), pending := rest), n,
                        mintHash, transferHash)
  {
    if IsNewEvent(window, Latest(s.records, k)) {
      assert s.pending[1..] == rest;
      assert Perform(c, s, transferHash) == s.(records := Recovered(s.records, k, window, s.now), pending := rest);
    } else {
      assert s.pending == rest;
    }
  }

  lemma SavesReachDecision(c: Config, s: State, current: nat, transferFirst: bool, plan: seq<Action>, d: State,
                           mintHash: TxHash, transferHash: TxHash)
    requires GetStartBlockNumber(s.doc, c.deployed) <= current && plan == StartRun(c, s, current, transferFirst)
    requires d == Deciding(s, GetStartBlockNumber(s.doc, c.deployed), current, transferFirst)
    ensures |plan| >= 2 && PerformMany(c, s.(pending := plan), |plan| - 2, mintHash, transferHash) == d
  {
    var start, k := GetStartBlockNumber(s.doc, c.deployed), FirstSaved(transferFirst);
    var w1, w2 := LogsIn(LogOf(s, k), start, current), LogsIn(LogOf(s, Other(k)), start, current);
    var a, b := SavesFor(Latest(s.records, k), k, w1), SavesFor(Latest(s.records, Other(k)), Other(k), w2);
    var tail := [Decide, WriteCursor(current)];
    PlanParts(c, s, current, transferFirst, a, b);
    SaveStep(c, s.(pending := a + (b + tail)), k, w1, b + tail, |b|, mintHash, transferHash);
    var mid := Recovered(s.records, k, w1, s.now);
    RecoveredOther(s.records, k, w1, s.now, Other(k));
    SaveStep(c, s.(records := mid, pending := b + tail), Other(k), w2, tail, 0, mintHash, transferHash);
  }

  lemma PlanParts(c: Config, s: State, current: nat, transferFirst: bool, a: seq<Action>, b: seq<Action>)
    requires GetStartBlockNumber(s.doc, c.deployed) <= current
    requires var start, k := GetStartBlockNumber(s.doc, c.deployed), FirstSaved(transferFirst);
      && a == SavesFor(Latest(s.records, k), k, LogsIn(LogOf(s, k), start, current))
      && b == SavesFor(Latest(s.records, Other(k)), Other(k), LogsIn(LogOf(s, Other(k)), start, current))
    ensures StartRun(c, s, current, transferFirst) == a + (b + [Decide, WriteCursor(current)])
  {
    assert StartRun(c, s, current, transferFirst) == a + b + [Decide, WriteCursor(current)];
  }

  /** Recovery and decision of a whole run, with its two saves in either order: it
      executes an action of a kind if and only if
      - its window brings something new, and the interval is zero; or
      - it brings nothing new, no action is recorded, and the opening date has come; or
      - it brings nothing new, and the interval in local days since the latest recorded
        action is over. */
  lemma RunExecutesIff(c: Config, s: State, current: nat, transferFirst: bool, k: Kind,
                       mintHash: TxHash, transferHash: TxHash)
    requires GetStartBlockNumber(s.doc, c.deployed) <= current
    requires TimeOrdered(s.records, s.now)
    ensures var plan := StartRun(c, s, current, transferFirst);
      |plan| > 0 &&
      (Execute(k) in PerformMany(c, s.(pending := plan), |plan| - 1, mintHash, transferHash).pending
       <==> TakesAction(c, s, GetStartBlockNumber(s.doc, c.deployed), current, k))
  {
    var start, plan := GetStartBlockNumber(s.doc, c.deployed), StartRun(c, s, current, transferFirst);
    var d := Deciding(s, start, current, transferFirst);
    var saves := |plan| - 2;
    SavesReachDecision(c, s, current, transferFirst, plan, d, mintHash, transferHash);
    DecisionFrom(c, s.(pending := plan), d, saves, current, k, mintHash, transferHash);
    TakesIfDue(c, s, start, current, transferFirst, k, d);
    assert saves + 1 == |plan| - 1;
  }

  lemma TakesIfDue(c: Config, s: State, start: nat, current: nat, transferFirst: bool, k: Kind, d: State)
    requires TimeOrdered(s.records, s.now) && d == Deciding(s, start, current, transferFirst)
    ensures Due(c, d, k) <==> TakesAction(c, s, start, current, k)
  {
    DueAtDecision(c, s, start, current, FirstSaved(transferFirst), k);
    DueSpelledOut(c, s, start, current, k);
  }

  /** When a run over the blocks `start..current` takes an action of kind `k`. */
  predicate TakesAction(c: Config, s: State, start: nat, current: nat, k: Kind) {
    var window := LogsIn(if k == Mint then s.minted else s.transferred, start, current);
    var weeks := if k == Mint then c.mintWeeks else c.transferWeeks;
    match Latest(s.records, k)
    case None => if window != [] then weeks == 0 else s.now >= c.availableFrom
    case Some(r) =>
      if window != [] && window[0].data != r.transactionHash then weeks == 0
      else DayIndex(s.now, c.offset) >= DayIndex(r.createdAt, c.offset) + 7 * weeks
  }

  lemma DueSpelledOut(c: Config, s: State, start: nat, current: nat, k: Kind)
    ensures TakesAction(c, s, start, current, k)
       <==> if ScansNew(s, start, current, k) then Weeks(c, k) == 0 else Due(c, s, k)
  {
    var last := Latest(s.records, k);
    if last.Some? {
      ShouldExecuteCountsDays(c, s.now, last.value, Weeks(c, k));
    }
  }

  /** An action that was mined but not recorded, by a run that died or by someone
      else, and that comes first in a run's window: the run records it and decides
      not to repeat it. */
  lemma UnrecordedActionIsRecovered(c: Config, s: State, current: nat, transferFirst: bool, k: Kind, e: Entry<TxHash>,
                                    mintHash: TxHash, transferHash: TxHash)
    requires GetStartBlockNumber(s.doc, c.deployed) <= current
    requires TimeOrdered(s.records, s.now) && Weeks(c, k) > 0
    requires var window := LogsIn(LogOf(s, k), GetStartBlockNumber(s.doc, c.deployed), current);
      window != [] && window[0] == e
    requires forall r :: r in s.records && r.kind == k ==> r.transactionHash != e.data
    ensures var plan := StartRun(c, s, current, transferFirst);
      |plan| > 0 &&
      var end := PerformMany(c, s.(pending := plan), |plan| - 1, mintHash, transferHash);
      && Record(k, e.data, s.now, false) in end.records
      && Execute(k) !in end.pending
  {
    LatestIsLast(s.records, k, s.now);
    RunExecutesIff(c, s, current, transferFirst, k, mintHash, transferHash);
    var start, plan := GetStartBlockNumber(s.doc, c.deployed), StartRun(c, s, current, transferFirst);
    var d := Deciding(s, start, current, transferFirst);
    SavesReachDecision(c, s, current, transferFirst, plan, d, mintHash, transferHash);
    DecisionFrom(c, s.(pending := plan), d, |plan| - 2, current, k, mintHash, transferHash);
    FirstOfWindowIsSaved(s, GetStartBlockNumber(s.doc, c.deployed), current, FirstSaved(transferFirst), k, e);
  }

  lemma FirstOfWindowIsSaved(s: State, start: nat, current: nat, first: Kind, k: Kind, e: Entry<TxHash>)
    requires var window := LogsIn(LogOf(s, k), start, current);
      window != [] && window[0] == e && IsNewEvent(window, Latest(s.records, k))
    ensures Record(k, e.data, s.now, false) in AtDecision(s, start, current, first)
  {
    RecoveredOther(s.records, first, LogsIn(LogOf(s, first), start, current), s.now, Other(first));
  }

  /** One action after the saves, the run has decided, and recorded nothing by it. */
  lemma DecisionFrom(c: Config, s: State, d: State, n: nat, current: nat, k: Kind,
                     mintHash: TxHash, transferHash: TxHash)
    requires PerformMany(c, s, n, mintHash, transferHash) == d && d.pending == [Decide, WriteCursor(current)]
    ensures var end := PerformMany(c, s, n + 1, mintHash, transferHash);
      end.records == d.records && (Execute(k) in end.pending <==> Due(c, d, k))
  {
    OneMore(c, s, n, mintHash, transferHash);
    DecisionExecutes(c, d, current, k, transferHash);
  }

  lemma DecisionExecutes(c: Config, d: State, current: nat, k: Kind, txHash: TxHash)
    requires d.pending == [Decide, WriteCursor(current)]
    ensures Execute(k) in Perform(c, d, txHash).pending <==> Due(c, d, k)
  {
  }

  lemma DueAtDecision(c: Config, s: State, start: nat, current: nat, first: Kind, k: Kind)
    requires TimeOrdered(s.records, s.now)
    ensures ShouldExecuteAction(c, s.now, Latest(AtDecision(s, start, current, first), k), Weeks(c, k))
       <==> if ScansNew(s, start, current, k) then Weeks(c, k) == 0 else Due(c, s, k)
  {
    SavesDoNotInterfere(s.records, first, LogsIn(LogOf(s, first), start, current),
                        LogsIn(LogOf(s, Other(first)), start, current), s.now);
    var window := LogsIn(LogOf(s, k), start, current);
    if Weeks(c, k) > 0 {
      DecisionAfterRecovery(c, s.records, k, window, s.now, s.now);
    } else if ScansNew(s, start, current, k) {
      LatestIsLast(s.records, k, s.now);
      RecoveredLatest(s.records, k, window, s.now);
      ShouldExecuteCountsDays(c, s.now, Record(k, window[0].data, s.now, false), 0);
    }
  }

  lemma {:induction false} OneMore(c: Config, s: State, n: nat, mintHash: TxHash, transferHash: TxHash)
    requires var d := PerformMany(c, s, n, mintHash, transferHash); d.pending != [] && d.pending[0].Decide?
    ensures PerformMany(c, s, n + 1, mintHash, transferHash)
         == Perform(c, PerformMany(c, s, n, mintHash, transferHash), transferHash)
    decreases n
  {
    if n > 0 {
      var hash := if s.pending != [] && s.pending[0] == Execute(Mint) then mintHash else transferHash;
      OneMore(c, Perform(c, s, hash), n - 1, mintHash, transferHash);
    } else {
      assert PerformMany(c, Perform(c, s, transferHash), 0, mintHash, transferHash) == Perform(c, s, transferHash);
    }
  }

  lemma {:induction false} PerformManySplit(c: Config, s: State, a: nat, b: nat, mintHash: TxHash, transferHash: TxHash)
    ensures PerformMany(c, s, a + b, mintHash, transferHash)
         == PerformMany(c, PerformMany(c, s, a, mintHash, transferHash), b, mintHash, transferHash)
    decreases a
  {
    if a > 0 {
      var hash := if s.pending != [] && s.pending[0] == Execute(Mint) then mintHash else transferHash;
      PerformManySplit(c, Perform(c, s, hash), a - 1, b, mintHash, transferHash);
    }
  }

  /** The state once an action of kind `k` is mined and recorded. */
  function Acted(s: State, k: Kind, txHash: TxHash): State {
    var e, r := Entry(s.head + 1, txHash), Record(k, txHash, s.now, true);
    if k == Mint then s.(minted := s.minted + [e], records := s.records + [r])
    else s.(transferred := s.transferred + [e], records := s.records + [r])
  }

  /** The two actions of kind `k` if `due`: send it, record it. */
  lemma ActStep(c: Config, s: State, k: Kind, due: bool, rest: seq<Action>, n: nat,
                mintHash: TxHash, transferHash: TxHash)
    requires s.pending == (if due then [Execute(k)] else []) + rest
    ensures var hash := if k == Mint then mintHash else transferHash;
      PerformMany(c, s, (if due then 2 else 0) + n, mintHash, transferHash)
      == PerformMany(c, (if due then Acted(s, k, hash) else s).(pending := rest), n, mintHash, transferHash)
  {
    var hash := if k == Mint then mintHash else transferHash;
    if due {
      assert s.pending[1..] == rest;
      var sent := Perform(c, s, hash);
      assert sent.pending == [RecordOwn(k, hash)] + rest && sent.pending[1..] == rest;
      assert Perform(c, sent, transferHash) == Acted(s, k, hash).(pending := rest);
      assert PerformMany(c, s, 2 + n, mintHash, transferHash) == PerformMany(c, sent, 1 + n, mintHash, transferHash);
    } else {
      assert s.pending == rest;
    }
  }

  /** What a run has done once it has decided and finished. */
  function Finished(c: Config, d: State, current: nat, mintHash: TxHash, transferHash: TxHash): State {
    Closed(ActedIf(Due(c, d, Transfer), ActedIf(Due(c, d, Mint), d, Mint, mintHash), Transfer, transferHash), current)
  }

  function Closed(s: State, current: nat): State {
    s.(doc := Some(EventDoc(current, if s.doc.Some? then s.doc.value.lastUpToDepositId else None)), pending := [])
  }

  lemma WriteStep(c: Config, s: State, current: nat, n: nat, mintHash: TxHash, transferHash: TxHash)
    requires s.pending == [WriteCursor(current)]
    ensures PerformMany(c, s, 1 + n, mintHash, transferHash) == Closed(s, current)
  {
    assert s.pending[1..] == [];
    assert Perform(c, s, transferHash) == Closed(s, current);
    PerformManyIdle(c, Closed(s, current), n, mintHash, transferHash);
  }

  lemma DecideStep(c: Config, d: State, current: nat, n: nat, m: seq<Action>, t: seq<Action>,
                   mintHash: TxHash, transferHash: TxHash)
    requires d.pending == [Decide, WriteCursor(current)]
    requires m == if Due(c, d, Mint) then [Execute(Mint)] else []
    requires t == if Due(c, d, Transfer) then [Execute(Transfer)] else []
    ensures PerformMany(c, d, 1 + n, mintHash, transferHash)
         == PerformMany(c, d.(pending := m + (t + [WriteCursor(current)])), n, mintHash, transferHash)
  {
    assert d.pending[1..] == [WriteCursor(current)];
    assert m + t + [WriteCursor(current)] == m + (t + [WriteCursor(current)]);
    assert Perform(c, d, transferHash) == d.(pending := m + (t + [WriteCursor(current)]));
  }

  function ActedIf(due: bool, s: State, k: Kind, txHash: TxHash): State { if due then Acted(s, k, txHash) else s }

  lemma TransferFinishes(c: Config, s: State, due: bool, current: nat, life: nat,
                         mintHash: TxHash, transferHash: TxHash)
    requires s.pending == (if due then [Execute(Transfer)] else []) + [WriteCursor(current)] && life >= 3
    ensures PerformMany(c, s, life, mintHash, transferHash) == Closed(ActedIf(due, s, Transfer, transferHash), current)
  {
    var n: nat := life - if due then 2 else 0;
    ActStep(c, s, Transfer, due, [WriteCursor(current)], n, mintHash, transferHash);
    var moved := ActedIf(due, s, Transfer, transferHash).(pending := [WriteCursor(current)]);
    WriteStep(c, moved, current, n - 1, mintHash, transferHash);
  }

  lemma ActionsFinish(c: Config, s: State, mint: bool, transfer: bool, current: nat, life: nat,
                      mintHash: TxHash, transferHash: TxHash)
    requires s.pending == (if mint then [Execute(Mint)] else [])
                          + ((if transfer then [Execute(Transfer)] else []) + [WriteCursor(current)])
    requires life >= 5
    ensures PerformMany(c, s, life, mintHash, transferHash)
         == Closed(ActedIf(transfer, ActedIf(mint, s, Mint, mintHash), Transfer, transferHash), current)
  {
    var rest := (if transfer then [Execute(Transfer)] else []) + [WriteCursor(current)];
    var n: nat := life - if mint then 2 else 0;
    ActStep(c, s, Mint, mint, rest, n, mintHash, transferHash);
    TransferFinishes(c, ActedIf(mint, s, Mint, mintHash).(pending := rest), transfer, current, n,
                     mintHash, transferHash);
  }

  /** Closing forgets what was pending. */
  lemma ClosedForgets(d: State, p: seq<Action>, mint: bool, transfer: bool, current: nat,
                      mintHash: TxHash, transferHash: TxHash)
    ensures Closed(ActedIf(transfer, ActedIf(mint, d.(pending := p), Mint, mintHash), Transfer, transferHash), current)
         == Closed(ActedIf(transfer, ActedIf(mint, d, Mint, mintHash), Transfer, transferHash), current)
  {
  }

  lemma DecisionFinishes(c: Config, d: State, current: nat, life: nat, mint: bool, transfer: bool,
                         mintHash: TxHash, transferHash: TxHash)
    requires d.pending == [Decide, WriteCursor(current)] && life >= 6
    requires mint == Due(c, d, Mint) && transfer == Due(c, d, Transfer)
    ensures PerformMany(c, d, life, mintHash, transferHash)
         == Closed(ActedIf(transfer, ActedIf(mint, d, Mint, mintHash), Transfer, transferHash), current)
  {
    var m := if mint then [Execute(Mint)] else [];
    var t := if transfer then [Execute(Transfer)] else [];
    var p := m + (t + [WriteCursor(current)]);
    ClosedForgets(d, p, mint, transfer, current, mintHash, transferHash);
    assert PerformMany(c, d, 1 + (life - 1), mintHash, transferHash)
        == PerformMany(c, d.(pending := p), life - 1, mintHash, transferHash) by {
      DecideStep(c, d, current, life - 1, m, t, mintHash, transferHash);
    }
    ActionsFinish(c, d.(pending := p), mint, transfer, current, life - 1, mintHash, transferHash);
  }

  lemma FinishesFrom(c: Config, s: State, d: State, a: nat, current: nat, life: nat,
                     mintHash: TxHash, transferHash: TxHash)
    requires PerformMany(c, s, a, mintHash, transferHash) == d && life >= a + 6
    requires d.pending == [Decide, WriteCursor(current)]
    ensures PerformMany(c, s, life, mintHash, transferHash) == Finished(c, d, current, mintHash, transferHash)
  {
    PerformManySplit(c, s, a, life - a, mintHash, transferHash);
    DecisionFinishes(c, d, current, life - a, Due(c, d, Mint), Due(c, d, Transfer), mintHash, transferHash);
  }

  /** A whole run that is not cut off: both recovery saves, then each due action mined
      and recorded with the hash of its transaction, the mint before the transfer, and
      last the cursor at the observed block. */
  lemma RunFinishes(c: Config, s: State, current: nat, transferFirst: bool, life: nat,
                    mintHash: TxHash, transferHash: TxHash)
    requires GetStartBlockNumber(s.doc, c.deployed) <= current
    requires life >= |StartRun(c, s, current, transferFirst)| + 4
    ensures PerformMany(c, s.(pending := StartRun(c, s, current, transferFirst)), life, mintHash, transferHash)
         == Finished(c, Deciding(s, GetStartBlockNumber(s.doc, c.deployed), current, transferFirst), current,
                     mintHash, transferHash)
  {
    var plan := StartRun(c, s, current, transferFirst);
    var d := Deciding(s, GetStartBlockNumber(s.doc, c.deployed), current, transferFirst);
    SavesReachDecision(c, s, current, transferFirst, plan, d, mintHash, transferHash);
    FinishesFrom(c, s.(pending := plan), d, |plan| - 2, current, life, mintHash, transferHash);
  }

  function RunSteps(c: Config, s: State, life: nat, mintHash: TxHash, transferHash: TxHash): seq<Step>
    decreases life
  {
    if life == 0 then [Crash]
    else
      var hash := if s.pending != [] && s.pending[0] == Execute(Mint) then mintHash else transferHash;
      [PerformAction(hash)] + RunSteps(c, Perform(c, s, hash), life - 1, mintHash, transferHash)
  }

  /** A run of the job that dies after `life` actions is a history of the machine. */
  lemma {:induction false} RunIsHistory(c: Config, s: State, life: nat, mintHash: TxHash, transferHash: TxHash)
    ensures Exec(c, s, RunSteps(c, s, life, mintHash, transferHash))
         == PerformMany(c, s, life, mintHash, transferHash).(pending := [])
    decreases life
  {
    var steps := RunSteps(c, s, life, mintHash, transferHash);
    if life == 0 {
      assert steps[1..] == [];
      assert Exec(c, Next(c, s, Crash), []) == Next(c, s, Crash);
    } else {
      var hash := if s.pending != [] && s.pending[0] == Execute(Mint) then mintHash else transferHash;
      assert steps[1..] == RunSteps(c, Perform(c, s, hash), life - 1, mintHash, transferHash);
      RunIsHistory(c, Perform(c, s, hash), life - 1, mintHash, transferHash);
    }
  }

  // ------------------------------------------------------- an action repeated

  function OneWeek(): Config { Config(6, 1, 1, 7 * DAY + 1, 0) }

  /** Someone minted `a` in block 6, and the run at that block recorded it and died
      before its cursor write; a week has passed. */
  function WeekAfterFirst(a: TxHash): State {
    State([Entry(6, a)], [], 6, [Record(Mint, a, 0, false)], None, 7 * DAY, [])
  }

  /** A fresh job gets there. */
  lemma FreshReachesWeekAfterFirst(a: TxHash)
    ensures var c, s := OneWeek(), State([], [], 5, [], None, 0, []);
      var started := Next(c, Next(c, Next(c, s, ForeignAction(Mint, a)), SealBlock), Start(6, false));
      && Inv(c, s)
      && Next(c, Next(c, Next(c, started, PerformAction(a)), Crash), Tick(7 * DAY)) == WeekAfterFirst(a)
  {
    var c, s := OneWeek(), State([Entry(6, a)], [], 6, [], None, 0, []);
    WindowsOfFirst(a, a);
    assert [] + [Entry(6, a)] == s.minted;
    assert StartRun(c, s, 6, false) == [Save(Mint, a), Decide, WriteCursor(6)];
    assert Latest([], Mint) == None && s.records + [Record(Mint, a, 0, false)] == WeekAfterFirst(a).records;
  }

  /** The same once the next run has mined `b` in block 7 and died before recording it. */
  function UnrecordedSecond(a: TxHash, b: TxHash): State {
    WeekAfterFirst(a).(minted := [Entry(6, a), Entry(7, b)], head := 7)
  }

  lemma WindowsOfFirst(a: TxHash, b: TxHash)
    ensures LogsIn(WeekAfterFirst(a).minted, 6, 6) == WeekAfterFirst(a).minted
    ensures LogsIn(UnrecordedSecond(a, b).minted, 6, 7) == UnrecordedSecond(a, b).minted
    ensures Latest(WeekAfterFirst(a).records, Mint) == Some(WeekAfterFirst(a).records[0])
    ensures Latest(WeekAfterFirst(a).records, Transfer) == None
  {
    var one, two, rs := WeekAfterFirst(a).minted, UnrecordedSecond(a, b).minted, WeekAfterFirst(a).records;
    assert one[1..] == [] && two[1..][1..] == [];
    assert LogsIn(two[1..], 6, 7) == two[1..];
    assert rs[..0] == [];
  }

  lemma OnlyMintIsDue(c: Config, s: State, txHash: TxHash)
    requires s.pending == [Decide, WriteCursor(s.head)] && Due(c, s, Mint) && !Due(c, s, Transfer)
    ensures Perform(c, s, txHash) == s.(pending := [Execute(Mint), WriteCursor(s.head)])
  {
    assert s.pending[1..] == [WriteCursor(s.head)];
  }

  lemma FirstIsDue(a: TxHash, s: State)
    requires s.records == WeekAfterFirst(a).records && s.now == 7 * DAY
    ensures Due(OneWeek(), s, Mint) && !Due(OneWeek(), s, Transfer)
  {
    WindowsOfFirst(a, a);
  }

  /** The run at block 6 sends `b` and dies before it records it. */
  lemma CrashHidesSecond(a: TxHash, b: TxHash)
    ensures var c, started := OneWeek(), Next(OneWeek(), WeekAfterFirst(a), Start(6, false));
      var sent := Next(c, Next(c, started, PerformAction(b)), PerformAction(b));
      Next(c, Next(c, sent, Crash), SealBlock) == UnrecordedSecond(a, b)
  {
    var c, s := OneWeek(), WeekAfterFirst(a);
    WindowsOfFirst(a, b);
    assert StartRun(c, s, 6, false) == [Decide, WriteCursor(6)];
    var d := s.(pending := [Decide, WriteCursor(6)]);
    FirstIsDue(a, d);
    OnlyMintIsDue(c, d, b);
    assert s.minted + [Entry(7, b)] == UnrecordedSecond(a, b).minted;
  }

  /** The run at block 7 scans `a` and `b`, finds its window's first event recorded
      already, and is about to send a third mint on the very day of `b`. */
  lemma HiddenActionIsRepeated(a: TxHash, b: TxHash, txHash: TxHash)
    ensures var c := OneWeek();
      Next(c, Next(c, UnrecordedSecond(a, b), Start(7, false)), PerformAction(txHash)).pending
      == [Execute(Mint), WriteCursor(7)]
  {
    var c, s := OneWeek(), UnrecordedSecond(a, b);
    WindowsOfFirst(a, b);
    assert StartRun(c, s, 7, false) == [Decide, WriteCursor(7)];
    var d := s.(pending := [Decide, WriteCursor(7)]);
    FirstIsDue(a, d);
    OnlyMintIsDue(c, d, txHash);
  }

  lemma FreshStateIsValid(c: Config, head: nat, now: int)
    ensures Inv(c, State([], [], head, [], None, now, []))
  {
  }
}

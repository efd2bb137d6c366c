/** The day-long timer of VERIFIED records: exactly which polls retry by hand. */
module RetryTimer {
  import opened Wrappers
  import opened BridgeMonitor
  import opened BridgeSafety

  /** A record after one poll; a poll whose error is rethrown leaves it as it was. */
  function AfterPoll(r: Record, p: Poll): Record {
    var u := Process(r, p).update;
    if u.Some? then Apply(r, u.value) else r
  }

  function AfterPolls(r: Record, polls: seq<Poll>): Record {
    if polls == [] then r else AfterPoll(AfterPolls(r, polls[..|polls| - 1]), polls[|polls| - 1])
  }

  /** The poll is answered VERIFIED and its document write goes through. */
  predicate IsVerified(p: Poll) { p.fetch == Returns(Verified) && p.write.Returns? }

  function VerifiedPolls(polls: seq<Poll>): seq<Poll> {
    if polls == [] then []
    else
      var before := VerifiedPolls(polls[..|polls| - 1]);
      if IsVerified(polls[|polls| - 1]) then before + [polls[|polls| - 1]] else before
  }

  /** The clock does not go back, within a poll or between two. */
  ghost predicate Timed(polls: seq<Poll>) {
    && (forall i :: 0 <= i < |polls| ==> polls[i].checkedAt <= polls[i].stampedAt)
    && (forall i, j :: 0 <= i < j < |polls| ==> polls[i].stampedAt <= polls[j].checkedAt)
  }

  /** Some poll came more than a day after the one before it. */
  ghost predicate LateGap(vs: seq<Poll>) {
    exists j :: 0 < j < |vs| && GapBefore(vs, j)
  }

  predicate GapBefore(vs: seq<Poll>, j: nat)
    requires 0 < j < |vs|
  {
    vs[j - 1].stampedAt < vs[j].checkedAt - DAY
  }

  lemma LateGapAppend(vs: seq<Poll>, p: Poll)
    requires vs != []
    ensures LateGap(vs + [p]) <==> LateGap(vs) || vs[|vs| - 1].stampedAt < p.checkedAt - DAY
  {
    var all := vs + [p];
    if vs[|vs| - 1].stampedAt < p.checkedAt - DAY {
      assert GapBefore(all, |vs|);
    }
    if LateGap(vs) {
      var j :| 0 < j < |vs| && GapBefore(vs, j);
      assert GapBefore(all, j);
    }
    if LateGap(all) {
      var j :| 0 < j < |all| && GapBefore(all, j);
      assert j < |vs| ==> GapBefore(vs, j);
    }
  }

  lemma {:induction false} VerifiedAreEarlier(polls: seq<Poll>, i: nat)
    requires Timed(polls) && i < |VerifiedPolls(polls)|
    ensures VerifiedPolls(polls)[i] in polls
    ensures VerifiedPolls(polls)[i].checkedAt <= polls[|polls| - 1].stampedAt
  {
    var n := |polls| - 1;
    var before := polls[..n];
    if i < |VerifiedPolls(before)| {
      VerifiedAreEarlier(before, i);
    }
  }

  /** The timer after the VERIFIED polls `vs`: unset before the first, the last one's
      stamp until a late gap, and an overdue stamp from then on. */
  ghost predicate TimerHolds(vs: seq<Poll>, v: Option<int>) {
    if vs == [] then v.None?
    else
      var last := vs[|vs| - 1];
      v.Some? && if LateGap(vs) then v.value < last.checkedAt - DAY else v.value == last.stampedAt
  }

  lemma TimerStep(vs: seq<Poll>, r: Record, p: Poll)
    requires TimerHolds(vs, r.verifiedAt) && IsVerified(p)
    requires vs != [] ==> vs[|vs| - 1].checkedAt <= p.checkedAt
    ensures TimerHolds(vs + [p], AfterPoll(r, p).verifiedAt)
  {
    VerifiedStep(r, p);
    if vs != [] {
      LateGapAppend(vs, p);
    } else {
      assert vs + [p] == [p] && !LateGap([p]);
    }
  }

  /** What the timer holds after any polls, VERIFIED or not. */
  lemma {:induction false} TimerState(r: Record, polls: seq<Poll>)
    requires r.verifiedAt.None? && Timed(polls)
    ensures TimerHolds(VerifiedPolls(polls), AfterPolls(r, polls).verifiedAt)
  {
    if polls != [] {
      var n := |polls| - 1;
      var before, p := polls[..n], polls[n];
      TimerState(r, before);
      if IsVerified(p) {
        if VerifiedPolls(before) != [] {
          VerifiedAreEarlier(before, |VerifiedPolls(before)| - 1);
        }
        TimerStep(VerifiedPolls(before), AfterPolls(r, before), p);
      } else {
        OtherStep(AfterPolls(r, before), p);
      }
    }
  }

  lemma VerifiedStep(r: Record, p: Poll)
    requires IsVerified(p)
    ensures AfterPoll(r, p).verifiedAt == if RetryDue(r, p) then r.verifiedAt else Some(p.stampedAt)
  {
  }

  lemma OtherStep(r: Record, p: Poll)
    requires !IsVerified(p)
    ensures AfterPoll(r, p).verifiedAt == r.verifiedAt
  {
  }

  /** A poll answered VERIFIED sends a manual retry exactly when its transaction is
      accepted and it or some written VERIFIED poll before it came more than a day after
      the written VERIFIED poll preceding that one. */
  lemma RetryFiresIff(r: Record, polls: seq<Poll>, p: Poll)
    requires r.verifiedAt.None? && Timed(polls + [p]) && p.fetch == Returns(Verified)
    ensures RetryDue(AfterPolls(r, polls), p) <==> LateGap(VerifiedPolls(polls) + [p])
    ensures ManualRetry in Process(AfterPolls(r, polls), p).submitted
       <==> p.submit.Returns? && LateGap(VerifiedPolls(polls) + [p])
  {
    SubmitsIff(AfterPolls(r, polls), p);
    assert forall i :: 0 <= i < |polls| ==> polls[i] == (polls + [p])[i];
    TimerState(r, polls);
    var vs := VerifiedPolls(polls);
    if vs != [] {
      LateGapAppend(vs, p);
      VerifiedAreEarlier(polls, |vs| - 1);
      assert (polls + [p])[|polls|] == p;
    } else {
      assert !LateGap([p]);
    }
  }

  /** Once a poll finds the retry due it stays due, whatever the polls from then on
      answer and whether their writes go through: `polls[n]` does, and `q` comes
      after all of `polls`. */
  lemma {:induction false} RetriesAreASuffix(r: Record, polls: seq<Poll>, n: nat, q: Poll)
    requires Timed(polls + [q]) && n < |polls|
    requires RetryDue(AfterPolls(r, polls[..n]), polls[n])
    ensures RetryDue(AfterPolls(r, polls), q)
    ensures q.fetch == Returns(Verified) ==>
      (ManualRetry in Process(AfterPolls(r, polls), q).submitted <==> q.submit.Returns?)
    decreases |polls|
  {
    SubmitsIff(AfterPolls(r, polls), q);
    var m := |polls| - 1;
    var before, last := polls[..m], polls[m];
    assert (polls + [q])[m] == last && (polls + [q])[m + 1] == q;
    if n < m {
      TimedFront(polls, q);
      assert before[..n] == polls[..n];
      RetriesAreASuffix(r, before, n, last);
    }
    DueStays(AfterPolls(r, before), last);
  }

  lemma TimedFront(polls: seq<Poll>, q: Poll)
    requires Timed(polls + [q]) && polls != []
    ensures Timed(polls[..|polls| - 1] + [polls[|polls| - 1]])
  {
    assert forall i :: 0 <= i < |polls| ==> (polls + [q])[i] == polls[i];
    assert polls[..|polls| - 1] + [polls[|polls| - 1]] == polls;
  }

  lemma DueStays(r: Record, p: Poll)
    requires RetryDue(r, p)
    ensures AfterPoll(r, p).verifiedAt == r.verifiedAt
  {
  }

  // ------------------------------------------------------ the polls of a history

  /** The polls a history makes of a guid. */
  function PollsOf(deployed: nat, s: State, steps: seq<Step>, g: Guid): seq<Poll>
    decreases |steps|
  {
    if steps == [] then []
    else PollOf(s, steps[0], g) + PollsOf(deployed, Next(deployed, s, steps[0]), steps[1..], g)
  }

  function PollOf(s: State, step: Step, g: Guid): seq<Poll> {
    if step.MonitorPoll? && s.queue != [] && s.queue[0].guid == g then [step.poll] else []
  }

  lemma {:induction false} AfterFirstPoll(r: Record, first: seq<Poll>, rest: seq<Poll>)
    ensures AfterPolls(r, first + rest) == AfterPolls(AfterPolls(r, first), rest)
  {
    if rest == [] {
      assert first + rest == first;
    } else {
      var n := |rest| - 1;
      assert (first + rest)[..|first + rest| - 1] == first + rest[..n];
      AfterFirstPoll(r, first, rest[..n]);
    }
  }

  lemma StepPolls(deployed: nat, s: State, step: Step, g: Guid)
    requires Inv(deployed, s) && step != WatcherCrash && g in s.records
    ensures var s' := Next(deployed, s, step);
      g in s'.records && s'.records[g] == AfterPolls(s.records[g], PollOf(s, step, g))
  {
    match step
    case WatcherSave(b, now) => SaveKeepsRecords(deployed, s, b, now, g);
    case MonitorPoll(p) =>
      if s.queue != [] {
        PollKeepsMonitorInv(s, p);
        OnePoll(s.records[g], p);
      }
    case _ =>
  }

  lemma OnePoll(r: Record, p: Poll)
    ensures AfterPolls(r, [p]) == AfterPoll(r, p)
  {
    assert [p][..0] == [];
  }

  /** In every history without a watcher crash a stored record is what the polls
      made of its guid leave of it: nobody else writes to it. */
  lemma {:induction false} RecordIsItsPolls(deployed: nat, s: State, steps: seq<Step>, g: Guid)
    requires Inv(deployed, s) && WatcherCrashFree(steps) && g in s.records
    ensures var end := Exec(deployed, s, steps);
      g in end.records && end.records[g] == AfterPolls(s.records[g], PollsOf(deployed, s, steps, g))
    decreases |steps|
  {
    if steps != [] {
      assert steps[0] != WatcherCrash;
      NextKeepsInv(deployed, s, steps[0]);
      StepPolls(deployed, s, steps[0], g);
      RecordIsItsPolls(deployed, Next(deployed, s, steps[0]), steps[1..], g);
      AfterFirstPoll(s.records[g], PollOf(s, steps[0], g),
                     PollsOf(deployed, Next(deployed, s, steps[0]), steps[1..], g));
    }
  }

  /** The timer over whole histories: the next VERIFIED poll of a guid sends a manual
      retry, as the one transaction it adds to the history, exactly if that is accepted
      and the written VERIFIED polls of that guid since it was saved, and this one, have
      a gap of more than a day. */
  lemma HistoryRetriesIff(deployed: nat, s: State, steps: seq<Step>, g: Guid, p: Poll)
    requires Inv(deployed, s) && WatcherCrashFree(steps)
    requires g in s.records && s.records[g].verifiedAt.None?
    requires var end := Exec(deployed, s, steps); end.queue != [] && end.queue[0].guid == g
    requires p.fetch == Returns(Verified) && Timed(PollsOf(deployed, s, steps, g) + [p])
    ensures var end := Exec(deployed, s, steps);
      Next(deployed, end, MonitorPoll(p)).submitted
      == end.submitted + if p.submit.Returns? && LateGap(VerifiedPolls(PollsOf(deployed, s, steps, g)) + [p])
                         then [Submitted(g, ManualRetry)] else []
  {
    var end := Exec(deployed, s, steps);
    HistoryKeepsInv(deployed, s, steps);
    RecordIsItsPolls(deployed, s, steps, g);
    assert end.queue[0].record == end.records[g];
    RetryFiresIff(s.records[g], PollsOf(deployed, s, steps, g), p);
    PollHeadIs(end, p, g);
  }
}

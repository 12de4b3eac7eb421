/** What the log writer's syncs are worth: when the worker is clean, everything it has written survives a
    crash. */
module Durability {
  import opened Resp
  import opened RespLaws
  import opened Frames
  import opened AofWriter

  /** The worker is not between a failed call and its recording, and no failure was recorded. */
  predicate Healthy(s: Writer) {
    !s.failed && s.phase != Failing && s.phase != TimerFailing
  }

  /** The bytes of the record being written that are in the file already. */
  function Unfinished(s: Writer): nat {
    if s.phase == Writing then s.offset else 0
  }

  /** A clean worker has synced all but the record in hand; `always` is clean between records; only
      `always` stops to sync after a record and only `everysec` at the timer. */
  ghost predicate SyncOk(s: Writer) {
    && (Healthy(s) && !s.dirty ==> s.synced + Unfinished(s) == |s.file|)
    && (Healthy(s) && s.policy == Always && s.phase != Syncing ==> !s.dirty)
    && (s.phase == Syncing ==> s.policy == Always && s.dirty)
    && (s.phase == TimerFailing ==> s.policy == EverySecond)
  }

  lemma SyncKept(s: Writer, e: Event)
    requires SyncOk(s) && s.synced <= |s.file|
    ensures SyncOk(Step(s, e))
  {
  }

  lemma {:induction false} RunSync(policy: FsyncPolicy, base: string, events: seq<Event>)
    ensures SyncOk(Run(Open(policy, base, |base|), events))
  {
    hide Step, SyncOk;
    if events == [] {
      OpenSync(policy, base);
    } else {
      var n := |events| - 1;
      RunSync(policy, base, events[..n]);
      RunInv(policy, base, |base|, events[..n]);
      SyncKept(Run(Open(policy, base, |base|), events[..n]), events[n]);
    }
  }

  lemma OpenSync(policy: FsyncPolicy, base: string)
    ensures SyncOk(Open(policy, base, |base|))
  {
  }

  /** In every run on a file that was safe when it was opened, a worker that is between records, has met no
      failure and has nothing left to sync has its whole file synced; under `always` it never has anything
      left to sync there. */
  lemma CleanIsSynced(policy: FsyncPolicy, base: string, events: seq<Event>)
    ensures var s := Run(Open(policy, base, |base|), events);
            && (Healthy(s) && s.phase != Writing && !s.dirty ==> s.synced == |s.file|)
            && (Healthy(s) && policy == Always && s.phase !in {Writing, Syncing} ==> s.synced == |s.file|)
  {
    RunSync(policy, base, events);
    RunInv(policy, base, |base|, events);
  }

  /** The bytes of a record that is not whole in the file, be it in hand or given up. */
  function Fragment(s: Writer): nat {
    if s.phase == Writing || s.offset < |s.record.data| then s.offset else 0
  }

  /** Even after a failed write, records written before it are synced once the worker is clean. */
  ghost predicate CleanOk(s: Writer) {
    && s.phase != TimerFailing && (s.taken == 0 ==> s.offset == 0)
    && (!s.dirty ==> s.synced + Fragment(s) >= |s.file|)
  }

  lemma CleanKept(s: Writer, e: Event)
    requires Inv(s) && CleanOk(s) && !(e.TimerSync? && !e.ok)
    ensures CleanOk(Step(s, e))
  {
    hide EncodeCommand, EncodeLog, DurableOk, WaitingOk;
  }

  /** In every run in which no timer sync fails, a worker with nothing left to sync has synced all whole
      records, also after a failed write. */
  lemma {:induction false} WholeRecordsSynced(policy: FsyncPolicy, base: string, events: seq<Event>)
    requires forall i :: 0 <= i < |events| ==> !(events[i].TimerSync? && !events[i].ok)
    ensures CleanOk(Run(Open(policy, base, |base|), events))
  {
    hide Step, Inv;
    if events != [] {
      var n := |events| - 1;
      WholeRecordsSynced(policy, base, events[..n]);
      RunInv(policy, base, |base|, events[..n]);
      CleanKept(Run(Open(policy, base, |base|), events[..n]), events[n]);
    }
  }

  /** A writer that is closing accepts nothing more. */
  lemma {:induction false} ClosedAcceptsNothing(s: Writer, more: seq<Event>)
    requires s.stopping
    ensures Run(s, more).stopping && Run(s, more).accepted == s.accepted
  {
    hide Step;
    if more != [] {
      ClosedAcceptsNothing(s, more[..|more| - 1]);
      ClosedRefuses(Run(s, more[..|more| - 1]), more[|more| - 1]);
    }
  }

  lemma ClosedRefuses(s: Writer, e: Event)
    requires s.stopping
    ensures Step(s, e).stopping && Step(s, e).accepted == s.accepted && Step(s, e).policy == s.policy
  {
  }

  /** A sync is what makes bytes safe: the synced length moves only when a sync call succeeds, and never
      under the policy that makes none. */
  lemma SyncedOnlyBySync(s: Writer, e: Event)
    requires SyncOk(s) && Step(s, e).synced != s.synced
    ensures e == Sync(true) || e == Finish(true) || (e.TimerSync? && e.ok && s.policy == EverySecond)
    ensures s.policy != Never && Step(s, e).synced == |Step(s, e).file|
  {
  }

  lemma {:induction false} FileGrowsAlong(s: Writer, more: seq<Event>)
    requires Inv(s)
    ensures var t := Run(s, more);
            Inv(t) && s.file <= t.file && s.synced <= t.synced && s.taken <= t.taken && s.accepted <= t.accepted &&
            t.base == s.base
  {
    hide Inv, Step;
    if more != [] {
      var n := |more| - 1;
      FileGrowsAlong(s, more[..n]);
      GrowsStep(Run(s, more[..n]), more[n]);
    }
  }

  lemma GrowsStep(s: Writer, e: Event)
    requires Inv(s)
    ensures var t := Step(s, e);
            Inv(t) && s.file <= t.file && s.synced <= t.synced && s.taken <= t.taken && s.accepted <= t.accepted &&
            t.base == s.base
  {
    InvKept(s, e);
    FileGrows(s, e);
    hide Inv, EncodeCommand;
  }

  /** What is synced between records stays: if at some moment of a run the whole file was synced with no
      record in hand, then a crash at that moment or any later one, keeping any prefix not shorter than the
      last sync, replays every old command and every one popped until then. */
  lemma SyncedSurvives(
      p: Parser, policy: FsyncPolicy, old_: seq<Command>, synced: nat, events: seq<Event>, more: seq<Event>, k: nat)
    returns (j: nat)
    requires synced <= |EncodeLog(old_)|
    requires var s := Run(Open(policy, EncodeLog(old_), synced), events);
             Healthy(s) && s.phase != Writing && s.synced == |s.file|
    requires var t := Run(Open(policy, EncodeLog(old_), synced), events + more);
             t.synced <= k <= |t.file| && AllLoggable(p, old_ + t.accepted)
    ensures var s := Run(Open(policy, EncodeLog(old_), synced), events);
            var t := Run(Open(policy, EncodeLog(old_), synced), events + more);
            var f := ReadFrames(p, t.file[..k]);
            && s.accepted <= t.accepted && |old_| + s.taken <= j <= |old_| + |t.accepted|
            && f.commands == (old_ + t.accepted)[..j] && !f.ending.Corrupt?
  {
    hide EncodeCommand, EncodeLog, ReadFrames, FileOk, WaitingOk, DurableOk, Loggable;
    var w := Open(policy, EncodeLog(old_), synced);
    var s := Run(w, events);
    RunInv(policy, EncodeLog(old_), synced, events);
    RunAppend(w, events, more);
    FileGrowsAlong(s, more);
    j := CrashRecovery(p, policy, old_, synced, events + more, k);
    var t := Run(w, events + more);
    hide Run;
    WholeFile(s);
    var n := s.taken;
    assert t.accepted[..n] == s.accepted[..n];
    EncodeLogAppend(old_, s.accepted[..n]);
    assert |EncodeLog(old_ + t.accepted[..n])| == |s.file| <= k;
  }

  /** The once-a-second policy: after a due sync that succeeds, every command popped before it survives any
      later crash. */
  lemma EverySecondKeeps(
      p: Parser, old_: seq<Command>, synced: nat, events: seq<Event>, more: seq<Event>, k: nat) returns (j: nat)
    requires synced <= |EncodeLog(old_)|
    requires var s := Run(Open(EverySecond, EncodeLog(old_), synced), events);
             s.phase == Timer && !s.failed && (s.dirty || synced == |EncodeLog(old_)|)
    requires var t := Run(Open(EverySecond, EncodeLog(old_), synced), events + [TimerSync(true, true)] + more);
             t.synced <= k <= |t.file| && AllLoggable(p, old_ + t.accepted)
    ensures var s := Run(Open(EverySecond, EncodeLog(old_), synced), events);
            var t := Run(Open(EverySecond, EncodeLog(old_), synced), events + [TimerSync(true, true)] + more);
            var f := ReadFrames(p, t.file[..k]);
            && s.accepted <= t.accepted && |old_| + s.taken <= j <= |old_| + |t.accepted|
            && f.commands == (old_ + t.accepted)[..j] && !f.ending.Corrupt?
  {
    hide EncodeCommand, EncodeLog, ReadFrames, FileOk, WaitingOk, DurableOk, Loggable;
    var base := EncodeLog(old_);
    var w := Open(EverySecond, base, synced);
    var s := Run(w, events);
    RunInv(EverySecond, base, synced, events);
    if synced == |base| { RunSync(EverySecond, base, events); }
    RunAppend(w, events, [TimerSync(true, true)]);
    RunOne(s, TimerSync(true, true));
    j := SyncedSurvives(p, EverySecond, old_, synced, events + [TimerSync(true, true)], more, k);
  }

  /** A clean close leaves everything accepted in the file and safe, under every policy that syncs. */
  lemma CloseSyncs(policy: FsyncPolicy, base: string, events: seq<Event>)
    requires var s := Run(Open(policy, base, |base|), events);
             policy != Never && Healthy(s) && s.phase == Ready && s.queue == [] && s.stopping
    ensures var t := Run(Open(policy, base, |base|), events + [Finish(true)]);
            t.phase == Stopped && t.file == base + EncodeLog(t.accepted) && t.synced == |t.file|
  {
    hide EncodeCommand, EncodeLog, FileOk, WaitingOk, DurableOk;
    var w := Open(policy, base, |base|);
    var s := Run(w, events);
    RunInv(policy, base, |base|, events);
    RunSync(policy, base, events);
    RunAppend(w, events, [Finish(true)]);
    RunOne(s, Finish(true));
    hide Run;
    WholeFile(s);
    assert s.accepted[..s.taken] == s.accepted;
  }

  /** The timer's sync can always happen: from any state waiting on an empty queue the worker of the
      once-a-second policy reaches a state with its whole file synced. */
  lemma TimerSyncs(s: Writer)
    requires Inv(s) && SyncOk(s) && Healthy(s) && s.policy == EverySecond
    requires s.phase == Ready && s.queue == [] && !s.stopping
    ensures Step(Step(s, Idle), TimerSync(true, true)) == s.(synced := |s.file|, dirty := false)
  {
    hide EncodeCommand, EncodeLog, FileOk, WaitingOk, DurableOk;
  }

  /** Closing comes to its end: from any state in which a healthy worker waits, however the queued records are
      split into writes, the worker writes them all and stops; nobody is left waiting, and under every policy
      that syncs the whole file is safe. */
  lemma CloseCompletes(s: Writer, splits: seq<seq<nat>>) returns (events: seq<Event>)
    requires Inv(s) && SyncOk(s) && s.phase == Ready && !s.failed && Splits(s.queue, splits)
    ensures var t := Run(s, events);
            && t.phase == Stopped && !t.failed && t.accepted == s.accepted && Waiting !in t.tickets
            && t.file == s.file + EncodeLog(s.accepted[s.taken..]) && s.taken <= |s.accepted|
            && (s.policy != Never ==> t.synced == |t.file|)
  {
    hide EncodeCommand, EncodeLog, FileOk, DurableOk, WaitingOk, Run, DrainSchedule;
    var a := Step(s, Close);
    InvKept(s, Close);
    SyncKept(s, Close);
    QueueCompletes(a, splits);
    var drain := DrainSchedule(s.policy, splits);
    var b := Run(a, drain);
    SyncRuns(a, drain);
    StoppingStays(a, drain);
    var t := Step(b, Finish(true));
    InvKept(b, Finish(true));
    events := [Close] + drain + [Finish(true)];
    RunOne(s, Close);
    RunAppend(s, [Close], drain);
    RunOne(b, Finish(true));
    RunAppend(s, [Close] + drain, [Finish(true)]);
    hide Step;
    forall i | 0 <= i < |t.tickets| ensures t.tickets[i] != Waiting { NobodyWaits(t, i); }
  }

  lemma NobodyWaits(s: Writer, i: nat)
    requires Inv(s) && s.phase == Stopped && i < |s.tickets|
    ensures s.tickets[i] != Waiting
  {
    hide EncodeCommand, EncodeLog, FileOk, DurableOk;
    assert WaitingOk(s, i);
  }

  lemma {:induction false} SyncRuns(s: Writer, events: seq<Event>)
    requires Inv(s) && SyncOk(s)
    ensures SyncOk(Run(s, events))
  {
    hide Step, SyncOk;
    if events != [] {
      var n := |events| - 1;
      SyncRuns(s, events[..n]);
      InvRuns(s, events[..n]);
      SyncKept(Run(s, events[..n]), events[n]);
    }
  }

  lemma {:induction false} StoppingStays(s: Writer, events: seq<Event>)
    requires s.stopping
    ensures Run(s, events).stopping && Run(s, events).policy == s.policy
  {
    hide Step;
    if events != [] {
      StoppingStays(s, events[..|events| - 1]);
      ClosedRefuses(Run(s, events[..|events| - 1]), events[|events| - 1]);
    }
  }
}

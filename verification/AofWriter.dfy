/** The append-only-file writer: callers enqueue records under a lock, one worker thread writes them,
    and any write or sync may fail. The writer is a machine over its atomic steps; every interleaving
    of callers, worker and system-call outcomes is a sequence of events. Line numbers are those of
    src/persist/aof.cpp. */
module AofWriter {
  import opened Resp
  import opened RespLaws
  import opened Frames

  datatype FsyncPolicy = Always | EverySecond | Never

  /** The promise a caller of Append waits on; only `Always` makes one. */
  datatype Ticket = NoTicket | Waiting | Durable | Rejected

  datatype Record = Record(data: string, id: nat)

  /** Where the worker is: waiting for the queue; in the write loop; between a whole write and its
      sync; between catching a failure and recording it; at the once-a-second sync; between that
      sync's failure and recording it; gone. */
  datatype Phase = Ready | Writing | Syncing | Failing | Timer | TimerFailing | Stopped

  /** `accepted` is the history of enqueued commands and `taken` how many of them the worker has
      popped; `offset` is how much of the last popped record the file holds; `synced` is the length
      of the file prefix that survives a crash. */
  datatype Writer = Writer(
    policy: FsyncPolicy, base: string, file: string, synced: nat,
    queue: seq<Record>, failed: bool, stopping: bool,
    phase: Phase, record: Record, offset: nat, dirty: bool,
    accepted: seq<Command>, tickets: seq<Ticket>, taken: nat)

  datatype Event =
    | Append(command: Command)      // lines 46-51
    | Close                         // lines 32-35
    | Take | Idle                   // lines 66-77
    | Finish(synced: bool)          // lines 73-76
    | Write(count: nat)             // line 123, a full or short write
    | WriteFails                    // lines 125-127 and 87-89
    | Written                       // lines 81-86, leaving the write loop
    | Sync(ok: bool)                // lines 83-89
    | RecordFailure                 // lines 107-118
    | TimerSync(due: bool, ok: bool) // lines 94-103

  function Open(policy: FsyncPolicy, base: string, synced: nat): Writer {
    Writer(policy, base, base, synced, [], false, false, Ready, Record("", 0), 0, false, [], [], 0)
  }

  function RejectAll(tickets: seq<Ticket>, from: nat): (r: seq<Ticket>)
    ensures |r| == |tickets|
    ensures forall i :: 0 <= i < |r| ==> r[i] == if i >= from && tickets[i] == Waiting then Rejected else tickets[i]
  {
    seq(|tickets|, i requires 0 <= i < |tickets| =>
      if i >= from && tickets[i] == Waiting then Rejected else tickets[i])
  }

  function Settle(s: Writer, t: Ticket): seq<Ticket> {
    if s.record.id < |s.tickets| && s.tickets[s.record.id] == Waiting then s.tickets[s.record.id := t] else s.tickets
  }

  /** The effect of an event; an event that cannot happen in `s` leaves it unchanged. */
  function Step(s: Writer, e: Event): Writer {
    match e
    case Append(c) =>
      if s.failed || s.stopping then s  // throws
      else s.(queue := s.queue + [Record(EncodeCommand(c), |s.accepted|)],
              accepted := s.accepted + [c],
              tickets := s.tickets + [if s.policy == Always then Waiting else NoTicket])
    case Close => s.(stopping := true)
    case Take =>
      if s.phase == Ready && s.queue != []
      then s.(queue := s.queue[1..], record := s.queue[0], taken := s.taken + 1, offset := 0, phase := Writing)
      else s
    case Idle => if s.phase == Ready && s.queue == [] && !s.stopping then s.(phase := Timer) else s
    case Finish(ok) =>
      if s.phase == Ready && s.queue == [] && s.stopping
      then s.(phase := Stopped, synced := if s.dirty && s.policy != Never && ok then |s.file| else s.synced)
      else s
    case Write(n) =>
      if s.phase == Writing && s.offset + n <= |s.record.data|
      then s.(file := s.file + s.record.data[s.offset..s.offset + n], offset := s.offset + n)
      else s
    case WriteFails =>
      if s.phase == Writing && s.offset < |s.record.data|
      then s.(phase := Failing, tickets := Settle(s, Rejected)) else s
    case Written =>
      if s.phase == Writing && s.offset == |s.record.data|
      then s.(dirty := true, phase := if s.policy == Always then Syncing else Timer) else s
    case Sync(ok) =>
      if s.phase != Syncing then s
      else if ok then s.(synced := |s.file|, dirty := false, tickets := Settle(s, Durable), phase := Timer)
      else s.(tickets := Settle(s, Rejected), phase := Failing)
    case RecordFailure =>
      if s.phase == Failing || s.phase == TimerFailing
      then s.(failed := true, queue := [], tickets := RejectAll(s.tickets, s.taken),
              dirty := if s.phase == TimerFailing then false else s.dirty,
              phase := if s.phase == TimerFailing then Ready else Timer)
      else s
    case TimerSync(due, ok) =>
      if s.phase != Timer then s
      else if s.policy == EverySecond && s.dirty && due then
        if ok then s.(synced := |s.file|, dirty := false, phase := Ready) else s.(phase := TimerFailing)
      else s.(phase := Ready)
  }

  function Run(s: Writer, events: seq<Event>): Writer {
    if events == [] then s else Step(Run(s, events[..|events| - 1]), events[|events| - 1])
  }

  // ---------------------------------------------------------------- the invariant

  /** The records not yet popped are exactly the accepted commands after the first `taken`. */
  ghost predicate QueueOk(s: Writer) {
    && s.taken <= |s.accepted| == |s.tickets|
    && (s.failed ==> s.queue == [])
    && (!s.failed ==> |s.queue| == |s.accepted| - s.taken)
    && forall i :: 0 <= i < |s.queue| ==>
         s.queue[i] == Record(EncodeCommand(s.accepted[s.taken + i]), s.taken + i)
  }

  ghost predicate InRecord(s: Writer) {
    s.phase == Writing || s.phase == Syncing || s.phase == Failing
  }

  /** Whole records in enqueue order, then at most one partial record. */
  ghost predicate FileOk(s: Writer) {
    s.taken <= |s.accepted| &&
    if s.taken == 0 then s.file == s.base && !InRecord(s)
    else
      && s.record == Record(EncodeCommand(s.accepted[s.taken - 1]), s.taken - 1)
      && s.offset <= |s.record.data|
      && (s.phase != Writing && s.phase != Failing && !s.failed ==> s.offset == |s.record.data|)
      && s.file == s.base + EncodeLog(s.accepted[..s.taken - 1]) + s.record.data[..s.offset]
  }

  ghost predicate DurableOk(s: Writer, i: nat)
    requires i < |s.tickets| == |s.accepted|
  {
    s.tickets[i] == Durable ==> i < s.taken && |s.base| + |EncodeLog(s.accepted[..i + 1])| <= s.synced
  }

  ghost predicate WaitingOk(s: Writer, i: nat)
    requires i < |s.tickets| == |s.accepted|
  {
    s.tickets[i] == Waiting <==>
      s.policy == Always && !s.failed &&
      (i >= s.taken || (i == s.taken - 1 && (s.phase == Writing || s.phase == Syncing)))
  }

  ghost predicate Inv(s: Writer) {
    && QueueOk(s)
    && FileOk(s)
    && s.synced <= |s.file|
    && (s.failed ==> s.phase !in {Writing, Syncing, Failing})
    && (s.phase == Stopped ==> s.queue == [] && s.stopping)
    && (forall i :: 0 <= i < |s.tickets| ==> DurableOk(s, i))
    && (forall i :: 0 <= i < |s.tickets| ==> WaitingOk(s, i))
  }

  lemma QueueKept(s: Writer, e: Event)
    requires Inv(s)
    ensures QueueOk(Step(s, e))
  {
    hide EncodeCommand, EncodeLog, FileOk, DurableOk, WaitingOk;
  }

  lemma WriteKeepsFile(s: Writer, n: nat)
    requires Inv(s) && s.phase == Writing && s.offset + n <= |s.record.data|
    ensures FileOk(Step(s, Write(n)))
  {
    hide EncodeCommand, EncodeLog;
    assert s.record.data[..s.offset] + s.record.data[s.offset..s.offset + n] == s.record.data[..s.offset + n];
    var front := s.base + EncodeLog(s.accepted[..s.taken - 1]);
    assert front + s.record.data[..s.offset] + s.record.data[s.offset..s.offset + n]
           == front + (s.record.data[..s.offset] + s.record.data[s.offset..s.offset + n]);
  }

  /** Popping the next record: the last one is whole, so the file is a log of the first `taken`. */
  lemma TakeKeepsFile(s: Writer)
    requires Inv(s) && s.phase == Ready && s.queue != []
    ensures FileOk(Step(s, Take))
  {
    hide EncodeCommand;
    var n := s.taken;
    if n > 0 {
      assert s.accepted[..n] == s.accepted[..n - 1] + [s.accepted[n - 1]];
      EncodeLogSnoc(s.accepted[..n - 1], s.accepted[n - 1]);
      assert s.record.data[..s.offset] == s.record.data;
      assert s.base + EncodeLog(s.accepted[..n]) == s.base + EncodeLog(s.accepted[..n - 1]) + s.record.data;
    }
    var s' := Step(s, Take);
    assert s'.record.data[..0] == "";
    assert s.base + EncodeLog(s.accepted[..n]) + "" == s.base + EncodeLog(s.accepted[..n]);
  }

  lemma FileKept(s: Writer, e: Event)
    requires Inv(s)
    ensures FileOk(Step(s, e))
  {
    hide EncodeCommand, EncodeLog;
    if e.Write? && s.phase == Writing && s.offset + e.count <= |s.record.data| {
      WriteKeepsFile(s, e.count);
    } else if e.Take? && s.phase == Ready && s.queue != [] {
      TakeKeepsFile(s);
    } else if e.Append? && s.taken > 0 {
      assert (s.accepted + [e.command])[..s.taken - 1] == s.accepted[..s.taken - 1];
    }
  }

  /** The file only grows, and so does its synced prefix. */
  lemma FileGrows(s: Writer, e: Event)
    requires s.synced <= |s.file|
    ensures Step(s, e).base == s.base && Step(s, e).policy == s.policy
    ensures s.file <= Step(s, e).file
    ensures s.synced <= Step(s, e).synced <= |Step(s, e).file|
  {
  }

  lemma DurableKept(s: Writer, e: Event, i: nat)
    requires Inv(s) && QueueOk(Step(s, e)) && i < |Step(s, e).tickets|
    ensures DurableOk(Step(s, e), i)
  {
    hide EncodeCommand, EncodeLog;
    FileGrows(s, e);
    if i < |s.accepted| {
      assert DurableOk(s, i);
      assert Step(s, e).accepted[..i + 1] == s.accepted[..i + 1];
      if e == Sync(true) && s.phase == Syncing && i == s.taken - 1 {
        WholeFile(s);
        assert s.accepted[..i + 1] == s.accepted[..s.taken];
      }
    }
  }

  /** Steps that settle the promise of the record in hand. */
  lemma WaitingSettled(s: Writer, e: Event, i: nat)
    requires Inv(s) && QueueOk(Step(s, e)) && i < |Step(s, e).tickets| && (e.WriteFails? || e.Sync?)
    ensures WaitingOk(Step(s, e), i)
  {
    hide EncodeCommand, EncodeLog, DurableOk;
    assert WaitingOk(s, i);
  }

  /** Recording a failure settles every promise of the queue. */
  lemma WaitingRejected(s: Writer, i: nat)
    requires Inv(s) && QueueOk(Step(s, RecordFailure)) && i < |Step(s, RecordFailure).tickets|
    ensures WaitingOk(Step(s, RecordFailure), i)
  {
    hide EncodeCommand, EncodeLog, DurableOk, FileOk;
    assert WaitingOk(s, i);
  }

  lemma WaitingAppended(s: Writer, c: Command, i: nat)
    requires Inv(s) && QueueOk(Step(s, Append(c))) && i < |Step(s, Append(c)).tickets|
    ensures WaitingOk(Step(s, Append(c)), i)
  {
    hide EncodeCommand, EncodeLog, DurableOk, FileOk;
    if i < |s.accepted| { assert WaitingOk(s, i); }
  }

  lemma WaitingKept(s: Writer, e: Event, i: nat)
    requires Inv(s) && QueueOk(Step(s, e)) && i < |Step(s, e).tickets|
    ensures WaitingOk(Step(s, e), i)
  {
    hide EncodeCommand, EncodeLog, DurableOk, FileOk;
    match e
    case Append(c) => WaitingAppended(s, c, i);
    case WriteFails => WaitingSettled(s, e, i);
    case Sync(_) => WaitingSettled(s, e, i);
    case RecordFailure => WaitingRejected(s, i);
    case _ => assert WaitingOk(s, i);
  }

  /** Between records the file is exactly the log of the popped commands. */
  lemma WholeFile(s: Writer)
    requires Inv(s) && s.phase != Writing && s.phase != Failing && !s.failed
    ensures s.file == s.base + EncodeLog(s.accepted[..s.taken])
  {
    hide EncodeCommand;
    var n := s.taken;
    if n > 0 {
      assert s.accepted[..n] == s.accepted[..n - 1] + [s.accepted[n - 1]];
      EncodeLogSnoc(s.accepted[..n - 1], s.accepted[n - 1]);
      assert s.record.data[..s.offset] == s.record.data;
      var log := EncodeLog(s.accepted[..n - 1]);
      assert s.base + log + s.record.data == s.base + (log + s.record.data);
    }
  }

  lemma InvKept(s: Writer, e: Event)
    requires Inv(s)
    ensures Inv(Step(s, e))
  {
    hide EncodeCommand, EncodeLog, FileOk, DurableOk, WaitingOk;
    QueueKept(s, e);
    FileKept(s, e);
    FileGrows(s, e);
    forall i | 0 <= i < |Step(s, e).tickets| ensures DurableOk(Step(s, e), i) && WaitingOk(Step(s, e), i) {
      DurableKept(s, e, i);
      WaitingKept(s, e, i);
    }
  }

  /** The invariant holds in every run. */
  lemma {:induction false} RunInv(policy: FsyncPolicy, base: string, synced: nat, events: seq<Event>)
    requires synced <= |base|
    ensures Inv(Run(Open(policy, base, synced), events))
    ensures Run(Open(policy, base, synced), events).base == base
    ensures Run(Open(policy, base, synced), events).policy == policy
    ensures synced <= Run(Open(policy, base, synced), events).synced
  {
    hide EncodeCommand, EncodeLog, Step;
    if events != [] {
      RunInv(policy, base, synced, events[..|events| - 1]);
      var s := Run(Open(policy, base, synced), events[..|events| - 1]);
      InvKept(s, events[|events| - 1]);
      FileGrows(s, events[|events| - 1]);
    }
  }

  // ---------------------------------------------------------------- theorems

  /** The file is always a prefix of the log of the old commands and the popped ones, and holds all
      but at most the last popped record whole. */
  lemma FileIsLogPrefix(s: Writer, old_: seq<Command>)
    requires Inv(s) && s.base == EncodeLog(old_)
    ensures s.file <= EncodeLog(old_ + s.accepted[..s.taken])
    ensures s.taken > 0 ==> EncodeLog(old_ + s.accepted[..s.taken - 1]) <= s.file
  {
    hide EncodeCommand, EncodeLog, DurableOk, WaitingOk;
    var n := s.taken;
    EncodeLogAppend(old_, s.accepted[..n]);
    if n == 0 {
      assert s.accepted[..0] == [] && old_ + [] == old_;
    } else {
      var whole, data := EncodeLog(s.accepted[..n - 1]), s.record.data;
      EncodeLogAppend(old_, s.accepted[..n - 1]);
      assert s.accepted[..n] == s.accepted[..n - 1] + [s.accepted[n - 1]];
      EncodeLogSnoc(s.accepted[..n - 1], s.accepted[n - 1]);
      assert data == data[..s.offset] + data[s.offset..];
      assert s.base + (whole + data) == s.file + data[s.offset..];
    }
  }

  lemma EncodeLogGrows(a: seq<Command>, i: nat, j: nat)
    requires i <= j <= |a|
    ensures |EncodeLog(a[..i])| <= |EncodeLog(a[..j])|
  {
    hide EncodeCommand;
    assert a[..j] == a[..i] + a[i..j];
    EncodeLogAppend(a[..i], a[i..j]);
  }

  /** Crash recovery. In every run of the writer on a file holding the log of `old_`, whatever prefix
      of the file at least as long as the last sync survives a crash, replay calls back the first `j`
      of the old and accepted commands for some `j`, without meeting a corrupt frame, and that covers
      every command whose Append returned normally under `always`, all the old ones if they were safe when
      the writer was opened, and every other one whose record ends within the prefix. */
  lemma CrashRecovery(p: Parser, policy: FsyncPolicy, old_: seq<Command>, synced: nat, events: seq<Event>, k: nat)
    returns (j: nat)
    requires synced <= |EncodeLog(old_)|
    requires var s := Run(Open(policy, EncodeLog(old_), synced), events);
             && s.synced <= k <= |s.file|
             && AllLoggable(p, old_ + s.accepted)
    ensures var s := Run(Open(policy, EncodeLog(old_), synced), events);
            var f := ReadFrames(p, s.file[..k]);
            && j <= |old_| + |s.accepted| && |s.tickets| == |s.accepted|
            && f.commands == (old_ + s.accepted)[..j]
            && f.consumed == |EncodeLog((old_ + s.accepted)[..j])|
            && !f.ending.Corrupt?
            && (synced == |EncodeLog(old_)| ==> |old_| <= j)
            && (forall n :: 0 <= n <= s.taken <= |s.accepted| && |EncodeLog(old_ + s.accepted[..n])| <= k ==>
                  |old_| + n <= j)
            && forall i :: 0 <= i < |s.tickets| && s.tickets[i] == Durable ==> |old_| + i < j
  {
    hide EncodeCommand, EncodeLog, ReadFrames, Inv, AllLoggable, WholeBefore;
    RunInv(policy, EncodeLog(old_), synced, events);
    var s := Run(Open(policy, EncodeLog(old_), synced), events);
    hide Run;
    j := ReplaysKept(p, s, old_, k);
    CoversSynced(s, old_, k, j);
    CoversDurable(s, old_, k, j);
    if synced == |EncodeLog(old_)| {
      OldIsBefore(old_, s.accepted[..s.taken], k, j);
    }
  }

  /** Replay of a kept prefix of the file calls back the commands wholly before its end. */
  lemma ReplaysKept(p: Parser, s: Writer, old_: seq<Command>, k: nat) returns (j: nat)
    requires Inv(s) && s.base == EncodeLog(old_) && k <= |s.file| && AllLoggable(p, old_ + s.accepted)
    ensures s.taken <= |s.accepted| == |s.tickets| && WholeBefore(old_ + s.accepted[..s.taken], k, j)
    ensures var f := ReadFrames(p, s.file[..k]);
            && j <= |old_| + |s.accepted| && f.commands == (old_ + s.accepted)[..j]
            && f.consumed == |EncodeLog((old_ + s.accepted)[..j])| && !f.ending.Corrupt?
  {
    hide EncodeCommand, EncodeLog, ReadFrames, FileOk, WaitingOk, Loggable;
    var all := old_ + s.accepted[..s.taken];
    FileIsLogPrefix(s, old_);
    j := CountWholeBefore(all, k);
    assert all == (old_ + s.accepted)[..|old_| + s.taken];
    assert forall c :: c in all ==> c in old_ + s.accepted;
    CutAnywhere(p, all, k, j);
    assert s.file[..k] == EncodeLog(all)[..k];
    assert all[..j] == (old_ + s.accepted)[..j];
  }

  /** Every record that ends within the kept prefix is among those read whole. */
  lemma CoversSynced(s: Writer, old_: seq<Command>, k: nat, j: nat)
    requires s.taken <= |s.accepted| && WholeBefore(old_ + s.accepted[..s.taken], k, j)
    ensures forall n :: 0 <= n <= s.taken && |EncodeLog(old_ + s.accepted[..n])| <= k ==> |old_| + n <= j
  {
    hide EncodeCommand, EncodeLog, WholeBefore;
    forall n | 0 <= n <= s.taken && |EncodeLog(old_ + s.accepted[..n])| <= k ensures |old_| + n <= j {
      assert old_ + s.accepted[..s.taken] == (old_ + s.accepted[..n]) + s.accepted[n..s.taken];
      OldIsBefore(old_ + s.accepted[..n], s.accepted[n..s.taken], k, j);
    }
  }

  /** So is every command whose Append was acknowledged. */
  lemma CoversDurable(s: Writer, old_: seq<Command>, k: nat, j: nat)
    requires Inv(s) && s.base == EncodeLog(old_) && s.synced <= k
    requires WholeBefore(old_ + s.accepted[..s.taken], k, j)
    ensures forall i :: 0 <= i < |s.tickets| && s.tickets[i] == Durable ==> |old_| + i < j
  {
    hide EncodeCommand, EncodeLog, WholeBefore, FileOk, WaitingOk;
    forall i | 0 <= i < |s.tickets| && s.tickets[i] == Durable ensures |old_| + i < j {
      assert DurableOk(s, i);
      assert s.accepted[..s.taken][..i + 1] == s.accepted[..i + 1];
      DurableIsBefore(old_, s.accepted[..s.taken], i, k, j);
    }
  }

  lemma OldIsBefore(old_: seq<Command>, popped: seq<Command>, k: nat, j: nat)
    requires |EncodeLog(old_)| <= k && WholeBefore(old_ + popped, k, j)
    ensures |old_| <= j
  {
    hide EncodeCommand, EncodeLog;
    var all := old_ + popped;
    if j < |old_| {
      assert all[..|old_|] == old_;
      EncodeLogGrows(all, j + 1, |old_|);
    }
  }

  /** Commands that end within the kept prefix are among those read whole. */
  lemma DurableIsBefore(old_: seq<Command>, popped: seq<Command>, i: nat, k: nat, j: nat)
    requires i < |popped| && |EncodeLog(old_)| + |EncodeLog(popped[..i + 1])| <= k && WholeBefore(old_ + popped, k, j)
    ensures |old_| + i < j
  {
    hide EncodeCommand, EncodeLog;
    var all := old_ + popped;
    if |old_| + i >= j {
      EncodeLogAppend(old_, popped[..i + 1]);
      assert all[..|old_| + i + 1] == old_ + popped[..i + 1];
      EncodeLogGrows(all, j + 1, |old_| + i + 1);
    }
  }

  /** Closing drains the queue: when the worker is gone no caller is left waiting, and unless a
      failure was recorded the file holds every accepted command whole. */
  lemma CloseDrains(policy: FsyncPolicy, base: string, synced: nat, events: seq<Event>)
    requires synced <= |base| && Run(Open(policy, base, synced), events).phase == Stopped
    ensures var s := Run(Open(policy, base, synced), events);
            && Waiting !in s.tickets
            && (!s.failed ==> s.file == base + EncodeLog(s.accepted))
  {
    RunInv(policy, base, synced, events);
    var s := Run(Open(policy, base, synced), events);
    hide Run;
    forall i | 0 <= i < |s.tickets| ensures s.tickets[i] != Waiting {
      assert WaitingOk(s, i);
    }
    if !s.failed {
      WholeFile(s);
      assert s.accepted[..s.taken] == s.accepted;
    }
  }

  lemma FailedStep(s: Writer, e: Event)
    requires Inv(s) && s.failed
    ensures var t := Step(s, e);
            t.failed && t.file == s.file && t.accepted == s.accepted && t.tickets == s.tickets
  {
    hide EncodeCommand, EncodeLog, FileOk;
    forall i | 0 <= i < |s.tickets| ensures RejectAll(s.tickets, s.taken)[i] == s.tickets[i] {
      assert WaitingOk(s, i);
    }
  }

  /** A recorded failure is permanent: nothing is accepted, written or promised any more. */
  lemma {:induction false} FailurePermanent(s: Writer, events: seq<Event>)
    requires Inv(s) && s.failed
    ensures var t := Run(s, events);
            Inv(t) && t.failed && t.file == s.file && t.accepted == s.accepted && t.tickets == s.tickets
  {
    hide Inv, Step;
    if events != [] {
      var n := |events| - 1;
      FailurePermanent(s, events[..n]);
      InvKept(Run(s, events[..n]), events[n]);
      FailedStep(Run(s, events[..n]), events[n]);
    }
  }

  // ---------------------------------------------------------------- progress

  lemma {:induction false} RunAppend(s: Writer, a: seq<Event>, b: seq<Event>)
    ensures Run(s, a + b) == Run(Run(s, a), b)
  {
    hide Step;
    if b == [] {
      assert a + b == a;
    } else {
      assert (a + b)[..|a + b| - 1] == a + b[..|b| - 1];
      RunAppend(s, a, b[..|b| - 1]);
    }
  }

  lemma RunOne(s: Writer, e: Event)
    ensures Run(s, [e]) == Step(s, e)
  {
    hide Step;
    assert [e][..0] == [];
  }

  function Total(counts: seq<nat>): nat {
    if counts == [] then 0 else counts[0] + Total(counts[1..])
  }

  function Writes(counts: seq<nat>): (r: seq<Event>) {
    if counts == [] then [] else [Write(counts[0])] + Writes(counts[1..])
  }

  /** However a record is split into full or short writes, they put the rest of it into the file. */
  lemma {:induction false} ShortWrites(s: Writer, counts: seq<nat>)
    requires s.phase == Writing && s.offset + Total(counts) == |s.record.data|
    ensures Run(s, Writes(counts)) == s.(file := s.file + s.record.data[s.offset..], offset := |s.record.data|)
    decreases |counts|
  {
    hide Step;
    if counts == [] {
      assert s.record.data[s.offset..] == "" && s.file + "" == s.file;
    } else {
      var t := OneWrite(s, counts[0]);
      RunOne(s, Write(counts[0]));
      RunAppend(s, [Write(counts[0])], Writes(counts[1..]));
      hide Run;
      ShortWrites(t, counts[1..]);
    }
  }

  lemma OneWrite(s: Writer, count: nat) returns (t: Writer)
    requires s.phase == Writing && s.offset + count <= |s.record.data|
    ensures t == Step(s, Write(count)) == s.(file := t.file, offset := s.offset + count)
    ensures t.file + s.record.data[t.offset..] == s.file + s.record.data[s.offset..]
  {
    t := Step(s, Write(count));
    var data, k := s.record.data, s.offset;
    assert data[k..k + count] + data[k + count..] == data[k..];
    assert t.file == s.file + data[k..k + count];
  }

  /** After the last write: under `always` the sync, then the timer's turn. */
  function Settling(policy: FsyncPolicy): seq<Event> {
    [Written] + (if policy == Always then [Sync(true)] else []) + [TimerSync(false, true)]
  }

  function RecordSchedule(policy: FsyncPolicy, counts: seq<nat>): seq<Event> {
    [Take] + Writes(counts) + Settling(policy)
  }

  lemma SettlingRuns(s: Writer)
    requires s.phase == Writing && s.offset == |s.record.data|
    ensures var t := Run(s, Settling(s.policy));
            t == if s.policy == Always
                 then s.(dirty := false, synced := |s.file|, tickets := Settle(s, Durable), phase := Ready)
                 else s.(dirty := true, phase := Ready)
  {
    var a := Step(s, Written);
    RunOne(s, Written);
    if s.policy == Always {
      var b := Step(a, Sync(true));
      RunAppend(s, [Written], [Sync(true)]);
      RunOne(a, Sync(true));
      RunAppend(s, [Written] + [Sync(true)], [TimerSync(false, true)]);
      RunOne(b, TimerSync(false, true));
    } else {
      assert [Written] + [] == [Written];
      RunAppend(s, [Written], [TimerSync(false, true)]);
      RunOne(a, TimerSync(false, true));
    }
  }

  /** The worker is never stuck: from any state in which it waits on a non-empty queue, system calls that
      do not fail, however the record is split into writes and whatever the policy, put the next record
      whole into the file; under `always` they make it survive a crash and release its caller. */
  lemma NextRecordCompletes(s: Writer, counts: seq<nat>)
    requires Inv(s) && s.phase == Ready && s.queue != [] && Total(counts) == |s.queue[0].data|
    ensures s.taken < |s.accepted| == |s.tickets|
    ensures var t := Run(s, RecordSchedule(s.policy, counts));
            && Inv(t) && t.phase == Ready && t.queue == s.queue[1..] && t.taken == s.taken + 1
            && t.policy == s.policy && !t.failed
            && t.accepted == s.accepted && t.file == s.file + EncodeCommand(s.accepted[s.taken])
            && t.synced == (if s.policy == Always then |t.file| else s.synced)
            && t.tickets == (if s.policy == Always then s.tickets[s.taken := Durable] else s.tickets)
  {
    hide EncodeCommand, EncodeLog, FileOk, Run;
    assert WaitingOk(s, s.taken);
    var a := Step(s, Take);
    RunOne(s, Take);
    RunAppend(s, [Take], Writes(counts));
    ShortWrites(a, counts);
    var b := Run(a, Writes(counts));
    assert a.record == Record(EncodeCommand(s.accepted[s.taken]), s.taken);
    assert a.record.data[0..] == a.record.data;
    RunAppend(s, [Take] + Writes(counts), Settling(s.policy));
    SettlingRuns(b);
    InvRuns(s, RecordSchedule(s.policy, counts));
  }

  lemma {:induction false} InvRuns(s: Writer, events: seq<Event>)
    requires Inv(s)
    ensures Inv(Run(s, events))
  {
    hide Inv, Step;
    if events != [] {
      InvRuns(s, events[..|events| - 1]);
      InvKept(Run(s, events[..|events| - 1]), events[|events| - 1]);
    }
  }

  /** One split per queued record. */
  ghost predicate Splits(queue: seq<Record>, splits: seq<seq<nat>>) {
    |splits| == |queue| && forall i :: 0 <= i < |queue| ==> Total(splits[i]) == |queue[i].data|
  }

  function DrainSchedule(policy: FsyncPolicy, splits: seq<seq<nat>>): seq<Event> {
    if splits == [] then [] else RecordSchedule(policy, splits[0]) + DrainSchedule(policy, splits[1..])
  }

  /** So the whole queue gets through: for every way of splitting its records into writes, the file ends up
      with all of them in order, and under `always` every one of them is acknowledged and synced. */
  lemma {:induction false} QueueCompletes(s: Writer, splits: seq<seq<nat>>)
    requires Inv(s) && s.phase == Ready && !s.failed && Splits(s.queue, splits)
    ensures s.taken <= |s.accepted| == |s.tickets|
    ensures var t := Run(s, DrainSchedule(s.policy, splits));
            && Inv(t) && t.phase == Ready && t.queue == [] && t.taken == |t.accepted| && t.accepted == s.accepted
            && !t.failed
            && t.file == s.file + EncodeLog(s.accepted[s.taken..]) && |t.tickets| == |s.tickets|
            && (s.policy == Always && (s.queue != [] || s.synced == |s.file|) ==> t.synced == |t.file|)
            && (s.policy == Always ==> forall i :: s.taken <= i < |t.tickets| ==> t.tickets[i] == Durable)
            && (forall i :: 0 <= i < s.taken ==> t.tickets[i] == s.tickets[i])
    decreases |splits|
  {
    hide EncodeCommand, EncodeLog, FileOk, DurableOk, WaitingOk, Step, Run, RecordSchedule;
    if splits == [] {
      DrainedAlready(s);
    } else {
      NextRecordCompletes(s, splits[0]);
      var t := Run(s, RecordSchedule(s.policy, splits[0]));
      RunAppend(s, RecordSchedule(s.policy, splits[0]), DrainSchedule(s.policy, splits[1..]));
      QueueCompletes(t, splits[1..]);
      var c := s.accepted[s.taken];
      assert s.accepted[s.taken..] == [c] + s.accepted[s.taken + 1..];
      EncodeLogAppend([c], s.accepted[s.taken + 1..]);
      OneCommand(c);
      assert s.file + EncodeCommand(c) + EncodeLog(s.accepted[s.taken + 1..]) ==
             s.file + EncodeLog(s.accepted[s.taken..]);
    }
  }

  lemma DrainedAlready(s: Writer)
    requires QueueOk(s) && !s.failed && s.queue == []
    ensures Run(s, []) == s && s.taken == |s.accepted| && s.file + EncodeLog(s.accepted[s.taken..]) == s.file
  {
    assert s.accepted[s.taken..] == [];
  }

  lemma OneCommand(c: Command)
    ensures EncodeLog([c]) == EncodeCommand(c)
  {
    hide EncodeCommand;
    assert [c][1..] == [];
  }
}

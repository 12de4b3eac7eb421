/** Shutdown of a connection: once begun, it is carried out as soon as nothing is left to write. */
module GracefulClose {
  import opened Connection
  import opened Delivery

  predicate AnyShuttingDown(senders: seq<Sender>) {
    exists i :: 0 <= i < |senders| && senders[i].ShuttingDown?
  }

  /** A shutdown that has begun is done, or somebody is still going to see to it: the thread that began it,
      a queued task, or the loop when the buffer is written out. */
  ghost predicate ShutOk(c: Conn) {
    c.status == Disconnecting ==>
      c.shut || AnyShuttingDown(c.senders) || ShutdownTask in c.tasks || c.writing || c.work.Flushed?
  }

  // ---------------------------------------------------------------- every step keeps it

  lemma OthersShuttingDown(senders: seq<Sender>, i: nat, s: Sender)
    requires i < |senders| && AnyShuttingDown(senders) && (senders[i].ShuttingDown? ==> s.ShuttingDown?)
    ensures AnyShuttingDown(senders[i := s])
  {
    var j :| 0 <= j < |senders| && senders[j].ShuttingDown?;
    assert senders[i := s][j].ShuttingDown?;
  }

  /** A sender that is not shutting down moves on inside its call. */
  lemma MoveShut(c: Conn, i: nat, s: Sender, pending: int)
    requires ShutOk(c) && i < |c.senders| && !c.senders[i].ShuttingDown?
    ensures ShutOk(Become(c, i, s).(pending := pending))
  {
    if AnyShuttingDown(c.senders) { OthersShuttingDown(c.senders, i, s); }
  }

  lemma HandOverShut(c: Conn, i: nat, t: Task)
    requires Inv(c) && ShutOk(c) && i < |c.senders| && !c.senders[i].Idle?
    requires c.senders[i].ShuttingDown? ==> t == ShutdownTask
    ensures ShutOk(HandOver(c, i, t))
  {
    hide BudgetOk, StreamOk, WorkOk;
    if i > 0 { assert (c.tasks + [t])[|c.tasks|] == t; }
    if AnyShuttingDown(c.senders) && !c.senders[i].ShuttingDown? { OthersShuttingDown(c.senders, i, Idle); }
  }

  lemma AdvanceShut(c: Conn, i: nat, spurious: bool)
    requires Inv(c) && ShutOk(c) && i < |c.senders|
    ensures ShutOk(AdvanceSender(c, i, spurious))
  {
    hide Inv, ShutOk, HandOver;
    match c.senders[i]
    case Idle =>
    case Checked(m) => MoveShut(c, i, Loaded(m, c.pending), c.pending);
    case Loaded(m, seen) =>
      if |m| > c.limit || seen > c.limit - |m| { MoveShut(c, i, Refused, c.pending); }
      else if seen == c.pending && !spurious { MoveShut(c, i, Reserved(m), c.pending + |m|); }
      else { MoveShut(c, i, Loaded(m, c.pending), c.pending); }
    case Reserved(m) => HandOverShut(c, i, SendTask(m));
    case Refused => HandOverShut(c, i, CloseTask);
    case ShuttingDown => HandOverShut(c, i, ShutdownTask);
  }

  lemma TaskShut(c: Conn)
    requires ShutOk(c) && LoopFree(c) && c.tasks != []
    ensures ShutOk(Step(c, RunTask))
  {
    if ShutdownTask in c.tasks && c.tasks[0] != ShutdownTask {
      var j :| 0 <= j < |c.tasks| && c.tasks[j] == ShutdownTask;
      assert c.tasks[1..][j - 1] == ShutdownTask;
    }
  }

  lemma CallShut(c: Conn, i: nat, s: Sender, status: Status)
    requires ShutOk(c) && CanCall(c, i) && c.status == Connected
    requires status == Connected || (status == Disconnecting && s.ShuttingDown?)
    ensures ShutOk(Become(c, i, s).(status := status))
  {
    assert c.senders[i := s][i] == s;
  }

  lemma ShutKept(c: Conn, e: Event)
    requires Inv(c) && ShutOk(c)
    ensures ShutOk(Step(c, e))
  {
    match e
    case Send(i, m) => if CanCall(c, i) && c.status == Connected { CallShut(c, i, Checked(m), Connected); }
    case Shutdown(i) => if CanCall(c, i) && c.status == Connected { CallShut(c, i, ShuttingDown, Disconnecting); }
    case Advance(i, spurious) => if i < |c.senders| { AdvanceShut(c, i, spurious); }
    case RunTask => if LoopFree(c) && c.tasks != [] { TaskShut(c); }
    case Continue(io) => WorkShut(c, io);
    case _ => hide AdvanceSender, WorkStep, BudgetOk, StreamOk, AnyShuttingDown;
  }

  lemma WorkShut(c: Conn, io: Io)
    requires Inv(c) && ShutOk(c)
    ensures ShutOk(WorkStep(c, io))
  {
    hide BudgetOk, AnyShuttingDown;
  }

  lemma {:induction false} RunShut(limit: nat, threads: nat, events: seq<Event>)
    ensures ShutOk(Run(Start(limit, threads), events))
  {
    hide Step, ShutOk, Inv;
    if events == [] {
      StartShut(limit, threads);
    } else {
      var n := |events| - 1;
      RunShut(limit, threads, events[..n]);
      RunInv(limit, threads, events[..n]);
      ShutKept(Run(Start(limit, threads), events[..n]), events[n]);
    }
  }

  lemma StartShut(limit: nat, threads: nat)
    ensures ShutOk(Start(limit, threads))
  {
  }

  /** In every run a connection that is shutting down, with the loop at rest, no thread inside Shutdown, no
      shutdown queued and nothing being written, has its write side shut down. */
  lemma ShutWhenQuiet(limit: nat, threads: nat, events: seq<Event>)
    ensures var c := Run(Start(limit, threads), events);
            (c.status == Disconnecting && c.work.Resting? && !AnyShuttingDown(c.senders) &&
             ShutdownTask !in c.tasks && !c.writing) ==> c.shut
  {
    RunShut(limit, threads, events);
  }

  // ---------------------------------------------------------------- it can always be carried out

  /** Nothing asks the loop to close the connection. */
  predicate NoClose(c: Conn) {
    && !Leaving(c.work) && !HasClose(c.tasks)
    && (|c.senders| > 0 ==> Quiet(c.senders[0]))
  }

  function WorkRank(w: Work): nat {
    match w
    case Resting => 0
    case Flushed => 1
    case Cleared(_) => 1
    case Wrote(_) => 2
    case ToClose => 2
    case ToBuffer(_) => 3
    case Dropping(_, _) => 3
    case Sent(_, _) => 4
    case Sending(_) => 5
    case ToSend(_) => 6
  }

  function SenderRank(s: Sender, pending: int): nat {
    match s
    case Idle => 0
    case Checked(_) => 4
    case Loaded(_, seen) => if seen == pending then 2 else 3
    case _ => 1
  }

  /** The connection is where a shutdown that was begun can lead. */
  predicate Ended(c: Conn) {
    c.shut || c.status == Disconnected
  }

  ghost predicate Begun(c: Conn) {
    Inv(c) && ShutOk(c) && |c.senders| > 0 && (c.status == Disconnecting || c.status == Disconnected)
  }

  /** One step of the loop in its work comes nearer to its end, and closes nothing on its own. */
  lemma WorkFalls(c: Conn)
    requires WorkOk(c) && !c.work.Resting?
    ensures var d := WorkStep(c, Took(0));
            && WorkRank(d.work) < WorkRank(c.work) && d.tasks == c.tasks && d.senders == c.senders
            && (d.status == c.status || d.status == Disconnected)
            && (!Leaving(c.work) ==> !Leaving(d.work) && d.status == c.status)
  {
  }

  lemma WorkOn(c: Conn)
    requires Begun(c) && !c.work.Resting?
    ensures var d := Step(c, Continue(Took(0)));
            && Begun(d) && WorkRank(d.work) < WorkRank(c.work) && d.tasks == c.tasks && d.senders == c.senders
            && SenderRank(d.senders[0], d.pending) == SenderRank(c.senders[0], c.pending)
            && (NoClose(c) && c.status == Disconnecting ==> NoClose(d) && d.status == Disconnecting)
  {
    InvKept(c, Continue(Took(0)));
    ShutKept(c, Continue(Took(0)));
    WorkFalls(c);
    hide BudgetOk, StreamOk, WorkOk, ShutOk, HasClose, WorkStep, WorkRank, Leaving;
  }

  /** One step of the loop thread inside Send or Shutdown. */
  lemma SenderFalls(c: Conn)
    requires c.work.Resting? && |c.senders| > 0 && !c.senders[0].Idle?
    ensures var d := AdvanceSender(c, 0, false);
            && d.tasks == c.tasks && |d.senders| == |c.senders| && d.status == c.status
            && SenderRank(d.senders[0], d.pending) < SenderRank(c.senders[0], c.pending)
            && (c.senders[0].ShuttingDown? ==> d.senders[0].Idle? && d.work == c.work)
  {
  }

  lemma SendOn(c: Conn)
    requires Begun(c) && c.work.Resting? && !c.senders[0].Idle?
    ensures var d := Step(c, Advance(0, false));
            && Begun(d) && d.tasks == c.tasks && |d.senders| == |c.senders|
            && SenderRank(d.senders[0], d.pending) < SenderRank(c.senders[0], c.pending)
            && (NoClose(c) && c.status == Disconnecting ==> NoClose(d) && d.status == Disconnecting)
  {
    InvKept(c, Advance(0, false));
    ShutKept(c, Advance(0, false));
    SenderFalls(c);
    hide Inv, ShutOk, HasClose, AdvanceSender, SenderRank;
  }

  lemma TaskOn(c: Conn)
    requires Begun(c) && LoopFree(c) && c.tasks != []
    ensures var d := Step(c, RunTask);
            && Begun(d) && |d.tasks| < |c.tasks|
            && (NoClose(c) && c.status == Disconnecting ==> NoClose(d) && d.status == Disconnecting)
  {
    InvKept(c, RunTask);
    ShutKept(c, RunTask);
    HasCloseTail(c.tasks);
    hide Inv, ShutOk, HasClose;
  }

  /** The loop comes to rest with an empty queue. */
  lemma {:induction false} ComesToRest(c: Conn) returns (events: seq<Event>)
    requires Begun(c) && |c.senders| > 0
    ensures var d := Run(c, events);
            && Begun(d) && LoopFree(d) && d.tasks == []
            && (NoClose(c) && c.status == Disconnecting ==> NoClose(d) && d.status == Disconnecting)
    decreases |c.tasks|, SenderRank(c.senders[0], c.pending), WorkRank(c.work)
  {
    hide Inv, ShutOk, NoClose, Step, SenderRank, WorkRank;
    var e: Event;
    if !c.work.Resting? {
      e := Continue(Took(0));
      WorkOn(c);
    } else if !c.senders[0].Idle? {
      e := Advance(0, false);
      SendOn(c);
    } else if c.tasks != [] {
      e := RunTask;
      TaskOn(c);
    } else {
      RunNothing(c);
      return [];
    }
    var rest := ComesToRest(Step(c, e));
    events := [e] + rest;
    RunAppend(c, [e], rest);
    RunThen(c, [], e, c);
    assert [] + [e] == [e];
  }

  /** The loop writes out its buffer and then shuts down the write side. */
  lemma WritesOut(c: Conn) returns (events: seq<Event>)
    requires Begun(c) && LoopFree(c) && c.status == Disconnecting && (c.writing || c.shut)
    ensures Run(c, events).shut && Run(c, events).status == Disconnecting
  {
    hide ShutOk, Step, Run;
    if c.shut {
      RunNothing(c);
      events := [];
    } else {
      BufferFlushes(c);
      var a, b := Writable(Took(|c.output|)), Continue(WouldBlock);
      events := [a, b, b];
      RunNothing(c);
      RunThen(c, [], a, c);
      assert [] + [a] == [a];
      RunThen(c, [a], b, Step(c, a));
      assert [a] + [b] == [a, b];
      RunThen(c, [a, b], b, Step(Step(c, a), b));
      assert [a, b] + [b] == [a, b, b];
    }
  }

  /** The thread that began the shutdown hands it over, and the loop takes it. */
  lemma TakesShutdown(c: Conn, i: nat)
    requires Begun(c) && LoopFree(c) && c.tasks == [] && c.status == Disconnecting
    requires i < |c.senders| && c.senders[i].ShuttingDown?
    ensures var d := Step(Step(c, Advance(i, false)), RunTask);
            Begun(d) && LoopFree(d) && d.status == Disconnecting && (d.writing || d.shut)
  {
    var b := Step(c, Advance(i, false));
    InvKept(c, Advance(i, false));
    ShutKept(c, Advance(i, false));
    InvKept(b, RunTask);
    ShutKept(b, RunTask);
    hide Inv, ShutOk;
    assert b.tasks == [ShutdownTask];
  }

  /** A shutdown that has begun, by whichever thread, can always be carried out: whatever is queued,
      buffered or under way, the loop can bring the connection to a shut write side, unless something
      before it closes the connection altogether. */
  lemma ShutdownCompletes(c: Conn) returns (events: seq<Event>)
    requires Begun(c)
    ensures Ended(Run(c, events))
    ensures NoClose(c) && c.status == Disconnecting ==> Run(c, events).shut && Run(c, events).status == Disconnecting
  {
    var first := ComesToRest(c);
    var d := Run(c, first);
    hide Step, Run, NoClose;
    if d.status == Disconnected {
      events := first;
    } else if d.writing || d.shut {
      var last := WritesOut(d);
      events := first + last;
      RunAppend(c, first, last);
    } else {
      assert ShutOk(d);
      var i :| 0 <= i < |d.senders| && d.senders[i].ShuttingDown?;
      TakesShutdown(d, i);
      var middle := [Advance(i, false), RunTask];
      var m := Step(d, Advance(i, false));
      RunNothing(d);
      RunThen(d, [], Advance(i, false), d);
      assert [] + [Advance(i, false)] == [Advance(i, false)];
      RunThen(d, [Advance(i, false)], RunTask, m);
      assert [Advance(i, false)] + [RunTask] == middle;
      var last := WritesOut(Run(d, middle));
      RunAppend(d, middle, last);
      RunAppend(c, first, middle + last);
      events := first + (middle + last);
    }
  }

  // ---------------------------------------------------------------- closing

  /** A peer that hung up, a failed write and a failed send all make the loop close the connection, and
      destroying it takes it down. */
  lemma BrokenLeaves(c: Conn)
    ensures LoopFree(c) ==> Step(c, Destroy).status == Disconnected
    ensures LoopFree(c) ==> Leaving(Step(c, Hangup).work)
    ensures LoopFree(c) && c.writing ==> Leaving(Step(c, Writable(Broken)).work)
    ensures c.work.Sending? && !c.writing && c.output == "" ==> Leaving(Step(c, Continue(Broken)).work)
  {
  }

  /** A loop on its way to closing does so: the connection is down, its buffer dropped and the dropped bytes
      returned to the budget. */
  lemma LeavingCloses(c: Conn, io: Io)
    requires Inv(c) && Leaving(c.work) && c.status != Disconnected
    ensures var b := if c.work.Dropping? then Step(c, Continue(io)) else c;
            var d := Step(Step(b, Continue(io)), Continue(io));
            && d.status == Disconnected && d.output == "" && !d.writing && d.work.Resting?
            && d.pending == ReservedBytes(c.senders) + QueuedBytes(c.tasks)
            && d.senders == c.senders && d.tasks == c.tasks
  {
    hide ReservedBytes, QueuedBytes, StreamOk;
  }

  /** A connection that is down stays down: nothing more reaches the socket. */
  lemma {:induction false} DownIsFinal(c: Conn, events: seq<Event>)
    requires Inv(c) && c.status == Disconnected
    ensures var d := Run(c, events);
            Inv(d) && d.status == Disconnected && d.socket == c.socket && d.handled == c.handled
  {
    hide Inv, Step;
    if events != [] {
      var n := |events| - 1;
      DownIsFinal(c, events[..n]);
      var d := Run(c, events[..n]);
      InvKept(d, events[n]);
      DownStep(d, events[n]);
    }
  }

  lemma DownStep(c: Conn, e: Event)
    requires Inv(c) && c.status == Disconnected
    ensures var d := Step(c, e); d.status == Disconnected && d.socket == c.socket && d.handled == c.handled
  {
    hide BudgetOk;
  }
}

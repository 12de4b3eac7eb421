/** Messages on their way through a connection: what is handled, in the loop's hands, queued and held by
    the sender inside Send. As long as workers call Send one at a time, this is what was sent, in order. */
module Delivery {
  import opened Connection

  function Concat(messages: seq<string>): string {
    if messages == [] then "" else Concat(messages[..|messages| - 1]) + messages[|messages| - 1]
  }

  lemma ConcatSnoc(messages: seq<string>, m: string)
    ensures Concat(messages + [m]) == Concat(messages) + m
  {
    assert (messages + [m])[..|messages|] == messages;
  }

  // ---------------------------------------------------------------- messages on their way

  /** The queued messages the loop gets to before a request to close. */
  function Until(tasks: seq<Task>): string {
    if tasks == [] || tasks[0].CloseTask? then ""
    else (if tasks[0].SendTask? then tasks[0].message else "") + Until(tasks[1..])
  }

  predicate HasClose(tasks: seq<Task>) {
    exists i :: 0 <= i < |tasks| && tasks[i].CloseTask?
  }

  lemma {:induction false} UntilSnoc(tasks: seq<Task>, t: Task)
    ensures Until(tasks + [t]) == Until(tasks) + if HasClose(tasks) || !t.SendTask? then "" else t.message
    ensures HasClose(tasks + [t]) <==> HasClose(tasks) || t.CloseTask?
  {
    if tasks == [] {
      assert [] + [t] == [t] && [t][1..] == [] && [t][0] == t;
    } else {
      assert (tasks + [t])[1..] == tasks[1..] + [t] && (tasks + [t])[0] == tasks[0];
      UntilSnoc(tasks[1..], t);
      HasCloseTail(tasks);
      HasCloseTail(tasks + [t]);
      hide HasClose;
    }
  }

  lemma HasCloseTail(tasks: seq<Task>)
    requires tasks != []
    ensures HasClose(tasks) <==> tasks[0].CloseTask? || HasClose(tasks[1..])
  {
    if HasClose(tasks) && !tasks[0].CloseTask? {
      var i :| 0 <= i < |tasks| && tasks[i].CloseTask?;
      assert tasks[1..][i - 1].CloseTask?;
    }
    if HasClose(tasks[1..]) {
      var i :| 0 <= i < |tasks[1..]| && tasks[1..][i].CloseTask?;
      assert tasks[i + 1].CloseTask?;
    }
  }

  /** The message a sender still holds. */
  function Held(s: Sender): string {
    if s.Checked? || s.Loaded? || s.Reserved? then s.message else ""
  }

  function AllHeld(senders: seq<Sender>): string {
    if senders == [] then "" else Held(senders[0]) + AllHeld(senders[1..])
  }

  /** At most one sender is inside Send. */
  ghost predicate OneBusy(senders: seq<Sender>) {
    forall i, j :: 0 <= i < j < |senders| ==> Quiet(senders[i]) || Quiet(senders[j])
  }

  predicate Quiet(s: Sender) {
    s.Idle? || s.ShuttingDown?
  }

  predicate AnyRefused(senders: seq<Sender>) {
    exists i :: 0 <= i < |senders| && senders[i].Refused?
  }

  lemma {:induction false} QuietHeld(senders: seq<Sender>)
    requires forall i :: 0 <= i < |senders| ==> Quiet(senders[i])
    ensures AllHeld(senders) == ""
  {
    if senders != [] { QuietHeld(senders[1..]); }
  }

  /** The only busy sender's message is all that senders hold. */
  lemma {:induction false} BusyHeld(senders: seq<Sender>, i: nat)
    requires i < |senders| && forall j :: 0 <= j < |senders| && j != i ==> Quiet(senders[j])
    ensures AllHeld(senders) == Held(senders[i])
  {
    if i == 0 {
      QuietHeld(senders[1..]);
    } else {
      BusyHeld(senders[1..], i - 1);
    }
  }

  /** The message the loop has taken up and not yet handled. */
  function TakenUp(w: Work): string {
    if w.ToSend? || w.Sending? then w.message else ""
  }

  /** The loop is on its way to closing the connection. */
  predicate Leaving(w: Work) {
    w.ToClose? || (w.Dropping? && w.close)
  }

  /** Something sent will not be delivered: the connection is about to close. */
  predicate Blocked(c: Conn) {
    Leaving(c.work) || HasClose(c.tasks) || AnyRefused(c.senders)
  }

  /** What has been handled and what is still going to be, if nothing breaks. */
  function Pipe(c: Conn): string {
    if Leaving(c.work) then c.handled
    else c.handled + TakenUp(c.work) + Until(c.tasks) + if HasClose(c.tasks) then "" else AllHeld(c.senders)
  }

  /** While the connection is up, what was sent is in the pipe, all of it unless the connection is about to
      close. */
  ghost predicate PipeOk(c: Conn, sent: seq<string>) {
    && Inv(c) && OneBusy(c.senders) && |c.senders| > 0
    && (c.senders[0].Idle? || c.senders[0].ShuttingDown?)
    && (c.status != Disconnected ==> Pipe(c) <= Concat(sent) && (!Blocked(c) ==> Pipe(c) == Concat(sent)))
  }

  // ---------------------------------------------------------------- every step keeps it

  /** A sender that holds on to what it holds. */
  lemma {:induction false} HeldSame(senders: seq<Sender>, i: nat, s: Sender)
    requires i < |senders| && Held(s) == Held(senders[i])
    ensures AllHeld(senders[i := s]) == AllHeld(senders)
  {
    if i > 0 {
      assert senders[i := s][1..] == senders[1..][i - 1 := s];
      HeldSame(senders[1..], i - 1, s);
    } else {
      assert senders[i := s][1..] == senders[1..];
    }
  }

  /** A step of the connection that neither closes it nor touches what is on its way. */
  lemma PipeSame(c: Conn, d: Conn, sent: seq<string>)
    requires PipeOk(c, sent) && Inv(d) && OneBusy(d.senders) && |d.senders| > 0 && Quiet(d.senders[0])
    requires d.status != Disconnected ==> c.status != Disconnected
    requires d.handled == c.handled && d.tasks == c.tasks && AllHeld(d.senders) == AllHeld(c.senders)
    requires TakenUp(d.work) == TakenUp(c.work) && Leaving(d.work) == Leaving(c.work)
    requires AnyRefused(d.senders) <==> AnyRefused(c.senders)
    ensures PipeOk(d, sent)
  {
    hide Inv, OneBusy, Concat, Until, AllHeld, TakenUp, HasClose, AnyRefused;
  }

  /** The only busy sender moves on inside its call. */
  lemma BusyMoves(c: Conn, d: Conn, i: nat, s: Sender, sent: seq<string>)
    requires PipeOk(c, sent) && 0 < i < |c.senders| && !Quiet(c.senders[i]) && !c.senders[i].Refused?
    requires !s.Refused? && Held(s) == Held(c.senders[i]) && d == Become(c, i, s).(pending := d.pending) && Inv(d)
    ensures PipeOk(d, sent)
  {
    hide Inv, Concat, Until, TakenUp, HasClose;
    HeldSame(c.senders, i, s);
    assert OneBusy(d.senders);
    PipeSame(c, d, sent);
  }

  /** A refused sender gives up its message; the connection is going to close. */
  lemma BusyRefused(c: Conn, i: nat, sent: seq<string>)
    requires PipeOk(c, sent) && 0 < i < |c.senders| && c.senders[i].Loaded? && Inv(Become(c, i, Refused))
    ensures PipeOk(Become(c, i, Refused), sent)
  {
    hide Inv, Concat, Until, TakenUp, HasClose, AllHeld;
    var d := Become(c, i, Refused);
    BusyHeld(c.senders, i);
    BusyHeld(d.senders, i);
    assert d.senders[i].Refused?;
    assert OneBusy(d.senders);
    assert Pipe(d) <= Pipe(c);
  }

  /** A message, or a request to close, goes into the queue. */
  lemma BusyQueues(c: Conn, i: nat, t: Task, sent: seq<string>)
    requires PipeOk(c, sent) && 0 < i < |c.senders| && Inv(HandOver(c, i, t))
    requires if t.SendTask? then c.senders[i] == Reserved(t.message) else t.CloseTask? && c.senders[i].Refused?
    ensures PipeOk(HandOver(c, i, t), sent)
  {
    hide Inv, Concat, Until, TakenUp, HasClose, AllHeld;
    var d := HandOver(c, i, t);
    BusyHeld(c.senders, i);
    QuietHeld(d.senders);
    UntilSnoc(c.tasks, t);
    assert OneBusy(d.senders);
    var h, u := c.handled + TakenUp(c.work), Until(c.tasks);
    if t.SendTask? { assert h + (u + t.message) == h + u + t.message; }
    assert h + u + "" == h + u;
    assert Pipe(d) == Pipe(c);
  }

  /** A shutdown request joins the queue. */
  lemma ShutdownQueued(c: Conn, i: nat, sent: seq<string>)
    requires PipeOk(c, sent) && 0 < i < |c.senders| && c.senders[i].ShuttingDown?
    requires Inv(HandOver(c, i, ShutdownTask))
    ensures PipeOk(HandOver(c, i, ShutdownTask), sent)
  {
    hide Inv, Concat, Until, TakenUp, HasClose, AllHeld;
    var d := HandOver(c, i, ShutdownTask);
    HeldSame(c.senders, i, Idle);
    UntilSnoc(c.tasks, ShutdownTask);
    assert Until(c.tasks) + "" == Until(c.tasks);
    assert OneBusy(d.senders);
    RefusedSame(c.senders, i, Idle);
  }

  lemma RefusedSame(senders: seq<Sender>, i: nat, s: Sender)
    requires i < |senders| && !senders[i].Refused? && !s.Refused?
    ensures AnyRefused(senders[i := s]) <==> AnyRefused(senders)
  {
    if AnyRefused(senders) {
      var j :| 0 <= j < |senders| && senders[j].Refused?;
      assert senders[i := s][j].Refused?;
    }
    if AnyRefused(senders[i := s]) {
      var j :| 0 <= j < |senders| && senders[i := s][j].Refused?;
      assert senders[j].Refused?;
    }
  }

  lemma AdvancePipe(c: Conn, i: nat, spurious: bool, sent: seq<string>)
    requires PipeOk(c, sent) && i < |c.senders|
    ensures PipeOk(AdvanceSender(c, i, spurious), sent)
  {
    AdvanceInv(c, i, spurious);
    hide Inv, PipeOk, OneBusy, Concat, HandOver;
    var d := AdvanceSender(c, i, spurious);
    match c.senders[i]
    case Idle =>
    case Refused => LoopQuiet(c, sent); BusyQueues(c, i, CloseTask, sent);
    case Reserved(m) => LoopQuiet(c, sent); BusyQueues(c, i, SendTask(m), sent);
    case ShuttingDown => if i > 0 { ShutdownQueued(c, i, sent); } else { LoopShutsDown(c, sent); }
    case Checked(m) => LoopQuiet(c, sent); BusyMoves(c, d, i, d.senders[i], sent);
    case Loaded(m, seen) =>
      LoopQuiet(c, sent);
      if d.senders[i].Refused? { BusyRefused(c, i, sent); } else { BusyMoves(c, d, i, d.senders[i], sent); }
  }

  lemma LoopQuiet(c: Conn, sent: seq<string>)
    requires PipeOk(c, sent)
    ensures |c.senders| > 0 && Quiet(c.senders[0])
  {
  }

  lemma LoopShutsDown(c: Conn, sent: seq<string>)
    requires PipeOk(c, sent) && c.senders[0].ShuttingDown? && Inv(HandOver(c, 0, ShutdownTask))
    ensures PipeOk(HandOver(c, 0, ShutdownTask), sent)
  {
    hide Concat, Until, HasClose, AllHeld, BudgetOk, StreamOk, WorkOk;
    HeldSame(c.senders, 0, Idle);
    RefusedSame(c.senders, 0, Idle);
    PipeSame(c, HandOver(c, 0, ShutdownTask), sent);
  }

  // ---------------------------------------------------------------- the loop's steps

  lemma TaskPipe(c: Conn, sent: seq<string>)
    requires PipeOk(c, sent) && LoopFree(c) && c.tasks != [] && Inv(Step(c, RunTask))
    ensures PipeOk(Step(c, RunTask), sent)
  {
    hide Inv, OneBusy, Concat, HasClose, AllHeld, AnyRefused;
    var d, t := Step(c, RunTask), c.tasks[0];
    HasCloseTail(c.tasks);
    var h, u := c.handled, Until(c.tasks[1..]);
    if t.SendTask? {
      assert h + "" + (t.message + u) == h + t.message + u;
    } else if t.ShutdownTask? {
      assert "" + u == u;
    }
  }

  /** The loop gives up: it keeps what is handled and drops the rest. */
  lemma LeavingPipe(c: Conn, d: Conn, sent: seq<string>)
    requires PipeOk(c, sent) && Inv(d) && d == c.(work := d.work) && Leaving(d.work)
    ensures PipeOk(d, sent)
  {
    hide Inv, OneBusy, Concat, HasClose, AllHeld, AnyRefused, Until;
    var h, u := c.handled, Until(c.tasks);
    if !Leaving(c.work) {
      assert h <= h + TakenUp(c.work) + u + if HasClose(c.tasks) then "" else AllHeld(c.senders);
    }
  }

  lemma HandledPipe(c: Conn, io: Io, sent: seq<string>)
    requires PipeOk(c, sent) && c.work.Sending? && Inv(SendStep(c, c.work.message, io))
    ensures PipeOk(SendStep(c, c.work.message, io), sent)
  {
    hide Inv, OneBusy, Concat, HasClose, AllHeld, AnyRefused, Until;
    var d, m := SendStep(c, c.work.message, io), c.work.message;
    if d.work.Dropping? {
      LeavingPipe(c, d, sent);
    } else {
      assert c.handled + m + "" == c.handled + m;
      assert Pipe(d) == Pipe(c);
    }
  }

  /** Nothing is promised of a connection that is down. */
  lemma DownPipe(c: Conn, d: Conn, sent: seq<string>)
    requires PipeOk(c, sent) && Inv(d) && d.senders == c.senders && d.status == Disconnected
    ensures PipeOk(d, sent)
  {
    hide Inv, OneBusy, Pipe, Blocked, Concat;
  }

  /** Past the send call the loop's steps leave what is on its way alone, unless they find or bring the
      connection down. */
  lemma WorkFrame(c: Conn, io: Io)
    requires !c.work.Sending?
    ensures var d := WorkStep(c, io);
            && d.handled == c.handled && d.tasks == c.tasks && d.senders == c.senders
            && (d.status != Disconnected ==>
                  && c.status != Disconnected && TakenUp(d.work) == TakenUp(c.work)
                  && Leaving(d.work) == Leaving(c.work))
  {
  }

  lemma WorkPipe(c: Conn, io: Io, sent: seq<string>)
    requires PipeOk(c, sent)
    ensures PipeOk(WorkStep(c, io), sent)
  {
    WorkStepInv(c, io);
    if c.work.Sending? {
      HandledPipe(c, io, sent);
    } else {
      WorkFrame(c, io);
      var d := WorkStep(c, io);
      hide Inv, AllHeld, AnyRefused, WorkStep, Pipe, Blocked, Concat;
      assert OneBusy(d.senders);
      if d.status == Disconnected { DownPipe(c, d, sent); } else { PipeSame(c, d, sent); }
    }
  }

  /** Every step but a Send keeps the pipe. */
  lemma PipeKept(c: Conn, e: Event, sent: seq<string>)
    requires PipeOk(c, sent) && !e.Send?
    ensures PipeOk(Step(c, e), sent)
  {
    InvKept(c, e);
    var d := Step(c, e);
    hide Inv, Concat, HasClose, AllHeld, AnyRefused, Until, AdvanceSender, WorkStep, WriteStep;
    match e
    case Shutdown(i) =>
      if CanCall(c, i) && c.status == Connected {
        HeldSame(c.senders, i, ShuttingDown);
        RefusedSame(c.senders, i, ShuttingDown);
        PipeSame(c, d, sent);
      }
    case Advance(i, spurious) => if i < |c.senders| { AdvancePipe(c, i, spurious, sent); }
    case RunTask => if LoopFree(c) && c.tasks != [] { TaskPipe(c, sent); }
    case Writable(io) => if LoopFree(c) { WritePipe(c, io, sent); }
    case Hangup => if LoopFree(c) { LeavingPipe(c, d, sent); }
    case Continue(io) => WorkPipe(c, io, sent);
    case _ =>
  }

  lemma WritePipe(c: Conn, io: Io, sent: seq<string>)
    requires PipeOk(c, sent) && LoopFree(c) && Inv(WriteStep(c, io))
    ensures PipeOk(WriteStep(c, io), sent)
  {
    hide Inv, OneBusy, Concat, HasClose, AllHeld, AnyRefused, Until;
    if WriteStep(c, io).work.ToClose? { LeavingPipe(c, WriteStep(c, io), sent); }
  }

  /** The first step of a Send that begins when no other is under way. */
  lemma SenderEnters(c: Conn, i: nat, m: string, sent: seq<string>)
    requires PipeOk(c, sent) && 0 < i < |c.senders|
    requires forall j :: 0 <= j < |c.senders| ==> Quiet(c.senders[j])
    ensures var s := c.senders[i := Checked(m)];
            OneBusy(s) && AllHeld(s) == m && AllHeld(c.senders) == "" && !AnyRefused(s) && !AnyRefused(c.senders)
  {
    hide Inv, AllHeld, Pipe, Blocked, Concat;
    QuietHeld(c.senders);
    BusyHeld(c.senders[i := Checked(m)], i);
  }

  /** A Send that begins when no other is under way puts its message at the end of the pipe. */
  lemma PipeGrows(c: Conn, i: nat, m: string, sent: seq<string>)
    requires PipeOk(c, sent) && i > 0 && CanCall(c, i) && c.status == Connected
    requires forall j :: 0 <= j < |c.senders| ==> Quiet(c.senders[j])
    ensures PipeOk(Step(c, Send(i, m)), sent + [m])
  {
    InvKept(c, Send(i, m));
    assert Step(c, Send(i, m)) == Become(c, i, Checked(m));
    SenderEnters(c, i, m, sent);
    hide Step;
    PipeLonger(c, Become(c, i, Checked(m)), m, sent);
  }

  lemma PipeLonger(c: Conn, d: Conn, m: string, sent: seq<string>)
    requires PipeOk(c, sent) && c.status == Connected && Inv(d) && d == c.(senders := d.senders)
    requires OneBusy(d.senders) && |d.senders| > 0 && Quiet(d.senders[0]) && AllHeld(d.senders) == m
    requires AllHeld(c.senders) == "" && !AnyRefused(c.senders) && !AnyRefused(d.senders)
    ensures PipeOk(d, sent + [m])
  {
    ConcatSnoc(sent, m);
    hide Inv, Concat, HasClose, AllHeld, Until, OneBusy, AnyRefused, TakenUp;
    var h := c.handled + TakenUp(c.work) + Until(c.tasks);
    assert h + "" == h;
    assert Pipe(d) == if Blocked(c) then Pipe(c) else Pipe(c) + m;
  }

  // ---------------------------------------------------------------- sends of the loop itself

  /** The reply to a protocol error is sent by the event loop, which handles its own messages at once: on
      an idle connection it goes to the socket before every reply whose Send has returned and whose
      message is still queued. So replies keep their order only among the workers' Sends. */
  lemma LoopSendOvertakes(c: Conn, m: string)
    requires Inv(c) && LoopFree(c) && c.status == Connected && !c.writing && c.pending + |m| <= c.limit
    ensures var a := Step(Step(Step(Step(c, Send(0, m)), Advance(0, false)), Advance(0, false)), Advance(0, false));
            var d := Step(Step(a, Continue(Took(|m|))), Continue(Took(|m|)));
            d.socket == c.socket + m && d.tasks == c.tasks && d.status == Connected
  {
    var a := Step(c, Send(0, m));
    var b := Step(a, Advance(0, false));
    assert b == Become(c, 0, Loaded(m, c.pending));
    var d := Step(b, Advance(0, false));
    assert d == Become(c, 0, Reserved(m)).(pending := c.pending + |m|);
    var e := Step(d, Advance(0, false));
    assert e == c.(pending := c.pending + |m|, work := ToSend(m)) by { assert e.senders == c.senders; }
    LoopSends(e, m);
  }

  lemma LoopSends(c: Conn, m: string)
    requires c.work == ToSend(m) && c.status == Connected && !c.writing && c.output == ""
    ensures var d := Step(Step(c, Continue(Took(|m|))), Continue(Took(|m|)));
            d.socket == c.socket + m && d.tasks == c.tasks && d.status == Connected
  {
    assert Step(c, Continue(Took(|m|))) == c.(work := Sending(m));
    assert m[..|m|] == m;
  }
}

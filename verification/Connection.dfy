/** The output side of a connection: sender threads reserve bytes from a shared budget with a
    compare-exchange loop and hand messages to the event loop, which sends what the socket takes and
    buffers the rest. A step is one access to the shared status or budget, or one system call; every
    interleaving of senders and loop is a sequence of events. Line numbers are those of
    src/net/tcp_connection.cpp. */
module Connection {

  datatype Status = Connecting | Connected | Disconnecting | Disconnected

  /** A task queued for the event loop. */
  datatype Task = SendTask(message: string) | CloseTask | ShutdownTask

  /** A thread inside Send or Shutdown: past the connected check; holding the budget value it read
      last; owning a reservation; refused one; having begun the shutdown. */
  datatype Sender =
    | Idle | Checked(message: string) | Loaded(message: string, seen: int)
    | Reserved(message: string) | Refused | ShuttingDown

  /** Where the loop thread is inside SendInLoop, HandleWrite or HandleClose. */
  datatype Work =
    | Resting
    | ToSend(message: string)                 // line 153: about to load the status
    | Sending(message: string)                // lines 158-159
    | Sent(message: string, count: nat)       // line 162: about to release what the socket took
    | ToBuffer(rest: string)                  // lines 172-175
    | Dropping(message: string, close: bool)  // lines 154 and 166
    | ToClose                                 // line 116: about to exchange the status
    | Cleared(bytes: nat)                     // line 121: about to release the dropped buffer
    | Wrote(count: nat)                       // line 102
    | Flushed                                 // line 106: about to load the status

  /** What a send or write call did. */
  datatype Io = Took(count: nat) | WouldBlock | Broken

  /** `pending` is the budget counter, `socket` the bytes the socket has accepted and `handled` the
      messages SendInLoop has taken on, concatenated. Sender 0 is the event-loop thread itself. */
  datatype Conn = Conn(
    status: Status, limit: nat, pending: int, output: string, writing: bool, shut: bool,
    tasks: seq<Task>, senders: seq<Sender>, work: Work, socket: string, handled: string)

  datatype Event =
    | Establish | Destroy           // lines 61-75
    | Send(i: nat, message: string) // line 36
    | Shutdown(i: nat)              // lines 48-54
    | Advance(i: nat, spurious: bool) // the rest of Send and Shutdown
    | RunTask                       // the loop starts the next queued task
    | Writable(io: Io)              // lines 97-111, up to the write
    | Hangup                        // HandleClose from a read event
    | Continue(io: Io)              // the loop's next step in what it is doing

  function Start(limit: nat, threads: nat): Conn {
    Conn(Connecting, limit, 0, "", false, false, [], seq(threads, _ => Idle), Resting, "", "")
  }

  function Min(a: nat, b: nat): nat {
    if a <= b then a else b
  }

  // ---------------------------------------------------------------- the loop thread

  /** The loop starts a task. */
  function Begin(c: Conn, t: Task): Conn {
    match t
    case SendTask(message) => c.(work := ToSend(message))
    case CloseTask => c.(work := ToClose)
    case ShutdownTask => if c.writing then c else c.(shut := true)
  }

  /** The send call on an idle connection, or no call at all when earlier bytes are still buffered. */
  function SendStep(c: Conn, message: string, io: Io): Conn {
    if c.writing || c.output != "" then c.(handled := c.handled + message, work := ToBuffer(message))
    else
      match io
      case Took(n) =>
        var k := Min(n, |message|);
        c.(handled := c.handled + message, socket := c.socket + message[..k], work := Sent(message, k))
      case WouldBlock => c.(handled := c.handled + message, work := ToBuffer(message))
      case Broken => c.(work := Dropping(message, true))
  }

  /** Appending the unsent rest of a message to the output buffer. */
  function Buffered(c: Conn, rest: string): Conn {
    if rest == "" then c.(work := Resting) else c.(output := c.output + rest, writing := true, work := Resting)
  }

  function WorkStep(c: Conn, io: Io): Conn {
    match c.work
    case Resting => c
    case ToSend(m) => c.(work := if c.status == Disconnected then Dropping(m, false) else Sending(m))
    case Sending(m) => SendStep(c, m, io)
    case Sent(m, k) => c.(pending := c.pending - k, work := ToBuffer(if k <= |m| then m[k..] else ""))
    case ToBuffer(rest) => Buffered(c, rest)
    case Dropping(m, close) => c.(pending := c.pending - |m|, work := if close then ToClose else Resting)
    case ToClose =>
      if c.status == Disconnected then c.(work := Resting)
      else c.(status := Disconnected, writing := false, output := "", work := Cleared(|c.output|))
    case Cleared(n) => c.(pending := c.pending - n, work := Resting)
    case Wrote(k) =>
      var d := c.(pending := c.pending - k);
      if c.output == "" then d.(writing := false, work := Flushed) else d.(work := Resting)
    case Flushed => c.(shut := c.shut || (c.status == Disconnecting && !c.writing), work := Resting)
  }

  function WriteStep(c: Conn, io: Io): Conn {
    if !c.writing then c
    else
      match io
      case Took(n) =>
        var k := Min(n, |c.output|);
        if k == 0 then c else c.(socket := c.socket + c.output[..k], output := c.output[k..], work := Wrote(k))
      case WouldBlock => c
      case Broken => c.(work := ToClose)
  }

  // ---------------------------------------------------------------- senders

  function Become(c: Conn, i: nat, s: Sender): Conn
    requires i < |c.senders|
  {
    c.(senders := c.senders[i := s])
  }

  /** Handing a task to the loop: begun at once on the loop thread, queued from any other. */
  function HandOver(c: Conn, i: nat, t: Task): Conn
    requires i < |c.senders|
  {
    if i == 0 then Begin(Become(c, i, Idle), t) else Become(c, i, Idle).(tasks := c.tasks + [t])
  }

  function AdvanceSender(c: Conn, i: nat, spurious: bool): Conn
    requires i < |c.senders|
  {
    match c.senders[i]
    case Idle => c
    case Checked(m) => Become(c, i, Loaded(m, c.pending))
    case Loaded(m, seen) =>
      if |m| > c.limit || seen > c.limit - |m| then Become(c, i, Refused)
      else if seen == c.pending && !spurious then Become(c, i, Reserved(m)).(pending := c.pending + |m|)
      else Become(c, i, Loaded(m, c.pending))
    case Reserved(m) => HandOver(c, i, SendTask(m))
    case Refused => HandOver(c, i, CloseTask)
    case ShuttingDown => HandOver(c, i, ShutdownTask)
  }

  /** The loop thread can start its next piece of work. */
  predicate LoopFree(c: Conn) {
    |c.senders| > 0 && c.senders[0].Idle? && c.work.Resting?
  }

  /** Thread `i` is between two calls: the loop thread also has to be done with its work. */
  predicate CanCall(c: Conn, i: nat) {
    i < |c.senders| && c.senders[i].Idle? && (i == 0 ==> c.work.Resting?)
  }

  /** The effect of an event; an event that cannot happen in `c` leaves it unchanged. */
  function Step(c: Conn, e: Event): Conn {
    match e
    case Establish => if LoopFree(c) && c.status == Connecting then c.(status := Connected) else c
    case Destroy =>
      if LoopFree(c) && c.status != Disconnected then c.(status := Disconnected, writing := false) else c
    case Send(i, m) => if CanCall(c, i) && c.status == Connected then Become(c, i, Checked(m)) else c
    case Shutdown(i) =>
      if CanCall(c, i) && c.status == Connected then Become(c, i, ShuttingDown).(status := Disconnecting) else c
    case Advance(i, spurious) => if i < |c.senders| then AdvanceSender(c, i, spurious) else c
    case RunTask => if LoopFree(c) && c.tasks != [] then Begin(c.(tasks := c.tasks[1..]), c.tasks[0]) else c
    case Writable(io) => if LoopFree(c) then WriteStep(c, io) else c
    case Hangup => if LoopFree(c) then c.(work := ToClose) else c
    case Continue(io) => WorkStep(c, io)
  }

  function Run(c: Conn, events: seq<Event>): Conn {
    if events == [] then c else Step(Run(c, events[..|events| - 1]), events[|events| - 1])
  }

  // ---------------------------------------------------------------- the invariant

  function SenderBytes(s: Sender): nat {
    if s.Reserved? then |s.message| else 0
  }

  function TaskBytes(t: Task): nat {
    if t.SendTask? then |t.message| else 0
  }

  /** Reserved bytes in the loop's hands that are not released and not in the buffer. */
  function WorkBytes(w: Work): nat {
    match w
    case ToSend(m) => |m|
    case Sending(m) => |m|
    case Sent(m, _) => |m|
    case ToBuffer(rest) => |rest|
    case Dropping(m, _) => |m|
    case Cleared(n) => n
    case Wrote(k) => k
    case _ => 0
  }

  /** Bytes of a message being handled that are on their way from the loop's hands to the buffer. */
  function InHand(w: Work): string {
    match w
    case Sent(m, k) => if k <= |m| then m[k..] else ""
    case ToBuffer(rest) => rest
    case _ => ""
  }

  function ReservedBytes(senders: seq<Sender>): nat {
    if senders == [] then 0 else SenderBytes(senders[0]) + ReservedBytes(senders[1..])
  }

  function QueuedBytes(tasks: seq<Task>): nat {
    if tasks == [] then 0 else TaskBytes(tasks[0]) + QueuedBytes(tasks[1..])
  }

  lemma {:induction false} ReservedUpdate(senders: seq<Sender>, i: nat, s: Sender)
    requires i < |senders|
    ensures ReservedBytes(senders[i := s]) == ReservedBytes(senders) - SenderBytes(senders[i]) + SenderBytes(s)
    ensures SenderBytes(senders[i]) <= ReservedBytes(senders)
  {
    if i > 0 {
      assert senders[i := s][1..] == senders[1..][i - 1 := s];
      ReservedUpdate(senders[1..], i - 1, s);
    } else {
      assert senders[i := s][1..] == senders[1..];
    }
  }

  lemma {:induction false} QueuedSnoc(tasks: seq<Task>, t: Task)
    ensures QueuedBytes(tasks + [t]) == QueuedBytes(tasks) + TaskBytes(t)
  {
    if tasks == [] {
      assert [t][1..] == [];
    } else {
      assert (tasks + [t])[1..] == tasks[1..] + [t];
      QueuedSnoc(tasks[1..], t);
    }
  }

  lemma QueuedPop(tasks: seq<Task>)
    requires tasks != []
    ensures QueuedBytes(tasks) == TaskBytes(tasks[0]) + QueuedBytes(tasks[1..])
  {
  }

  ghost predicate BudgetOk(c: Conn) {
    && c.pending == ReservedBytes(c.senders) + QueuedBytes(c.tasks) + |c.output| + WorkBytes(c.work)
    && c.pending <= c.limit
  }

  ghost predicate StreamOk(c: Conn) {
    && (c.writing ==> c.status != Disconnected)
    && (c.status != Disconnected ==>
          && c.socket + c.output + InHand(c.work) == c.handled
          && (c.output != "" ==> c.writing)
          && (c.writing && c.output == "" ==> c.work.Wrote?))
  }

  /** What the loop's position tells about the connection; only the loop thread disconnects it. */
  ghost predicate WorkOk(c: Conn) {
    match c.work
    case Sending(_) => c.status != Disconnected
    case Sent(m, k) => c.status != Disconnected && k <= |m|
    case ToBuffer(_) => c.status != Disconnected
    case Dropping(_, close) => close ==> c.status != Disconnected
    case Cleared(_) => c.status == Disconnected && c.output == ""
    case Wrote(_) => c.status != Disconnected && c.writing
    case Flushed => c.status != Disconnected && !c.writing
    case _ => true
  }

  /** The loop thread is either inside a sender's call or inside the loop's own work. */
  ghost predicate Inv(c: Conn) {
    BudgetOk(c) && StreamOk(c) && WorkOk(c) && (!c.work.Resting? ==> |c.senders| > 0 && c.senders[0].Idle?)
  }

  // ---------------------------------------------------------------- every step keeps it

  lemma SendStepInv(c: Conn, io: Io)
    requires Inv(c) && c.work.Sending?
    ensures Inv(SendStep(c, c.work.message, io))
  {
    hide ReservedBytes, QueuedBytes;
    var m := c.work.message;
    assert c.socket + c.output + "" == c.socket + c.output;
    if io.Took? && !c.writing && c.output == "" {
      var k := Min(io.count, |m|);
      assert m == m[..k] + m[k..];
      assert c.socket + m[..k] + "" + m[k..] == c.socket + "" + m;
    }
  }

  lemma BufferedInv(c: Conn)
    requires Inv(c) && c.work.ToBuffer?
    ensures Inv(Buffered(c, c.work.rest))
  {
    hide ReservedBytes, QueuedBytes;
    assert c.socket + c.output + c.work.rest == c.socket + (c.output + c.work.rest) + "";
  }

  /** Steps that give reserved bytes back. */
  lemma ReleaseInv(c: Conn, io: Io)
    requires Inv(c) && (c.work.Sent? || c.work.Dropping? || c.work.Cleared?)
    ensures Inv(WorkStep(c, io))
  {
    hide ReservedBytes, QueuedBytes, SendStep, Buffered;
    match c.work
    case Sent(m, k) => assert InHand(c.work) == InHand(WorkStep(c, io).work) == m[k..];
    case Dropping(m, close) => assert InHand(c.work) == InHand(WorkStep(c, io).work) == "";
    case Cleared(n) =>
  }

  lemma WroteInv(c: Conn, io: Io)
    requires Inv(c) && (c.work.Wrote? || c.work.Flushed?)
    ensures Inv(WorkStep(c, io))
  {
    hide ReservedBytes, QueuedBytes, SendStep, Buffered;
    assert InHand(c.work) == InHand(WorkStep(c, io).work) == "";
  }

  lemma StatusStepInv(c: Conn, io: Io)
    requires Inv(c) && (c.work.ToSend? || c.work.ToClose?)
    ensures Inv(WorkStep(c, io))
  {
    hide ReservedBytes, QueuedBytes, SendStep, Buffered;
    assert InHand(c.work) == InHand(WorkStep(c, io).work) == "";
  }

  lemma WorkStepInv(c: Conn, io: Io)
    requires Inv(c)
    ensures Inv(WorkStep(c, io))
  {
    hide Inv, SendStep, Buffered;
    match c.work
    case Resting =>
    case Sending(_) => SendStepInv(c, io);
    case ToBuffer(_) => BufferedInv(c);
    case ToSend(_) => StatusStepInv(c, io);
    case ToClose => StatusStepInv(c, io);
    case Wrote(_) => WroteInv(c, io);
    case Flushed => WroteInv(c, io);
    case _ => ReleaseInv(c, io);
  }

  lemma WriteStepInv(c: Conn, io: Io)
    requires Inv(c) && LoopFree(c)
    ensures Inv(WriteStep(c, io))
  {
    hide ReservedBytes, QueuedBytes;
    if c.writing && io.Took? {
      var k := Min(io.count, |c.output|);
      assert c.output == c.output[..k] + c.output[k..];
      assert c.socket + c.output[..k] + c.output[k..] + "" == c.socket + c.output + "";
    }
  }

  lemma HandOverInv(c: Conn, i: nat, t: Task)
    requires Inv(c) && i < |c.senders| && !c.senders[i].Idle? && SenderBytes(c.senders[i]) == TaskBytes(t)
    ensures Inv(HandOver(c, i, t))
  {
    hide ReservedBytes, QueuedBytes;
    ReservedUpdate(c.senders, i, Idle);
    if i > 0 { QueuedSnoc(c.tasks, t); }
  }

  lemma MoveInv(c: Conn, i: nat, s: Sender)
    requires Inv(c) && i < |c.senders| && !c.senders[i].Idle? && !s.Idle?
    requires SenderBytes(c.senders[i]) == 0 == SenderBytes(s)
    ensures Inv(Become(c, i, s))
  {
    hide ReservedBytes, QueuedBytes, WorkBytes, InHand;
    ReservedUpdate(c.senders, i, s);
  }

  lemma ReserveInv(c: Conn, i: nat, message: string)
    requires Inv(c) && i < |c.senders| && c.senders[i].Loaded? && c.pending + |message| <= c.limit
    ensures Inv(Become(c, i, Reserved(message)).(pending := c.pending + |message|))
  {
    hide ReservedBytes, QueuedBytes, WorkBytes, InHand;
    ReservedUpdate(c.senders, i, Reserved(message));
  }

  lemma AdvanceInv(c: Conn, i: nat, spurious: bool)
    requires Inv(c) && i < |c.senders|
    ensures Inv(AdvanceSender(c, i, spurious))
  {
    hide Inv, HandOver, Become;
    match c.senders[i]
    case Idle =>
    case Checked(m) => MoveInv(c, i, Loaded(m, c.pending));
    case Loaded(m, seen) =>
      if |m| > c.limit || seen > c.limit - |m| { MoveInv(c, i, Refused); }
      else if seen == c.pending && !spurious { ReserveInv(c, i, m); }
      else { MoveInv(c, i, Loaded(m, c.pending)); }
    case Reserved(m) => HandOverInv(c, i, SendTask(m));
    case Refused => HandOverInv(c, i, CloseTask);
    case ShuttingDown => HandOverInv(c, i, ShutdownTask);
  }

  lemma CallInv(c: Conn, i: nat, s: Sender, status: Status)
    requires Inv(c) && CanCall(c, i) && c.status == Connected && (status == Connected || status == Disconnecting)
    requires SenderBytes(s) == 0
    ensures Inv(Become(c, i, s).(status := status))
  {
    hide ReservedBytes, QueuedBytes;
    ReservedUpdate(c.senders, i, s);
  }

  lemma InvKept(c: Conn, e: Event)
    requires Inv(c)
    ensures Inv(Step(c, e))
  {
    hide ReservedBytes, QueuedBytes, AdvanceSender, WorkStep, WriteStep;
    match e
    case Send(i, m) => if CanCall(c, i) && c.status == Connected { CallInv(c, i, Checked(m), Connected); }
    case Shutdown(i) => if CanCall(c, i) && c.status == Connected { CallInv(c, i, ShuttingDown, Disconnecting); }
    case Advance(i, spurious) => if i < |c.senders| { AdvanceInv(c, i, spurious); }
    case RunTask => if LoopFree(c) && c.tasks != [] { QueuedPop(c.tasks); }
    case Writable(io) => if LoopFree(c) { WriteStepInv(c, io); }
    case Continue(io) => WorkStepInv(c, io);
    case _ =>
  }

  lemma {:induction false} NothingReserved(threads: nat)
    ensures ReservedBytes(seq(threads, _ => Idle)) == 0
  {
    if threads > 0 {
      NothingReserved(threads - 1);
      assert seq(threads, _ => Idle)[1..] == seq(threads - 1, _ => Idle);
    }
  }

  lemma {:induction false} RunInv(limit: nat, threads: nat, events: seq<Event>)
    ensures Inv(Run(Start(limit, threads), events))
    ensures Run(Start(limit, threads), events).limit == limit
  {
    hide Step, Inv;
    if events == [] {
      StartInv(limit, threads);
    } else {
      RunInv(limit, threads, events[..|events| - 1]);
      InvKept(Run(Start(limit, threads), events[..|events| - 1]), events[|events| - 1]);
      LimitKept(Run(Start(limit, threads), events[..|events| - 1]), events[|events| - 1]);
    }
  }

  lemma StartInv(limit: nat, threads: nat)
    ensures Inv(Start(limit, threads))
  {
    NothingReserved(threads);
  }

  lemma LimitKept(c: Conn, e: Event)
    ensures Step(c, e).limit == c.limit
  {
  }

  // ---------------------------------------------------------------- theorems

  /** Conservation of the output budget: in every interleaving the counter is the bytes of messages
      reserved and not yet handled, plus the bytes buffered, plus those in the loop's hands between a
      system call and the matching release; so it never underflows, and it never exceeds the limit. */
  lemma BudgetConserved(limit: nat, threads: nat, events: seq<Event>)
    ensures var c := Run(Start(limit, threads), events);
            && c.pending == ReservedBytes(c.senders) + QueuedBytes(c.tasks) + |c.output| + WorkBytes(c.work)
            && 0 <= c.pending <= limit
  {
    hide Run;
    RunInv(limit, threads, events);
  }

  /** No byte is lost, repeated or reordered while the connection is up: what the socket accepted,
      followed by what is buffered and what the loop is about to buffer, is the messages handled, in
      order. */
  lemma OutputInOrder(limit: nat, threads: nat, events: seq<Event>)
    ensures var c := Run(Start(limit, threads), events);
            c.status != Disconnected ==> c.socket + c.output + InHand(c.work) == c.handled
  {
    hide Run;
    RunInv(limit, threads, events);
  }

  /** The write side is shut down only once every handled message is with the socket. */
  lemma ShutdownAfterFlush(limit: nat, threads: nat, events: seq<Event>, e: Event)
    requires var c := Run(Start(limit, threads), events);
             !c.shut && Step(c, e).shut && Step(c, e).status != Disconnected
    ensures var d := Step(Run(Start(limit, threads), events), e); d.socket == d.handled
  {
    RunInv(limit, threads, events);
    var c := Run(Start(limit, threads), events);
    hide Run;
    InvKept(c, e);
    ShutFlushes(c, e);
    var d := Step(c, e);
    assert d.socket + "" + "" == d.socket;
  }

  /** The write side is shut down only with nothing buffered and the loop's hands empty. */
  lemma ShutFlushes(c: Conn, e: Event)
    requires Inv(c) && !c.shut && Step(c, e).shut && Step(c, e).status != Disconnected
    ensures Step(c, e).output == "" && InHand(Step(c, e).work) == ""
  {
    hide ReservedBytes, QueuedBytes, BudgetOk;
    ShutBy(c, e);
  }

  /** It is shut down by a shutdown task, or after a flush. */
  lemma ShutBy(c: Conn, e: Event)
    requires !c.shut && Step(c, e).shut
    ensures Step(c, e) == c.(shut := true, tasks := Step(c, e).tasks, senders := Step(c, e).senders,
            work := Step(c, e).work)
    ensures !c.writing && Step(c, e).work == (if e.Continue? then Resting else c.work)
    ensures (e.Continue? && c.work.Flushed?) || (e.RunTask? && LoopFree(c)) ||
            (e.Advance? && e.i == 0 && |c.senders| > 0 && c.senders[0].ShuttingDown?)
  {
  }

  // ---------------------------------------------------------------- progress

  lemma {:induction false} RunAppend(c: Conn, a: seq<Event>, b: seq<Event>)
    ensures Run(c, a + b) == Run(Run(c, a), b)
  {
    hide Step;
    if b == [] {
      assert a + b == a;
    } else {
      assert (a + b)[..|a + b| - 1] == a + b[..|b| - 1];
      RunAppend(c, a, b[..|b| - 1]);
    }
  }

  lemma RunThen(c: Conn, events: seq<Event>, e: Event, d: Conn)
    requires d == Run(c, events)
    ensures Run(c, events + [e]) == Step(d, e)
  {
    hide Step;
    assert (events + [e])[..|events|] == events;
  }

  lemma RunNothing(c: Conn)
    ensures Run(c, []) == c
  {
  }

  /** Four steps of a sender on another thread queue its message with the loop, as long as it fits the
      budget; otherwise they queue a request to close the connection. */
  lemma SenderQueues(c: Conn, i: nat, message: string)
    requires Inv(c) && c.status == Connected && 0 < i < |c.senders| && c.senders[i].Idle?
    ensures Step(Step(Step(Step(c, Send(i, message)), Advance(i, false)), Advance(i, false)), Advance(i, false)) ==
            if c.pending + |message| <= c.limit
            then c.(pending := c.pending + |message|, tasks := c.tasks + [SendTask(message)])
            else c.(tasks := c.tasks + [CloseTask])
  {
    hide ReservedBytes, QueuedBytes, Begin, StreamOk, WorkOk;
    var a := Step(c, Send(i, message));
    var b := Step(a, Advance(i, false));
    assert b.senders[i] == Loaded(message, c.pending);
    var d := Step(b, Advance(i, false));
    assert d.senders[i] == if c.pending + |message| <= c.limit then Reserved(message) else Refused;
    var e := Step(d, Advance(i, false));
    assert e.senders == c.senders;
  }

  /** The loop handles a message on a connection that is up, whatever the socket takes of it: the message
      is handled, and what was not taken is buffered behind what was there. */
  lemma MessageHandled(c: Conn, message: string, io: Io)
    requires Inv(c) && c.status != Disconnected && c.work == ToSend(message) && !io.Broken?
    ensures var d := Run(c, [Continue(io), Continue(io), Continue(io)]);
            var e := Run(c, [Continue(io), Continue(io), Continue(io), Continue(io)]);
            var f := if d.work.Resting? then d else e;
            && f.work == Resting && f.status == c.status && f.senders == c.senders && f.tasks == c.tasks
            && f.handled == c.handled + message && f.socket + f.output == c.socket + c.output + message
  {
    hide Run, ReservedBytes, QueuedBytes;
    RunNothing(c);
    var x := Continue(io);
    var c1 := Step(c, x);
    RunThen(c, [], x, c);
    assert [] + [x] == [x];
    var c2 := Step(c1, x);
    RunThen(c, [x], x, c1);
    assert [x] + [x] == [x, x];
    var c3 := Step(c2, x);
    RunThen(c, [x, x], x, c2);
    assert [x, x] + [x] == [x, x, x];
    var c4 := Step(c3, x);
    RunThen(c, [x, x, x], x, c3);
    assert [x, x, x] + [x] == [x, x, x, x];
    HandledSteps(c, message, io);
  }

  lemma HandledSteps(c: Conn, message: string, io: Io)
    requires Inv(c) && c.status != Disconnected && c.work == ToSend(message) && !io.Broken?
    ensures var c2 := Step(Step(c, Continue(io)), Continue(io));
            var c3 := Step(c2, Continue(io));
            var f := if c3.work.Resting? then c3 else Step(c3, Continue(io));
            && f.work == Resting && f.status == c.status && f.senders == c.senders && f.tasks == c.tasks
            && f.handled == c.handled + message && f.socket + f.output == c.socket + c.output + message
  {
    hide ReservedBytes, QueuedBytes;
    var c1 := Step(c, Continue(io));
    assert c1 == c.(work := Sending(message));
    if c.writing || c.output != "" || io.WouldBlock? {
      assert c.socket + (c.output + message) == c.socket + c.output + message;
    } else {
      var k := Min(io.count, |message|);
      assert message == message[..k] + message[k..];
      assert c.socket + message[..k] + ("" + message[k..]) == c.socket + "" + message;
      assert message[k..] == "" ==> c.socket + message[..k] + "" == c.socket + "" + message;
    }
  }

  /** Flushing: when the socket takes all that is buffered, everything handled is with the socket, and a
      connection that is shutting down is shut. */
  lemma BufferFlushes(c: Conn)
    requires Inv(c) && LoopFree(c) && c.status != Disconnected
    ensures var d := if c.writing then Step(Step(Step(c, Writable(Took(|c.output|))), Continue(WouldBlock)),
            Continue(WouldBlock)) else c;
            && LoopFree(d) && d.output == "" && !d.writing && d.socket == d.handled == c.handled && d.tasks == c.tasks
            && d.senders == c.senders && d.status == c.status && (c.writing && c.status == Disconnecting ==> d.shut)
            && d.pending == c.pending - |c.output|
  {
    hide ReservedBytes, QueuedBytes;
    assert c.socket + c.output + "" == c.socket + c.output;
    if c.writing {
      var a := Step(c, Writable(Took(|c.output|)));
      assert c.output[..|c.output|] == c.output && c.output[|c.output|..] == "";
      assert a.work == Wrote(|c.output|) && a.output == "";
      var b := Step(a, Continue(WouldBlock));
      assert b.work == Flushed;
    } else {
      assert c.socket + "" + "" == c.socket;
    }
  }

  function Messages(tasks: seq<Task>): string {
    if tasks == [] then "" else (if tasks[0].SendTask? then tasks[0].message else "") + Messages(tasks[1..])
  }

  /** Draining: whatever the loop has queued and buffered, on a connection that is up the loop can on its
      own bring all of it to a socket that takes it, in order. */
  lemma {:induction false} LoopDrains(c: Conn) returns (events: seq<Event>)
    requires Inv(c) && LoopFree(c) && c.status != Disconnected && forall i :: 0 <= i < |c.tasks| ==>
             c.tasks[i].SendTask?
    ensures var d := Run(c, events);
            && Inv(d) && LoopFree(d) && d.tasks == [] && d.output == "" && d.status == c.status &&
                d.senders == c.senders
            && d.socket == d.handled == c.handled + Messages(c.tasks)
    decreases |c.tasks|
  {
    hide Step, Run, Inv;
    if c.tasks == [] {
      events := Flush(c);
      assert c.handled + "" == c.handled;
    } else {
      var m := c.tasks[0].message;
      TaskBegins(c);
      var a := Step(c, RunTask);
      RunNothing(c);
      RunThen(c, [], RunTask, c);
      assert [] + [RunTask] == [RunTask];
      MessageHandled(a, m, WouldBlock);
      var three := [Continue(WouldBlock), Continue(WouldBlock), Continue(WouldBlock)];
      var steps := if Run(a, three).work.Resting? then three else three + [Continue(WouldBlock)];
      assert three + [Continue(WouldBlock)] == [Continue(WouldBlock), Continue(WouldBlock), Continue(WouldBlock),
             Continue(WouldBlock)];
      var b := Run(a, steps);
      RunAppend(c, [RunTask], steps);
      InvRuns(c, [RunTask] + steps);
      var rest := LoopDrains(b);
      events := [RunTask] + steps + rest;
      RunAppend(c, [RunTask] + steps, rest);
      InvRuns(c, events);
      assert c.handled + m + Messages(c.tasks[1..]) == c.handled + Messages(c.tasks);
    }
  }

  lemma TaskBegins(c: Conn)
    requires Inv(c) && LoopFree(c) && c.tasks != [] && c.tasks[0].SendTask?
    ensures Step(c, RunTask) == c.(tasks := c.tasks[1..], work := ToSend(c.tasks[0].message)) && Inv(Step(c, RunTask))
  {
    InvKept(c, RunTask);
  }

  lemma {:induction false} InvRuns(c: Conn, events: seq<Event>)
    requires Inv(c)
    ensures Inv(Run(c, events))
  {
    hide Inv, Step;
    if events != [] {
      InvRuns(c, events[..|events| - 1]);
      InvKept(Run(c, events[..|events| - 1]), events[|events| - 1]);
    }
  }

  lemma Flush(c: Conn) returns (events: seq<Event>)
    requires Inv(c) && LoopFree(c) && c.status != Disconnected
    ensures var d := Run(c, events);
            && Inv(d) && LoopFree(d) && d.output == "" && d.socket == d.handled == c.handled
            && d.tasks == c.tasks && d.status == c.status && d.senders == c.senders
  {
    hide Step, Run, Inv;
    BufferFlushes(c);
    RunNothing(c);
    if c.writing {
      var x, y := Writable(Took(|c.output|)), Continue(WouldBlock);
      RunThen(c, [], x, c);
      RunThen(c, [] + [x], y, Step(c, x));
      RunThen(c, [] + [x] + [y], y, Step(Step(c, x), y));
      events := [] + [x] + [y] + [y];
    } else {
      events := [];
    }
    InvRuns(c, events);
  }
}

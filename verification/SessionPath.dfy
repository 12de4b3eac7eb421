/** From request bytes to reply bytes: the input side, the dispatcher and the output side of one
    connection run together. Thread 0 is the event loop; thread `i` is agent `i` of the dispatcher and
    sender `i` of the connection. */
module SessionPath {
  import opened Resp
  import opened Frames
  import opened Delivery
  import In = Stream
  import D = Dispatcher
  import C = Connection

  /** The connection's parser, its request limit, its session id and session object, and what the server
      answers to the `n`th command of the session. */
  datatype Setup = Setup(p: Parser, limit: nat, id: nat, o: nat, answer: (nat, Command) -> string)

  /** `chunks` is what was read so far, `handed` how many of the commands in it went to Submit, and
      `calling` says that the reply callback of the command in flight has called Send. `sent` is history:
      the replies whose Send found the connection up. */
  datatype Server = Server(
    chunks: seq<string>, handed: nat, disp: D.State, conn: C.Conn, calling: bool, sent: seq<string>)

  datatype Event =
    | Read(chunk: string)
    | Submit                  // the loop submits the next command it read
    | Dispatch(d: D.Event)    // any other step of dispatcher callers and workers
    | Call(i: nat)            // worker `i` calls Send with its reply
    | Return(i: nat)          // that Send returns, and with it the reply callback
    | Net(c: C.Event)         // any step of the connection but a Send

  /** The commands the connection has read. */
  function Submitted(x: Setup, chunks: seq<string>): seq<Command> {
    In.ReceiveAll(x.p, x.limit, In.FRESH, chunks).submitted
  }

  /** Agent `i` is about to reply, or replying, to a command of this session. */
  predicate Replying(x: Setup, d: D.State, i: nat) {
    i < |d.agents| && d.agents[i].Replying? && d.agents[i].obj == x.o && x.o < |d.objs|
  }

  predicate Mapped(x: Setup, d: D.State, id: nat) {
    id in d.sessions && d.sessions[id] == x.o
  }

  /** Only the loop submits commands of this session, and replies to it go through Call and Return. */
  predicate Foreign(x: Setup, d: D.State, e: D.Event) {
    match e
    case BeginSubmit(_, id, _) => !Mapped(x, d, id)
    case Advance(i) => !Replying(x, d, i)
    case _ => true
  }

  /** The reply callback starts its Send. */
  function CallStep(x: Setup, s: Server, i: nat): Server
    requires Replying(x, s.disp, i)
  {
    var m := x.answer(|s.disp.objs[x.o].replied|, s.disp.agents[i].command);
    s.(conn := C.Step(s.conn, C.Send(i, m)), calling := true,
       sent := if s.conn.status == C.Connected then s.sent + [m] else s.sent)
  }

  /** The effect of an event; an event that cannot happen in `s` leaves it unchanged. */
  function Step(x: Setup, s: Server, e: Event): Server {
    match e
    case Read(chunk) => s.(chunks := s.chunks + [chunk])
    case Submit =>
      if |s.disp.agents| > 0 && s.disp.agents[0].Outside? && s.handed < |Submitted(x, s.chunks)| then
        s.(disp := D.Step(s.disp, D.BeginSubmit(0, x.id, Submitted(x, s.chunks)[s.handed])), handed := s.handed + 1)
      else s
    case Dispatch(d) => if Foreign(x, s.disp, d) then s.(disp := D.Step(s.disp, d)) else s
    case Call(i) => if Replying(x, s.disp, i) && !s.calling && C.CanCall(s.conn, i) then CallStep(x, s, i) else s
    case Return(i) =>
      if Replying(x, s.disp, i) && s.calling && i < |s.conn.senders| && s.conn.senders[i].Idle?
      then s.(disp := D.Step(s.disp, D.Advance(i)), calling := false) else s
    case Net(c) => if c.Send? then s else s.(conn := C.Step(s.conn, c))
  }

  function Run(x: Setup, s: Server, events: seq<Event>): Server {
    if events == [] then s else Step(x, Run(x, s, events[..|events| - 1]), events[|events| - 1])
  }

  /** A connection has just been established and its session opened. */
  function Opened(x: Setup, d: D.State, limit: nat): Server {
    Server([], 0, D.Step(d, D.OpenSession(x.id)), C.Step(C.Start(limit, |d.agents|), C.Establish), false, [])
  }

  // ---------------------------------------------------------------- the invariant

  /** An agent that makes calls, as opposed to a worker of the pool. */
  predicate Caller(a: D.Agent) {
    a.Outside? || a.Looked? || a.Posting? || a.Closing?
  }

  /** The command the loop has taken to this session's Submit and not yet queued. */
  function Entering(x: Setup, d: D.State): seq<Command> {
    if |d.agents| > 0 && d.agents[0].Looked? && d.agents[0].obj == x.o then [d.agents[0].command] else []
  }

  predicate Live(x: Setup, d: D.State) {
    !d.stopped && Mapped(x, d, x.id)
  }

  /** What holds of the dispatcher, as far as this session is concerned. */
  ghost predicate DispOk(x: Setup, d: D.State) {
    && D.Inv(d) && x.o < |d.objs| && |d.agents| > 0 && Caller(d.agents[0])
    && (forall j :: 0 < j < |d.agents| ==> !(d.agents[j].Looked? && d.agents[j].obj == x.o))
    && (forall id :: Mapped(x, d, id) ==> id == x.id)
    && (Mapped(x, d, x.id) ==> !d.objs[x.o].closed && NoCloser(x, d))
  }

  ghost predicate NoCloser(x: Setup, d: D.State) {
    forall j :: 0 <= j < |d.agents| ==> !(d.agents[j].Closing? && d.agents[j].obj == x.o)
  }

  /** The session accepts the commands the loop read, in order, and all of them while it is open. */
  ghost predicate InputOk(x: Setup, s: Server) {
    && s.handed <= |Submitted(x, s.chunks)|
    && Intake(x, s.disp) <= Submitted(x, s.chunks)
    && (Live(x, s.disp) ==> Intake(x, s.disp) == Submitted(x, s.chunks)[..s.handed])
  }

  function Intake(x: Setup, d: D.State): seq<Command> {
    (if x.o < |d.objs| then d.objs[x.o].accepted else []) + Entering(x, d)
  }

  function Answers(x: Setup, cs: seq<Command>): (r: seq<string>)
    ensures |r| == |cs| && forall n :: 0 <= n < |cs| ==> r[n] == x.answer(n, cs[n])
  {
    seq(|cs|, n requires 0 <= n < |cs| => x.answer(n, cs[n]))
  }

  /** The commands whose reply has been given to Send. */
  function Begun(x: Setup, s: Server): seq<Command>
    requires x.o < |s.disp.objs|
  {
    s.disp.objs[x.o].replied + if s.calling then D.Flight(s.disp, x.o) else []
  }

  /** Only the worker replying to the session is inside Send. */
  ghost predicate CallerOk(x: Setup, s: Server)
    requires x.o < |s.disp.objs|
  {
    var place := s.disp.objs[x.o].place;
    && (s.calling ==> place.With? && Replying(x, s.disp, place.agent))
    && |s.conn.senders| == |s.disp.agents|
    && (forall j :: 0 <= j < |s.conn.senders| ==> Quiet(s.conn.senders[j]) || (s.calling && place == D.With(j)))
  }

  /** What was sent are the answers to the commands replied to, all of them while the connection is up. */
  ghost predicate OutputOk(x: Setup, s: Server)
    requires x.o < |s.disp.objs|
  {
    && CallerOk(x, s) && PipeOk(s.conn, s.sent) && s.conn.status != C.Connecting
    && s.sent <= Answers(x, Begun(x, s))
    && (s.conn.status == C.Connected ==> s.sent == Answers(x, Begun(x, s)))
  }

  ghost predicate PathOk(x: Setup, s: Server) {
    DispOk(x, s.disp) && InputOk(x, s) && OutputOk(x, s)
  }

  // ---------------------------------------------------------------- the dispatcher's steps

  /** Only the loop brings commands to this session. */
  predicate OwnSubmit(x: Setup, d: D.State, e: D.Event) {
    e.BeginSubmit? && Mapped(x, d, e.id) ==> e.i == 0
  }

  lemma DispFrame(x: Setup, d: D.State, e: D.Event)
    requires DispOk(x, d) && OwnSubmit(x, d, e)
    ensures var d' := D.Step(d, e);
            && x.o < |d'.objs| && |d'.agents| == |d.agents| && Caller(d'.agents[0])
            && (forall j :: 0 < j < |d.agents| ==> !(d'.agents[j].Looked? && d'.agents[j].obj == x.o))
            && (forall id :: Mapped(x, d', id) ==> Mapped(x, d, id))
  {
    hide D.Inv;
  }

  /** A session still mapped is not closed, nor about to be. */
  lemma StillOpen(x: Setup, d: D.State, e: D.Event)
    requires DispOk(x, d) && OwnSubmit(x, d, e) && Mapped(x, D.Step(d, e), x.id)
    ensures var d' := D.Step(d, e); x.o < |d'.objs| && !d'.objs[x.o].closed && NoCloser(x, d')
  {
    if e.Advance? {
      if D.At(d, e.i) { StillOpenAdvance(x, d, e.i); }
    } else {
      hide D.Inv, D.AdvanceStep;
      if e.BeginClose? { assert Mapped(x, d, e.id) ==> e.id == x.id; }
    }
  }

  lemma StillOpenAdvance(x: Setup, d: D.State, i: nat)
    requires DispOk(x, d) && D.At(d, i) && Mapped(x, d, x.id)
    ensures var d' := D.AdvanceStep(d, i); x.o < |d'.objs| && !d'.objs[x.o].closed && NoCloser(x, d')
  {
    hide D.Inv;
  }

  lemma DispKept(x: Setup, d: D.State, e: D.Event)
    requires DispOk(x, d) && OwnSubmit(x, d, e)
    ensures DispOk(x, D.Step(d, e))
  {
    D.InvKept(d, e);
    DispFrame(x, d, e);
    if Mapped(x, D.Step(d, e), x.id) { StillOpen(x, d, e); }
    hide D.Inv, D.Step;
  }

  /** Commands come in only by Submit. */
  lemma IntakeKept(x: Setup, d: D.State, e: D.Event)
    requires DispOk(x, d) && !(e.BeginSubmit? && Mapped(x, d, e.id))
    ensures var d' := D.Step(d, e);
            Intake(x, d') <= Intake(x, d) && (Live(x, d') ==> Live(x, d) && Intake(x, d') == Intake(x, d))
  {
    if e.Advance? {
      if D.At(d, e.i) { IntakeAdvance(x, d, e.i); }
    } else {
      hide D.Inv, D.AdvanceStep;
      assert e.BeginSubmit? && e.id in d.sessions ==> d.sessions[e.id] != x.o;
    }
  }

  /** An agent's step takes a waiting command in, or, if the session is closed, drops it. */
  lemma IntakeAdvance(x: Setup, d: D.State, i: nat)
    requires DispOk(x, d) && D.At(d, i)
    ensures var d' := D.AdvanceStep(d, i);
            Intake(x, d') <= Intake(x, d) && (Live(x, d') ==> Live(x, d) && Intake(x, d') == Intake(x, d))
  {
    hide D.Inv;
    var o := x.o;
    D.AdvanceFrame(d, i);
    if i == 0 && d.agents[0].Looked? && d.agents[0].obj == o {
      assert d.objs[o].accepted + [] == d.objs[o].accepted;
    } else {
      AcceptedSame(x, d, i);
    }
  }

  lemma AcceptedSame(x: Setup, d: D.State, i: nat)
    requires DispOk(x, d) && D.At(d, i) && !(d.agents[i].Looked? && d.agents[i].obj == x.o)
    ensures var d' := D.AdvanceStep(d, i);
            && x.o < |d'.objs| && d'.objs[x.o].accepted == d.objs[x.o].accepted
            && Entering(x, d') == Entering(x, d)
  {
    hide D.Inv;
  }

  lemma IntakeGrows(x: Setup, d: D.State, c: Command)
    requires DispOk(x, d) && d.agents[0].Outside?
    ensures var d' := D.Step(d, D.BeginSubmit(0, x.id, c));
            Live(x, d') == Live(x, d) && Intake(x, d') == Intake(x, d) + if Live(x, d) then [c] else []
  {
    hide D.Inv;
  }

  /** A reply is under way until it returns. */
  lemma ReplyFrame(x: Setup, d: D.State, e: D.Event)
    requires DispOk(x, d) && !(e.Advance? && Replying(x, d, e.i))
    ensures var d' := D.Step(d, e);
            && x.o < |d'.objs| && d'.objs[x.o].replied == d.objs[x.o].replied
            && (forall i: nat :: Replying(x, d, i) ==> Replying(x, d', i) && d'.agents[i] == d.agents[i])
  {
    hide D.SessionOk, D.StopOk, D.PlaceOk;
  }

  /** The agent replying to a session is its runner. */
  lemma ReplierRuns(x: Setup, d: D.State, i: nat)
    requires D.Inv(d) && Replying(x, d, i)
    ensures d.objs[x.o].place == D.With(i) && D.Flight(d, x.o) == [d.agents[i].command]
  {
    hide D.SessionOk, D.StopOk, D.PlaceOk;
    assert D.AgentOk(d, i);
  }

  lemma ReturnFrame(x: Setup, d: D.State, i: nat)
    requires DispOk(x, d) && Replying(x, d, i)
    ensures var d' := D.Step(d, D.Advance(i));
            x.o < |d'.objs| && d'.objs[x.o].replied == d.objs[x.o].replied + D.Flight(d, x.o)
  {
    ReplierRuns(x, d, i);
    hide D.Inv;
  }

  // ---------------------------------------------------------------- every step keeps the path

  lemma DispatchOutput(x: Setup, s: Server, e: D.Event)
    requires DispOk(x, s.disp) && OutputOk(x, s) && DispOk(x, D.Step(s.disp, e))
    requires !(e.Advance? && Replying(x, s.disp, e.i))
    ensures OutputOk(x, s.(disp := D.Step(s.disp, e)))
  {
    var d, d' := s.disp, D.Step(s.disp, e);
    ReplyFrame(x, d, e);
    AgentCount(d, e);
    hide D.Step, PipeOk, Answers;
    if s.calling {
      var i := d.objs[x.o].place.agent;
      ReplierRuns(x, d, i);
      ReplierRuns(x, d', i);
    }
    hide D.Inv, D.Flight;
  }

  lemma AgentCount(d: D.State, e: D.Event)
    ensures |D.Step(d, e).agents| == |d.agents|
  {
  }

  /** The worker's Send puts the answer to its command behind the earlier ones. */
  lemma CallOutput(x: Setup, s: Server, i: nat)
    requires DispOk(x, s.disp) && OutputOk(x, s)
    requires Replying(x, s.disp, i) && !s.calling && C.CanCall(s.conn, i)
    ensures OutputOk(x, CallStep(x, s, i))
  {
    var t, x' := CallStep(x, s, i), s.disp.objs[x.o];
    var c := s.disp.agents[i].command;
    var m := x.answer(|x'.replied|, c);
    ReplierRuns(x, s.disp, i);
    assert Begun(x, s) == x'.replied && Begun(x, t) == x'.replied + [c];
    AnswersSnoc(x, x'.replied, c);
    SendsOnly(s.conn, i, m);
    if s.conn.status == C.Connected { PipeGrows(s.conn, i, m, s.sent); }
    hide PipeOk, Answers, D.Inv, C.Step, D.Flight;
    assert CallerOk(x, t);
  }

  lemma AnswersSnoc(x: Setup, cs: seq<Command>, c: Command)
    ensures Answers(x, cs + [c]) == Answers(x, cs) + [x.answer(|cs|, c)]
  {
  }

  /** A Send moves no other sender, and does nothing unless the connection is up. */
  lemma SendsOnly(c: C.Conn, i: nat, m: string)
    requires C.CanCall(c, i)
    ensures var d := C.Step(c, C.Send(i, m));
            && |d.senders| == |c.senders| && d.status == c.status
            && (forall j :: 0 <= j < |c.senders| && j != i ==> d.senders[j] == c.senders[j])
            && (c.status != C.Connected ==> d == c)
  {
  }

  lemma ReturnOutput(x: Setup, s: Server, i: nat)
    requires DispOk(x, s.disp) && OutputOk(x, s) && DispOk(x, D.Step(s.disp, D.Advance(i)))
    requires Replying(x, s.disp, i) && s.calling && i < |s.conn.senders| && s.conn.senders[i].Idle?
    ensures OutputOk(x, s.(disp := D.Step(s.disp, D.Advance(i)), calling := false))
  {
    ReturnFrame(x, s.disp, i);
    ReplierRuns(x, s.disp, i);
    AgentCount(s.disp, D.Advance(i));
    var t := s.(disp := D.Step(s.disp, D.Advance(i)), calling := false);
    hide PipeOk, Answers, D.Inv, D.Step, D.Flight;
    assert Begun(x, t) == Begun(x, s);
  }

  /** The connection changed, but no thread entered a Send and the status did not go back. */
  ghost predicate Later(c: C.Conn, d: C.Conn) {
    && |d.senders| == |c.senders| && (c.status != C.Connecting ==> d.status != C.Connecting)
    && (d.status == C.Connected && c.status != C.Connecting ==> c.status == C.Connected)
    && (forall j :: 0 <= j < |c.senders| && Quiet(c.senders[j]) ==> Quiet(d.senders[j]))
  }

  lemma NetFrame(c: C.Conn, e: C.Event)
    requires !e.Send?
    ensures Later(c, C.Step(c, e))
  {
    match e
    case Advance(i, spurious) => if i < |c.senders| { SenderFrame(c, i, spurious); }
    case Continue(io) => LoopFrame(c, io);
    case _ => hide C.AdvanceSender, C.WorkStep;
  }

  lemma SenderFrame(c: C.Conn, i: nat, spurious: bool)
    requires i < |c.senders|
    ensures Later(c, C.AdvanceSender(c, i, spurious))
  {
  }

  lemma LoopFrame(c: C.Conn, io: C.Io)
    ensures Later(c, C.WorkStep(c, io))
  {
    assert C.WorkStep(c, io).senders == c.senders;
    assert C.WorkStep(c, io).status == c.status || C.WorkStep(c, io).status == C.Disconnected;
  }

  lemma NetOutput(x: Setup, s: Server, e: C.Event)
    requires x.o < |s.disp.objs| && OutputOk(x, s) && !e.Send?
    ensures OutputOk(x, s.(conn := C.Step(s.conn, e)))
  {
    PipeKept(s.conn, e, s.sent);
    NetFrame(s.conn, e);
    hide PipeOk, Answers, C.Step;
  }

  lemma SubmittedGrows(x: Setup, chunks: seq<string>, chunk: string)
    ensures Submitted(x, chunks) <= Submitted(x, chunks + [chunk])
  {
    hide ReadFrames;
    assert (chunks + [chunk])[..|chunks|] == chunks;
  }

  lemma SubmitKeeps(x: Setup, s: Server)
    requires PathOk(x, s)
    ensures PathOk(x, Step(x, s, Submit))
  {
    hide D.Inv, Submitted, PipeOk, Answers;
    if s.disp.agents[0].Outside? && s.handed < |Submitted(x, s.chunks)| {
      var c := Submitted(x, s.chunks)[s.handed];
      var e := D.BeginSubmit(0, x.id, c);
      DispKept(x, s.disp, e);
      DispatchOutput(x, s, e);
      IntakeGrows(x, s.disp, c);
      hide D.Step, DispOk, OutputOk;
    }
  }

  lemma DispatchKeeps(x: Setup, s: Server, e: D.Event)
    requires PathOk(x, s) && Foreign(x, s.disp, e)
    ensures PathOk(x, s.(disp := D.Step(s.disp, e)))
  {
    DispKept(x, s.disp, e);
    DispatchOutput(x, s, e);
    IntakeKept(x, s.disp, e);
    hide D.Step, DispOk, OutputOk, Submitted, Intake;
  }

  lemma ReturnKeeps(x: Setup, s: Server, i: nat)
    requires PathOk(x, s) && Replying(x, s.disp, i) && s.calling
    requires i < |s.conn.senders| && s.conn.senders[i].Idle?
    ensures PathOk(x, s.(disp := D.Step(s.disp, D.Advance(i)), calling := false))
  {
    DispKept(x, s.disp, D.Advance(i));
    ReturnOutput(x, s, i);
    IntakeKept(x, s.disp, D.Advance(i));
    hide D.Step, DispOk, OutputOk, Submitted, Intake;
  }

  lemma PathKept(x: Setup, s: Server, e: Event)
    requires PathOk(x, s)
    ensures PathOk(x, Step(x, s, e))
  {
    hide D.Inv, D.Step, C.Step, Submitted, PipeOk, Answers;
    match e
    case Read(chunk) => SubmittedGrows(x, s.chunks, chunk);
    case Submit => SubmitKeeps(x, s);
    case Dispatch(d) => if Foreign(x, s.disp, d) { DispatchKeeps(x, s, d); }
    case Call(i) =>
      if Replying(x, s.disp, i) && !s.calling && C.CanCall(s.conn, i) { CallOutput(x, s, i); }
    case Return(i) =>
      if Replying(x, s.disp, i) && s.calling && i < |s.conn.senders| && s.conn.senders[i].Idle? {
        ReturnKeeps(x, s, i);
      }
    case Net(c) => if !c.Send? { NetOutput(x, s, c); }
  }

  lemma {:induction false} RunKeeps(x: Setup, s: Server, events: seq<Event>)
    requires PathOk(x, s)
    ensures PathOk(x, Run(x, s, events))
  {
    hide PathOk, Step;
    if events != [] {
      RunKeeps(x, s, events[..|events| - 1]);
      PathKept(x, Run(x, s, events[..|events| - 1]), events[|events| - 1]);
    }
  }

  // ---------------------------------------------------------------- the beginning

  /** The dispatcher after a run, with the event loop as its agent 0, ready for a new session. */
  ghost predicate Ready(x: Setup, agents: seq<D.Agent>, before: seq<D.Event>) {
    && D.Initial(agents) && |agents| > 0 && agents[0].Outside?
    && !D.Run(D.Start(agents), before).stopped && x.o == |D.Run(D.Start(agents), before).objs|
  }

  lemma {:induction false} LoopIsCaller(agents: seq<D.Agent>, before: seq<D.Event>)
    requires |agents| > 0 && agents[0].Outside?
    ensures var d := D.Run(D.Start(agents), before); |d.agents| == |agents| && Caller(d.agents[0])
  {
    if before != [] {
      LoopIsCaller(agents, before[..|before| - 1]);
      CallerStays(D.Run(D.Start(agents), before[..|before| - 1]), before[|before| - 1]);
    }
  }

  lemma CallerStays(d: D.State, e: D.Event)
    requires |d.agents| > 0 && Caller(d.agents[0])
    ensures |D.Step(d, e).agents| == |d.agents| && Caller(D.Step(d, e).agents[0])
  {
  }

  /** Nobody knows a session that was not open yet. */
  lemma NewSession(x: Setup, d: D.State)
    requires D.Inv(d) && !d.stopped && x.o == |d.objs| && |d.agents| > 0 && Caller(d.agents[0])
    ensures var d' := D.Step(d, D.OpenSession(x.id));
            && DispOk(x, d') && d'.objs[x.o] == D.EMPTY && Entering(x, d') == []
  {
    D.InvKept(d, D.OpenSession(x.id));
    hide D.SessionOk, D.StopOk, D.PlaceOk;
    assert D.PlacesOk(d);
    forall j | 0 <= j < |d.agents| ensures !(d.agents[j].Looked? || d.agents[j].Closing?) || d.agents[j].obj != x.o {
      assert D.AgentOk(d, j);
    }
  }

  lemma NewConnection(limit: nat, threads: nat)
    requires threads > 0
    ensures var c := C.Step(C.Start(limit, threads), C.Establish);
            && PipeOk(c, []) && c.status == C.Connected && |c.senders| == threads
            && forall j :: 0 <= j < threads ==> c.senders[j].Idle?
  {
    C.StartInv(limit, threads);
    C.InvKept(C.Start(limit, threads), C.Establish);
    var c := C.Step(C.Start(limit, threads), C.Establish);
    assert c == C.Start(limit, threads).(status := C.Connected);
    hide C.Inv, C.Step;
    QuietHeld(c.senders);
  }

  lemma OpenedOk(x: Setup, agents: seq<D.Agent>, before: seq<D.Event>, limit: nat)
    requires Ready(x, agents, before)
    ensures PathOk(x, Opened(x, D.Run(D.Start(agents), before), limit))
  {
    var d := D.Run(D.Start(agents), before);
    D.RunInv(agents, before);
    LoopIsCaller(agents, before);
    NewSession(x, d);
    NewConnection(limit, |d.agents|);
    AgentCount(d, D.OpenSession(x.id));
    hide D.Run, D.Step, C.Step, D.Inv, PipeOk;
  }

  // ---------------------------------------------------------------- what the invariant says

  lemma {:induction false} ConcatPrefix(a: seq<string>, b: seq<string>)
    requires a <= b
    ensures Concat(a) <= Concat(b)
  {
    if a != b {
      var init := b[..|b| - 1];
      assert a <= init;
      ConcatPrefix(a, init);
      assert Concat(init) <= Concat(init) + b[|b| - 1];
    }
  }

  lemma AnswersPrefix(x: Setup, a: seq<Command>, b: seq<Command>)
    requires a <= b
    ensures Answers(x, a) <= Answers(x, b) && Concat(Answers(x, a)) <= Concat(Answers(x, b))
  {
    assert Answers(x, a) == Answers(x, b)[..|a|];
    ConcatPrefix(Answers(x, a), Answers(x, b));
  }

  /** The commands replied to are the first of those read. */
  lemma BegunIsRead(x: Setup, s: Server)
    requires PathOk(x, s)
    ensures Begun(x, s) <= Submitted(x, s.chunks)
  {
    hide OutputOk, Submitted, D.StopOk, D.PlacesOk, Answers;
    var y := s.disp.objs[x.o];
    assert D.SessionOk(s.disp, x.o);
    assert Begun(x, s) <= y.replied + D.Flight(s.disp, x.o) <= y.accepted <= Intake(x, s.disp);
  }

  lemma SocketBehind(x: Setup, s: Server)
    requires PathOk(x, s) && s.conn.status != C.Disconnected
    ensures s.conn.socket <= Concat(Answers(x, Submitted(x, s.chunks)))
  {
    BegunIsRead(x, s);
    AnswersPrefix(x, Begun(x, s), Submitted(x, s.chunks));
    ConcatPrefix(s.sent, Answers(x, Begun(x, s)));
    SocketInPipe(s.conn, s.sent);
    hide PathOk, Begun, Concat, Answers, Submitted;
    assert s.conn.socket <= Concat(s.sent);
  }

  lemma SocketInPipe(c: C.Conn, sent: seq<string>)
    requires PipeOk(c, sent) && c.status != C.Disconnected
    ensures c.socket <= Concat(sent)
  {
    hide Concat, OneBusy, Until, AllHeld, HasClose, C.BudgetOk, C.WorkOk;
    assert c.socket <= c.handled <= Pipe(c);
  }

  /** With nothing on its way, the socket has everything that was sent. */
  lemma EmptyPipe(c: C.Conn, sent: seq<string>)
    requires PipeOk(c, sent) && c.status == C.Connected && c.tasks == [] && c.work.Resting? && c.output == ""
    requires forall j :: 0 <= j < |c.senders| ==> Quiet(c.senders[j])
    ensures c.socket == Concat(sent)
  {
    hide Concat, OneBusy, AllHeld, C.BudgetOk, C.WorkOk;
    QuietHeld(c.senders);
    assert !Blocked(c);
    assert c.socket + "" + "" == c.socket && c.handled + "" + "" + "" == c.handled;
  }

  /** Everything read is submitted and the session and the connection have nothing left to do. */
  ghost predicate AtRest(x: Setup, s: Server) {
    var r := In.ReceiveAll(x.p, x.limit, In.FRESH, s.chunks);
    && !r.closed && r.firstError.None? && s.handed == |r.submitted|
    && Live(x, s.disp) && Entering(x, s.disp) == []
    && x.o < |s.disp.objs| && s.disp.objs[x.o].commands == [] && !s.disp.objs[x.o].running
    && s.conn.status == C.Connected && s.conn.tasks == [] && s.conn.work.Resting? && s.conn.output == ""
  }

  lemma RestAnswered(x: Setup, s: Server)
    requires PathOk(x, s) && AtRest(x, s)
    ensures s.conn.socket == Concat(Answers(x, Submitted(x, s.chunks)))
  {
    hide Concat, PipeOk, Answers, In.ReceiveAll, D.StopOk, D.PlacesOk;
    var y := s.disp.objs[x.o];
    assert D.SessionOk(s.disp, x.o);
    assert y.place == D.Nowhere && !s.calling;
    assert y.accepted == y.replied + [] + [] == y.replied;
    assert Begun(x, s) == y.replied == y.accepted;
    assert Intake(x, s.disp) == y.accepted + [] == y.accepted;
    assert Submitted(x, s.chunks)[..s.handed] == Submitted(x, s.chunks);
    EmptyPipe(s.conn, s.sent);
  }

  // ---------------------------------------------------------------- theorems

  /** What a client of the connection receives. In every interleaving of the event loop, the dispatcher's
      callers and workers and the connection's steps, as long as the connection is up and the client has
      kept to the protocol, the socket has got a prefix of the answers to the commands in the bytes the
      client sent: in order, each once, without a gap. */
  lemma RepliesFollowRequests(
      x: Setup, agents: seq<D.Agent>, before: seq<D.Event>, limit: nat, events: seq<Event>)
    requires Ready(x, agents, before)
    ensures var s := Run(x, Opened(x, D.Run(D.Start(agents), before), limit), events);
            s.conn.status != C.Disconnected && In.ReceiveAll(x.p, x.limit, In.FRESH, s.chunks).firstError.None? ==>
              s.conn.socket <= Concat(Answers(x, ReadFrames(x.p, In.Flatten(s.chunks)).commands))
  {
    var s0 := Opened(x, D.Run(D.Start(agents), before), limit);
    OpenedOk(x, agents, before, limit);
    RunKeeps(x, s0, events);
    var s := Run(x, s0, events);
    if s.conn.status != C.Disconnected && In.ReceiveAll(x.p, x.limit, In.FRESH, s.chunks).firstError.None? {
      In.SubmittedIsPrefix(x.p, x.limit, s.chunks);
      SocketBehind(x, s);
      AnswersPrefix(x, Submitted(x, s.chunks), ReadFrames(x.p, In.Flatten(s.chunks)).commands);
    }
  }

  /** A connection at rest has answered everything: with the session open, nothing queued, nobody at work
      for it and nothing buffered, the socket has got the answers to all the commands the client sent. */
  lemma AtRestAllAnswered(
      x: Setup, agents: seq<D.Agent>, before: seq<D.Event>, limit: nat, events: seq<Event>)
    requires Ready(x, agents, before)
    ensures var s := Run(x, Opened(x, D.Run(D.Start(agents), before), limit), events);
            AtRest(x, s) ==>
              s.conn.socket == Concat(Answers(x, ReadFrames(x.p, In.Flatten(s.chunks)).commands))
  {
    var s0 := Opened(x, D.Run(D.Start(agents), before), limit);
    OpenedOk(x, agents, before, limit);
    RunKeeps(x, s0, events);
    var s := Run(x, s0, events);
    if AtRest(x, s) {
      In.ReceiveAllTracks(x.p, x.limit, s.chunks);
      RestAnswered(x, s);
    }
  }
}

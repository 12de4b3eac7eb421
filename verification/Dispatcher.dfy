/** The asynchronous dispatcher: sessions with a command queue and a `running` flag, served by a
    shared worker pool. Callers and workers are agents that move by atomic steps (one lock section
    or one call each); every interleaving is a sequence of steps. Line numbers are those of
    src/command/async_dispatcher.cpp. */
module Dispatcher {
  import opened Resp

  /** An agent is a thread inside (or outside) one call. Callers: between looking the session up and
      locking it; between releasing the session lock and posting; between erasing the session and
      marking it closed. Workers: waiting for a task; at the top of the session loop; executing a
      popped command; about to call its reply; exited. */
  datatype Agent =
    | Outside | Looked(obj: nat, command: Command) | Posting(obj: nat) | Closing(obj: nat)
    | Free | AtTop(obj: nat) | Running(obj: nat, command: Command) | Replying(obj: nat, command: Command)
    | Gone
  {
    /** This agent is the runner of session object `o`, or about to post it. */
    predicate Holds(o: nat) {
      (Posting? || AtTop? || Running? || Replying?) && obj == o
    }

    predicate Works() {
      Free? || AtTop? || Running? || Replying?
    }
  }

  /** Auxiliary: where the one runner of a session object is. */
  datatype Place = Nowhere | InPool | With(agent: nat)

  /** A session object. From `accepted` on the fields are history: commands queued by Submit, replies
      delivered, whether the pool refused to run the session, the runner's place, the position in
      `accepted` of the last command whose Submit had to post the session, and the positions of the
      commands whose Submit has returned normally. */
  datatype Session = Session(
    commands: seq<Command>, running: bool, closed: bool,
    accepted: seq<Command>, replied: seq<Command>, refused: bool, place: Place,
    posting: nat, returned: set<nat>)

  /** `frozen` and `unposted` record, when the pool is told to stop, the sessions and which of them had a
      Submit between queueing and posting. */
  datatype State = State(
    objs: seq<Session>, sessions: map<nat, nat>, agents: seq<Agent>,
    tasks: seq<nat>, stopped: bool, stopping: bool,
    frozen: seq<Session>, unposted: set<nat>)

  /** `Advance(i)`: agent `i` takes the next step of the call it is in, or, if it is a waiting
      worker, takes the next task or exits. */
  datatype Event =
    | OpenSession(id: nat)
    | BeginSubmit(i: nat, id: nat, command: Command)  // lines 106-113
    | BeginClose(i: nat, id: nat)                     // lines 90-97
    | Stop | StopPool | ClearSessions                 // lines 130-139 and 37-42
    | Advance(i: nat)

  const EMPTY := Session([], false, false, [], [], false, Nowhere, 0, {})

  function Start(agents: seq<Agent>): State {
    State([], map[], agents, [], false, false, [], {})
  }

  function Unposted(s: State): set<nat> {
    set i | 0 <= i < |s.agents| && s.agents[i].Posting? :: s.agents[i].obj
  }

  function Move(s: State, i: nat, a: Agent): State
    requires i < |s.agents|
  {
    s.(agents := s.agents[i := a])
  }

  predicate At(s: State, i: nat) {
    i < |s.agents|
  }

  predicate InSession(s: State, i: nat) {
    At(s, i) && !s.agents[i].Outside? && !s.agents[i].Free? && !s.agents[i].Gone? && s.agents[i].obj < |s.objs|
  }

  /** The session object that an advance of agent `i` works on, if any. */
  function Target(s: State, i: nat): int {
    if InSession(s, i) then s.agents[i].obj
    else if At(s, i) && s.agents[i].Free? && s.tasks != [] then s.tasks[0]
    else -1
  }

  /** What an advance changes: the agent, its target session and the pool. */
  datatype Effect = Effect(agent: Agent, session: Session, tasks: seq<nat>)

  /** The step of agent `i`, at `a`, on session object `o` in state `x`. */
  function EffectOf(i: nat, a: Agent, o: nat, x: Session, tasks: seq<nat>, stopping: bool): Effect {
    match a
    case Looked(_, c) =>  // Submit under the session lock: lines 115-124
      if x.closed then Effect(Outside, x, tasks)
      else
        var y := x.(commands := x.commands + [c], accepted := x.accepted + [c], running := true);
        if x.running then Effect(Outside, y.(returned := x.returned + {|x.accepted|}), tasks)
        else Effect(Posting(o), y.(place := With(i), posting := |x.accepted|), tasks)
    case Posting(_) =>  // posting the session: lines 125-127 and 28-35; a stopping pool throws
      if stopping then Effect(Outside, x.(refused := true, place := Nowhere), tasks)
      else Effect(Outside, x.(place := InPool, returned := x.returned + {x.posting}), tasks + [o])
    case Closing(_) =>  // lines 98-100
      Effect(Outside, x.(closed := true, commands := []), tasks)
    case Free =>  // a waiting worker takes a task: lines 55-60
      Effect(AtTop(o), x.(place := With(i)), if tasks == [] then [] else tasks[1..])
    case AtTop(_) =>  // the top of the session loop: lines 145-152
      if x.closed || x.commands == [] then Effect(Free, x.(running := false, place := Nowhere), tasks)
      else Effect(Running(o, x.commands[0]), x.(commands := x.commands[1..]), tasks)
    case Running(_, c) =>  // execution, then the closed check, which leaves `running` set: lines 154-165
      if x.closed then Effect(Free, x.(place := Nowhere), tasks) else Effect(Replying(o, c), x, tasks)
    case Replying(_, c) =>  // line 166
      Effect(AtTop(o), x.(replied := x.replied + [c]), tasks)
    case _ => Effect(a, x, tasks)
  }

  function AdvanceStep(s: State, i: nat): State
    requires At(s, i)
  {
    var o := Target(s, i);
    if 0 <= o < |s.objs| then
      var d := EffectOf(i, s.agents[i], o, s.objs[o], s.tasks, s.stopping);
      s.(agents := s.agents[i := d.agent], objs := s.objs[o := d.session], tasks := d.tasks)
    else if s.agents[i].Free? && s.tasks == [] && s.stopping then Move(s, i, Gone)  // line 57
    else s
  }

  /** The effect of an event; an event that cannot happen in `s` leaves it unchanged. */
  function Step(s: State, e: Event): State {
    match e
    case OpenSession(id) =>
      if s.stopped then s  // throws
      else s.(objs := s.objs + [EMPTY], sessions := s.sessions[id := |s.objs|])
    case BeginSubmit(i, id, c) =>
      if At(s, i) && s.agents[i].Outside? && !s.stopped && id in s.sessions
      then Move(s, i, Looked(s.sessions[id], c)) else s
    case BeginClose(i, id) =>
      if At(s, i) && s.agents[i].Outside? && id in s.sessions
      then Move(s, i, Closing(s.sessions[id])).(sessions := s.sessions - {id}) else s
    case Stop => s.(stopped := true)
    case StopPool =>
      if s.stopped && !s.stopping
      then s.(stopping := true, frozen := s.objs, unposted := Unposted(s)) else s
    case ClearSessions => if s.stopping then s.(sessions := map[]) else s
    case Advance(i) => if At(s, i) then AdvanceStep(s, i) else s
  }

  function Run(s: State, events: seq<Event>): State {
    if events == [] then s else Step(Run(s, events[..|events| - 1]), events[|events| - 1])
  }

  // ---------------------------------------------------------------- the invariant

  /** The command popped from session object `o` and not yet replied, if any. */
  function Flight(s: State, o: nat): seq<Command>
    requires o < |s.objs|
  {
    if s.objs[o].place.With? && s.objs[o].place.agent < |s.agents| then
      var a := s.agents[s.objs[o].place.agent];
      if (a.Running? || a.Replying?) && a.obj == o then [a.command] else []
    else []
  }

  ghost predicate AgentOk(s: State, i: nat)
    requires i < |s.agents|
  {
    var a := s.agents[i];
    a.Outside? || a.Free? || a.Gone? ||
    (a.obj < |s.objs| && (a.Holds(a.obj) ==> s.objs[a.obj].place == With(i)))
  }

  ghost predicate PlaceOk(s: State, o: nat)
    requires o < |s.objs|
  {
    match s.objs[o].place
    case Nowhere => true
    case InPool => o in s.tasks
    case With(i) => i < |s.agents| && s.agents[i].Holds(o)
  }

  ghost predicate TasksOk(s: State) {
    && (forall p :: 0 <= p < |s.tasks| ==> s.tasks[p] < |s.objs| && s.objs[s.tasks[p]].place == InPool)
    && (forall p, q :: 0 <= p < q < |s.tasks| ==> s.tasks[p] != s.tasks[q])
  }

  /** Agents, pool and places agree: every runner is where its session's place says. */
  ghost predicate PlacesOk(s: State) {
    && (forall i :: 0 <= i < |s.agents| ==> AgentOk(s, i))
    && (forall o :: 0 <= o < |s.objs| ==> PlaceOk(s, o))
    && TasksOk(s)
    && (forall id :: id in s.sessions ==> s.sessions[id] < |s.objs|)
  }

  /** A Submit on session object `o` stands between queueing its command and posting the session. */
  ghost predicate AtPost(s: State, o: nat)
    requires o < |s.objs|
  {
    var p := s.objs[o].place;
    p.With? && p.agent < |s.agents| && s.agents[p.agent].Posting?
  }

  ghost predicate SessionOk(s: State, o: nat)
    requires o < |s.objs|
  {
    var x := s.objs[o];
    && x.replied + Flight(s, o) <= x.accepted
    && (!x.closed ==> x.accepted == x.replied + Flight(s, o) + x.commands)
    && (!x.closed ==> (x.running <==> x.place != Nowhere || x.refused))
    && (!x.closed && x.commands != [] ==> x.running)
    && (forall n :: n in x.returned ==> n < |x.accepted|)
    && (AtPost(s, o) ==> x.posting < |x.accepted| && x.posting !in x.returned)
    && (!x.closed && AtPost(s, o) ==> x.commands != [] && x.posting == |x.replied|)
    && (x.refused ==> s.stopping && x.place == Nowhere && (!x.closed ==> x.commands != []))
  }

  /** The session's runner, if any, is in the pool or with a worker. */
  ghost predicate Served(s: State, o: nat)
    requires o < |s.objs|
  {
    s.objs[o].place.InPool? ||
    (s.objs[o].place.With? && s.objs[o].place.agent < |s.agents| && s.agents[s.objs[o].place.agent].Works())
  }

  ghost predicate StopOk(s: State, o: nat)
    requires o < |s.frozen| <= |s.objs|
  {
    var x := s.objs[o];
    && s.frozen[o].accepted <= x.accepted
    && (forall n :: n in s.frozen[o].returned ==> n < |s.frozen[o].accepted|)
    && (!x.closed && o !in s.unposted ==> s.frozen[o].accepted <= x.replied || Served(s, o))
    && (!x.closed && o in s.unposted ==> CutOff(s.frozen[o], x) && !Served(s, o) && x.running)
  }

  /** Session `x` got replies to exactly what was accepted before the Submit that was posting in `f`, and
      that Submit had not returned. */
  ghost predicate CutOff(f: Session, x: Session) {
    f.posting < |f.accepted| && f.posting !in f.returned && x.replied == f.accepted[..f.posting]
  }

  ghost predicate Inv(s: State) {
    && PlacesOk(s)
    && (forall o :: 0 <= o < |s.objs| ==> SessionOk(s, o))
    && |s.frozen| <= |s.objs| && (!s.stopping ==> s.frozen == [])
    && (s.stopping ==> s.stopped)
    && (forall o :: 0 <= o < |s.frozen| ==> StopOk(s, o))
    && ((exists i :: 0 <= i < |s.agents| && s.agents[i].Gone?) ==> s.stopping && s.tasks == [])
  }

  lemma NoRunner(s: State, o: nat)
    requires Inv(s) && o < |s.objs| && !s.objs[o].closed && !s.objs[o].running
    ensures s.objs[o].place == Nowhere
  {
    assert SessionOk(s, o);
  }

  // ------------------------------------------------ one agent advancing

  /** An advance changes no session object but its target, and no agent but itself. */
  lemma AdvanceFrame(s: State, i: nat)
    requires At(s, i)
    ensures var t := AdvanceStep(s, i);
            && |t.agents| == |s.agents| && |t.objs| == |s.objs|
            && (forall j :: 0 <= j < |s.agents| && j != i ==> t.agents[j] == s.agents[j])
            && (forall o :: 0 <= o < |s.objs| && o != Target(s, i) ==> t.objs[o] == s.objs[o])
            && t.sessions == s.sessions && t.stopped == s.stopped && t.stopping == s.stopping
            && t.frozen == s.frozen && t.unposted == s.unposted
  {
    hide EffectOf;
  }

  /** The runner of a session other than the target does not move. */
  lemma RunnerApart(s: State, i: nat, o: nat)
    requires PlacesOk(s) && At(s, i) && o < |s.objs| && o != Target(s, i)
    ensures s.objs[o].place != With(i)
  {
    assert PlaceOk(s, o);
  }

  lemma AdvanceMover(s: State, i: nat)
    requires Inv(s) && At(s, i)
    ensures |AdvanceStep(s, i).agents| == |s.agents| && AgentOk(AdvanceStep(s, i), i)
  {
    hide SessionOk, StopOk;
    assert AgentOk(s, i);
  }

  /** An advance leaves its target's runner where it is, or moves it with the agent. */
  lemma AdvancePlace(s: State, i: nat)
    requires Inv(s) && At(s, i) && 0 <= Target(s, i) < |s.objs|
    ensures var o, t := Target(s, i), AdvanceStep(s, i);
            && |t.objs| == |s.objs| && PlaceOk(t, o)
            && (t.objs[o].place == s.objs[o].place || s.objs[o].place == With(i) || s.objs[o].place == Nowhere ||
                (s.agents[i].Free? && s.objs[o].place == InPool && t.objs[o].place == With(i)))
  {
    hide SessionOk, StopOk;
    var o, t := Target(s, i), AdvanceStep(s, i);
    assert PlaceOk(s, o) && AgentOk(s, i);
    if s.agents[i].Looked? && !s.objs[o].closed && !s.objs[o].running { NoRunner(s, o); }
    if s.agents[i].Posting? && !s.stopping { assert t.tasks[|s.tasks|] == o; }
  }

  lemma TaskStays(s: State, i: nat, o: nat)
    requires At(s, i) && o < |s.objs| && o != Target(s, i) && o in s.tasks
    ensures o in AdvanceStep(s, i).tasks
  {
    var t := AdvanceStep(s, i);
    var p :| 0 <= p < |s.tasks| && s.tasks[p] == o;
    if t.tasks == s.tasks[1..] { assert t.tasks[p - 1] == o; } else { assert t.tasks[p] == o; }
  }

  lemma TakeTask(s: State, i: nat)
    requires Inv(s) && At(s, i) && 0 <= Target(s, i) < |s.objs| && s.agents[i].Free?
    ensures TasksOk(AdvanceStep(s, i))
  {
    hide SessionOk, StopOk, AgentOk, PlaceOk;
    var t := AdvanceStep(s, i);
    forall p | 0 <= p < |t.tasks| ensures t.tasks[p] < |t.objs| && t.objs[t.tasks[p]].place == InPool {
      assert t.tasks[p] == s.tasks[p + 1];
    }
  }

  lemma AdvanceTasks(s: State, i: nat)
    requires Inv(s) && At(s, i)
    ensures TasksOk(AdvanceStep(s, i))
  {
    hide SessionOk, StopOk;
    var o := Target(s, i);
    assert AgentOk(s, i);
    if 0 <= o < |s.objs| {
      if s.agents[i].Free? { TakeTask(s, i); } else { AdvancePlace(s, i); }
    }
  }

  lemma AdvancePlaces(s: State, i: nat)
    requires Inv(s) && At(s, i)
    ensures PlacesOk(AdvanceStep(s, i))
  {
    hide SessionOk, StopOk, AdvanceStep, TasksOk;
    var t := AdvanceStep(s, i);
    AdvanceFrame(s, i);
    AdvanceTasks(s, i);
    forall j | 0 <= j < |t.agents| ensures AgentOk(t, j) {
      if j == i {
        AdvanceMover(s, i);
      } else {
        assert AgentOk(s, j);
        if InSession(s, j) && s.agents[j].Holds(s.agents[j].obj) && s.agents[j].obj == Target(s, i) {
          AdvancePlace(s, i);
        }
      }
    }
    forall o | 0 <= o < |t.objs| ensures PlaceOk(t, o) {
      if o == Target(s, i) {
        AdvancePlace(s, i);
      } else {
        assert PlaceOk(s, o);
        RunnerApart(s, i, o);
        if o in s.tasks { TaskStays(s, i, o); }
      }
    }
  }

  lemma LookedKeeps(s: State, i: nat, o: nat)
    requires Inv(s) && At(s, i) && Target(s, i) == o && o < |s.objs| && s.agents[i].Looked?
    ensures SessionOk(AdvanceStep(s, i), o)
  {
    hide StopOk, TasksOk;
    var a, x := s.agents[i], s.objs[o];
    assert SessionOk(s, o) && AgentOk(s, i) && PlaceOk(s, o);
    if !x.closed {
      assert x.accepted + [a.command] == x.replied + Flight(s, o) + (x.commands + [a.command]);
      assert Flight(AdvanceStep(s, i), o) == Flight(s, o);
    }
  }

  lemma TopKeeps(s: State, i: nat, o: nat)
    requires Inv(s) && At(s, i) && Target(s, i) == o && o < |s.objs| && s.agents[i].AtTop?
    ensures SessionOk(AdvanceStep(s, i), o)
  {
    hide StopOk, TasksOk;
    var x := s.objs[o];
    assert SessionOk(s, o) && AgentOk(s, i) && PlaceOk(s, o);
    if !x.closed && x.commands != [] {
      assert Flight(s, o) == [];
      assert x.commands == [x.commands[0]] + x.commands[1..];
      assert x.accepted == x.replied + [x.commands[0]] + x.commands[1..];
    }
  }

  lemma ReplyKeeps(s: State, i: nat, o: nat)
    requires Inv(s) && At(s, i) && Target(s, i) == o && o < |s.objs| && s.agents[i].Replying?
    ensures SessionOk(AdvanceStep(s, i), o)
  {
    hide StopOk, TasksOk;
    var a, x, t := s.agents[i], s.objs[o], AdvanceStep(s, i);
    assert SessionOk(s, o) && AgentOk(s, i) && PlaceOk(s, o);
    assert Flight(s, o) == [a.command] && Flight(t, o) == [];
    assert x.replied + [a.command] + [] == x.replied + [a.command];
  }

  lemma TargetKeeps(s: State, i: nat)
    requires Inv(s) && At(s, i) && 0 <= Target(s, i) < |s.objs|
    ensures SessionOk(AdvanceStep(s, i), Target(s, i))
  {
    hide Inv, SessionOk, AdvanceStep;
    var o, a := Target(s, i), s.agents[i];
    if a.Looked? { LookedKeeps(s, i, o); }
    else if a.AtTop? { TopKeeps(s, i, o); }
    else if a.Replying? { ReplyKeeps(s, i, o); }
    else if a.Posting? { PostKeeps(s, i, o); }
    else if a.Closing? { CloseKeeps(s, i, o); }
    else if a.Free? { TakeKeeps(s, i, o); }
    else { assert a.Running?; RunKeeps(s, i, o); }
  }

  lemma PostKeeps(s: State, i: nat, o: nat)
    requires Inv(s) && At(s, i) && Target(s, i) == o && o < |s.objs| && s.agents[i].Posting?
    ensures SessionOk(AdvanceStep(s, i), o)
  {
    hide StopOk, TasksOk;
    assert SessionOk(s, o) && AgentOk(s, i) && PlaceOk(s, o);
    assert Flight(AdvanceStep(s, i), o) == Flight(s, o) == [];
  }

  lemma CloseKeeps(s: State, i: nat, o: nat)
    requires Inv(s) && At(s, i) && Target(s, i) == o && o < |s.objs| && s.agents[i].Closing?
    ensures SessionOk(AdvanceStep(s, i), o)
  {
    hide StopOk, TasksOk;
    assert SessionOk(s, o) && AgentOk(s, i) && PlaceOk(s, o);
    assert Flight(AdvanceStep(s, i), o) == Flight(s, o);
  }

  lemma TakeKeeps(s: State, i: nat, o: nat)
    requires Inv(s) && At(s, i) && Target(s, i) == o && o < |s.objs| && s.agents[i].Free?
    ensures SessionOk(AdvanceStep(s, i), o)
  {
    hide StopOk, AgentOk, PlaceOk;
    assert SessionOk(s, o);
    assert s.objs[o].place == InPool;
    assert Flight(AdvanceStep(s, i), o) == Flight(s, o) == [];
  }

  lemma RunKeeps(s: State, i: nat, o: nat)
    requires Inv(s) && At(s, i) && Target(s, i) == o && o < |s.objs| && s.agents[i].Running?
    ensures SessionOk(AdvanceStep(s, i), o)
  {
    hide StopOk, TasksOk;
    assert SessionOk(s, o) && AgentOk(s, i) && PlaceOk(s, o);
    assert Flight(s, o) == [s.agents[i].command];
  }

  /** A session whose own state, runner and runner's phase did not change stays as it was. */
  lemma OtherSession(s: State, t: State, o: nat)
    requires o < |s.objs| <= |t.objs| && SessionOk(s, o) && t.objs[o] == s.objs[o]
    requires |s.agents| == |t.agents| && (s.stopping ==> t.stopping)
    requires s.objs[o].place.With? && s.objs[o].place.agent < |s.agents| ==>
               t.agents[s.objs[o].place.agent] == s.agents[s.objs[o].place.agent]
    ensures SessionOk(t, o)
  {
  }

  lemma TargetStop(s: State, i: nat)
    requires Inv(s) && At(s, i) && 0 <= Target(s, i) < |s.frozen|
    ensures AdvanceStep(s, i).frozen == s.frozen && |AdvanceStep(s, i).objs| == |s.objs|
    ensures StopOk(AdvanceStep(s, i), Target(s, i))
  {
    var o := Target(s, i);
    assert StopOk(s, o) && SessionOk(s, o) && PlaceOk(s, o) && AgentOk(s, i);
  }

  lemma AdvanceSessions(s: State, i: nat)
    requires Inv(s) && At(s, i)
    ensures var t := AdvanceStep(s, i);
            && |t.objs| == |s.objs| && t.frozen == s.frozen
            && (forall o :: 0 <= o < |t.objs| ==> SessionOk(t, o))
            && (forall o :: 0 <= o < |t.frozen| ==> StopOk(t, o))
  {
    hide AdvanceStep, AgentOk, TasksOk;
    var t := AdvanceStep(s, i);
    AdvanceFrame(s, i);
    forall o | 0 <= o < |t.objs| ensures SessionOk(t, o) {
      if o == Target(s, i) { TargetKeeps(s, i); }
      else { RunnerApart(s, i, o); OtherSession(s, t, o); }
    }
    forall o | 0 <= o < |t.frozen| ensures StopOk(t, o) {
      if o == Target(s, i) { TargetStop(s, i); }
      else { RunnerApart(s, i, o); assert StopOk(s, o); }
    }
  }

  lemma AdvanceInv(s: State, i: nat)
    requires Inv(s) && At(s, i)
    ensures Inv(AdvanceStep(s, i))
  {
    hide SessionOk, StopOk, PlacesOk;
    AdvancePlaces(s, i);
    AdvanceSessions(s, i);
    AdvanceFrame(s, i);
    var t := AdvanceStep(s, i);
    if j :| 0 <= j < |t.agents| && t.agents[j].Gone? {
      assert j != i ==> s.agents[j].Gone?;
    }
  }

  // ------------------------------------------------ the other events

  /** When the pool is told to stop, an idle session has been fully served. */
  lemma FreezeStop(s: State, o: nat)
    requires Inv(s) && s.stopped && !s.stopping && o < |s.objs|
    ensures StopOk(Step(s, StopPool), o)
  {
    var x, t := s.objs[o], Step(s, StopPool);
    assert SessionOk(s, o) && PlaceOk(s, o);
    if o in t.unposted {
      var i :| 0 <= i < |s.agents| && s.agents[i].Posting? && s.agents[i].obj == o;
      assert AgentOk(s, i);
    } else if x.place.With? {
      assert !s.agents[x.place.agent].Posting?;
    }
  }

  /** Beginning a call moves only an agent that is outside any call. */
  lemma BeginInv(s: State, i: nat, a: Agent, sessions: map<nat, nat>)
    requires Inv(s) && At(s, i) && s.agents[i].Outside? && (a.Looked? || a.Closing?) && a.obj < |s.objs|
    requires sessions.Keys <= s.sessions.Keys && forall id :: id in sessions ==> sessions[id] == s.sessions[id]
    ensures Inv(Move(s, i, a).(sessions := sessions))
  {
    var t := Move(s, i, a).(sessions := sessions);
    forall j | 0 <= j < |t.agents| ensures AgentOk(t, j) { assert AgentOk(s, j); }
    forall o | 0 <= o < |t.objs| ensures PlaceOk(t, o) && SessionOk(t, o) {
      assert PlaceOk(s, o);
      assert s.objs[o].place != With(i);
      OtherSession(s, t, o);
    }
    forall o | 0 <= o < |t.frozen| ensures StopOk(t, o) { assert StopOk(s, o) && PlaceOk(s, o); }
    if j :| 0 <= j < |t.agents| && t.agents[j].Gone? { assert s.agents[j].Gone?; }
  }

  lemma OpenInv(s: State, id: nat)
    requires Inv(s) && !s.stopped
    ensures Inv(Step(s, OpenSession(id)))
  {
    var t := Step(s, OpenSession(id));
    forall j | 0 <= j < |t.agents| ensures AgentOk(t, j) { assert AgentOk(s, j); }
    forall o | 0 <= o < |t.objs| ensures PlaceOk(t, o) && SessionOk(t, o) {
      if o < |s.objs| {
        assert PlaceOk(s, o);
        OtherSession(s, t, o);
      }
    }
  }

  lemma StopPoolInv(s: State)
    requires Inv(s) && s.stopped && !s.stopping
    ensures Inv(Step(s, StopPool))
  {
    hide StopOk;
    var t := Step(s, StopPool);
    forall j | 0 <= j < |t.agents| ensures AgentOk(t, j) { assert AgentOk(s, j); }
    forall o | 0 <= o < |t.objs| ensures PlaceOk(t, o) && SessionOk(t, o) {
      assert PlaceOk(s, o);
      OtherSession(s, t, o);
    }
    forall o | 0 <= o < |t.frozen| ensures StopOk(t, o) { FreezeStop(s, o); }
  }

  lemma FlagInv(s: State, t: State)
    requires Inv(s)
    requires t == s.(stopped := true) || (s.stopping && t == s.(sessions := map[]))
    ensures Inv(t)
  {
    forall j | 0 <= j < |t.agents| ensures AgentOk(t, j) { assert AgentOk(s, j); }
    forall o | 0 <= o < |t.objs| ensures PlaceOk(t, o) && SessionOk(t, o) {
      assert PlaceOk(s, o);
      OtherSession(s, t, o);
    }
    forall o | 0 <= o < |t.frozen| ensures StopOk(t, o) { assert StopOk(s, o); }
  }

  lemma InvKept(s: State, e: Event)
    requires Inv(s)
    ensures Inv(Step(s, e))
  {
    hide SessionOk, StopOk, AgentOk, PlaceOk, TasksOk, AdvanceStep, Unposted;
    var t := Step(s, e);
    if t != s {
      match e
      case OpenSession(id) => OpenInv(s, id);
      case BeginSubmit(i, id, c) => BeginInv(s, i, Looked(s.sessions[id], c), s.sessions);
      case BeginClose(i, id) => BeginInv(s, i, Closing(s.sessions[id]), s.sessions - {id});
      case Stop => FlagInv(s, t);
      case StopPool => StopPoolInv(s);
      case ClearSessions => FlagInv(s, t);
      case Advance(i) => AdvanceInv(s, i);
    }
  }

  /** Callers outside any call and workers waiting for tasks. */
  ghost predicate Initial(agents: seq<Agent>) {
    forall i :: 0 <= i < |agents| ==> agents[i].Outside? || agents[i].Free?
  }

  lemma {:induction false} RunInv(agents: seq<Agent>, events: seq<Event>)
    requires Initial(agents)
    ensures Inv(Run(Start(agents), events))
  {
    hide Step, SessionOk, StopOk;
    if events != [] {
      RunInv(agents, events[..|events| - 1]);
      InvKept(Run(Start(agents), events[..|events| - 1]), events[|events| - 1]);
    }
  }

  // ---------------------------------------------------------------- theorems

  /** Single runner: in every interleaving a session object is held by at most one agent, is in the
      pool at most once, and never both. */
  lemma SingleRunner(agents: seq<Agent>, events: seq<Event>, o: nat, i: nat, j: nat)
    requires Initial(agents)
    requires var s := Run(Start(agents), events);
             i < |s.agents| && j < |s.agents| && s.agents[i].Holds(o) && s.agents[j].Holds(o)
    ensures i == j && o !in Run(Start(agents), events).tasks
  {
    RunInv(agents, events);
    var s := Run(Start(agents), events);
    assert AgentOk(s, i) && AgentOk(s, j);
  }

  lemma PooledOnce(agents: seq<Agent>, events: seq<Event>, p: nat, q: nat)
    requires Initial(agents)
    requires var t := Run(Start(agents), events).tasks; p < |t| && q < |t| && t[p] == t[q]
    ensures p == q
  {
    RunInv(agents, events);
  }

  /** Order: the replies of a session are, each once and in submission order, the first of its
      accepted commands; on a session never closed, accepted commands are the replies, then at most
      one in flight, then the queue. */
  lemma RepliesInOrder(agents: seq<Agent>, events: seq<Event>, o: nat)
    requires Initial(agents) && o < |Run(Start(agents), events).objs|
    ensures var s := Run(Start(agents), events);
            var x := s.objs[o];
            && x.replied <= x.accepted
            && |Flight(s, o)| <= 1
            && (!x.closed ==> x.accepted == x.replied + Flight(s, o) + x.commands)
  {
    RunInv(agents, events);
    assert SessionOk(Run(Start(agents), events), o);
  }

  /** No lost wakeup: an open session with queued commands has a runner posted, executing, or about
      to be posted, unless the stopping pool refused it. */
  lemma NoLostWakeup(agents: seq<Agent>, events: seq<Event>, o: nat)
    requires Initial(agents) && o < |Run(Start(agents), events).objs|
    ensures var s := Run(Start(agents), events);
            var x := s.objs[o];
            !x.closed && x.commands != [] && !x.refused ==>
              o in s.tasks || exists i :: 0 <= i < |s.agents| && s.agents[i].Holds(o)
    ensures Run(Start(agents), events).objs[o].refused ==> Run(Start(agents), events).stopping
  {
    RunInv(agents, events);
    var s := Run(Start(agents), events);
    assert SessionOk(s, o) && PlaceOk(s, o);
  }

  /** The pool's join has returned: some worker existed and none is left. */
  ghost predicate Joined(s: State) {
    && (exists i :: 0 <= i < |s.agents| && s.agents[i].Gone?)
    && (forall i :: 0 <= i < |s.agents| ==> !s.agents[i].Works())
  }

  /** Graceful stop, all commands: once the pool is joined, a session never closed has replies to all it
      had accepted when the pool was told to stop, unless a Submit on it was then between queueing its
      command and posting the session; in that case it has replies to exactly what was accepted before
      that command. */
  lemma StopReplies(agents: seq<Agent>, events: seq<Event>, o: nat)
    requires Initial(agents) && Joined(Run(Start(agents), events))
    requires var s := Run(Start(agents), events); o < |s.frozen| <= |s.objs| && !s.objs[o].closed
    ensures var s := Run(Start(agents), events);
            var f, x := s.frozen[o], s.objs[o];
            if o in s.unposted then CutOff(f, x) else f.accepted <= x.replied
  {
    RunInv(agents, events);
    var s := Run(Start(agents), events);
    assert StopOk(s, o) && PlaceOk(s, o);
  }

  /** Graceful stop, returned Submits: a command whose Submit had returned when the pool was told to stop
      is lost if and only if it was queued after a command whose Submit was then still posting the
      session. */
  lemma StopDeliversIff(agents: seq<Agent>, events: seq<Event>, o: nat, n: nat)
    requires Initial(agents) && Joined(Run(Start(agents), events))
    requires var s := Run(Start(agents), events);
             o < |s.frozen| <= |s.objs| && !s.objs[o].closed && n in s.frozen[o].returned
    ensures var s := Run(Start(agents), events);
            var f, x := s.frozen[o], s.objs[o];
            && n < |f.accepted|
            && (n < |x.replied| && x.replied[n] == f.accepted[n] <==> !(o in s.unposted && f.posting < n))
  {
    RunInv(agents, events);
    StopReplies(agents, events, o);
    var s := Run(Start(agents), events);
    assert StopOk(s, o);
    hide Run, Inv, StopOk, Joined;
    var f, x := s.frozen[o], s.objs[o];
    if o !in s.unposted { assert x.replied[..|f.accepted|] == f.accepted; }
  }

  lemma RunSnoc(s: State, events: seq<Event>, e: Event)
    ensures Run(s, events + [e]) == Step(Run(s, events), e)
  {
    assert (events + [e])[..|events|] == events;
  }

  /** The exception in the previous theorem is real: with two overlapping Submits on one session, the
      second returns before Stop begins, the first loses the race to post, and neither command is
      ever replied to. */
  lemma OverlappingSubmitCanBeLost(c: Command, d: Command) returns (before: seq<Event>, after: seq<Event>)
    ensures var agents := [Outside, Outside, Free];
            var s, t := Run(Start(agents), before), Run(Start(agents), before + after);
            && |s.agents| == 3 && s.agents[1] == Outside && !s.stopped
            && |s.objs| == |t.objs| == 1 && s.objs[0].accepted == [c, d] && s.objs[0].returned == {1}
            && Joined(t) && !t.objs[0].closed && t.objs[0].replied == []
  {
    var s0 := Start([Outside, Outside, Free]);
    before := [];
    assert Run(s0, before) == s0;
    FirstSubmit(c);
    SecondSubmit(c, d);
    hide Joined, Run, Step;
    var s1 := Extend(s0, before, OpenSession(7));
    before := before + [OpenSession(7)];
    var s2 := Extend(s0, before, BeginSubmit(0, 7, c));
    before := before + [BeginSubmit(0, 7, c)];
    var s3 := Extend(s0, before, Advance(0));
    before := before + [Advance(0)];
    var s4 := Extend(s0, before, BeginSubmit(1, 7, d));
    before := before + [BeginSubmit(1, 7, d)];
    var s5 := Extend(s0, before, Advance(1));
    before := before + [Advance(1)];
    after := [Stop, StopPool, Advance(0), Advance(2)];
    LostEnding(s0, before, s5, after);
  }

  /** Two callers and a worker; session 7 holds `commands` and the first caller is about to post it. */
  function Racing(commands: seq<Command>, returned: set<nat>): State {
    var x := Session(commands, true, false, commands, [], false, With(0), 0, returned);
    Start([Posting(0), Outside, Free]).(objs := [x], sessions := map[7 := 0])
  }

  lemma FirstSubmit(c: Command)
    ensures Step(Step(Step(Start([Outside, Outside, Free]), OpenSession(7)), BeginSubmit(0, 7, c)), Advance(0)) ==
            Racing([c], {})
  {
    var s1 := Step(Start([Outside, Outside, Free]), OpenSession(7));
    assert s1.objs == [EMPTY] && s1.sessions == map[7 := 0];
    var s2 := Step(s1, BeginSubmit(0, 7, c));
    assert s2.agents == [Looked(0, c), Outside, Free];
    var s3 := Step(s2, Advance(0));
    assert [] + [c] == [c];
    assert s3.objs == Racing([c], {}).objs && s3.agents == Racing([c], {}).agents;
  }

  lemma SecondSubmit(c: Command, d: Command)
    ensures Step(Step(Racing([c], {}), BeginSubmit(1, 7, d)), Advance(1)) == Racing([c, d], {1})
  {
    var s4 := Step(Racing([c], {}), BeginSubmit(1, 7, d));
    assert s4.agents == [Posting(0), Looked(0, d), Free];
    var s5 := Step(s4, Advance(1));
    assert [c] + [d] == [c, d] && {} + {1} == {1};
    assert s5.objs[0] == Racing([c, d], {1}).objs[0];
    assert s5.objs == Racing([c, d], {1}).objs && s5.agents == Racing([c, d], {1}).agents;
  }

  lemma Extend(s0: State, events: seq<Event>, e: Event) returns (s: State)
    ensures s == Run(s0, events + [e]) == Step(Run(s0, events), e)
  {
    RunSnoc(s0, events, e);
    s := Run(s0, events + [e]);
  }

  lemma LostEnding(s0: State, before: seq<Event>, s: State, after: seq<Event>)
    requires s == Run(s0, before) && after == [Stop, StopPool, Advance(0), Advance(2)]
    requires s.agents == [Posting(0), Outside, Free] && |s.objs| == 1 && s.tasks == [] && !s.stopping
    ensures var t := Run(s0, before + after);
            |t.objs| == 1 && Joined(t) && t.objs[0].replied == s.objs[0].replied && t.objs[0].closed == s.objs[0].closed
  {
    hide Run;
    var a := Extend(s0, before, Stop);
    var b := Extend(s0, before + [Stop], StopPool);
    assert b.agents == s.agents && b.objs == s.objs && b.tasks == [] && b.stopping;
    var c := Extend(s0, before + [Stop] + [StopPool], Advance(0));
    assert c.agents == [Outside, Outside, Free] && c.tasks == [] && c.stopping;
    var t := Extend(s0, before + [Stop] + [StopPool] + [Advance(0)], Advance(2));
    assert before + after == before + [Stop] + [StopPool] + [Advance(0)] + [Advance(2)];
    assert t.agents == [Outside, Outside, Gone];
    assert t.agents[2] == Gone;
  }

  // ---------------------------------------------------------------- progress

  /** `n` steps of agent `i` in a row. */
  function Turns(i: nat, n: nat): seq<Event> {
    seq(n, _ => Advance(i))
  }

  lemma {:induction false} RunAppend(s: State, a: seq<Event>, b: seq<Event>)
    ensures Run(s, a + b) == Run(Run(s, a), b)
  {
    hide Step;
    if b == [] {
      assert a + b == a;
    } else {
      assert (a + b)[..|a + b| - 1] == a + b[..|b| - 1];
      RunAppend(s, a, b[..|b| - 1]);
    }
  }

  lemma RunTurn(s: State, i: nat, n: nat)
    ensures Run(s, Turns(i, n + 1)) == Run(Step(s, Advance(i)), Turns(i, n))
  {
    hide Step;
    RunSnoc(s, [], Advance(i));
    assert [] + [Advance(i)] == [Advance(i)];
    assert Turns(i, n + 1) == [Advance(i)] + Turns(i, n);
    RunAppend(s, [Advance(i)], Turns(i, n));
  }

  /** The session after its queue was served to the end and its runner gave it up. */
  function Finished(x: Session): Session {
    if x.closed then x.(running := false, place := Nowhere)
    else x.(commands := [], replied := x.replied + x.commands, running := false, place := Nowhere)
  }

  /** A runner at the top of its loop executes and answers the next command in three steps. */
  lemma ServeOne(s: State, w: nat, o: nat)
    requires At(s, w) && o < |s.objs| && s.agents[w] == AtTop(o) && !s.objs[o].closed && s.objs[o].commands != []
    ensures var x := s.objs[o];
            Step(Step(Step(s, Advance(w)), Advance(w)), Advance(w)) ==
            s.(objs := s.objs[o := x.(commands := x.commands[1..], replied := x.replied + [x.commands[0]])])
  {
    var x := s.objs[o];
    var a := Step(s, Advance(w));
    assert a.agents[w] == Running(o, x.commands[0]);
    var b := Step(a, Advance(w));
    assert b.agents[w] == Replying(o, x.commands[0]);
    var c := Step(b, Advance(w));
    assert c.agents == s.agents;
  }

  lemma {:induction false} ServeAll(s: State, w: nat, o: nat)
    requires At(s, w) && o < |s.objs| && s.agents[w] == AtTop(o)
    ensures var n := if s.objs[o].closed then 0 else |s.objs[o].commands|;
            Run(s, Turns(w, 3 * n + 1)) == s.(agents := s.agents[w := Free], objs := s.objs[o := Finished(s.objs[o])])
    decreases |s.objs[o].commands|
  {
    hide Step, Run, Finished;
    var x := s.objs[o];
    if x.closed || x.commands == [] {
      RunTurn(s, w, 0);
      GiveUp(s, w, o);
    } else {
      var m := 3 * (|x.commands| - 1) + 1;
      var t := Step(Step(Step(s, Advance(w)), Advance(w)), Advance(w));
      ServeOne(s, w, o);
      ThreeTurns(s, w, m);
      ServeAll(t, w, o);
      FinishedLater(x);
      assert t.objs[o := Finished(t.objs[o])] == s.objs[o := Finished(x)];
    }
  }

  lemma GiveUp(s: State, w: nat, o: nat)
    requires At(s, w) && o < |s.objs| && s.agents[w] == AtTop(o) && (s.objs[o].closed || s.objs[o].commands == [])
    ensures Run(Step(s, Advance(w)), Turns(w, 0)) == s.(agents := s.agents[w := Free],
            objs := s.objs[o := Finished(s.objs[o])])
  {
    assert s.objs[o].replied + [] == s.objs[o].replied;
  }

  lemma FinishedLater(x: Session)
    requires !x.closed && x.commands != []
    ensures Finished(x.(commands := x.commands[1..], replied := x.replied + [x.commands[0]])) == Finished(x)
  {
    assert x.replied + [x.commands[0]] + x.commands[1..] == x.replied + x.commands;
  }

  lemma ThreeTurns(s: State, w: nat, n: nat)
    ensures Run(s, Turns(w, n + 3)) == Run(Step(Step(Step(s, Advance(w)), Advance(w)), Advance(w)), Turns(w, n))
  {
    hide Step;
    RunTurn(s, w, n + 2);
    RunTurn(Step(s, Advance(w)), w, n + 1);
    RunTurn(Step(Step(s, Advance(w)), Advance(w)), w, n);
  }

  /** A waiting worker takes the session at the head of the pool and serves all of its queue. */
  lemma HeadIsServed(s: State, w: nat) returns (n: nat)
    requires At(s, w) && s.agents[w].Free? && s.tasks != [] && s.tasks[0] < |s.objs|
    ensures var o := s.tasks[0];
            Run(s, Turns(w, n)) == s.(tasks := s.tasks[1..], objs := s.objs[o := Finished(s.objs[o])])
  {
    hide Step, Run, Finished;
    var o := s.tasks[0];
    var t := Step(s, Advance(w));
    TakeStep(s, w);
    var m := 3 * (if s.objs[o].closed then 0 else |s.objs[o].commands|) + 1;
    n := m + 1;
    RunTurn(s, w, m);
    ServeAll(t, w, o);
    FinishedMoved(s.objs[o], With(w));
    assert t.agents[w := Free] == s.agents;
    assert t.objs[o := Finished(t.objs[o])] == s.objs[o := Finished(s.objs[o])];
  }

  lemma TakeStep(s: State, w: nat)
    requires At(s, w) && s.agents[w].Free? && s.tasks != [] && s.tasks[0] < |s.objs|
    ensures var o := s.tasks[0];
            Step(s, Advance(w)) ==
            s.(agents := s.agents[w := AtTop(o)], objs := s.objs[o := s.objs[o].(place := With(w))],
                tasks := s.tasks[1..])
  {
  }

  lemma FinishedMoved(x: Session, place: Place)
    ensures Finished(x.(place := place)) == Finished(x)
  {
  }

  /** One worker on its own empties the pool, serving every session in it to the end. */
  lemma {:induction false} PoolDrains(s: State, w: nat) returns (n: nat)
    requires At(s, w) && s.agents[w].Free? && TasksOk(s)
    ensures var t := Run(s, Turns(w, n));
            && t.tasks == [] && |t.objs| == |s.objs| && t.agents == s.agents && t.stopping == s.stopping
            && forall o :: 0 <= o < |s.objs| ==> t.objs[o] == if o in s.tasks then Finished(s.objs[o]) else s.objs[o]
    decreases |s.tasks|
  {
    hide Step, Finished;
    if s.tasks == [] {
      n := 0;
    } else {
      var o := s.tasks[0];
      var a := HeadIsServed(s, w);
      var t := s.(tasks := s.tasks[1..], objs := s.objs[o := Finished(s.objs[o])]);
      var b := PoolDrains(t, w);
      n := a + b;
      assert Turns(w, a + b) == Turns(w, a) + Turns(w, b);
      RunAppend(s, Turns(w, a), Turns(w, b));
      assert s.tasks == [o] + t.tasks;
    }
  }

  /** Progress: in every reachable state a waiting worker can, on its own, empty the pool and answer every
      command accepted by the open sessions in it. */
  lemma PoolIsAnswered(agents: seq<Agent>, events: seq<Event>, w: nat) returns (n: nat)
    requires Initial(agents) && At(Run(Start(agents), events), w) && Run(Start(agents), events).agents[w].Free?
    ensures var s, t := Run(Start(agents), events), Run(Start(agents), events + Turns(w, n));
            && t.tasks == [] && |t.objs| == |s.objs|
            && forall o :: 0 <= o < |s.objs| && o in s.tasks && !s.objs[o].closed ==>
                 t.objs[o].replied == t.objs[o].accepted == s.objs[o].accepted && !t.objs[o].running
  {
    RunInv(agents, events);
    var s := Run(Start(agents), events);
    n := PoolDrains(s, w);
    RunAppend(Start(agents), events, Turns(w, n));
    hide Run;
    forall o | 0 <= o < |s.objs| && o in s.tasks && !s.objs[o].closed
      ensures s.objs[o].accepted == s.objs[o].replied + s.objs[o].commands
    {
      assert SessionOk(s, o) && Flight(s, o) == [];
      assert s.objs[o].replied + [] == s.objs[o].replied;
    }
  }

  /** A Submit on an open session of a running dispatcher always queues its command, and posts the session
      exactly if it has no runner. */
  lemma SubmitSchedules(s: State, i: nat, id: nat, c: Command)
    requires Inv(s) && At(s, i) && s.agents[i].Outside? && !s.stopped && id in s.sessions &&
             !s.objs[s.sessions[id]].closed
    ensures var o := s.sessions[id];
            var t := Step(Step(Step(s, BeginSubmit(i, id, c)), Advance(i)), Advance(i));
            && |t.objs| == |s.objs| && t.objs[o].commands == s.objs[o].commands + [c] && t.agents == s.agents
            && t.objs[o].returned == s.objs[o].returned + {|s.objs[o].accepted|}
            && t.tasks == if s.objs[o].running then s.tasks else s.tasks + [o]
  {
    var o := s.sessions[id];
    var a := Step(s, BeginSubmit(i, id, c));
    assert a.agents[i] == Looked(o, c);
    var b := Step(a, Advance(i));
    assert b.agents[i] == if s.objs[o].running then Outside else Posting(o);
  }
}

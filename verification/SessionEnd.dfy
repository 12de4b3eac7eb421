/** The end of a session and of the dispatcher: what CloseSession and Stop bring to an end. */
module SessionEnd {
  import R = Resp
  import opened Dispatcher

  /** The command of session object `o` whose reply is about to be delivered, if any. */
  function AtReply(s: State, o: nat): seq<R.Command>
    requires o < |s.objs|
  {
    var p := s.objs[o].place;
    if p.With? && p.agent < |s.agents| && s.agents[p.agent].Replying? && s.agents[p.agent].obj == o
    then [s.agents[p.agent].command] else []
  }

  predicate Executes(a: Agent, o: nat) {
    a.Running? && a.obj == o
  }

  /** From `s` to `t` session object `o` stayed closed: nothing queued, nothing accepted, nothing begun, and
      no reply but the one that was about to be delivered. */
  ghost predicate StayedClosed(s: State, t: State, o: nat) {
    && o < |s.objs| <= |t.objs| && |t.agents| == |s.agents|
    && t.objs[o].closed && t.objs[o].commands == [] && t.objs[o].accepted == s.objs[o].accepted
    && s.objs[o].replied <= t.objs[o].replied
    && t.objs[o].replied + AtReply(t, o) == s.objs[o].replied + AtReply(s, o)
    && (forall i :: 0 <= i < |t.agents| && Executes(t.agents[i], o) ==> t.agents[i] == s.agents[i])
  }

  predicate Closed(s: State, o: nat) {
    o < |s.objs| && s.objs[o].closed && s.objs[o].commands == []
  }

  /** The place of a session changes only with its runner. */
  lemma ReplyApart(s: State, i: nat, o: nat)
    requires Inv(s) && At(s, i) && o < |s.objs| && o != Target(s, i)
    ensures var t := AdvanceStep(s, i); o < |t.objs| && t.objs[o] == s.objs[o] && AtReply(t, o) == AtReply(s, o)
  {
    hide SessionOk, StopOk, EffectOf;
    AdvanceFrame(s, i);
    RunnerApart(s, i, o);
  }

  /** A reply that was about to be delivered is delivered. */
  lemma ClosedReplies(s: State, i: nat, o: nat)
    requires Inv(s) && At(s, i) && Closed(s, o) && s.agents[i].Replying? && s.agents[i].obj == o
    ensures StayedClosed(s, AdvanceStep(s, i), o)
  {
    hide SessionOk, StopOk, PlaceOk;
    assert AgentOk(s, i);
    var c := s.agents[i].command;
    assert s.objs[o].replied + [c] + [] == s.objs[o].replied + [c];
  }

  lemma ClosedEffect(i: nat, a: Agent, o: nat, x: Session, tasks: seq<nat>, stopping: bool)
    requires x.closed && x.commands == [] && !a.Replying? && !a.Outside? && !a.Gone?
    ensures var d := EffectOf(i, a, o, x, tasks, stopping);
            && d.session.closed && d.session.commands == []
            && d.session.accepted == x.accepted && d.session.replied == x.replied
            && !d.agent.Running? && !d.agent.Replying?
            && (a.Looked? || a.Closing? ==> d.session.place == x.place)
            && (d.session.place.With? ==> d.session.place == With(i) || d.session.place == x.place)
  {
  }

  /** Any other step of an agent on a closed session. */
  lemma ClosedTarget(s: State, i: nat, o: nat)
    requires Inv(s) && At(s, i) && Closed(s, o) && o == Target(s, i) && !s.agents[i].Replying?
    ensures StayedClosed(s, AdvanceStep(s, i), o)
  {
    assert AgentOk(s, i);
    var a, x := s.agents[i], s.objs[o];
    assert a.Free? ==> x.place == InPool;
    assert !a.Looked? && !a.Closing? && !a.Free? ==> x.place == With(i);
    ClosedEffect(i, a, o, x, s.tasks, s.stopping);
    hide Inv, EffectOf, AgentOk;
  }

  lemma ClosedStep(s: State, e: Event, o: nat)
    requires Inv(s) && Closed(s, o)
    ensures StayedClosed(s, Step(s, e), o)
  {
    if e.Advance? {
      if At(s, e.i) {
        hide EffectOf;
        if o == Target(s, e.i) {
          if s.agents[e.i].Replying? { ClosedReplies(s, e.i, o); } else { ClosedTarget(s, e.i, o); }
        } else {
          ReplyApart(s, e.i, o);
          AdvanceFrame(s, e.i);
          NotBegun(s, e.i, o);
          hide AdvanceStep, Inv;
        }
      }
    } else {
      hide AdvanceStep, SessionOk, StopOk;
      assert PlaceOk(s, o);
    }
  }

  /** An agent starts executing a command only of its target. */
  lemma NotBegun(s: State, i: nat, o: nat)
    requires Inv(s) && At(s, i) && o < |s.objs| && o != Target(s, i)
    ensures Executes(AdvanceStep(s, i).agents[i], o) ==> AdvanceStep(s, i).agents[i] == s.agents[i]
  {
    hide SessionOk, StopOk;
    assert AgentOk(s, i);
  }

  lemma StayedTwice(s: State, t: State, u: State, o: nat)
    requires StayedClosed(s, t, o) && StayedClosed(t, u, o)
    ensures StayedClosed(s, u, o)
  {
    hide AtReply;
  }

  lemma {:induction false} ClosedForGood(s: State, more: seq<Event>, o: nat)
    requires Inv(s) && Closed(s, o)
    ensures Inv(Run(s, more)) && StayedClosed(s, Run(s, more), o)
  {
    hide Inv, Step, AtReply;
    if more != [] {
      var n := |more| - 1;
      ClosedForGood(s, more[..n], o);
      var t := Run(s, more[..n]);
      InvKept(t, more[n]);
      ClosedStep(t, more[n], o);
      StayedTwice(s, t, Step(t, more[n]), o);
    }
  }

  // ---------------------------------------------------------------- theorems

  /** Closing is final. In every run, once a close of a session has taken its second step, the session is
      closed with an empty queue for ever: nothing more is accepted, no further command of it starts
      executing, and it gets no reply but the one that was already about to be delivered. */
  lemma CloseIsFinal(agents: seq<Agent>, events: seq<Event>, i: nat, more: seq<Event>)
    requires Initial(agents)
    requires var s := Run(Start(agents), events); At(s, i) && s.agents[i].Closing?
    ensures var s := Run(Start(agents), events);
            var o, t := s.agents[i].obj, Run(Step(s, Advance(i)), more);
            && o < |s.objs| <= |t.objs| && |t.agents| == |s.agents|
            && t.objs[o].closed && t.objs[o].commands == []
            && t.objs[o].accepted == s.objs[o].accepted
            && s.objs[o].replied <= t.objs[o].replied <= s.objs[o].replied + AtReply(s, o)
            && forall j :: 0 <= j < |t.agents| && Executes(t.agents[j], o) ==> t.agents[j] == s.agents[j]
  {
    var s := Run(Start(agents), events);
    RunInv(agents, events);
    ClosingStep(s, i);
    InvKept(s, Advance(i));
    ClosedForGood(Step(s, Advance(i)), more, s.agents[i].obj);
    hide Run, Step, Inv, AtReply;
  }

  /** The second step of a close marks the session and clears its queue, and nothing else. */
  lemma ClosingStep(s: State, i: nat)
    requires Inv(s) && At(s, i) && s.agents[i].Closing?
    ensures var o, t := s.agents[i].obj, Step(s, Advance(i));
            && o < |s.objs| == |t.objs| && Closed(t, o) && |t.agents| == |s.agents|
            && t.objs[o].accepted == s.objs[o].accepted && t.objs[o].replied == s.objs[o].replied
            && AtReply(t, o) == AtReply(s, o)
            && forall j :: 0 <= j < |t.agents| && Executes(t.agents[j], o) ==> t.agents[j] == s.agents[j]
  {
    hide SessionOk, StopOk;
    assert AgentOk(s, i) && PlaceOk(s, s.agents[i].obj);
  }

  /** A CloseSession call, from its start to its return: the id is free again and its session is closed. */
  lemma CloseCall(s: State, i: nat, id: nat)
    requires Inv(s) && At(s, i) && s.agents[i].Outside? && id in s.sessions
    ensures var t := Step(Step(s, BeginClose(i, id)), Advance(i));
            && t.sessions == s.sessions - {id} && Closed(t, s.sessions[id]) && t.agents == s.agents
            && forall o :: 0 <= o < |s.objs| && o != s.sessions[id] ==> |t.objs| == |s.objs| && t.objs[o] == s.objs[o]
  {
    hide SessionOk, StopOk, PlaceOk;
    assert s.sessions[id] < |s.objs|;
    var a := Step(s, BeginClose(i, id));
    assert a.agents == s.agents[i := Closing(s.sessions[id])];
  }

  /** A worker at a closed session is free after its next step: the session does not hold up the pool. */
  lemma ClosedFrees(s: State, i: nat)
    requires Inv(s) && At(s, i) && (s.agents[i].AtTop? || s.agents[i].Running?) && Closed(s, s.agents[i].obj)
    ensures var t := Step(s, Advance(i)); |t.agents| == |s.agents| && t.agents[i] == Free
  {
    hide Inv;
  }

  /** A stopped dispatcher opens no session and takes no command. */
  lemma {:induction false} StoppedRefuses(s: State, more: seq<Event>)
    requires s.stopped
    ensures var t := Run(s, more);
            && t.stopped && |t.objs| == |s.objs| && |t.agents| == |s.agents|
            && (forall id :: id in t.sessions ==> id in s.sessions && t.sessions[id] == s.sessions[id])
            && (forall i :: 0 <= i < |t.agents| && t.agents[i].Looked? ==> t.agents[i] == s.agents[i])
  {
    hide Step;
    if more != [] {
      StoppedRefuses(s, more[..|more| - 1]);
      StoppedStep(Run(s, more[..|more| - 1]), more[|more| - 1]);
    }
  }

  lemma StoppedStep(s: State, e: Event)
    requires s.stopped
    ensures var t := Step(s, e);
            && t.stopped && |t.objs| == |s.objs| && |t.agents| == |s.agents|
            && (forall id :: id in t.sessions ==> id in s.sessions && t.sessions[id] == s.sessions[id])
            && (forall i :: 0 <= i < |t.agents| && t.agents[i].Looked? ==> t.agents[i] == s.agents[i])
  {
  }

  // ---------------------------------------------------------------- a stop comes to its end

  /** Stop closes the door, then tells the pool, then forgets the sessions. */
  lemma StopTakesEffect(s: State)
    ensures Step(s, Stop).stopped
    ensures s.stopped ==> Step(s, StopPool).stopping
    ensures s.stopping ==> Step(s, ClearSessions).sessions == map[]
  {
  }

  /** Agent `w` got from `s` to `t` on its own and is now at `a`. */
  ghost predicate Brought(s: State, t: State, w: nat, a: Agent) {
    Inv(t) && t.stopping && w < |s.agents| && t.agents == s.agents[w := a]
  }

  lemma Moved(s: State, w: nat, a: Agent)
    requires Inv(s) && s.stopping && At(s, w) && Step(s, Advance(w)).agents[w] == a
    ensures Brought(s, Step(s, Advance(w)), w, a)
  {
    InvKept(s, Advance(w));
    AdvanceFrame(s, w);
    hide Inv, AdvanceStep;
    assert Step(s, Advance(w)).agents == s.agents[w := a];
  }

  lemma {:induction false} InvRuns(s: State, events: seq<Event>)
    requires Inv(s)
    ensures Inv(Run(s, events))
  {
    hide Inv, Step;
    if events != [] {
      InvRuns(s, events[..|events| - 1]);
      InvKept(Run(s, events[..|events| - 1]), events[|events| - 1]);
    }
  }

  /** A worker inside a command comes to wait, or to the top of its loop. */
  lemma LeavesCommand(s: State, w: nat)
    requires Inv(s) && At(s, w) && (s.agents[w].Running? || s.agents[w].Replying?)
    ensures |Step(s, Advance(w)).agents| == |s.agents|
    ensures var a := Step(s, Advance(w)).agents[w];
            a.Free? || a.AtTop? || (s.agents[w].Running? && a.Replying?)
  {
    hide SessionOk, StopOk, PlaceOk;
    assert AgentOk(s, w);
  }

  /** A worker comes to wait for a task. */
  lemma {:induction false} ComesFree(s: State, w: nat) returns (events: seq<Event>)
    requires Inv(s) && s.stopping && At(s, w) && s.agents[w].Works()
    ensures Brought(s, Run(s, events), w, Free)
    decreases if s.agents[w].Running? then 2 else if s.agents[w].Replying? then 1 else 0
  {
    hide Inv, Step, Run;
    if s.agents[w].Free? {
      events := [];
      RunNone(s);
      assert s.agents == s.agents[w := Free];
    } else if s.agents[w].AtTop? {
      var o := s.agents[w].obj;
      KnownSession(s, w);
      ServeAll(s, w, o);
      events := Turns(w, 3 * (if s.objs[o].closed then 0 else |s.objs[o].commands|) + 1);
      InvRuns(s, events);
    } else {
      LeavesCommand(s, w);
      var t := Step(s, Advance(w));
      Moved(s, w, t.agents[w]);
      var rest := ComesFree(t, w);
      events := [Advance(w)] + rest;
      RunFrom(s, Advance(w), rest);
      assert t.agents[w := Free] == s.agents[w := Free];
    }
  }

  lemma KnownSession(s: State, w: nat)
    requires Inv(s) && At(s, w) && s.agents[w].AtTop?
    ensures s.agents[w].obj < |s.objs|
  {
    hide SessionOk, StopOk, PlaceOk;
    assert AgentOk(s, w);
  }

  lemma RunNone(s: State)
    ensures Run(s, []) == s
  {
  }

  lemma RunFrom(s: State, e: Event, rest: seq<Event>)
    ensures Run(s, [e] + rest) == Run(Step(s, e), rest)
  {
    hide Step;
    RunSnoc(s, [], e);
    assert [] + [e] == [e];
    RunAppend(s, [e], rest);
  }

  /** A waiting worker of a stopping pool empties the queue and exits. */
  lemma Exits(s: State, w: nat) returns (events: seq<Event>)
    requires Inv(s) && s.stopping && At(s, w) && s.agents[w].Free?
    ensures Brought(s, Run(s, events), w, Gone)
  {
    var n := PoolDrains(s, w);
    var t := Run(s, Turns(w, n));
    InvRuns(s, Turns(w, n));
    events := Turns(w, n) + [Advance(w)];
    RunSnoc(s, Turns(w, n), Advance(w));
    hide Inv, Run;
    assert Step(t, Advance(w)).agents[w] == Gone;
    Moved(t, w, Gone);
  }

  lemma Retires(s: State, w: nat) returns (events: seq<Event>)
    requires Inv(s) && s.stopping && At(s, w) && s.agents[w].Works()
    ensures Brought(s, Run(s, events), w, Gone)
  {
    hide Inv, Step, Run;
    var first := ComesFree(s, w);
    var last := Exits(Run(s, first), w);
    events := first + last;
    RunAppend(s, first, last);
    assert s.agents[w := Free][w := Gone] == s.agents[w := Gone];
  }

  /** The first `n` agents, as far as they are workers, have exited. */
  lemma {:induction false} RetireAll(s: State, n: nat) returns (events: seq<Event>)
    requires Inv(s) && s.stopping && n <= |s.agents|
    ensures var t := Run(s, events);
            && Inv(t) && t.stopping && |t.agents| == |s.agents|
            && forall i :: 0 <= i < |s.agents| ==>
                 t.agents[i] == if i < n && s.agents[i].Works() then Gone else s.agents[i]
  {
    hide Inv, Step, Run;
    if n == 0 {
      events := [];
      RunNone(s);
    } else {
      events := RetireAll(s, n - 1);
      var t := Run(s, events);
      if t.agents[n - 1].Works() {
        var last := Retires(t, n - 1);
        RunAppend(s, events, last);
        events := events + last;
      }
    }
  }

  /** A stop comes to its end: whatever the workers of a stopping pool are in the middle of, they can all
      finish, serve what is queued and exit, so that the join returns. */
  lemma StopCompletes(s: State) returns (events: seq<Event>)
    requires Inv(s) && s.stopping
    requires exists i :: 0 <= i < |s.agents| && (s.agents[i].Works() || s.agents[i].Gone?)
    ensures Inv(Run(s, events)) && Joined(Run(s, events))
  {
    hide Inv, Step, Run;
    events := RetireAll(s, |s.agents|);
    var t := Run(s, events);
    var i :| 0 <= i < |s.agents| && (s.agents[i].Works() || s.agents[i].Gone?);
    assert t.agents[i].Gone?;
  }
}

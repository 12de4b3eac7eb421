/** Concurrent clients are served as if one after another: between batches, the order in which the workers
    run tasks and sweep is a run of the sequential database, with the same replies and the same stores. */
module Linear {
  import opened Store
  import opened StoreRuns
  import opened Sharding
  import opened OneStore
  import opened Transaction
  import opened Completion

  ghost predicate NoBegin(events: seq<Event>) {
    forall i :: 0 <= i < |events| ==> !events[i].Begin?
  }

  /** The event makes worker `e.i` run a client's task in `s`. */
  predicate Serves(s: State, e: Event) {
    && e.RunTask? && e.i < N(s) && s.workers[e.i].tasks != [] && s.workers[e.i].clock <= e.now
    && s.workers[e.i].tasks[0].ClientTask?
  }

  /** What the event does to the database, if anything. */
  function Effect(s: State, e: Event): seq<DbEvent> {
    if Serves(s, e) then [Call(s.workers[e.i].tasks[0].op, e.now)]
    else if e.SweepStore? && e.i < N(s) && s.workers[e.i].clock <= e.now then [SweepAt(e.i, e.samples, e.now)]
    else []
  }

  /** The reply the event gives to a waiting client, if any. */
  ghost function Answer(s: State, e: Event): seq<Reply>
    requires Sound(s)
  {
    if Serves(s, e) then
      NextIs(s, e);
      [Apply(s.workers[e.i].store, s.workers[e.i].tasks[0].op, e.now).1]
    else []
  }

  /** The order in which tasks and sweeps took place. */
  ghost function Order(s: State, events: seq<Event>): seq<DbEvent>
    requires Sound(s)
  {
    if events == [] then []
    else var n := |events| - 1; Order(s, events[..n]) + Effect(Reach(s, events[..n]), events[n])
  }

  /** The replies in the order in which they were given. */
  ghost function Answers(s: State, events: seq<Event>): seq<Reply>
    requires Sound(s)
  {
    if events == [] then []
    else var n := |events| - 1; Answers(s, events[..n]) + Answer(Reach(s, events[..n]), events[n])
  }

  /** An operation on one key is that operation on the key's home shard. */
  lemma PerformOne(db: Db, op: Op, k: string, now: int)
    requires DbValid(db) && OnKey(op, k)
    ensures Perform(db, op, now) == AtHome(db, k, op, now)
  {
    hide DbValid, AtHome;
    if op.DeleteOp? || op.ExistsOp? {
      assert [k][..0] == [];
      assert DeleteKeys(db, [], now) == (db, 0) && ExistsKeys(db, [], now) == (db, 0);
      CountReply(db, op, k, now);
    }
  }

  lemma CountReply(db: Db, op: Op, k: string, now: int)
    requires DbValid(db) && OnKey(op, k) && (op.DeleteOp? || op.ExistsOp?)
    ensures AtHome(db, k, op, now).1.Count?
  {
    hide DbValid, Delete, Exists;
    HomeValid(db, k);
  }

  // ---------------------------------------------------------------- one step

  lemma ServeStep(s: State, e: Event)
    requires Sound(s) && s.writer.None? && Serves(s, e)
    ensures DbValid(AsDb(s)) && Next(s, e).writer.None?
    ensures var op := s.workers[e.i].tasks[0].op;
            && !op.ActiveExpireOp? && Perform(AsDb(s), op, e.now) == (AsDb(Next(s, e)), Answer(s, e)[0])
  {
    hide Sound, Valid, DbValid, Apply, ShardOk, Perform;
    NextIs(s, e);
    AsDbValid(s);
    TaskAtHome(s, e.i);
    var task, db := s.workers[e.i].tasks[0], AsDb(s);
    PerformOne(db, task.op, task.key, e.now);
    var t := Next(s, e);
    assert Stores(t) == Stores(s)[e.i := t.workers[e.i].store];
  }

  lemma TaskAtHome(s: State, i: nat)
    requires Sound(s) && i < N(s) && s.workers[i].tasks != [] && s.workers[i].tasks[0].ClientTask?
    ensures var task := s.workers[i].tasks[0];
            OnKey(task.op, task.key) && N(s) > 0 && ShardFor(s.hash, N(s), task.key) == i
  {
    hide BatchOk, ShardOk;
    SoundValid(s);
    assert TaskOk(s, i, s.workers[i].tasks[0]);
  }

  lemma SweepStep(s: State, e: Event)
    requires Sound(s) && s.writer.None? && e.SweepStore? && e.i < N(s) && s.workers[e.i].clock <= e.now
    ensures DbValid(AsDb(s)) && Next(s, e).writer.None?
    ensures SweepShard(AsDb(s), e.i, e.samples, e.now) == AsDb(Next(s, e))
  {
    hide Sound, Valid, DbValid, ActiveExpire, ShardOk;
    NextIs(s, e);
    AsDbValid(s);
    var t := Next(s, e);
    assert Stores(t) == Stores(s)[e.i := t.workers[e.i].store];
  }

  /** Everything else a client or an idle writer does leaves the stores alone. */
  lemma OtherStep(s: State, e: Event)
    requires Sound(s) && s.writer.None? && !e.Begin? && Effect(s, e) == []
    ensures Next(s, e).writer.None? && AsDb(Next(s, e)) == AsDb(s)
  {
    hide Sound, Valid, Apply, MSet, ActiveExpire;
    NextIs(s, e);
    if e.RunTask? && e.i < N(s) && s.workers[e.i].tasks != [] && s.workers[e.i].clock <= e.now {
      OnlyClients(s, e.i);
    }
    assert Stores(Next(s, e)) == Stores(s);
  }

  lemma OnlyClients(s: State, i: nat)
    requires Sound(s) && s.writer.None? && i < N(s) && s.workers[i].tasks != []
    ensures s.workers[i].tasks[0].ClientTask?
  {
    hide BatchOk, ShardOk;
    SoundValid(s);
    assert TaskOk(s, i, s.workers[i].tasks[0]);
  }

  // ---------------------------------------------------------------- every interleaving

  lemma DbRunSnoc(db: Db, run: seq<DbEvent>, e: DbEvent)
    requires DbValid(db)
    ensures DbRun(db, run + [e]) == DbStep(DbRun(db, run), e)
    ensures DbReplies(db, run + [e]) ==
            DbReplies(db, run) + if e.Call? && !e.op.ActiveExpireOp? then [Perform(DbRun(db, run), e.op, e.now).1]
                else []
  {
    hide DbValid, DbStep, Perform;
    assert (run + [e])[..|run|] == run;
  }

  /** Sequential consistency: in every interleaving of clients and workers in which no batch begins, the
      replies and the stores are those of the sequential database run in the order in which the workers
      ran the tasks and swept. */
  lemma {:induction false} InterleavingIsARun(s: State, events: seq<Event>)
    requires Sound(s) && s.writer.None? && NoBegin(events)
    ensures Reach(s, events).writer.None? && DbValid(AsDb(s))
    ensures DbRun(AsDb(s), Order(s, events)) == AsDb(Reach(s, events))
    ensures DbReplies(AsDb(s), Order(s, events)) == Answers(s, events)
  {
    hide Sound, DbValid, Next, Perform, SweepShard, Effect, Answer;
    AsDbValid(s);
    if events != [] {
      var n := |events| - 1;
      var init, e := events[..n], events[n];
      InterleavingIsARun(s, init);
      var t := Reach(s, init);
      var before := Order(s, init);
      LastStep(t, e);
      if Effect(t, e) == [] {
        assert before + [] == before && Answers(s, init) + [] == Answers(s, init);
      } else {
        DbRunSnoc(AsDb(s), before, Effect(t, e)[0]);
        assert Effect(t, e) == [Effect(t, e)[0]];
        assert Answers(s, init) + [] == Answers(s, init);
      }
    }
  }

  lemma LastStep(t: State, e: Event)
    requires Sound(t) && t.writer.None? && !e.Begin?
    ensures Next(t, e).writer.None? && DbValid(AsDb(t)) && |Effect(t, e)| <= 1
    ensures Effect(t, e) == [] ==> AsDb(Next(t, e)) == AsDb(t) && Answer(t, e) == []
    ensures Effect(t, e) != [] ==>
              var f := Effect(t, e)[0];
              && AsDb(Next(t, e)) == DbStep(AsDb(t), f)
              && Answer(t, e) == if f.Call? && !f.op.ActiveExpireOp? then [Perform(AsDb(t), f.op, f.now).1] else []
  {
    hide Sound, DbValid, Next, Perform, SweepShard, Apply;
    AsDbValid(t);
    if Serves(t, e) {
      ServeStep(t, e);
    } else if e.SweepStore? && e.i < N(t) && t.workers[e.i].clock <= e.now {
      SweepStep(t, e);
    } else {
      OtherStep(t, e);
    }
  }
}

/** An undisturbed batch write completes, with exactly the result and the stores of the sequential batch
    write. */
module Completion {
  import opened Wrappers
  import opened Store
  import opened Sharding
  import opened Transaction
  import opened Atomicity

  ghost predicate CanReach(s: State, t: State)
    requires Sound(s)
  {
    exists events :: NoEnd(events) && Reach(s, events) == t
  }

  lemma {:induction false} ReachAppend(s: State, a: seq<Event>, b: seq<Event>)
    requires Sound(s)
    ensures Reach(s, a + b) == Reach(Reach(s, a), b)
  {
    hide Sound, Next;
    if b == [] {
      assert a + b == a;
    } else {
      assert (a + b)[..|a + b| - 1] == a + b[..|b| - 1];
      ReachAppend(s, a, b[..|b| - 1]);
    }
  }

  lemma ReachTrans(s: State, t: State, u: State)
    requires Sound(s) && Sound(t) && CanReach(s, t) && CanReach(t, u)
    ensures CanReach(s, u)
  {
    hide Sound, Reach;
    var a :| NoEnd(a) && Reach(s, a) == t;
    var b :| NoEnd(b) && Reach(t, b) == u;
    ReachAppend(s, a, b);
    assert NoEnd(a + b) && Reach(s, a + b) == u;
  }

  /** One event, when it is not the end of the batch. */
  lemma ReachStep(s: State, e: Event, t: State)
    requires Sound(s) && !e.End? && Next(s, e) == t
    ensures Sound(t) && CanReach(s, t)
  {
    hide Sound, Next;
    assert [e][..0] == [] && Reach(s, []) == s;
    assert NoEnd([e]) && Reach(s, [e]) == t;
  }

  lemma NextIs(s: State, e: Event)
    requires Sound(s)
    ensures (forall i :: 0 <= i < N(s) ==> Valid(s.workers[i].store)) && Next(s, e) == Step(s, e)
  {
    hide Valid, Base, BatchOk;
    SoundValid(s);
  }

  /** The writer takes a step that posts a task to shard `i`, whose worker runs it at once. */
  lemma PostAndRun(s: State, i: nat, t: State, u: State)
    requires Sound(s) && i < N(s) && Valid(s.workers[i].store) && s.writer.Some? && t == Proceeded(s, s.writer.value)
    requires N(t) == N(s) && t.workers[i].tasks != [] && Valid(t.workers[i].store) &&
             u == RanTask(t, i, t.workers[i].clock, false)
    ensures Sound(u) && CanReach(s, u)
  {
    hide Sound, Valid, CanReach, Proceeded, RanTask;
    NextIs(s, Proceed);
    ReachStep(s, Proceed, t);
    NextIs(t, RunTask(i, t.workers[i].clock, false));
    ReachStep(t, RunTask(i, t.workers[i].clock, false), u);
    ReachTrans(s, t, u);
  }

  // ---------------------------------------------------------------- what the invariant gives

  lemma JobShape(s: State)
    requires Sound(s) && s.writer.Some?
    ensures var b := s.writer.value;
            && |b.groups| == |b.checkpoints| == N(s) > 0
            && (forall i :: 0 <= i < N(s) ==> b.groups[i] == Group(s.hash, N(s), b.values, i))
            && (forall p :: 0 <= p < |b.touched| ==> b.touched[p] < N(s))
            && (b.phase.Checkpointing? ==> b.phase.next <= N(s))
            && (b.phase.Applying? || b.phase.Restoring? ==>
                   b.phase.pos <= |b.touched| && Listed(b.touched, b.groups, N(s)))
  {
    hide Base, Unchanged, Applied, Saved, Group;
    var start :| Inv(s, start);
    BaseHasWorkers(s);
  }

  /** The database the workers' stores form. */
  function AsDb(s: State): Db {
    Db(s.hash, s.maxmemory, s.policy, Stores(s))
  }

  lemma AsDbValid(s: State)
    requires Sound(s)
    ensures DbValid(AsDb(s))
  {
    hide ShardOk, BatchOk;
    SoundValid(s);
    forall i | 0 <= i < N(s) ensures ShardOk(s.hash, s.maxmemory, s.policy, N(s), i, Stores(s)[i]) { FitNow(s, i); }
  }

  // ---------------------------------------------------------------- checkpoints

  /** Every checkpoint taken is the store it was taken from. */
  ghost predicate Copied(s: State, db: Db) {
    && s.writer.Some? && |db.shards| == N(s) == |s.writer.value.checkpoints|
    && forall p :: 0 <= p < |s.writer.value.touched| ==>
         var i := s.writer.value.touched[p];
         i < N(s) && s.writer.value.checkpoints[i] == Some(db.shards[i])
  }

  /** The batch of `s`, further on. */
  ghost predicate SameJob(s: State, t: State) {
    && N(t) == N(s) && t.hash == s.hash && t.maxmemory == s.maxmemory && t.policy == s.policy
    && s.writer.Some? && t.writer.Some? && t.writer.value.values == s.writer.value.values
  }

  lemma CheckpointOne(s: State, next: nat)
    requires Sound(s) && Idle(s) && s.writer.Some? && s.writer.value.phase == Checkpointing(next) && next < N(s)
    requires |s.writer.value.groups| == |s.writer.value.checkpoints| == N(s) && s.writer.value.groups[next] != []
    ensures var b := s.writer.value;
            var c := b.(touched := b.touched + [next],
                checkpoints := b.checkpoints[next := Some(s.workers[next].store)], phase := Checkpointing(next + 1));
            Sound(Rewrite(s, c)) && CanReach(s, Rewrite(s, c))
  {
    hide Sound, Valid, CanReach;
    NextIs(s, Proceed);
    var b, w := s.writer.value, s.workers[next];
    var t := Proceeded(s, b);
    assert t.workers[next] == w.(tasks := [CheckpointTask]);
    var u := RanTask(t, next, w.clock, false);
    assert w.tasks == [] && [CheckpointTask][1..] == [];
    assert u.workers[next] == w;
    assert u.workers == s.workers;
    PostAndRun(s, next, t, u);
  }

  lemma CheckpointAll(s: State, next: nat, db: Db) returns (t: State)
    requires Sound(s) && Idle(s) && s.writer.Some? && s.writer.value.phase == Checkpointing(next) && next <= N(s)
    requires db.shards == Stores(s) && Copied(s, db)
    ensures Sound(t) && CanReach(s, t) && SameJob(s, t) && Idle(t) && Stores(t) == db.shards
    ensures t.writer.value.phase == Applying(0) && Copied(t, db)
    decreases N(s) - next
  {
    hide Sound, CanReach, Valid;
    JobShape(s);
    var b := s.writer.value;
    if next < N(s) && b.groups[next] != [] {
      CheckpointOne(s, next);
      var c := b.(touched := b.touched + [next], checkpoints := b.checkpoints[next := Some(s.workers[next].store)],
          phase := Checkpointing(next + 1));
      assert forall p :: 0 <= p < |b.touched| ==> c.touched[p] == b.touched[p];
      t := CheckpointAll(Rewrite(s, c), next + 1, db);
      ReachTrans(s, Rewrite(s, c), t);
    } else {
      NextIs(s, Proceed);
      var u := Proceeded(s, b);
      ReachStep(s, Proceed, u);
      if next < N(s) {
        t := CheckpointAll(u, next + 1, db);
        ReachTrans(s, u, t);
      } else {
        t := u;
      }
    }
  }

  // ---------------------------------------------------------------- rollback

  lemma RestoreOne(s: State, pos: nat, why: Outcome, db: Db)
    requires Sound(s) && Idle(s) && s.writer.Some? && s.writer.value.phase == Restoring(pos, why)
    requires Copied(s, db) && pos < |s.writer.value.touched|
    ensures var b := s.writer.value;
            var i := b.touched[pos];
            var u := Rewrite(s.(workers := s.workers[i := s.workers[i].(store := db.shards[i])]),
                b.(phase := Restoring(pos + 1, why)));
            Sound(u) && CanReach(s, u)
  {
    hide Sound, Valid, CanReach;
    NextIs(s, Proceed);
    var b := s.writer.value;
    var i := b.touched[pos];
    var w := s.workers[i];
    var t := Proceeded(s, b);
    assert t.workers[i] == w.(tasks := [RestoreTask(db.shards[i])]);
    var u := RanTask(t, i, w.clock, false);
    assert w.tasks == [] && t.workers[i].tasks[1..] == [];
    assert u.workers[i] == w.(store := db.shards[i]);
    assert u.workers == s.workers[i := w.(store := db.shards[i])];
    PostAndRun(s, i, t, u);
  }

  /** The shards touched before position `pos`, and those never touched, hold what they held in `db`. */
  ghost predicate Back(s: State, db: Db, pos: nat) {
    && s.writer.Some? && |db.shards| == N(s) && pos <= |s.writer.value.touched|
    && forall i :: 0 <= i < N(s) && i !in s.writer.value.touched[pos..] ==> s.workers[i].store == db.shards[i]
  }

  lemma RestoreDone(s: State, pos: nat, why: Outcome) returns (t: State)
    requires Sound(s) && Idle(s) && s.writer.Some? && s.writer.value.phase == Restoring(pos, why) &&
             pos == |s.writer.value.touched|
    ensures Sound(t) && CanReach(s, t) && t == Rewrite(s, s.writer.value.(phase := Done(why)))
  {
    hide Sound, CanReach, Valid;
    NextIs(s, Proceed);
    var u := Proceeded(s, s.writer.value);
    ReachStep(s, Proceed, u);
    NextIs(u, Proceed);
    t := Proceeded(u, u.writer.value);
    ReachStep(u, Proceed, t);
    ReachTrans(s, u, t);
  }

  lemma RestoreAll(s: State, pos: nat, why: Outcome, db: Db) returns (t: State)
    requires Sound(s) && Idle(s) && s.writer.Some? && s.writer.value.phase == Restoring(pos, why)
    requires Copied(s, db) && Back(s, db, pos)
    ensures Sound(t) && CanReach(s, t) && SameJob(s, t) && Stores(t) == db.shards && t.writer.value.phase == Done(why)
    decreases |s.writer.value.touched| - pos
  {
    hide Sound, CanReach, Valid;
    var b := s.writer.value;
    if pos < |b.touched| {
      RestoreOne(s, pos, why, db);
      var i := b.touched[pos];
      var u := Rewrite(s.(workers := s.workers[i := s.workers[i].(store := db.shards[i])]),
          b.(phase := Restoring(pos + 1, why)));
      assert b.touched[pos..] == [i] + b.touched[pos + 1..];
      t := RestoreAll(u, pos + 1, why, db);
      ReachTrans(s, u, t);
    } else {
      t := RestoreDone(s, pos, why);
      assert Stores(t) == db.shards;
    }
  }

  // ---------------------------------------------------------------- applying the groups

  lemma ApplyOne(s: State, pos: nat)
    requires Sound(s) && Idle(s) && s.writer.Some? && s.writer.value.phase == Applying(pos)
    requires pos < |s.writer.value.touched| && s.writer.value.touched[pos] < N(s) == |s.writer.value.groups|
    requires Valid(s.workers[s.writer.value.touched[pos]].store)
    ensures var b := s.writer.value;
            var i := b.touched[pos];
            var (x, w) := MSet(s.workers[i].store, b.groups[i]);
            var u := Rewrite(s.(workers := s.workers[i := s.workers[i].(store := x)]),
                Learned(b.(phase := AwaitApply(pos)), Returned(w)));
            Sound(u) && CanReach(s, u)
  {
    hide Sound, Valid, CanReach, MSet;
    NextIs(s, Proceed);
    var b := s.writer.value;
    var i := b.touched[pos];
    var w := s.workers[i];
    var t := Proceeded(s, b);
    assert t.workers[i] == w.(tasks := [ApplyTask(b.groups[i])]);
    var u := RanTask(t, i, w.clock, false);
    assert w.tasks == [] && t.workers[i].tasks[1..] == [];
    assert u.workers[i] == w.(store := MSet(w.store, b.groups[i]).0);
    assert u.workers == s.workers[i := u.workers[i]];
    PostAndRun(s, i, t, u);
  }

  /** The groups before the next touched shard are in. */
  ghost predicate Progress(s: State, db: Db, pos: nat) {
    && DbValid(db) && s.writer.Some? && |db.shards| == N(s) && db.hash == s.hash && db.maxmemory == s.maxmemory &&
        db.policy == s.policy
    && Upto(s.writer.value.touched, pos, N(s)) <= N(s)
    && ApplyGroups(db, s.writer.value.values, Upto(s.writer.value.touched, pos, N(s))) == (AsDb(s), Ok)
  }

  lemma GroupRan(s: State, db: Db, pos: nat)
    requires Progress(s, db, pos) && pos < |s.writer.value.touched| && |s.writer.value.groups| == N(s)
    requires Listed(s.writer.value.touched, s.writer.value.groups, N(s))
    requires forall i :: 0 <= i < N(s) ==> s.writer.value.groups[i] == Group(s.hash, N(s), s.writer.value.values, i)
    ensures var b := s.writer.value;
            var i := b.touched[pos];
            && i < N(s) && Valid(s.workers[i].store)
            && var (x, w) := MSet(s.workers[i].store, b.groups[i]);
               ApplyGroups(db, b.values, i + 1) == (AsDb(s).(shards := Stores(s)[i := x]), w)
  {
    hide Valid, MSet, Group, ShardOk;
    var i := s.writer.value.touched[pos];
    ShardIsOk(AsDb(s), i);
  }

  lemma ApplyDone(s: State, pos: nat) returns (t: State)
    requires Sound(s) && s.writer.Some? && s.writer.value.phase == Applying(pos) && pos == |s.writer.value.touched|
    ensures Sound(t) && CanReach(s, t) && t == Rewrite(s, s.writer.value.(phase := Done(Returned(Ok))))
  {
    hide Sound, CanReach, Valid;
    NextIs(s, Proceed);
    t := Proceeded(s, s.writer.value);
    ReachStep(s, Proceed, t);
  }

  lemma ApplyAll(s: State, pos: nat, db: Db) returns (t: State)
    requires Sound(s) && Idle(s) && s.writer.Some? && s.writer.value.phase == Applying(pos)
    requires Copied(s, db) && Progress(s, db, pos)
    ensures Sound(t) && CanReach(s, t) && SameJob(s, t)
    ensures DbValid(db) && Stores(t) == MSetDb(db, s.writer.value.values).0.shards
    ensures t.writer.value.phase == Done(Returned(MSetDb(db, s.writer.value.values).1))
    decreases |s.writer.value.touched| - pos
  {
    hide Sound, CanReach, Valid, MSet, Group, DbValid, ApplyGroups, MSetDb, Listed;
    JobShape(s);
    var b := s.writer.value;
    if pos == |b.touched| {
      t := ApplyDone(s, pos);
      AllApplied(db, b.values);
    } else {
      GroupRan(s, db, pos);
      ApplyOne(s, pos);
      var i := b.touched[pos];
      var (x, w) := MSet(s.workers[i].store, b.groups[i]);
      var u := Rewrite(s.(workers := s.workers[i := s.workers[i].(store := x)]),
          Learned(b.(phase := AwaitApply(pos)), Returned(w)));
      assert Stores(u) == Stores(s)[i := x];
      if w == Ok {
        SkipFrom(db, b.values, b.groups, b.touched, pos + 1);
        assert AsDb(u) == AsDb(s).(shards := Stores(s)[i := x]);
        t := ApplyAll(u, pos + 1, db);
      } else {
        RefusedAt(db, b.values, i);
        Untouched(db, b.values, b.groups, i + 1);
        NotListed(b.touched, b.groups);
        t := RestoreAll(u, 0, Returned(w), db);
      }
      ReachTrans(s, u, t);
    }
  }

  lemma NotListed(touched: seq<nat>, groups: seq<Pairs>)
    requires Listed(touched, groups, |groups|)
    ensures touched[0..] == touched && forall i :: 0 <= i < |groups| && i !in touched ==> groups[i] == []
  {
  }

  /** Completion: whenever a batch may begin, some continuation in which nobody disturbs it ends it, and
      then its result and every shard's store are those of the sequential batch write. */
  lemma BatchCompletes(s: State, values: Pairs) returns (during: seq<Event>)
    requires CanBegin(s)
    ensures NoEnd(during) && DbValid(AsDb(s))
    ensures var t := During(s, values, during);
            && t.writer.Some? && t.writer.value.phase == Done(Returned(MSetDb(AsDb(s), values).1))
            && Stores(t) == MSetDb(AsDb(s), values).0.shards
  {
    hide Sound, Valid, Group, DbValid, ApplyGroups, MSetDb, Reach;
    AsDbValid(s);
    var db := AsDb(s);
    NextIs(s, Begin(values));
    var u := Next(s, Begin(values));
    Begun(s, values);
    var v := CheckpointAll(u, 0, db);
    JobShape(v);
    Nothing(db, values);
    assert AsDb(v) == db;
    SkipFrom(db, values, v.writer.value.groups, v.writer.value.touched, 0);
    var t := ApplyAll(v, 0, db);
    ReachTrans(u, v, t);
    during :| NoEnd(during) && Reach(u, during) == t;
  }

  lemma Begun(s: State, values: Pairs)
    requires CanBegin(s)
    ensures var u := Next(s, Begin(values));
            && u.writer.Some? && u.writer.value.values == values && u.writer.value.phase == Checkpointing(0)
            && u.workers == s.workers && Idle(u) && Copied(u, AsDb(s)) && u.writer.value.touched == []
  {
    hide Valid, BatchOk, ShardOk, Groups;
    SoundValid(s);
    NothingQueued(s);
  }
}

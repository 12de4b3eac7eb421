/** Every way an undisturbed batch write can go: whatever the order of the writer's and the workers'
    steps, as long as nothing throws and no worker sweeps, it ends as the sequential batch write. */
module Undisturbed {
  import opened Wrappers
  import opened Store
  import opened Sharding
  import opened Transaction
  import opened Atomicity
  import opened Completion

  /** A step of the writer, or of a worker running a task that does not throw. */
  predicate Calm(e: Event) {
    e.Proceed? || (e.RunTask? && !e.throws)
  }

  ghost predicate AllCalm(events: seq<Event>) {
    forall i :: 0 <= i < |events| ==> Calm(events[i])
  }

  /** `s` is a batch on the database `db`. */
  ghost predicate Over(s: State, db: Db) {
    && DbValid(db) && s.writer.Some? && |db.shards| == N(s) == |s.writer.value.checkpoints|
    && db.hash == s.hash && db.maxmemory == s.maxmemory && db.policy == s.policy
  }

  /** Every checkpoint but that of shard `pending` is the store it was taken from. */
  ghost predicate CopiedBut(s: State, db: Db, pending: int)
    requires Over(s, db)
  {
    forall i :: i in s.writer.value.touched && i != pending ==>
      i < N(s) && s.writer.value.checkpoints[i] == Some(db.shards[i])
  }

  /** Shards never touched, and those whose restore has run, hold what they held in `db`. */
  ghost predicate Returning(s: State, db: Db, pos: nat)
    requires Over(s, db)
  {
    var touched := s.writer.value.touched;
    pos <= |touched| &&
    forall i :: 0 <= i < N(s) && (i !in touched || (i in touched[..pos] && s.workers[i].tasks == [])) ==>
      s.workers[i].store == db.shards[i]
  }

  /** The batch is refused for the reason `why`. */
  ghost predicate RefusedWith(s: State, db: Db, why: Outcome)
    requires Over(s, db)
  {
    why.Returned? && MSetDb(db, s.writer.value.values) == (db, why.result)
  }

  ghost predicate Exact(s: State, db: Db) {
    Over(s, db) &&
    match s.writer.value.phase
    case Checkpointing(_) => Stores(s) == db.shards && CopiedBut(s, db, -1)
    case AwaitCheckpoint(index) => Stores(s) == db.shards && CopiedBut(s, db, index)
    case Applying(pos) => CopiedBut(s, db, -1) && Progress(s, db, pos)
    case AwaitApply(pos) => CopiedBut(s, db, -1) && Progress(s, db, pos)
    case Restoring(pos, why) => CopiedBut(s, db, -1) && RefusedWith(s, db, why) && Returning(s, db, pos)
    case AwaitRestore(why) => CopiedBut(s, db, -1) && RefusedWith(s, db, why) &&
        Returning(s, db, |s.writer.value.touched|)
    case Done(outcome) =>
      var (d, result) := MSetDb(db, s.writer.value.values);
      outcome == Returned(result) && Stores(s) == d.shards
  }

  // ---------------------------------------------------------------- the writer's steps

  lemma FirstProgress(s: State, db: Db)
    requires Over(s, db) && Stores(s) == db.shards && |s.writer.value.groups| == N(s)
    requires Listed(s.writer.value.touched, s.writer.value.groups, N(s))
    requires forall i :: 0 <= i < N(s) ==> s.writer.value.groups[i] == Group(s.hash, N(s), s.writer.value.values, i)
    ensures Progress(s, db, 0)
  {
    hide DbValid, ApplyGroups, Group, Listed;
    var b := s.writer.value;
    Nothing(db, b.values);
    SkipFrom(db, b.values, b.groups, b.touched, 0);
    assert AsDb(s) == db;
  }

  lemma ListedWhenDone(s: State)
    requires Sound(s) && s.writer.Some? && s.writer.value.phase == Checkpointing(N(s))
    ensures Listed(s.writer.value.touched, s.writer.value.groups, N(s))
  {
    hide Base, Unchanged, Saved, Group, Listed;
    var start :| Inv(s, start);
  }

  lemma ProceedCheckpointing(s: State, db: Db)
    requires Sound(s) && Exact(s, db) && s.writer.value.phase.Checkpointing?
    ensures Exact(Proceeded(s, s.writer.value), db)
  {
    hide DbValid, ApplyGroups, Group, Sound, Progress;
    JobShape(s);
    var b := s.writer.value;
    var t := Proceeded(s, b);
    assert Stores(t) == Stores(s);
    if b.phase.next == N(s) {
      ListedWhenDone(s);
      FirstProgress(t, db);
    }
  }

  lemma ProceedApplying(s: State, db: Db)
    requires Sound(s) && Exact(s, db) && s.writer.value.phase.Applying?
    ensures Exact(Proceeded(s, s.writer.value), db)
  {
    hide DbValid, ApplyGroups, Group, Sound, MSetDb;
    JobShape(s);
    var b := s.writer.value;
    var t := Proceeded(s, b);
    assert Stores(t) == Stores(s);
    assert AsDb(t) == AsDb(s);
    if b.phase.pos == |b.touched| { AllApplied(db, b.values); }
  }

  lemma ProceedRestoring(s: State, db: Db)
    requires Sound(s) && Exact(s, db) && s.writer.value.phase.Restoring?
    ensures Exact(Proceeded(s, s.writer.value), db)
  {
    hide DbValid, Group, Sound, MSetDb;
    JobShape(s);
    var b := s.writer.value;
    var t, pos := Proceeded(s, b), b.phase.pos;
    if pos < |b.touched| {
      assert b.touched[pos] in b.touched;
      assert b.touched[..pos + 1] == b.touched[..pos] + [b.touched[pos]];
    } else {
      assert b.touched[..pos] == b.touched;
    }
  }

  lemma ProceedAwaitRestore(s: State, db: Db)
    requires Sound(s) && Exact(s, db) && s.writer.value.phase.AwaitRestore?
    ensures Exact(Proceeded(s, s.writer.value), db)
  {
    hide DbValid, Group, Sound, MSetDb;
    var b := s.writer.value;
    assert b.touched[..|b.touched|] == b.touched;
    if Idle(s) { assert Stores(Proceeded(s, b)) == db.shards; }
  }

  lemma ProceedExact(s: State, db: Db)
    requires Sound(s) && Exact(s, db)
    ensures Exact(Proceeded(s, s.writer.value), db)
  {
    hide Exact, Sound;
    ExactOver(s, db);
    match s.writer.value.phase
    case Checkpointing(_) => ProceedCheckpointing(s, db);
    case Applying(_) => ProceedApplying(s, db);
    case Restoring(_, _) => ProceedRestoring(s, db);
    case AwaitRestore(_) => ProceedAwaitRestore(s, db);
    case _ =>
  }

  lemma ExactOver(s: State, db: Db)
    requires Exact(s, db)
    ensures s.writer.Some? && Over(s, db)
  {
  }

  // ---------------------------------------------------------------- the workers' steps

  /** What the queues hold while the writer waits. */
  lemma Awaited(s: State, i: nat)
    requires Sound(s) && s.writer.Some? && i < N(s) && s.workers[i].tasks != []
    ensures var b := s.writer.value;
            || (b.phase == AwaitCheckpoint(i) && s.workers[i].tasks == [CheckpointTask] && i in b.touched &&
                i < |b.checkpoints|)
            || (&& b.phase.AwaitApply? && b.phase.pos < |b.touched| && i == b.touched[b.phase.pos] && i < |b.groups|
                && s.workers[i].tasks == [ApplyTask(b.groups[i])] && Listed(b.touched, b.groups, N(s)))
            || (&& RollingBack(s) && i in b.touched && i < |b.checkpoints| && b.checkpoints[i].Some?
                && s.workers[i].tasks == [RestoreTask(b.checkpoints[i].value)])
  {
    hide Base, Unchanged, Applied, Saved, Group, Restored, Listed;
    var start :| Inv(s, start);
    BaseHasWorkers(s);
    PhaseOfTask(s, start, i);
    if RollingBack(s) { RestoreReady(s, start, i); }
  }

  lemma CheckpointExact(s: State, db: Db, i: nat, now: int)
    requires Exact(s, db) && i < N(s) && Valid(s.workers[i].store) && s.writer.value.phase == AwaitCheckpoint(i)
    requires s.workers[i].tasks == [CheckpointTask]
    ensures Exact(RanTask(s, i, now, false), db)
  {
    hide DbValid, Valid, Progress, MSetDb;
    var t := RanTask(s, i, now, false);
    assert Stores(t) == Stores(s);
    assert s.workers[i].store == Stores(s)[i];
  }

  lemma ApplyExact(s: State, db: Db, i: nat, now: int)
    requires Sound(s) && Exact(s, db) && i < N(s) && Valid(s.workers[i].store) && s.writer.value.phase.AwaitApply?
    requires var b := s.writer.value;
             && b.phase.pos < |b.touched| && i == b.touched[b.phase.pos] && i < |b.groups|
             && s.workers[i].tasks == [ApplyTask(b.groups[i])] && Listed(b.touched, b.groups, N(s))
    ensures Exact(RanTask(s, i, now, false), db)
  {
    hide DbValid, Valid, MSet, MSetDb, ApplyGroups, Group, Sound, Listed;
    JobShape(s);
    var b := s.writer.value;
    var pos := b.phase.pos;
    GroupRan(s, db, pos);
    var (x, w) := MSet(s.workers[i].store, b.groups[i]);
    var t := RanTask(s, i, now, false);
    assert Stores(t) == Stores(s)[i := x];
    if w == Ok {
      SkipFrom(db, b.values, b.groups, b.touched, pos + 1);
      assert AsDb(t) == AsDb(s).(shards := Stores(s)[i := x]);
    } else {
      RefusedAt(db, b.values, i);
      Untouched(db, b.values, b.groups, i + 1);
      NotListed(b.touched, b.groups);
      assert forall j :: 0 <= j < N(s) ==> t.workers[j].store == Stores(t)[j];
    }
  }

  lemma RestoreExact(s: State, db: Db, i: nat, now: int)
    requires Exact(s, db) && i < N(s) && Valid(s.workers[i].store) && RollingBack(s)
    requires var b := s.writer.value;
             i in b.touched && i < |b.checkpoints| && b.checkpoints[i].Some? &&
                 s.workers[i].tasks == [RestoreTask(b.checkpoints[i].value)]
    ensures Exact(RanTask(s, i, now, false), db)
  {
    hide DbValid, Valid, MSetDb, Progress;
    assert CopiedBut(s, db, -1);
  }

  lemma RunExact(s: State, db: Db, i: nat, now: int)
    requires Sound(s) && Exact(s, db) && i < N(s) && s.workers[i].tasks != [] && Valid(s.workers[i].store)
    ensures Exact(RanTask(s, i, now, false), db)
  {
    hide Exact, Sound, Valid, RanTask, Listed;
    ExactOver(s, db);
    Awaited(s, i);
    var p := s.writer.value.phase;
    if p.AwaitCheckpoint? { CheckpointExact(s, db, i, now); }
    else if p.AwaitApply? { ApplyExact(s, db, i, now); }
    else { RestoreExact(s, db, i, now); }
  }

  // ---------------------------------------------------------------- the theorem

  lemma CalmStep(s: State, e: Event, db: Db)
    requires Sound(s) && Calm(e) && Exact(s, db)
    ensures Exact(Next(s, e), db)
  {
    hide Exact, Sound, Valid, RanTask, Proceeded;
    ExactOver(s, db);
    NextIs(s, e);
    if e.Proceed? {
      ProceedExact(s, db);
    } else if e.i < N(s) && s.workers[e.i].tasks != [] {
      RunExact(s, db, e.i, e.now);
    }
  }

  lemma {:induction false} CalmRun(s: State, events: seq<Event>, db: Db)
    requires Sound(s) && AllCalm(events) && Exact(s, db)
    ensures Exact(Reach(s, events), db)
  {
    hide Exact, Sound, Next, Calm;
    if events != [] {
      var n := |events| - 1;
      CalmRun(s, events[..n], db);
      CalmStep(Reach(s, events[..n]), events[n], db);
    }
  }

  lemma ExactStart(s: State, values: Pairs)
    requires CanBegin(s)
    ensures Exact(Next(s, Begin(values)), AsDb(s))
  {
    hide Sound, DbValid;
    AsDbValid(s);
    Begun(s, values);
    JobShape(Next(s, Begin(values)));
  }

  /** Every undisturbed batch: in whatever order the writer and the workers take their steps, if the batch
      is done its result and every shard's store are those of the sequential batch write. */
  lemma UndisturbedIsSequential(s: State, values: Pairs, during: seq<Event>)
    requires CanBegin(s) && AllCalm(during)
    ensures DbValid(AsDb(s))
    ensures var t := During(s, values, during);
            && t.writer.Some? && t.writer.value.values == values
            && (t.writer.value.phase.Done? ==>
                  var (d, result) := MSetDb(AsDb(s), values);
                  t.writer.value.phase == Done(Returned(result)) && Stores(t) == d.shards)
  {
    hide Sound, DbValid, MSetDb, Inv;
    AsDbValid(s);
    ExactStart(s, values);
    CalmRun(Next(s, Begin(values)), during, AsDb(s));
    DuringInv(s, values, during);
    hide Reach;
  }
}

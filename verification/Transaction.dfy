/** The sharded database under concurrency. Clients hold a shared lock and post tasks to the shards'
    queues; a batch write holds the lock exclusively, checkpoints the shards it touches, applies its
    groups one shard after another and restores the checkpoints when one is refused. Each worker runs
    its queue in order and sweeps its store between any two tasks. Every interleaving is a sequence of
    events. Line numbers are those of src/shard/sharded_database.cpp. */
module Transaction {
  import opened Wrappers
  import opened Store
  import opened Eviction
  import opened StoreRuns
  import opened LiveMap
  import opened Sharding

  datatype Task =
    | ClientTask(client: nat, op: Op, key: string)
    | CheckpointTask
    | ApplyTask(group: Pairs)
    | RestoreTask(checkpoint: Store)

  /** One shard: its store, its queue, and the last clock reading its worker took. */
  datatype Worker = Worker(store: Store, tasks: seq<Task>, clock: int)

  /** How a batch write ends: with a result, or with an exception thrown by a shard. */
  datatype Outcome = Returned(result: WriteResult) | Thrown

  /** Where the thread in the batch write is. */
  datatype Phase =
    | Checkpointing(next: nat)            // lines 93-95: about to look at group `next`
    | AwaitCheckpoint(index: nat)         // line 97
    | Applying(pos: nat)                  // line 112: about to submit the group of touched[pos]
    | AwaitApply(pos: nat)                // line 116
    | Restoring(pos: nat, why: Outcome)   // line 102: about to submit the restore of touched[pos]
    | AwaitRestore(why: Outcome)          // line 108
    | Done(outcome: Outcome)

  datatype Job = Job(
    values: Pairs, groups: seq<Pairs>, checkpoints: seq<Option<Store>>, touched: seq<nat>, phase: Phase)

  datatype State = State(
    hash: Hash, maxmemory: nat, policy: Policy,
    workers: seq<Worker>, readers: set<nat>, writer: Option<Job>)

  datatype Event =
    | Acquire(client: nat)                                 // the shared lock
    | Post(client: nat, key: string, op: Op)               // a task on the key's home shard
    | Release(client: nat)
    | Begin(values: Pairs)                                 // lines 85-92
    | Proceed                                              // the writer's next step
    | End
    | RunTask(i: nat, now: int, throws: bool)              // line 49
    | SweepStore(i: nat, samples: nat, now: int)           // line 50

  // ---------------------------------------------------------------- steps

  function N(s: State): nat {
    |s.workers|
  }

  function Queued(s: State, i: nat, task: Task): State
    requires i < N(s)
  {
    s.(workers := s.workers[i := s.workers[i].(tasks := s.workers[i].tasks + [task])])
  }

  function Rewrite(s: State, b: Job): State {
    s.(writer := Some(b))
  }

  predicate NoTasksOf(s: State, client: nat) {
    forall i, p :: 0 <= i < N(s) && 0 <= p < |s.workers[i].tasks| && s.workers[i].tasks[p].ClientTask? ==>
      s.workers[i].tasks[p].client != client
  }

  predicate Idle(s: State) {
    forall i :: 0 <= i < N(s) ==> s.workers[i].tasks == []
  }

  /** The writer's next step between two waits. */
  function Proceeded(s: State, b: Job): State {
    match b.phase
    case Checkpointing(next) =>
      if next >= |b.groups| || next >= N(s) || next >= |b.checkpoints| then Rewrite(s, b.(phase := Applying(0)))
      else if b.groups[next] == [] then Rewrite(s, b.(phase := Checkpointing(next + 1)))
      else Rewrite(Queued(s, next, CheckpointTask), b.(touched := b.touched + [next], phase := AwaitCheckpoint(next)))
    case Applying(pos) =>
      if pos >= |b.touched| || b.touched[pos] >= N(s) || b.touched[pos] >= |b.groups|
          then Rewrite(s, b.(phase := Done(Returned(Ok))))
      else Rewrite(Queued(s, b.touched[pos], ApplyTask(b.groups[b.touched[pos]])), b.(phase := AwaitApply(pos)))
    case Restoring(pos, why) =>
      if pos >= |b.touched| || b.touched[pos] >= N(s) || b.touched[pos] >= |b.checkpoints| ||
          b.checkpoints[b.touched[pos]].None?
      then Rewrite(s, b.(phase := AwaitRestore(why)))
      else Rewrite(Queued(s, b.touched[pos], RestoreTask(b.checkpoints[b.touched[pos]].value)),
          b.(phase := Restoring(pos + 1, why)))
    case AwaitRestore(why) => if Idle(s) then Rewrite(s, b.(phase := Done(why))) else s
    case _ => s
  }

  /** The writer learns the outcome of its group on touched[pos]. */
  function Learned(b: Job, outcome: Outcome): Job
    requires b.phase.AwaitApply?
  {
    b.(phase := if outcome == Returned(Ok) then Applying(b.phase.pos + 1) else Restoring(0, outcome))
  }

  /** The writer has the checkpoint of shard `i`. */
  function Taken(b: Job, i: nat, store: Store): Job
    requires b.phase.AwaitCheckpoint? && i < |b.checkpoints|
  {
    b.(checkpoints := b.checkpoints[i := Some(store)], phase := Checkpointing(b.phase.index + 1))
  }

  /** Worker `i` runs the first task of its queue at clock reading `now`. A checkpoint that throws ends
      the batch before anything was applied; a group that throws leaves its store alone, since it works
      on a trial copy, and is rolled back. */
  function RanTask(s: State, i: nat, now: int, throws: bool): State
    requires i < N(s) && s.workers[i].tasks != [] && Valid(s.workers[i].store)
  {
    var w := s.workers[i];
    var rest := w.tasks[1..];
    match w.tasks[0]
    case ClientTask(_, op, _) =>
      s.(workers := s.workers[i := Worker(Apply(w.store, op, now).0, rest, After(op, now))])
    case CheckpointTask =>
      var t := s.(workers := s.workers[i := Worker(w.store, rest, now)]);
      if s.writer.Some? && s.writer.value.phase.AwaitCheckpoint? && i < |s.writer.value.checkpoints|
      then Rewrite(t, if throws then s.writer.value.(phase := Done(Thrown)) else Taken(s.writer.value, i, w.store))
      else t
    case ApplyTask(group) =>
      var (u, result) := if throws then (w.store, Ok) else MSet(w.store, group);
      var t := s.(workers := s.workers[i := Worker(u, rest, now)]);
      if s.writer.Some? && s.writer.value.phase.AwaitApply?
      then Rewrite(t, Learned(s.writer.value, if throws then Thrown else Returned(result)))
      else t
    case RestoreTask(checkpoint) =>
      s.(workers := s.workers[i := Worker(checkpoint, rest, now)])
  }

  /** The effect of an event; an event that cannot happen in `s` leaves it unchanged. */
  function Step(s: State, e: Event): State
    requires forall i :: 0 <= i < N(s) ==> Valid(s.workers[i].store)
  {
    match e
    case Acquire(client) => if s.writer.None? then s.(readers := s.readers + {client}) else s
    case Post(client, key, op) =>
      if client in s.readers && N(s) > 0 && OnKey(op, key)
      then Queued(s, ShardFor(s.hash, N(s), key), ClientTask(client, op, key)) else s
    case Release(client) => if NoTasksOf(s, client) then s.(readers := s.readers - {client}) else s
    case Begin(values) =>
      if s.writer.None? && s.readers == {} && N(s) > 0
      then Rewrite(s, Job(values, Groups(s.hash, N(s), values), seq(N(s), _ => None), [], Checkpointing(0)))
      else s
    case Proceed => if s.writer.Some? then Proceeded(s, s.writer.value) else s
    case End => if s.writer.Some? && s.writer.value.phase.Done? then s.(writer := None) else s
    case RunTask(i, now, throws) =>
      if i < N(s) && s.workers[i].tasks != [] && s.workers[i].clock <= now then RanTask(s, i, now, throws) else s
    case SweepStore(i, samples, now) =>
      if i < N(s) && s.workers[i].clock <= now
      then s.(workers := s.workers[i := s.workers[i].(store := ActiveExpire(s.workers[i].store, samples, now).0,
          clock := now)])
      else s
  }

  // ---------------------------------------------------------------- the invariant of the database

  ghost predicate Fit(s: State, i: nat, t: Store)
    requires N(s) > 0
  {
    ShardOk(s.hash, s.maxmemory, s.policy, N(s), i, t)
  }

  /** Queued client tasks belong to lock holders and stand on their key's home shard; the batch's own
      tasks exist only while it holds the lock. */
  ghost predicate TaskOk(s: State, i: nat, t: Task)
    requires N(s) > 0
  {
    if t.ClientTask? then t.client in s.readers && OnKey(t.op, t.key) && ShardFor(s.hash, N(s), t.key) == i
    else s.writer.Some?
  }

  ghost predicate Base(s: State) {
    && N(s) > 0
    && (forall i :: 0 <= i < N(s) ==> Fit(s, i, s.workers[i].store))
    && (forall i, p :: 0 <= i < N(s) && 0 <= p < |s.workers[i].tasks| ==> TaskOk(s, i, s.workers[i].tasks[p]))
    && (s.writer.Some? ==> s.readers == {})
  }

  // ---------------------------------------------------------------- the invariant of the batch

  /** `t` shows clients what `s` shows them, now and later. */
  ghost predicate SameLive(s: Store, t: Store, now: int) {
    Live(s, now) == Live(t, now)
  }

  /** The group is in: listed keys hold their last listed value without a TTL, and any other key
      visible in `m` was visible in `was` with the same cell; nothing else changes unless the policy
      evicts. */
  ghost predicate GroupIn(was: View, m: View, group: Pairs, policy: Policy) {
    && (forall k :: k in LastValues(group) ==> k in m && m[k] == Cell(LastValues(group)[k], None))
    && (forall k :: k in m && k !in LastValues(group) ==> k in was && m[k] == was[k])
    && (policy == NoEviction ==> forall k :: k in was ==> k in m)
  }

  ghost predicate Applied(s: State, start: seq<Store>, i: nat, group: Pairs)
    requires i < N(s) && i < |start|
  {
    var w := s.workers[i];
    GroupIn(Live(start[i], w.clock), Live(w.store, w.clock), group, s.policy)
  }

  ghost predicate Unchanged(s: State, start: seq<Store>, i: nat)
    requires i < N(s) && i < |start|
  {
    SameLive(start[i], s.workers[i].store, s.workers[i].clock)
  }

  ghost predicate Saved(s: State, b: Job, start: seq<Store>, i: nat)
    requires N(s) > 0 && i < N(s) && i < |start|
  {
    && i < |b.checkpoints| && b.checkpoints[i].Some?
    && Fit(s, i, b.checkpoints[i].value) && SameLive(start[i], b.checkpoints[i].value, s.workers[i].clock)
  }

  /** Every queue is empty but possibly that of shard `i`, which holds just `task`. */
  ghost predicate OnlyTask(s: State, i: nat, task: Task) {
    && i < N(s) && s.workers[i].tasks == [task]
    && forall j :: 0 <= j < N(s) && j != i ==> s.workers[j].tasks == []
  }

  ghost predicate Restored(s: State, b: Job, start: seq<Store>, pos: nat)
    requires N(s) > 0 && |start| == N(s) && forall p :: 0 <= p < |b.touched| ==> b.touched[p] < N(s)
  {
    && pos <= |b.touched|
    && (forall p :: 0 <= p < pos ==>
          var i := b.touched[p];
          if s.workers[i].tasks == [] then Unchanged(s, start, i)
          else
            && i < |b.checkpoints| && b.checkpoints[i].Some?
            && s.workers[i].tasks == [RestoreTask(b.checkpoints[i].value)])
    && (forall i :: 0 <= i < N(s) && i !in b.touched[..pos] ==> s.workers[i].tasks == [])
  }

  ghost predicate PhaseOk(s: State, b: Job, start: seq<Store>)
    requires N(s) > 0 && |start| == N(s) && |b.groups| == N(s) && forall p :: 0 <= p < |b.touched| ==>
             b.touched[p] < N(s)
  {
    match b.phase
    case Checkpointing(next) =>
      && Idle(s) && Listed(b.touched, b.groups, next)
      && (forall i :: 0 <= i < N(s) ==> Unchanged(s, start, i))
      && (forall i :: i in b.touched ==> Saved(s, b, start, i))
    case AwaitCheckpoint(index) =>
      && OnlyTask(s, index, CheckpointTask) && Listed(b.touched, b.groups, index + 1) && index in b.touched
      && (forall i :: 0 <= i < N(s) ==> Unchanged(s, start, i))
      && (forall i :: i in b.touched && i != index ==> Saved(s, b, start, i))
    case Applying(pos) =>
      && Idle(s) && Listed(b.touched, b.groups, N(s)) && pos <= |b.touched|
      && (forall i :: i in b.touched ==> Saved(s, b, start, i))
      && (forall i :: i in b.touched[..pos] ==> Applied(s, start, i, b.groups[i]))
      && (forall i :: 0 <= i < N(s) && i !in b.touched[..pos] ==> Unchanged(s, start, i))
    case AwaitApply(pos) =>
      && pos < |b.touched| && OnlyTask(s, b.touched[pos], ApplyTask(b.groups[b.touched[pos]])) &&
          Listed(b.touched, b.groups, N(s))
      && (forall i :: i in b.touched ==> Saved(s, b, start, i))
      && (forall i :: i in b.touched[..pos] ==> Applied(s, start, i, b.groups[i]))
      && (forall i :: 0 <= i < N(s) && i !in b.touched[..pos] ==> Unchanged(s, start, i))
    case Restoring(pos, why) =>
      && Listed(b.touched, b.groups, N(s)) && why != Returned(Ok)
      && (forall i :: i in b.touched ==> Saved(s, b, start, i))
      && Restored(s, b, start, pos)
      && (forall i :: 0 <= i < N(s) && i !in b.touched ==> Unchanged(s, start, i))
    case AwaitRestore(why) =>
      && Listed(b.touched, b.groups, N(s)) && why != Returned(Ok)
      && (forall i :: i in b.touched ==> Saved(s, b, start, i))
      && Restored(s, b, start, |b.touched|)
      && (forall i :: 0 <= i < N(s) && i !in b.touched ==> Unchanged(s, start, i))
    case Done(outcome) =>
      && Idle(s) && (outcome == Returned(Ok) ==> Listed(b.touched, b.groups, N(s)))
      && (forall i :: 0 <= i < N(s) ==>
            if outcome == Returned(Ok) && i in b.touched then Applied(s, start, i, b.groups[i])
                else Unchanged(s, start, i))
  }

  /** The batch in progress, relative to the stores it started from. */
  ghost predicate BatchOk(s: State, start: seq<Store>)
    requires N(s) > 0
  {
    s.writer.Some? ==>
      var b := s.writer.value;
      && |start| == N(s) == |b.groups| == |b.checkpoints|
      && (forall i :: 0 <= i < N(s) ==> b.groups[i] == Group(s.hash, N(s), b.values, i))
      && (forall p :: 0 <= p < |b.touched| ==> b.touched[p] < N(s))
      && PhaseOk(s, b, start)
  }

  ghost predicate Inv(s: State, start: seq<Store>) {
    Base(s) && BatchOk(s, start)
  }

  // ---------------------------------------------------------------- the database invariant is kept

  lemma StoresValid(s: State)
    requires Base(s)
    ensures forall i :: 0 <= i < N(s) ==> Valid(s.workers[i].store)
  {
    forall i | 0 <= i < N(s) ensures Valid(s.workers[i].store) { assert Fit(s, i, s.workers[i].store); }
  }

  /** Replacing one worker keeps the database invariant if the new store fits and its tasks are fine. */
  lemma WorkerBase(s: State, i: nat, w: Worker)
    requires Base(s) && i < N(s) && Fit(s, i, w.store) && forall p :: 0 <= p < |w.tasks| ==> TaskOk(s, i, w.tasks[p])
    ensures Base(s.(workers := s.workers[i := w]))
  {
    hide ShardOk;
    var t := s.(workers := s.workers[i := w]);
    forall j | 0 <= j < N(t) ensures Fit(t, j, t.workers[j].store) { assert j != i ==> Fit(s, j, s.workers[j].store); }
    forall j, p | 0 <= j < N(t) && 0 <= p < |t.workers[j].tasks| ensures TaskOk(t, j, t.workers[j].tasks[p]) {
      assert j != i ==> TaskOk(s, j, s.workers[j].tasks[p]);
      assert j == i ==> TaskOk(s, i, w.tasks[p]);
    }
  }

  lemma QueuedBase(s: State, i: nat, task: Task)
    requires Base(s) && i < N(s) && TaskOk(s, i, task)
    ensures Base(Queued(s, i, task))
  {
    hide ShardOk;
    var w := s.workers[i].(tasks := s.workers[i].tasks + [task]);
    forall p | 0 <= p < |w.tasks| ensures TaskOk(s, i, w.tasks[p]) {
      if p < |w.tasks| - 1 { assert TaskOk(s, i, s.workers[i].tasks[p]); }
    }
    WorkerBase(s, i, w);
  }

  lemma RewriteBase(s: State, b: Job)
    requires Base(s) && s.writer.Some?
    ensures Base(Rewrite(s, b))
  {
    hide ShardOk;
    var t := Rewrite(s, b);
    forall i | 0 <= i < N(t) ensures Fit(t, i, t.workers[i].store) { assert Fit(s, i, s.workers[i].store); }
    forall i, p | 0 <= i < N(t) && 0 <= p < |t.workers[i].tasks| ensures TaskOk(t, i, t.workers[i].tasks[p]) {
      assert TaskOk(s, i, s.workers[i].tasks[p]);
    }
  }

  lemma ProceededBase(s: State, b: Job)
    requires Base(s) && s.writer == Some(b)
    ensures Base(Proceeded(s, b))
  {
    hide Base, ShardOk;
    BaseHasWorkers(s);
    forall i, task: Task | 0 <= i < N(s) && !task.ClientTask? ensures Base(Queued(s, i, task)) {
      QueuedBase(s, i, task);
    }
    forall t: State, c: Job | Base(t) && t.writer.Some? ensures Base(Rewrite(t, c)) { RewriteBase(t, c); }
  }

  lemma BaseHasWorkers(s: State)
    requires Base(s)
    ensures N(s) > 0
  {
  }

  lemma ClientFit(s: State, i: nat, t: Store, op: Op, k: string, now: int)
    requires N(s) > 0 && Fit(s, i, t) && OnKey(op, k) && ShardFor(s.hash, N(s), k) == i
    ensures Fit(s, i, Apply(t, op, now).0)
  {
    hide Valid, Apply;
    KeyOpKeys(t, op, k, now);
    ApplyConfig(t, op, now);
  }

  lemma GroupFit(s: State, i: nat, t: Store, values: Pairs)
    requires N(s) > 0 && i < N(s) && Fit(s, i, t)
    ensures Fit(s, i, MSet(t, Group(s.hash, N(s), values, i)).0)
  {
    hide Valid, MSet, Group;
    var g := Group(s.hash, N(s), values, i);
    MSetConfig(t, g);
    GroupKeys(t, g);
    forall j | j in LastValues(g) ensures ShardFor(s.hash, N(s), j) == i { GroupValues(s.hash, N(s), values, i, j); }
  }

  /** Before a batch begins and after it ends nothing of it is queued. */
  lemma NothingQueued(s: State)
    requires Base(s) && s.writer.None? && s.readers == {}
    ensures Idle(s)
  {
    hide ShardOk;
    forall i | 0 <= i < N(s) ensures s.workers[i].tasks == [] {
      assert |s.workers[i].tasks| > 0 ==> TaskOk(s, i, s.workers[i].tasks[0]);
    }
  }

  /** While a batch holds the lock no client task is queued. */
  lemma NoClientTasks(s: State, i: nat, p: nat)
    requires Base(s) && s.writer.Some? && i < N(s) && p < |s.workers[i].tasks|
    ensures !s.workers[i].tasks[p].ClientTask?
  {
    hide ShardOk;
    assert TaskOk(s, i, s.workers[i].tasks[p]);
  }

  // ---------------------------------------------------------------- what time and sweeps keep

  lemma SameLiveLater(a: Store, b: Store, now: int, later: int)
    requires SameLive(a, b, now) && now <= later
    ensures SameLive(a, b, later)
  {
    PruneTwice(ViewOf(a), now, later);
    PruneTwice(ViewOf(b), now, later);
  }

  lemma GroupInLater(was: View, m: View, group: Pairs, policy: Policy, later: int)
    requires GroupIn(was, m, group, policy)
    ensures GroupIn(Prune(was, later), Prune(m, later), group, policy)
  {
    hide LastValues;
  }

  /** Only worker `j` moved, and its clients cannot tell. */
  ghost predicate Quiet(s: State, t: State, j: nat) {
    && j < N(s) == N(t) && t.hash == s.hash && t.maxmemory == s.maxmemory && t.policy == s.policy
    && t.workers == s.workers[j := t.workers[j]]
    && s.workers[j].clock <= t.workers[j].clock
    && SameLive(s.workers[j].store, t.workers[j].store, t.workers[j].clock)
  }

  lemma QuietInfo(s: State, t: State, j: nat, b: Job, start: seq<Store>, i: nat, group: Pairs)
    requires N(t) == N(s) && Quiet(s, t, j) && i < N(s) && i < |start|
    ensures Unchanged(s, start, i) ==> Unchanged(t, start, i)
    ensures Applied(s, start, i, group) ==> Applied(t, start, i, group)
    ensures Saved(s, b, start, i) ==> Saved(t, b, start, i)
  {
    hide Live, ShardOk, GroupIn, ViewOf, Prune;
    if i == j {
      var c, d := s.workers[i].clock, t.workers[i].clock;
      PruneTwice(ViewOf(start[i]), c, d);
      PruneTwice(ViewOf(s.workers[i].store), c, d);
      LiveIs(start[i], c);
      LiveIs(s.workers[i].store, c);
      LiveIs(start[i], d);
      LiveIs(s.workers[i].store, d);
      if Applied(s, start, i, group) {
        GroupInLater(Live(start[i], c), Live(s.workers[i].store, c), group, s.policy, d);
      }
      if Saved(s, b, start, i) { SameLiveLater(start[i], b.checkpoints[i].value, c, d); }
    }
  }

  lemma QuietPhase(s: State, t: State, j: nat, start: seq<Store>)
    requires Base(s) && BatchOk(s, start) && s.writer.Some? && N(t) == N(s) && t.writer == s.writer && Quiet(s, t, j)
    requires t.workers[j].tasks == s.workers[j].tasks
    ensures BatchOk(t, start)
  {
    hide Unchanged, Applied, Saved, Base, Listed, Group, Quiet;
    BaseHasWorkers(s);
    QuietParts(s, t, j);
    var b := s.writer.value;
    QuietInfos(s, t, j, b, start);
  }

  lemma QuietParts(s: State, t: State, j: nat)
    requires N(t) == N(s) && Quiet(s, t, j)
    ensures t.hash == s.hash && t.policy == s.policy && t.workers == s.workers[j := t.workers[j]]
  {
  }

  lemma SweepKeeps(s: State, start: seq<Store>, i: nat, samples: nat, now: int)
    requires Inv(s, start) && i < N(s) && s.workers[i].clock <= now && Valid(s.workers[i].store)
    ensures var w := s.workers[i].(store := ActiveExpire(s.workers[i].store, samples, now).0, clock := now);
            Inv(s.(workers := s.workers[i := w]), start)
  {
    hide Valid, ActiveExpire, Live, BatchOk, Budget;
    var w := s.workers[i].(store := ActiveExpire(s.workers[i].store, samples, now).0, clock := now);
    var t := s.(workers := s.workers[i := w]);
    assert Fit(s, i, s.workers[i].store);
    SweepShardOk(s.hash, s.maxmemory, s.policy, N(s), i, s.workers[i].store, samples, now);
    forall p | 0 <= p < |w.tasks| ensures TaskOk(s, i, w.tasks[p]) { assert TaskOk(s, i, s.workers[i].tasks[p]); }
    hide Base;
    WorkerBase(s, i, w);
    if s.writer.Some? {
      ActiveExpireLive(s.workers[i].store, samples, now);
      assert Quiet(s, t, i);
      QuietPhase(s, t, i, start);
    } else {
      NoBatch(t, start);
    }
  }

  lemma NoBatch(s: State, start: seq<Store>)
    requires N(s) > 0 && s.writer.None?
    ensures BatchOk(s, start)
  {
  }

  // ---------------------------------------------------------------- the writer's own steps

  ghost predicate SameStores(s: State, t: State) {
    && N(t) == N(s) && t.hash == s.hash && t.maxmemory == s.maxmemory && t.policy == s.policy
    && forall i :: 0 <= i < N(s) ==>
           t.workers[i].store == s.workers[i].store && t.workers[i].clock == s.workers[i].clock
  }

  lemma FrameInfo(s: State, t: State, b: Job, c: Job, start: seq<Store>)
    requires SameStores(s, t) && N(s) > 0 && |start| == N(s) && c.checkpoints == b.checkpoints
    ensures forall i :: 0 <= i < N(s) && Unchanged(s, start, i) ==> Unchanged(t, start, i)
    ensures forall i :: 0 <= i < N(s) && Saved(s, b, start, i) ==> Saved(t, c, start, i)
    ensures forall i, group :: 0 <= i < N(s) && Applied(s, start, i, group) ==> Applied(t, start, i, group)
  {
    hide Live, ShardOk, GroupIn;
  }

  lemma SkipCheckpoint(s: State, b: Job, start: seq<Store>)
    requires N(s) > 0 && s.writer == Some(b) && BatchOk(s, start) && b.phase.Checkpointing?
    requires b.phase.next == N(s) || (b.phase.next < N(s) == |b.groups| && b.groups[b.phase.next] == [])
    ensures BatchOk(Proceeded(s, b), start)
  {
    hide Unchanged, Applied, Saved, Group;
    var t := Proceeded(s, b);
    FrameInfo(s, t, b, t.writer.value, start);
  }

  lemma PostCheckpoint(s: State, b: Job, start: seq<Store>)
    requires N(s) > 0 && s.writer == Some(b) && BatchOk(s, start) && b.phase.Checkpointing?
    requires b.phase.next < N(s) == |b.groups| && b.groups[b.phase.next] != []
    ensures BatchOk(Proceeded(s, b), start)
  {
    hide Unchanged, Applied, Saved, Group;
    var t, next := Proceeded(s, b), b.phase.next;
    FrameInfo(s, t, b, t.writer.value, start);
    ListedNext(b.touched, b.groups, next);
    assert t.workers[next].tasks == [CheckpointTask];
    assert forall i :: i in b.touched + [next] && i != next ==> i in b.touched;
    hide Listed;
  }

  lemma ListedNext(touched: seq<nat>, groups: seq<Pairs>, next: nat)
    requires Listed(touched, groups, next) && next < |groups| && groups[next] != []
    ensures Listed(touched + [next], groups, next + 1)
  {
  }

  lemma ProceedCheckpointing(s: State, b: Job, start: seq<Store>)
    requires N(s) > 0 && s.writer == Some(b) && BatchOk(s, start) && b.phase.Checkpointing?
    ensures BatchOk(Proceeded(s, b), start)
  {
    hide Unchanged, Applied, Saved, Group, Proceeded;
    if b.phase.next == N(s) || b.groups[b.phase.next] == [] {
      SkipCheckpoint(s, b, start);
    } else {
      PostCheckpoint(s, b, start);
    }
  }

  lemma ProceedApplying(s: State, b: Job, start: seq<Store>)
    requires N(s) > 0 && s.writer == Some(b) && BatchOk(s, start) && b.phase.Applying?
    ensures BatchOk(Proceeded(s, b), start)
  {
    hide Unchanged, Applied, Saved, Group;
    var t := Proceeded(s, b);
    FrameInfo(s, t, b, t.writer.value, start);
    assert b.touched[..|b.touched|] == b.touched;
  }

  lemma RestoreQueued(s: State, t: State, b: Job, c: Job, start: seq<Store>, pos: nat)
    requires N(s) > 0 && |start| == N(s) && (forall p :: 0 <= p < |b.touched| ==> b.touched[p] < N(s))
    requires forall p, q :: 0 <= p < q < |b.touched| ==> b.touched[p] < b.touched[q]
    requires pos < |b.touched| && Restored(s, b, start, pos) && SameStores(s, t)
    requires c.touched == b.touched && c.checkpoints == b.checkpoints
    requires var i := b.touched[pos];
             && i < |b.checkpoints| && b.checkpoints[i].Some?
             && t.workers[i].tasks == s.workers[i].tasks + [RestoreTask(b.checkpoints[i].value)]
             && forall j :: 0 <= j < N(s) && j != i ==> t.workers[j].tasks == s.workers[j].tasks
    ensures Restored(t, c, start, pos + 1)
  {
    hide Unchanged;
    FrameInfo(s, t, b, c, start);
    assert b.touched[..pos + 1] == b.touched[..pos] + [b.touched[pos]];
    assert b.touched[pos] !in b.touched[..pos];
    assert s.workers[b.touched[pos]].tasks == [];
  }

  lemma ProceedRestoring(s: State, b: Job, start: seq<Store>)
    requires N(s) > 0 && s.writer == Some(b) && BatchOk(s, start) && b.phase.Restoring?
    ensures BatchOk(Proceeded(s, b), start)
  {
    hide Unchanged, Applied, Group, Saved, Restored;
    var t, pos := Proceeded(s, b), b.phase.pos;
    var c := t.writer.value;
    FrameInfo(s, t, b, c, start);
    RestoredPos(s, b, start, pos);
    if pos < |b.touched| {
      assert b.touched[pos] in b.touched;
      SavedSome(s, b, start, b.touched[pos]);
      RestoreQueued(s, t, b, c, start, pos);
    } else {
      RestoredFrame(s, t, b, c, start, pos);
    }
  }

  lemma RestoredPos(s: State, b: Job, start: seq<Store>, pos: nat)
    requires N(s) > 0 && |start| == N(s) && forall p :: 0 <= p < |b.touched| ==> b.touched[p] < N(s)
    requires Restored(s, b, start, pos)
    ensures pos <= |b.touched|
  {
  }

  lemma RestoredFrame(s: State, t: State, b: Job, c: Job, start: seq<Store>, pos: nat)
    requires N(s) > 0 && |start| == N(s) && forall p :: 0 <= p < |b.touched| ==> b.touched[p] < N(s)
    requires Restored(s, b, start, pos) && t.workers == s.workers && c.touched == b.touched &&
             c.checkpoints == b.checkpoints
    ensures Restored(t, c, start, pos)
  {
    hide SameLive;
  }

  lemma SavedSome(s: State, b: Job, start: seq<Store>, i: nat)
    requires N(s) > 0 && i < N(s) && i < |start| && Saved(s, b, start, i)
    ensures i < |b.checkpoints| && b.checkpoints[i].Some?
  {
  }

  lemma ProceedAwaitRestore(s: State, b: Job, start: seq<Store>)
    requires N(s) > 0 && s.writer == Some(b) && BatchOk(s, start) && b.phase.AwaitRestore?
    ensures BatchOk(Proceeded(s, b), start)
  {
    hide Unchanged, Applied, Group, Saved;
    var t := Proceeded(s, b);
    if Idle(s) {
      FrameInfo(s, t, b, t.writer.value, start);
      assert b.touched[..|b.touched|] == b.touched;
    }
  }

  lemma ProceedKeeps(s: State, b: Job, start: seq<Store>)
    requires N(s) > 0 && s.writer == Some(b) && BatchOk(s, start)
    ensures BatchOk(Proceeded(s, b), start)
  {
    hide BatchOk;
    match b.phase
    case Checkpointing(_) => ProceedCheckpointing(s, b, start);
    case Applying(_) => ProceedApplying(s, b, start);
    case Restoring(_, _) => ProceedRestoring(s, b, start);
    case AwaitRestore(_) => ProceedAwaitRestore(s, b, start);
    case _ =>
  }

  lemma BeginKeeps(s: State, values: Pairs)
    requires Base(s) && s.writer.None? && s.readers == {}
    ensures var b := Job(values, Groups(s.hash, N(s), values), seq(N(s), _ => None), [], Checkpointing(0));
            Inv(Rewrite(s, b), Stores(s))
  {
    hide ShardOk, Group, Live;
    NothingQueued(s);
    var b := Job(values, Groups(s.hash, N(s), values), seq(N(s), _ => None), [], Checkpointing(0));
    var t := Rewrite(s, b);
    forall i | 0 <= i < N(t) ensures Fit(t, i, t.workers[i].store) { assert Fit(s, i, s.workers[i].store); }
  }

  function Stores(s: State): (r: seq<Store>)
    ensures |r| == N(s) && forall i :: 0 <= i < N(s) ==> r[i] == s.workers[i].store
  {
    seq(N(s), i requires 0 <= i < N(s) => s.workers[i].store)
  }

  // ---------------------------------------------------------------- the workers' steps

  lemma QuietInfos(s: State, t: State, j: nat, b: Job, start: seq<Store>)
    requires N(t) == N(s) && Quiet(s, t, j) && |start| == N(s)
    ensures forall i :: 0 <= i < N(s) && Unchanged(s, start, i) ==> Unchanged(t, start, i)
    ensures forall i :: 0 <= i < N(s) && Saved(s, b, start, i) ==> Saved(t, b, start, i)
    ensures forall i, group :: 0 <= i < N(s) && Applied(s, start, i, group) ==> Applied(t, start, i, group)
  {
    hide Unchanged, Applied, Saved, Quiet;
    forall i | 0 <= i < N(s)
      ensures Unchanged(s, start, i) ==> Unchanged(t, start, i)
      ensures Saved(s, b, start, i) ==> Saved(t, b, start, i)
    {
      QuietInfo(s, t, j, b, start, i, []);
    }
    forall i, group | 0 <= i < N(s) ensures Applied(s, start, i, group) ==> Applied(t, start, i, group) {
      QuietInfo(s, t, j, b, start, i, group);
    }
  }

  /** The shard whose checkpoint the writer waits for, with its time read again. */
  function Reread(s: State, i: nat, now: int): State
    requires i < N(s)
  {
    s.(workers := s.workers[i := Worker(s.workers[i].store, [], now)])
  }

  lemma AwaitedCheckpoint(s: State, start: seq<Store>)
    requires Inv(s, start) && s.writer.Some? && s.writer.value.phase.AwaitCheckpoint?
    ensures var b, index := s.writer.value, s.writer.value.phase.index;
            |start| == N(s) && index < N(s) == |b.checkpoints| && s.workers[index].tasks == [CheckpointTask]
  {
    hide Unchanged, Saved, Group, Base, Listed;
  }

  lemma RunCheckpoint(s: State, start: seq<Store>, index: nat, now: int)
    requires Inv(s, start) && s.writer.Some? && s.writer.value.phase == AwaitCheckpoint(index)
    requires index < N(s) == |s.writer.value.checkpoints| && s.workers[index].clock <= now
    ensures BatchOk(Rewrite(Reread(s, index, now), Taken(s.writer.value, index, s.workers[index].store)), start)
  {
    hide Unchanged, Applied, Saved, Group, Live, ShardOk;
    var b, w := s.writer.value, s.workers[index];
    var c := Taken(b, index, w.store);
    var t := Rewrite(Reread(s, index, now), c);
    assert Quiet(s, t, index);
    QuietInfos(s, t, index, b, start);
    assert Fit(s, index, w.store);
    CheckpointSaved(t, c, start, index);
    forall i | i in b.touched && i != index ensures Saved(t, c, start, i) { SavedFrame(t, b, c, start, i); }
  }

  lemma CheckpointThrows(s: State, start: seq<Store>, index: nat, now: int)
    requires Inv(s, start) && s.writer.Some? && s.writer.value.phase == AwaitCheckpoint(index)
    requires index < N(s) && s.workers[index].clock <= now
    ensures BatchOk(Rewrite(Reread(s, index, now), s.writer.value.(phase := Done(Thrown))), start)
  {
    hide Unchanged, Applied, Saved, Group, Live, ShardOk, Listed;
    var b := s.writer.value;
    var t := Rewrite(Reread(s, index, now), b.(phase := Done(Thrown)));
    assert Quiet(s, t, index);
    QuietInfos(s, t, index, b, start);
  }

  lemma CheckpointSaved(t: State, c: Job, start: seq<Store>, i: nat)
    requires N(t) > 0 && i < N(t) && i < |start| && Unchanged(t, start, i) && Fit(t, i, t.workers[i].store)
    requires i < |c.checkpoints| && c.checkpoints[i] == Some(t.workers[i].store)
    ensures Saved(t, c, start, i)
  {
    hide Live, ShardOk;
  }

  lemma SavedFrame(t: State, b: Job, c: Job, start: seq<Store>, i: nat)
    requires N(t) > 0 && i < N(t) && i < |start| && Saved(t, b, start, i)
    requires i < |c.checkpoints| && c.checkpoints[i] == b.checkpoints[i]
    ensures Saved(t, c, start, i)
  {
    hide Live, ShardOk;
  }

  /** An accepted group is in, whatever expired or was swept since the start. */
  lemma AcceptedGroup(was: Store, s: Store, group: Pairs, now: int)
    requires Valid(s) && SameLive(was, s, now) && MSet(s, group).1 == Ok
    ensures GroupIn(Live(was, now), Live(MSet(s, group).0, now), group, s.policy)
  {
    hide Valid, MSet, LastValues;
    var t := MSet(s, group).0;
    forall k ensures k in LastValues(group) ==> k in Live(t, now) && Live(t, now)[k] == Cell(LastValues(group)[k], None)
      ensures k in Live(t, now) && k !in LastValues(group) ==>
                k in Live(was, now) && Live(t, now)[k] == Live(was, now)[k]
    {
      MSetContents(s, group, k);
    }
    if s.policy == NoEviction {
      AcceptedFits(s, group);
      forall k | k in Live(was, now) ensures k in Live(t, now) {
        FittingMSet(s, group, k);
      }
    }
  }

  lemma RunApply(s: State, start: seq<Store>, now: int, throws: bool)
    requires Inv(s, start) && s.writer.Some? && s.writer.value.phase.AwaitApply?
    ensures var b := s.writer.value;
            && b.phase.pos < |b.touched| && b.touched[b.phase.pos] < N(s)
            && var i := b.touched[b.phase.pos];
               && i < |b.groups| && s.workers[i].tasks == [ApplyTask(b.groups[i])] && Valid(s.workers[i].store)
               && (s.workers[i].clock <= now ==> ApplyKeeps(s, start, i, now, throws))
  {
    hide Unchanged, Applied, Saved, Live, ShardOk, MSet;
    var b := s.writer.value;
    var i := b.touched[b.phase.pos];
    assert Fit(s, i, s.workers[i].store);
    StoresValid(s);
    if s.workers[i].clock <= now {
      var (u, result) := MSet(s.workers[i].store, b.groups[i]);
      if !throws && result == Ok { RunAccepted(s, start, now); } else {
        RunRefused(s, start, now, if throws then Thrown else Returned(result));
      }
    }
  }

  /** After the group of shard `i` ran, the store and the batch are in order. */
  ghost predicate ApplyKeeps(s: State, start: seq<Store>, i: nat, now: int, throws: bool)
    requires N(s) > 0 && i < N(s) && Valid(s.workers[i].store) && s.writer.Some? && s.writer.value.phase.AwaitApply? &&
             i < |s.writer.value.groups|
  {
    var (u, result) := if throws then (s.workers[i].store, Ok) else MSet(s.workers[i].store, s.writer.value.groups[i]);
    && Fit(s, i, u)
    && BatchOk(Rewrite(s.(workers := s.workers[i := Worker(u, [], now)]),
                       Learned(s.writer.value, if throws then Thrown else Returned(result))), start)
  }

  lemma FitPolicy(s: State, i: nat, t: Store)
    requires N(s) > 0 && Fit(s, i, t)
    ensures t.policy == s.policy && Valid(t)
  {
  }

  lemma RunRefused(s: State, start: seq<Store>, now: int, outcome: Outcome)
    requires Inv(s, start) && s.writer.Some? && s.writer.value.phase.AwaitApply? && outcome != Returned(Ok)
    requires var b := s.writer.value; s.workers[b.touched[b.phase.pos]].clock <= now
    ensures var b := s.writer.value;
            var i := b.touched[b.phase.pos];
            BatchOk(Rewrite(s.(workers := s.workers[i := Worker(s.workers[i].store, [], now)]), Learned(b, outcome)),
                start)
  {
    hide Unchanged, Applied, Saved, Group, Live, Base;
    BaseHasWorkers(s);
    var b := s.writer.value;
    var i := b.touched[b.phase.pos];
    var c := Learned(b, outcome);
    var t := Rewrite(s.(workers := s.workers[i := Worker(s.workers[i].store, [], now)]), c);
    assert Quiet(s, t, i);
    QuietInfos(s, t, i, b, start);
    FrameInfo(t, t, b, c, start);
  }

  /** A worker's step says nothing about the other shards. */
  lemma OthersInfo(s: State, t: State, b: Job, c: Job, start: seq<Store>, i: nat)
    requires N(s) > 0 && i < N(s) == N(t) == |start| && t.workers == s.workers[i := t.workers[i]] &&
             c.checkpoints == b.checkpoints
    requires t.hash == s.hash && t.maxmemory == s.maxmemory && t.policy == s.policy
    ensures forall j :: 0 <= j < N(s) && j != i && Unchanged(s, start, j) ==> Unchanged(t, start, j)
    ensures forall j :: 0 <= j < N(s) && j != i && Saved(s, b, start, j) ==> Saved(t, c, start, j)
    ensures forall j, group :: 0 <= j < N(s) && j != i && Applied(s, start, j, group) ==> Applied(t, start, j, group)
  {
    hide Live, ShardOk, GroupIn;
  }

  /** A checkpoint stays good as time passes. */
  lemma SavedLater(s: State, t: State, b: Job, c: Job, start: seq<Store>, i: nat)
    requires N(s) > 0 && i < N(s) == N(t) && i < |start| && c.checkpoints == b.checkpoints
    requires t.hash == s.hash && t.maxmemory == s.maxmemory && t.policy == s.policy
    requires Saved(s, b, start, i) && s.workers[i].clock <= t.workers[i].clock
    ensures Saved(t, c, start, i)
  {
    hide Live, ShardOk;
    SameLiveLater(start[i], b.checkpoints[i].value, s.workers[i].clock, t.workers[i].clock);
  }

  lemma AcceptedInfo(s: State, t: State, b: Job, start: seq<Store>, i: nat)
    requires N(s) > 0 && i < N(s) == N(t) && i < |start| && i < |b.groups| &&
             t.policy == s.policy == s.workers[i].store.policy
    requires Unchanged(s, start, i) && s.workers[i].clock <= t.workers[i].clock && Valid(s.workers[i].store)
    requires MSet(s.workers[i].store, b.groups[i]) == (t.workers[i].store, Ok)
    ensures Applied(t, start, i, b.groups[i])
  {
    hide Live, MSet, Valid, GroupIn;
    SameLiveLater(start[i], s.workers[i].store, s.workers[i].clock, t.workers[i].clock);
    AcceptedGroup(start[i], s.workers[i].store, b.groups[i], t.workers[i].clock);
  }

  lemma RunAccepted(s: State, start: seq<Store>, now: int)
    requires Inv(s, start) && s.writer.Some? && s.writer.value.phase.AwaitApply?
    requires var b := s.writer.value;
             var i := b.touched[b.phase.pos];
             s.workers[i].clock <= now && Valid(s.workers[i].store) && MSet(s.workers[i].store, b.groups[i]).1 == Ok
    ensures var b := s.writer.value;
            var i := b.touched[b.phase.pos];
            var u := MSet(s.workers[i].store, b.groups[i]).0;
            Fit(s, i, u) && BatchOk(Rewrite(s.(workers := s.workers[i := Worker(u, [], now)]),
                Learned(b, Returned(Ok))), start)
  {
    hide Unchanged, Applied, Saved, Live, MSet, ShardOk, Valid, Group;
    var b := s.writer.value;
    var pos := b.phase.pos;
    var i := b.touched[pos];
    var u := MSet(s.workers[i].store, b.groups[i]).0;
    var c := Learned(b, Returned(Ok));
    var t := Rewrite(s.(workers := s.workers[i := Worker(u, [], now)]), c);
    assert Fit(s, i, s.workers[i].store);
    GroupFit(s, i, s.workers[i].store, b.values);
    OthersInfo(s, t, b, c, start, i);
    assert i in b.touched;
    SavedLater(s, t, b, c, start, i);
    assert i !in b.touched[..pos];
    FitPolicy(s, i, s.workers[i].store);
    AcceptedInfo(s, t, b, start, i);
    assert b.touched[..pos + 1] == b.touched[..pos] + [i];
  }

  ghost predicate RollingBack(s: State) {
    s.writer.Some? && (s.writer.value.phase.Restoring? || s.writer.value.phase.AwaitRestore?)
  }

  /** How many restores have been submitted. */
  function Submitted(b: Job): nat {
    if b.phase.Restoring? then b.phase.pos else |b.touched|
  }

  lemma RestoreReady(s: State, start: seq<Store>, i: nat)
    requires Inv(s, start) && RollingBack(s) && i < N(s) && s.workers[i].tasks != []
    ensures var b := s.writer.value;
            && i in b.touched && |start| == N(s) && i < |b.checkpoints| && b.checkpoints[i].Some?
            && s.workers[i].tasks == [RestoreTask(b.checkpoints[i].value)] && Saved(s, b, start, i)
  {
    hide Unchanged, Saved, Group, Base;
    var b := s.writer.value;
    assert i in b.touched[..Submitted(b)];
    var p :| 0 <= p < Submitted(b) && b.touched[..Submitted(b)][p] == i;
    assert b.touched[p] == i;
  }

  lemma RestoreRan(s: State, t: State, b: Job, start: seq<Store>, i: nat, pos: nat)
    requires N(s) > 0 && i < N(s) == N(t) == |start| && t.workers == s.workers[i := t.workers[i]]
    requires t.hash == s.hash && t.maxmemory == s.maxmemory && t.policy == s.policy
    requires forall p :: 0 <= p < |b.touched| ==> b.touched[p] < N(s)
    requires Restored(s, b, start, pos) && Unchanged(t, start, i) && t.workers[i].tasks == []
    ensures Restored(t, b, start, pos)
  {
    hide Unchanged;
    OthersInfo(s, t, b, b, start, i);
  }

  lemma RunRestore(s: State, start: seq<Store>, i: nat, now: int)
    requires Inv(s, start) && RollingBack(s) && i < N(s) && s.workers[i].tasks != [] && s.workers[i].clock <= now
    ensures var b := s.writer.value;
            && i < |b.checkpoints| && b.checkpoints[i].Some?
            && s.workers[i].tasks == [RestoreTask(b.checkpoints[i].value)] && Fit(s, i, b.checkpoints[i].value)
            && BatchOk(s.(workers := s.workers[i := Worker(b.checkpoints[i].value, [], now)]), start)
  {
    hide Unchanged, Applied, Saved, Group, Live, ShardOk, Base, Restored;
    BaseHasWorkers(s);
    RestoreReady(s, start, i);
    var b := s.writer.value;
    var t := s.(workers := s.workers[i := Worker(b.checkpoints[i].value, [], now)]);
    OthersInfo(s, t, b, b, start, i);
    SavedLater(s, t, b, b, start, i);
    SavedIsUnchanged(t, b, start, i);
    RestoreRan(s, t, b, start, i, Submitted(b));
  }

  lemma SavedIsUnchanged(t: State, b: Job, start: seq<Store>, i: nat)
    requires N(t) > 0 && i < N(t) && i < |start| && Saved(t, b, start, i) &&
             t.workers[i].store == b.checkpoints[i].value
    ensures Unchanged(t, start, i) && Fit(t, i, b.checkpoints[i].value)
  {
    hide Live, ShardOk;
  }

  lemma PhaseOfTask(s: State, start: seq<Store>, i: nat)
    requires Inv(s, start) && s.writer.Some? && i < N(s) && s.workers[i].tasks != []
    ensures var b := s.writer.value;
            || (b.phase.AwaitCheckpoint? && i == b.phase.index)
            || (b.phase.AwaitApply? && b.phase.pos < |b.touched| && i == b.touched[b.phase.pos])
            || RollingBack(s)
  {
    hide Unchanged, Applied, Saved, Group, Base, Listed, Restored;
  }

  /** A worker's new store and tasks, together with the writer's new step. */
  lemma RewrittenBase(s: State, i: nat, w: Worker, b: Job)
    requires Base(s) && s.writer.Some? && i < N(s) && Fit(s, i, w.store) && w.tasks == []
    ensures Base(Rewrite(s.(workers := s.workers[i := w]), b))
  {
    hide Base, Fit;
    WorkerBase(s, i, w);
    RewriteBase(s.(workers := s.workers[i := w]), b);
  }

  lemma RunTaskAwaitCheckpoint(s: State, start: seq<Store>, i: nat, now: int, throws: bool)
    requires Inv(s, start) && s.writer.Some? && s.writer.value.phase == AwaitCheckpoint(i)
    requires i < N(s) && s.workers[i].tasks != [] && s.workers[i].clock <= now && Valid(s.workers[i].store)
    ensures Inv(RanTask(s, i, now, throws), start)
  {
    hide Base, BatchOk, Valid, Apply, MSet, Fit;
    BaseHasWorkers(s);
    AwaitedCheckpoint(s, start);
    var t := RanTask(s, i, now, throws);
    assert s.workers[i].tasks[1..] == [];
    assert t == Rewrite(Reread(s, i, now), t.writer.value);
    FitNow(s, i);
    RewrittenBase(s, i, Worker(s.workers[i].store, [], now), t.writer.value);
    if throws { CheckpointThrows(s, start, i, now); } else { RunCheckpoint(s, start, i, now); }
  }

  lemma RunTaskAwaitApply(s: State, start: seq<Store>, i: nat, now: int, throws: bool)
    requires Inv(s, start) && s.writer.Some? && s.writer.value.phase.AwaitApply?
    requires var b := s.writer.value; b.phase.pos < |b.touched| && i == b.touched[b.phase.pos]
    requires i < N(s) && s.workers[i].tasks != [] && s.workers[i].clock <= now && Valid(s.workers[i].store)
    ensures Inv(RanTask(s, i, now, throws), start)
  {
    hide Base, BatchOk, Valid, Apply, MSet, Fit;
    BaseHasWorkers(s);
    RunApply(s, start, now, throws);
    var t := RanTask(s, i, now, throws);
    assert t == Rewrite(s.(workers := s.workers[i := t.workers[i]]), t.writer.value);
    RewrittenBase(s, i, t.workers[i], t.writer.value);
  }

  lemma RunTaskRestoring(s: State, start: seq<Store>, i: nat, now: int, throws: bool)
    requires Inv(s, start) && RollingBack(s)
    requires i < N(s) && s.workers[i].tasks != [] && s.workers[i].clock <= now && Valid(s.workers[i].store)
    ensures Inv(RanTask(s, i, now, throws), start)
  {
    hide Base, BatchOk, Valid, Apply, MSet, Fit;
    BaseHasWorkers(s);
    RunRestore(s, start, i, now);
    var w := Worker(s.writer.value.checkpoints[i].value, [], now);
    WorkerBase(s, i, w);
    assert s.workers[i].tasks[1..] == [];
    assert RanTask(s, i, now, throws) == s.(workers := s.workers[i := w]);
  }

  lemma RunTaskKeeps(s: State, start: seq<Store>, i: nat, now: int, throws: bool)
    requires Inv(s, start) && i < N(s) && s.workers[i].tasks != [] && s.workers[i].clock <= now &&
             Valid(s.workers[i].store)
    ensures Inv(RanTask(s, i, now, throws), start)
  {
    hide Base, BatchOk, Valid, RanTask;
    BaseHasWorkers(s);
    if s.writer.None? {
      ClientTaskRuns(s, i, now);
      NoBatch(RanTask(s, i, now, throws), start);
    } else {
      PhaseOfTask(s, start, i);
      var p := s.writer.value.phase;
      if p.AwaitCheckpoint? { RunTaskAwaitCheckpoint(s, start, i, now, throws); }
      else if p.AwaitApply? { RunTaskAwaitApply(s, start, i, now, throws); }
      else { RunTaskRestoring(s, start, i, now, throws); }
    }
  }

  lemma FitNow(s: State, i: nat)
    requires Base(s) && i < N(s)
    ensures Fit(s, i, s.workers[i].store)
  {
  }

  lemma ClientTaskRuns(s: State, i: nat, now: int)
    requires Base(s) && s.writer.None? && i < N(s) && s.workers[i].tasks != [] && Valid(s.workers[i].store)
    ensures s.workers[i].tasks[0].ClientTask? && Base(RanTask(s, i, now, false))
    ensures RanTask(s, i, now, true) == RanTask(s, i, now, false) && RanTask(s, i, now, false).writer.None?
    ensures N(RanTask(s, i, now, false)) == N(s)
  {
    hide Valid, Apply, ShardOk, After;
    var w := s.workers[i];
    assert TaskOk(s, i, w.tasks[0]);
    FitNow(s, i);
    ClientFit(s, i, w.store, w.tasks[0].op, w.tasks[0].key, now);
    var v := RanTask(s, i, now, false).workers[i];
    forall p | 0 <= p < |v.tasks| ensures TaskOk(s, i, v.tasks[p]) { assert TaskOk(s, i, w.tasks[p + 1]); }
    WorkerBase(s, i, v);
  }

  // ---------------------------------------------------------------- every step, every run

  /** The stores the batch in progress is measured against after the event. */
  ghost function StartAfter(s: State, e: Event, start: seq<Store>): seq<Store> {
    if e.Begin? && s.writer.None? && s.readers == {} then Stores(s) else start
  }

  lemma ClientStep(s: State, e: Event)
    requires Base(s) && s.writer.None? && (e.Acquire? || e.Post? || e.Release?) && forall i :: 0 <= i < N(s) ==>
             Valid(s.workers[i].store)
    ensures Base(Step(s, e)) && Step(s, e).writer.None?
  {
    hide ShardOk;
    var t := Step(s, e);
    if e.Post? {
      if e.client in s.readers && OnKey(e.op, e.key) {
        QueuedBase(s, ShardFor(s.hash, N(s), e.key), ClientTask(e.client, e.op, e.key));
      }
    } else {
      forall i | 0 <= i < N(t) ensures Fit(t, i, t.workers[i].store) { assert Fit(s, i, s.workers[i].store); }
      forall i, p | 0 <= i < N(t) && 0 <= p < |t.workers[i].tasks| ensures TaskOk(t, i, t.workers[i].tasks[p]) {
        assert TaskOk(s, i, s.workers[i].tasks[p]);
      }
    }
  }

  /** A batch that holds the lock keeps clients out. */
  lemma ClientStepLockedOut(s: State, e: Event)
    requires Base(s) && s.writer.Some? && (e.Acquire? || e.Post? || e.Release?) && forall i :: 0 <= i < N(s) ==>
             Valid(s.workers[i].store)
    ensures Step(s, e) == s
  {
    hide ShardOk;
    assert s.readers == {};
  }

  lemma EndKeeps(s: State, start: seq<Store>)
    requires Inv(s, start) && s.writer.Some? && s.writer.value.phase.Done?
    ensures Base(s.(writer := None))
  {
    hide ShardOk, Unchanged, Applied, Group, Listed;
    var t := s.(writer := None);
    assert Idle(s);
    forall i | 0 <= i < N(t) ensures Fit(t, i, t.workers[i].store) { assert Fit(s, i, s.workers[i].store); }
  }

  lemma StepKeeps(s: State, e: Event, start: seq<Store>)
    requires Inv(s, start) && forall i :: 0 <= i < N(s) ==> Valid(s.workers[i].store)
    ensures Inv(Step(s, e), StartAfter(s, e, start)) && N(Step(s, e)) == N(s)
    ensures Step(s, e).hash == s.hash && Step(s, e).maxmemory == s.maxmemory && Step(s, e).policy == s.policy
  {
    hide Base, BatchOk, Valid, Proceeded, ActiveExpire, Groups;
    BaseHasWorkers(s);
    var t := Step(s, e);
    match e
    case Begin(values) =>
      if s.writer.None? && s.readers == {} { BeginKeeps(s, values); }
    case Proceed =>
      if s.writer.Some? {
        ProceededBase(s, s.writer.value);
        ProceedKeeps(s, s.writer.value, start);
        ProceededSize(s, s.writer.value);
      }
    case End =>
      if s.writer.Some? && s.writer.value.phase.Done? { EndKeeps(s, start); NoBatch(t, start); }
    case RunTask(i, now, throws) =>
      if i < N(s) && s.workers[i].tasks != [] && s.workers[i].clock <= now {
        RunTaskKeeps(s, start, i, now, throws);
        RanSize(s, i, now, throws);
      }
    case SweepStore(i, samples, now) =>
      if i < N(s) && s.workers[i].clock <= now { SweepKeeps(s, start, i, samples, now); }
    case _ =>
      if s.writer.Some? { ClientStepLockedOut(s, e); } else { ClientStep(s, e); NoBatch(t, start); }
  }

  lemma ProceededSize(s: State, b: Job)
    ensures var t := Proceeded(s, b);
            N(t) == N(s) && t.hash == s.hash && t.maxmemory == s.maxmemory && t.policy == s.policy
  {
  }

  lemma RanSize(s: State, i: nat, now: int, throws: bool)
    requires i < N(s) && s.workers[i].tasks != [] && Valid(s.workers[i].store)
    ensures var t := RanTask(s, i, now, throws);
            N(t) == N(s) && t.hash == s.hash && t.maxmemory == s.maxmemory && t.policy == s.policy
  {
    hide Valid, Apply, MSet;
  }

  ghost predicate Sound(s: State) {
    exists start :: Inv(s, start)
  }

  lemma SoundValid(s: State)
    requires Sound(s)
    ensures Base(s) && forall i :: 0 <= i < N(s) ==> Valid(s.workers[i].store)
  {
    hide Valid, BatchOk, ShardOk;
    StoresValid(s);
  }

  ghost function Next(s: State, e: Event): (r: State)
    requires Sound(s)
    ensures Sound(r) && N(r) == N(s) && r.hash == s.hash && r.maxmemory == s.maxmemory && r.policy == s.policy
  {
    hide Base, BatchOk, Valid, Step;
    SoundValid(s);
    var start :| Inv(s, start);
    StepKeeps(s, e, start);
    Step(s, e)
  }

  ghost function Reach(s: State, events: seq<Event>): (r: State)
    requires Sound(s)
    ensures Sound(r) && N(r) == N(s) && r.hash == s.hash && r.maxmemory == s.maxmemory && r.policy == s.policy
  {
    hide Sound, Next;
    if events == [] then s else Next(Reach(s, events[..|events| - 1]), events[|events| - 1])
  }

  function Init(
      hash: Hash, maxmemory: nat, policy: Policy, layout: Layout, generator: nat -> nat, n: nat, epoch: int): State
    requires n > 0
  {
    State(hash, maxmemory, policy,
          seq(n, i requires 0 <= i < n => Worker(Empty(Budget(maxmemory, n, i), policy, layout, generator), [],
              epoch)), {}, None)
  }

  lemma InitSound(hash: Hash, maxmemory: nat, policy: Policy, layout: Layout, generator: nat -> nat, n: nat, epoch: int)
    requires n > 0
    ensures Sound(Init(hash, maxmemory, policy, layout, generator, n, epoch))
  {
    assert Inv(Init(hash, maxmemory, policy, layout, generator, n, epoch), []);
  }
}

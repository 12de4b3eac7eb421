/** Concurrent clients, worker sweeps and cross-shard batches together reply as one store: without memory
    pressure, under any policy and whatever clock readings the workers take, every interleaving gives the
    replies of a single store that runs the clients' tasks in the order the workers ran them and each
    successful batch as one batch write. */
module Concurrent {
  import opened Wrappers
  import opened Decimal
  import opened Store
  import opened StoreRuns
  import opened LiveMap
  import opened Transparency
  import opened Sharding
  import opened OneStore
  import opened Transaction
  import opened Atomicity
  import opened Completion
  import opened Linear

  // ---------------------------------------------------------------- the sequential history

  /** The event ends a batch that succeeded. */
  predicate Finishes(s: State, e: Event) {
    e.End? && s.writer.Some? && s.writer.value.phase == Done(Returned(Ok))
  }

  /** What the event adds to the history of one store. A batch write reads no clock. */
  function Entry(s: State, e: Event): seq<Timed> {
    if Serves(s, e) then [Timed(s.workers[e.i].tasks[0].op, e.now)]
    else if Finishes(s, e) then [Timed(MSetOp(s.writer.value.values), 0)]
    else []
  }

  /** What the event answers: the reply to a client's task, or the success of a batch. */
  ghost function Said(s: State, e: Event): seq<Reply>
    requires Sound(s)
  {
    if Serves(s, e) then Answer(s, e) else if Finishes(s, e) then [Written(Ok)] else []
  }

  ghost function History(s: State, events: seq<Event>): seq<Timed>
    requires Sound(s)
  {
    if events == [] then []
    else var n := |events| - 1; History(s, events[..n]) + Entry(Reach(s, events[..n]), events[n])
  }

  ghost function AllSaid(s: State, events: seq<Event>): seq<Reply>
    requires Sound(s)
  {
    if events == [] then []
    else var n := |events| - 1; AllSaid(s, events[..n]) + Said(Reach(s, events[..n]), events[n])
  }

  // ---------------------------------------------------------------- no memory pressure

  /** The event makes a worker run its group of a batch in `s`. */
  predicate RunsGroup(s: State, e: Event) {
    && e.RunTask? && !e.throws && e.i < N(s) && s.workers[e.i].tasks != [] && s.workers[e.i].clock <= e.now
    && s.workers[e.i].tasks[0].ApplyTask?
  }

  /** What the event writes fits its shard: a client's task, or a group that is accepted. */
  ghost predicate WritesFit(s: State, e: Event) {
    && (Serves(s, e) ==>
          var w := s.workers[e.i]; Valid(w.store) && Fits(w.store, w.tasks[0].op, e.now))
    && (RunsGroup(s, e) ==>
          var w := s.workers[e.i];
          Valid(w.store) && (MSet(w.store, w.tasks[0].group).1 == Ok ==> MSetFits(w.store, w.tasks[0].group)))
  }

  ghost predicate AllWritesFit(s: State, events: seq<Event>)
    requires Sound(s)
  {
    forall i :: 0 <= i < |events| ==> WritesFit(Reach(s, events[..i]), events[i])
  }

  /** Without eviction an accepted group always fits. */
  lemma NoEvictionGroupsFit(s: State, e: Event)
    requires Sound(s) && s.policy == NoEviction && !Serves(s, e)
    ensures WritesFit(s, e)
  {
    hide Sound, Valid, MSet, MSetFits;
    if RunsGroup(s, e) {
      PolicyOf(s, e.i);
      var w := s.workers[e.i];
      if MSet(w.store, w.tasks[0].group).1 == Ok { AcceptedFits(w.store, w.tasks[0].group); }
    }
  }

  lemma PolicyOf(s: State, i: nat)
    requires Sound(s) && i < N(s)
    ensures Valid(s.workers[i].store) && s.workers[i].store.policy == s.policy
  {
    hide Valid, BatchOk;
    SoundValid(s);
    FitNow(s, i);
  }

  // ---------------------------------------------------------------- the relation to one store

  /** Each key shows, in its home shard's store and in the one store, the same cell from that shard's last
      clock reading on. */
  ghost predicate Shown(s: State, stores: seq<Store>, one: Store) {
    && N(s) > 0 && |stores| == N(s)
    && forall k :: ShownKey(s, stores, one, k)
  }

  ghost predicate ShownKey(s: State, stores: seq<Store>, one: Store, k: string)
    requires N(s) > 0 && |stores| == N(s)
  {
    var i := ShardFor(s.hash, N(s), k);
    Agree(Live(stores[i], s.workers[i].clock), Live(one, s.workers[i].clock), k)
  }

  /** The batch is still on its way to success. */
  predicate Hopeful(b: Job) {
    b.phase.Checkpointing? || b.phase.AwaitCheckpoint? || b.phase.Applying? || b.phase.AwaitApply? ||
    b.phase == Done(Returned(Ok))
  }

  /** No key visible in `was` is lost from `m`; it keeps its cell or has one without a deadline. */
  ghost predicate NoneLost(was: View, m: View) {
    forall k :: k in was ==> k in m && (m[k] == was[k] || m[k].expiresAt.None?)
  }

  ghost predicate ShardKept(s: State, start: seq<Store>, i: nat)
    requires i < N(s) && i < |start|
  {
    NoneLost(Live(start[i], s.workers[i].clock), Live(s.workers[i].store, s.workers[i].clock))
  }

  /** A batch on its way to success has lost no key on any shard. */
  ghost predicate Kept(s: State, start: seq<Store>) {
    s.writer.Some? && Hopeful(s.writer.value) ==>
      |start| == N(s) && forall i :: 0 <= i < N(s) ==> ShardKept(s, start, i)
  }

  /** Outside a batch the shards show what the one store shows; during a batch the stores it started from
      do, and none of their keys is lost. */
  ghost predicate Tied(s: State, one: Store, start: seq<Store>) {
    && Sound(s) && Valid(one) && Inv(s, start) && Kept(s, start)
    && Shown(s, if s.writer.None? then Stores(s) else start, one)
  }

  lemma TiedParts(s: State, one: Store, start: seq<Store>)
    requires Tied(s, one, start)
    ensures Sound(s) && Valid(one) && N(s) > 0
  {
  }

  /** Without a batch the invariant does not depend on where one started. */
  lemma SoundStart(s: State, start: seq<Store>)
    requires Sound(s) && s.writer.None?
    ensures Inv(s, start) && Kept(s, start)
  {
    hide ShardOk;
    SoundValid(s);
  }

  lemma AgreeGrows(a: Store, b: Store, k: string, now: int, later: int)
    requires Agree(Live(a, now), Live(b, now), k) && now <= later
    ensures Agree(Live(a, later), Live(b, later), k)
  {
    hide Live, Prune;
    LiveIs(b, now);
    LiveIs(b, later);
    AgreeLater(a, ViewOf(b), k, now, later);
  }

  // ---------------------------------------------------------------- a client's task

  /** A stored cell that an operation leaves alone. */
  ghost predicate SameCell(s: Store, t: Store, k: string) {
    (k in s.entries <==> k in t.entries) && (k in s.entries ==> CellOf(s.entries[k]) == CellOf(t.entries[k]))
  }

  lemma SetElsewhere(s: Store, request: SetRequest, now: int, j: string)
    requires Valid(s) && SetFits(s, request, now) && j != request.key
    ensures SameCell(s, Set(s, request, now).0, j)
  {
    hide OrderOk, Total, StampsOk, Set;
    FittingSet(s, request, now);
  }

  lemma IncrementElsewhere(s: Store, k: string, delta: int, now: int, lag: nat, j: string)
    requires Valid(s) && Fits(s, IncrementOp(k, delta, lag), now) && j != k
    ensures SameCell(s, Increment(s, k, delta, now, now + lag).0, j)
  {
    hide OrderOk, Total, StampsOk, Set, SetFits, FromChars, ToString;
    var w := IncrementWrite(s, k, delta, now);
    if w.Some? { SetElsewhere(RemoveIfExpired(s, k, now), w.value, now + lag, j); }
  }

  lemma DeleteElsewhere(s: Store, k: string, now: int, j: string)
    requires Valid(s) && j != k
    ensures SameCell(s, Delete(s, [k], now).0, j) && SameCell(s, Exists(s, [k], now).0, j)
  {
    hide OrderOk, Total, StampsOk;
    assert [k][..0] == [];
    assert Delete(s, [], now) == (s, 0) && Exists(s, [], now) == (s, 0);
  }

  lemma ReadElsewhere(s: Store, k: string, ttl: int, now: int, j: string)
    requires Valid(s) && j != k
    ensures SameCell(s, Get(s, k, now).0, j) && SameCell(s, TtlSeconds(s, k, now).0, j)
    ensures SameCell(s, Expire(s, k, ttl, now).0, j)
  {
    hide OrderOk, Total, StampsOk;
  }

  /** An operation that fits leaves every stored cell but its own key's alone, expired or not. */
  lemma Elsewhere(s: Store, op: Op, k: string, now: int, j: string)
    requires Valid(s) && OnKey(op, k) && Fits(s, op, now) && j != k
    ensures SameCell(s, Apply(s, op, now).0, j)
  {
    hide Valid, Set, Increment, Get, Delete, Exists, Expire, TtlSeconds, SetFits, SameCell;
    match op
    case GetOp(_) => ReadElsewhere(s, k, 0, now, j);
    case SetOp(request) => SetElsewhere(s, request, now, j);
    case DeleteOp(_) => DeleteElsewhere(s, k, now, j);
    case ExistsOp(_) => DeleteElsewhere(s, k, now, j);
    case ExpireOp(_, ttl) => ReadElsewhere(s, k, ttl, now, j);
    case TtlOp(_) => ReadElsewhere(s, k, 0, now, j);
    case IncrementOp(_, delta, lag) => IncrementElsewhere(s, k, delta, now, lag, j);
  }

  lemma SameCellLive(s: Store, t: Store, k: string, now: int)
    requires SameCell(s, t, k)
    ensures Agree(Live(s, now), Live(t, now), k)
  {
  }

  /** Two stores that show the same cell of a key reply alike to an operation on it and show the same cell
      afterwards. */
  lemma SameReply(a: Store, b: Store, op: Op, k: string, now: int)
    requires Valid(a) && Valid(b) && OnKey(op, k) && Fits(a, op, now) && Fits(b, op, now)
    requires Agree(Live(a, now), Live(b, now), k)
    ensures Apply(a, op, now).1 == Apply(b, op, now).1
    ensures var later := After(op, now); Agree(Live(Apply(a, op, now).0, later), Live(Apply(b, op, now).0, later), k)
  {
    hide Valid, Apply, ApplyTo, Fits, Live, Prune;
    Refines(a, op, now);
    Refines(b, op, now);
    Local(Live(a, now), Live(b, now), op, k, now);
  }

  lemma ServedState(s: State, e: Event)
    requires Sound(s) && Serves(s, e)
    ensures s.writer.None? && Next(s, e).writer.None? && Valid(s.workers[e.i].store)
    ensures var w := s.workers[e.i];
            Next(s, e).workers ==
            s.workers[e.i := Worker(Apply(w.store, w.tasks[0].op, e.now).0, w.tasks[1..], After(w.tasks[0].op, e.now))]
  {
    hide Sound, Valid, Apply;
    NextIs(s, e);
    NoBatchNow(s, e);
  }

  lemma NoBatchNow(s: State, e: Event)
    requires Sound(s) && Serves(s, e)
    ensures s.writer.None?
  {
    hide BatchOk, ShardOk;
    SoundValid(s);
    assert TaskOk(s, e.i, s.workers[e.i].tasks[0]);
  }

  lemma ServedKey(s: State, e: Event, one: Store, k: string)
    requires Sound(s) && Valid(one) && Serves(s, e) && WritesFit(s, e) && Shown(s, Stores(s), one)
    requires Fits(one, s.workers[e.i].tasks[0].op, e.now)
    ensures var op, t := s.workers[e.i].tasks[0].op, Next(s, e);
            && (ShardFor(s.hash, N(s), k) == e.i && s.workers[e.i].tasks[0].key == k ==>
                  Answer(s, e) == [Apply(one, op, e.now).1])
            && N(t) > 0 && ShownKey(t, Stores(t), Apply(one, op, e.now).0, k)
  {
    hide Sound, Valid, Apply, Fits, Live, Next;
    var w, i := s.workers[e.i], ShardFor(s.hash, N(s), k);
    var op, key := w.tasks[0].op, w.tasks[0].key;
    ServedState(s, e);
    TaskAtHome(s, e.i);
    assert ShownKey(s, Stores(s), one, k);
    var after := Apply(one, op, e.now).0;
    if k == key {
      AgreeGrows(w.store, one, k, w.clock, e.now);
      SameReply(w.store, one, op, k, e.now);
    } else {
      var clock := Next(s, e).workers[i].clock;
      AgreeGrows(s.workers[i].store, one, k, s.workers[i].clock, clock);
      Elsewhere(one, op, key, e.now, k);
      SameCellLive(one, after, k, clock);
      if i == e.i {
        Elsewhere(w.store, op, key, e.now, k);
        SameCellLive(w.store, Apply(w.store, op, e.now).0, k, clock);
      }
    }
  }

  lemma ServeTied(s: State, e: Event, one: Store, start: seq<Store>)
    requires Tied(s, one, start) && Serves(s, e) && WritesFit(s, e)
    requires Fits(one, s.workers[e.i].tasks[0].op, e.now)
    ensures var op := s.workers[e.i].tasks[0].op;
            Tied(Next(s, e), Apply(one, op, e.now).0, start) && Said(s, e) == [Apply(one, op, e.now).1]
  {
    hide Sound, Valid, Fits, Apply, Next, Inv, ShownKey, WritesFit, Answer;
    var task, t := s.workers[e.i].tasks[0], Next(s, e);
    ServedState(s, e);
    TaskAtHome(s, e.i);
    SoundStart(t, start);
    forall k ensures ShownKey(t, Stores(t), Apply(one, task.op, e.now).0, k) { ServedKey(s, e, one, k); }
    ServedKey(s, e, one, task.key);
  }

  // ---------------------------------------------------------------- sweeps and idle steps

  lemma SweptState(s: State, e: Event)
    requires Sound(s) && e.SweepStore? && e.i < N(s) && s.workers[e.i].clock <= e.now
    ensures Next(s, e).writer == s.writer && Valid(s.workers[e.i].store)
    ensures var w := s.workers[e.i];
            var swept := ActiveExpire(w.store, e.samples, e.now).0;
            Next(s, e).workers == s.workers[e.i := w.(store := swept, clock := e.now)]
  {
    hide Sound, Valid, ActiveExpire;
    NextIs(s, e);
  }

  lemma SweepTied(s: State, e: Event, one: Store, start: seq<Store>)
    requires Tied(s, one, start) && s.writer.None? && e.SweepStore? && e.i < N(s) && s.workers[e.i].clock <= e.now
    ensures Tied(Next(s, e), one, start)
  {
    hide Sound, Valid, ActiveExpire, Next, Inv, Live;
    var t, w := Next(s, e), s.workers[e.i];
    SweptState(s, e);
    SoundStart(t, start);
    ActiveExpireLive(w.store, e.samples, e.now);
    forall k ensures ShownKey(t, Stores(t), one, k) {
      assert ShownKey(s, Stores(s), one, k);
      if ShardFor(s.hash, N(s), k) == e.i { AgreeGrows(w.store, one, k, w.clock, e.now); }
    }
  }

  /** Nothing else a client or an idle writer does changes a store or a clock. */
  lemma IdleState(s: State, e: Event)
    requires Sound(s) && s.writer.None? && !e.Begin? && !Serves(s, e)
    requires !(e.SweepStore? && e.i < N(s) && s.workers[e.i].clock <= e.now)
    ensures var t := Next(s, e);
            && t.writer.None?
            && forall i :: 0 <= i < N(s) ==>
                 t.workers[i].store == s.workers[i].store && t.workers[i].clock == s.workers[i].clock
  {
    hide Sound, Valid, Apply, MSet, ActiveExpire;
    NextIs(s, e);
    if e.RunTask? && e.i < N(s) && s.workers[e.i].tasks != [] && s.workers[e.i].clock <= e.now {
      OnlyClients(s, e.i);
    }
  }

  lemma IdleTied(s: State, e: Event, one: Store, start: seq<Store>)
    requires Tied(s, one, start) && s.writer.None? && !e.Begin? && !Serves(s, e)
    requires !(e.SweepStore? && e.i < N(s) && s.workers[e.i].clock <= e.now)
    ensures Tied(Next(s, e), one, start)
  {
    hide Sound, Valid, Next, Inv, Live;
    var t := Next(s, e);
    IdleState(s, e);
    SoundStart(t, start);
    forall k ensures ShownKey(t, Stores(t), one, k) { assert ShownKey(s, Stores(s), one, k); }
  }

  // ---------------------------------------------------------------- during a batch

  lemma BeginTied(s: State, e: Event, one: Store, start: seq<Store>) returns (begun: seq<Store>)
    requires Tied(s, one, start) && s.writer.None? && e.Begin?
    ensures Tied(Next(s, e), one, begun)
  {
    hide Sound, Valid, BatchOk, Base, Live, Groups;
    NextIs(s, e);
    if s.readers == {} {
      begun := Stores(s);
      BeginStarts(s, e.values);
      var t := Next(s, e);
      assert t.workers == s.workers;
      forall k ensures ShownKey(t, begun, one, k) { assert ShownKey(s, Stores(s), one, k); }
    } else {
      begun := start;
    }
  }

  lemma ClocksGrow(s: State, e: Event)
    requires Sound(s)
    ensures forall i :: 0 <= i < N(s) ==> s.workers[i].clock <= Next(s, e).workers[i].clock
  {
    hide Sound, Valid, Apply, MSet, ActiveExpire;
    NextIs(s, e);
  }

  lemma NoneLostLater(was: View, m: View, later: int)
    requires NoneLost(was, m)
    ensures NoneLost(Prune(was, later), Prune(m, later))
  {
  }

  /** Time passes on a shard and its clients see no change. */
  lemma KeptLater(s: State, t: State, start: seq<Store>, i: nat)
    requires N(t) == N(s) && i < N(s) && i < |start|
    requires ShardKept(s, start, i) && s.workers[i].clock <= t.workers[i].clock
    requires SameLive(s.workers[i].store, t.workers[i].store, t.workers[i].clock)
    ensures ShardKept(t, start, i)
  {
    hide Live, NoneLost, Prune;
    var c, d := s.workers[i].clock, t.workers[i].clock;
    NoneLostLater(Live(start[i], c), Live(s.workers[i].store, c), d);
    LivePrune(start[i], c, d);
    LivePrune(s.workers[i].store, c, d);
  }

  /** A group that fits loses no key. */
  lemma KeptGroup(s: State, t: State, start: seq<Store>, i: nat, group: Pairs)
    requires N(t) == N(s) && i < N(s) && i < |start|
    requires ShardKept(s, start, i) && s.workers[i].clock <= t.workers[i].clock
    requires Valid(s.workers[i].store) && MSetFits(s.workers[i].store, group)
    requires t.workers[i].store == MSet(s.workers[i].store, group).0
    ensures ShardKept(t, start, i)
  {
    hide Valid, MSet, MSetFits, LastValues, ViewOf;
    var c, d, a, b := s.workers[i].clock, t.workers[i].clock, s.workers[i].store, t.workers[i].store;
    NoneLostLater(Live(start[i], c), Live(a, c), d);
    LivePrune(start[i], c, d);
    LivePrune(a, c, d);
    forall k | k in Live(start[i], d)
      ensures k in Live(b, d) && (Live(b, d)[k] == Live(start[i], d)[k] || Live(b, d)[k].expiresAt.None?)
    {
      assert k in Live(a, d);
      FittingMSet(a, group, k);
      LiveCell(a, k, d);
      LiveCell(b, k, d);
    }
  }

  lemma LiveCell(s: Store, k: string, now: int)
    ensures k in Live(s, now) <==> k in s.entries && Alive(CellOf(s.entries[k]), now)
    ensures k in Live(s, now) ==> Live(s, now)[k] == CellOf(s.entries[k])
  {
  }

  /** The writer's own steps touch no store and no clock, and a batch past hope stays so. */
  lemma ProceedKept(s: State, start: seq<Store>)
    requires Inv(s, start) && s.writer.Some? && Kept(s, start)
    ensures Kept(Proceeded(s, s.writer.value), start)
  {
    hide Base, Unchanged, Applied, Saved, Group, Listed, Restored, Live;
    var b := s.writer.value;
    var t := Proceeded(s, b);
    ProceedSame(s, b);
    if t.writer.Some? && Hopeful(t.writer.value) {
      assert Hopeful(b);
      forall i | 0 <= i < N(t) ensures ShardKept(t, start, i) { assert ShardKept(s, start, i); }
    }
  }

  lemma ProceedSame(s: State, b: Job)
    ensures SameStores(s, Proceeded(s, b))
  {
  }

  /** A worker's step keeps every other shard's keys. */
  lemma OthersKept(s: State, t: State, start: seq<Store>, i: nat)
    requires Kept(s, start) && s.writer.Some? && Hopeful(s.writer.value) && i < N(s) == N(t)
    requires t.workers == s.workers[i := t.workers[i]] && ShardKept(t, start, i)
    ensures Kept(t, start)
  {
    hide Live, NoneLost;
    forall j | 0 <= j < N(t) ensures ShardKept(t, start, j) { assert ShardKept(s, start, j); }
  }

  lemma TaskKept(s: State, e: Event, start: seq<Store>)
    requires Sound(s) && Inv(s, start) && s.writer.Some? && Kept(s, start) && WritesFit(s, e)
    requires e.RunTask? && e.i < N(s) && s.workers[e.i].tasks != [] && s.workers[e.i].clock <= e.now
    requires Valid(s.workers[e.i].store)
    ensures Kept(RanTask(s, e.i, e.now, e.throws), start)
  {
    hide Sound, Valid, Live, MSet, MSetFits, Apply, Base, BatchOk, ShardKept;
    BaseHasWorkers(s);
    PhaseOfTask(s, start, e.i);
    var t, i, b := RanTask(s, e.i, e.now, e.throws), e.i, s.writer.value;
    if b.phase.AwaitCheckpoint? {
      AwaitedCheckpoint(s, start);
      if Hopeful(t.writer.value) {
        KeptLater(s, t, start, i);
        OthersKept(s, t, start, i);
      }
    } else if b.phase.AwaitApply? {
      AwaitedApply(s, start);
      if Hopeful(t.writer.value) {
        assert RunsGroup(s, e);
        KeptGroup(s, t, start, i, b.groups[i]);
        OthersKept(s, t, start, i);
      }
    } else {
      RestoreReady(s, start, i);
    }
  }

  lemma AwaitedApply(s: State, start: seq<Store>)
    requires Inv(s, start) && s.writer.Some? && s.writer.value.phase.AwaitApply?
    ensures var b := s.writer.value;
            && b.phase.pos < |b.touched| && b.touched[b.phase.pos] < N(s) == |b.groups| == |start|
            && s.workers[b.touched[b.phase.pos]].tasks == [ApplyTask(b.groups[b.touched[b.phase.pos]])]
  {
    hide Base, Unchanged, Applied, Saved, Group, Listed;
  }

  lemma SweepKept(s: State, e: Event, start: seq<Store>)
    requires Sound(s) && s.writer.Some? && Kept(s, start)
    requires e.SweepStore? && e.i < N(s) && s.workers[e.i].clock <= e.now
    ensures Kept(Next(s, e), start)
  {
    hide Sound, Valid, Live, ActiveExpire, ShardKept, Next;
    SweptState(s, e);
    var t, i := Next(s, e), e.i;
    if Hopeful(s.writer.value) {
      ActiveExpireLive(s.workers[i].store, e.samples, e.now);
      KeptLater(s, t, start, i);
      OthersKept(s, t, start, i);
    }
  }

  lemma DuringKept(s: State, e: Event, start: seq<Store>)
    requires Sound(s) && Inv(s, start) && s.writer.Some? && Kept(s, start) && WritesFit(s, e)
    requires !(e.End? && s.writer.value.phase.Done?)
    ensures Kept(Next(s, e), start)
  {
    hide Sound, Valid, Inv, Kept, WritesFit, Proceeded, RanTask, ActiveExpire;
    NextIs(s, e);
    match e
    case Proceed => ProceedKept(s, start);
    case RunTask(i, now, throws) =>
      if i < N(s) && s.workers[i].tasks != [] && s.workers[i].clock <= now { TaskKept(s, e, start); }
    case SweepStore(i, samples, now) => if i < N(s) && s.workers[i].clock <= now { SweepKept(s, e, start); }
    case Begin(_) =>
    case End =>
    case _ => LockedOut(s, e, start);
  }

  lemma LockedOut(s: State, e: Event, start: seq<Store>)
    requires Sound(s) && s.writer.Some? && (e.Acquire? || e.Post? || e.Release?)
    ensures Next(s, e) == s
  {
    hide BatchOk, ShardOk, Valid;
    SoundValid(s);
    ClientStepLockedOut(s, e);
  }

  lemma DuringTied(s: State, e: Event, one: Store, start: seq<Store>)
    requires Tied(s, one, start) && s.writer.Some? && !(e.End? && s.writer.value.phase.Done?) && WritesFit(s, e)
    ensures Tied(Next(s, e), one, start)
  {
    hide Sound, Valid, Inv, Kept, Live, Next, WritesFit;
    var t := Next(s, e);
    DuringKept(s, e, start);
    if e.End? { EndRefused(s); } else { KeepsLock(s, e, start); }
    ClocksGrow(s, e);
    forall k ensures ShownKey(t, start, one, k) {
      var i := ShardFor(s.hash, N(s), k);
      assert ShownKey(s, start, one, k);
      AgreeGrows(start[i], one, k, s.workers[i].clock, t.workers[i].clock);
    }
  }

  lemma EndRefused(s: State)
    requires Sound(s) && s.writer.Some? && !s.writer.value.phase.Done?
    ensures Next(s, End) == s
  {
    hide Sound, Valid;
    NextIs(s, End);
  }

  // ---------------------------------------------------------------- the end of a batch

  lemma EndState(s: State)
    requires Sound(s) && s.writer.Some? && s.writer.value.phase.Done?
    ensures Next(s, End) == s.(writer := None)
  {
    hide Sound, Valid;
    NextIs(s, End);
  }

  /** What an accepted batch that lost nothing made of one key. */
  lemma AcceptedKey(s: State, start: seq<Store>, k: string)
    requires Inv(s, start) && s.writer.Some? && s.writer.value.phase == Done(Returned(Ok)) && Kept(s, start)
    ensures N(s) > 0 && |start| == N(s)
    ensures var i, all := ShardFor(s.hash, N(s), k), LastValues(s.writer.value.values);
            var now := s.workers[i].clock;
            var was, m := Live(start[i], now), Live(s.workers[i].store, now);
            if k in all then k in m && m[k] == Cell(all[k], None) else Agree(m, was, k)
  {
    hide Base, Unchanged, Group, Live, LastValues;
    BaseHasWorkers(s);
    var b, i := s.writer.value, ShardFor(s.hash, N(s), k);
    GroupValues(s.hash, N(s), b.values, i, k);
    assert ShardKept(s, start, i);
    if i in b.touched {
      assert Applied(s, start, i, b.groups[i]);
    } else {
      assert b.groups[i] == [];
      NoLastValues();
      SameNow(s, start, i);
    }
  }

  lemma SameNow(s: State, start: seq<Store>, i: nat)
    requires i < N(s) && i < |start| && Unchanged(s, start, i)
    ensures Live(start[i], s.workers[i].clock) == Live(s.workers[i].store, s.workers[i].clock)
  {
    hide Live;
  }

  lemma RefusedShard(s: State, start: seq<Store>, i: nat)
    requires Inv(s, start) && s.writer.Some? && s.writer.value.phase.Done? && i < N(s)
    requires s.writer.value.phase.outcome != Returned(Ok)
    ensures |start| == N(s) && Live(start[i], s.workers[i].clock) == Live(s.workers[i].store, s.workers[i].clock)
  {
    hide Base, Unchanged, Applied, Group, Live;
    BaseHasWorkers(s);
    SameNow(s, start, i);
  }

  /** A batch that did not succeed ends without a trace. */
  lemma RefusedTied(s: State, one: Store, start: seq<Store>)
    requires Tied(s, one, start) && s.writer.Some? && s.writer.value.phase.Done?
    requires s.writer.value.phase.outcome != Returned(Ok)
    ensures Tied(Next(s, End), one, start)
  {
    hide Sound, Valid, Inv, Kept, Next, Live;
    EndState(s);
    var t := Next(s, End);
    SoundStart(t, start);
    forall k ensures ShownKey(t, Stores(t), one, k) {
      RefusedShard(s, start, ShardFor(s.hash, N(s), k));
      assert ShownKey(s, start, one, k);
    }
  }

  /** One store's cell of a key after a batch write that fits. */
  lemma BatchCell(one: Store, values: Pairs, k: string, now: int)
    requires Valid(one) && MSetFits(one, values)
    ensures var m, after := Live(one, now), Live(MSet(one, values).0, now);
            if k in LastValues(values) then k in after && after[k] == Cell(LastValues(values)[k], None)
            else Agree(after, m, k)
  {
    hide Valid, MSet, MSetFits, LastValues, Live;
    FittingMSet(one, values, k);
    LiveCell(one, k, now);
    LiveCell(MSet(one, values).0, k, now);
  }

  /** A batch that succeeded ends as one batch write on the one store. */
  lemma AcceptedTied(s: State, one: Store, start: seq<Store>)
    requires Tied(s, one, start) && s.writer.Some? && s.writer.value.phase == Done(Returned(Ok))
    requires MSetFits(one, s.writer.value.values)
    ensures var (after, w) := MSet(one, s.writer.value.values);
            w == Ok && Tied(Next(s, End), after, start)
  {
    hide Sound, Valid, Inv, Kept, Next, Live, MSet, MSetFits, LastValues;
    EndState(s);
    var t, values := Next(s, End), s.writer.value.values;
    SoundStart(t, start);
    FittingMSet(one, values, "");
    forall k ensures ShownKey(t, Stores(t), MSet(one, values).0, k) {
      AcceptedKey(s, start, k);
      assert ShownKey(s, start, one, k);
      BatchCell(one, values, k, s.workers[ShardFor(s.hash, N(s), k)].clock);
    }
  }

  // ---------------------------------------------------------------- every step, every run

  function Later(one: Store, entry: seq<Timed>): (r: Store)
    requires Valid(one)
    ensures Valid(r)
  {
    if entry == [] then one else Apply(one, entry[0].op, entry[0].now).0
  }

  lemma StepTied(s: State, e: Event, one: Store, start: seq<Store>) returns (next: seq<Store>)
    requires Tied(s, one, start) && WritesFit(s, e)
    requires Entry(s, e) != [] ==> Fits(one, Entry(s, e)[0].op, Entry(s, e)[0].now)
    ensures Tied(Next(s, e), Later(one, Entry(s, e)), next)
    ensures Said(s, e) == if Entry(s, e) == [] then [] else [Apply(one, Entry(s, e)[0].op, Entry(s, e)[0].now).1]
  {
    hide Sound, Valid, Next, MSet, MSetFits, SetFits, WritesFit, Tied;
    TiedParts(s, one, start);
    next := start;
    if Serves(s, e) {
      ServeTied(s, e, one, start);
    } else if s.writer.None? {
      if e.Begin? { next := BeginTied(s, e, one, start); }
      else if e.SweepStore? && e.i < N(s) && s.workers[e.i].clock <= e.now { SweepTied(s, e, one, start); }
      else { IdleTied(s, e, one, start); }
    } else if e.End? && s.writer.value.phase.Done? {
      if s.writer.value.phase.outcome == Returned(Ok) {
        AcceptedTied(s, one, start);
      } else {
        RefusedTied(s, one, start);
      }
    } else {
      DuringTied(s, e, one, start);
    }
  }

  /** Concurrent replies: without memory pressure, under any policy, with whatever clock readings and sweeps
      of the workers, and whatever batches succeed, are refused or throw, the replies to all clients' tasks
      and successful batches are those of the one store. What a refused or throwing batch is told has no
      counterpart there: it took no effect. */
  lemma {:induction false} ConcurrentRepliesAsOneStore(s: State, events: seq<Event>, one: Store, start: seq<Store>)
      returns (end: seq<Store>)
    requires Tied(s, one, start) && AllWritesFit(s, events) && FitsAll(one, History(s, events))
    ensures Tied(Reach(s, events), Run(one, History(s, events)), end)
    ensures AllSaid(s, events) == SaidBy(one, History(s, events))
  {
    hide Tied, Sound, Valid, Next, Apply, Fits, FitsAll, Entry, Said, WritesFit;
    TiedParts(s, one, start);
    if events == [] {
      end := start;
    } else {
      var n := |events| - 1;
      var init, e := events[..n], events[n];
      var t, before := Reach(s, init), History(s, init);
      Initials(s, events);
      EntryFits(one, before, Entry(t, e));
      var middle := ConcurrentRepliesAsOneStore(s, init, one, start);
      end := StepTied(t, e, Run(one, before), middle);
      SaidSnoc(one, before, Entry(t, e));
    }
  }

  /** The replies of one store to a history of operations. */
  function SaidBy(one: Store, history: seq<Timed>): seq<Reply>
    requires Valid(one)
  {
    if history == [] then []
    else
      var n := |history| - 1;
      SaidBy(one, history[..n]) + [Apply(Run(one, history[..n]), history[n].op, history[n].now).1]
  }

  lemma SaidSnoc(one: Store, before: seq<Timed>, entry: seq<Timed>)
    requires Valid(one) && |entry| <= 1
    ensures Run(one, before + entry) == Later(Run(one, before), entry)
    ensures SaidBy(one, before + entry) ==
            SaidBy(one, before) + if entry == [] then [] else [Apply(Run(one, before), entry[0].op, entry[0].now).1]
  {
    hide Valid, Apply;
    if entry == [] {
      assert before + entry == before && SaidBy(one, before) + [] == SaidBy(one, before);
    } else {
      assert (before + entry)[..|before|] == before && (before + entry)[|before|] == entry[0];
    }
  }

  lemma EntryFits(one: Store, before: seq<Timed>, entry: seq<Timed>)
    requires Valid(one) && |entry| <= 1 && FitsAll(one, before + entry)
    ensures FitsAll(one, before) && (entry != [] ==> Fits(Run(one, before), entry[0].op, entry[0].now))
  {
    hide FitsAll, Fits, Valid, Run;
    if entry == [] {
      assert before + entry == before;
    } else {
      assert before + entry == before + [entry[0]];
      FitsPrefix(one, before, entry[0]);
    }
  }

  lemma Initials(s: State, events: seq<Event>)
    requires Sound(s) && events != [] && AllWritesFit(s, events)
    ensures var n := |events| - 1;
            && AllWritesFit(s, events[..n]) && WritesFit(Reach(s, events[..n]), events[n])
            && |Entry(Reach(s, events[..n]), events[n])| <= 1
  {
    hide Sound, WritesFit, Reach;
    var n := |events| - 1;
    forall i | 0 <= i < n ensures events[..n][..i] == events[..i] && events[..n][i] == events[i] {}
  }

  /** A new database and a new store, whatever their budgets, policies and hash orders, are tied. */
  lemma NewAreTied(
      hash: Hash, maxmemory: nat, policy: Policy, layout: Layout, generator: nat -> nat, n: nat, epoch: int, one: Store)
    requires n > 0 && one == Empty(one.maxmemory, one.policy, one.layout, one.generator)
    ensures Tied(Init(hash, maxmemory, policy, layout, generator, n, epoch), one, [])
  {
    var s := Init(hash, maxmemory, policy, layout, generator, n, epoch);
    InitSound(hash, maxmemory, policy, layout, generator, n, epoch);
    SoundStart(s, []);
    forall k ensures ShownKey(s, Stores(s), one, k) {
      assert Stores(s)[ShardFor(s.hash, N(s), k)].entries == map[];
    }
  }
}

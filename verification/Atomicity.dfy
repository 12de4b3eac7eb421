/** What the sharded database promises in every interleaving: a batch write is all or nothing and
    isolated, keys stay in their shards, and the memory readout stays within the ceiling. */
module Atomicity {
  import opened Wrappers
  import opened Store
  import opened StoreRuns
  import opened LiveMap
  import opened Sharding
  import opened Transaction

  /** A batch may begin: nobody holds the lock. */
  ghost predicate CanBegin(s: State) {
    Sound(s) && s.writer.None? && s.readers == {}
  }

  /** The state once a batch has begun and `during` has happened, the batch still holding the lock. */
  ghost function During(s: State, values: Pairs, during: seq<Event>): (r: State)
    requires CanBegin(s)
    ensures Sound(r) && N(r) == N(s) && r.hash == s.hash && r.maxmemory == s.maxmemory && r.policy == s.policy
  {
    hide Sound, Next, Reach;
    Reach(Next(s, Begin(values)), during)
  }

  ghost predicate NoEnd(events: seq<Event>) {
    forall i :: 0 <= i < |events| ==> !events[i].End?
  }

  lemma BeginStarts(s: State, values: Pairs)
    requires CanBegin(s)
    ensures var t := Next(s, Begin(values));
            Inv(t, Stores(s)) && t.writer.Some? && t.writer.value.values == values
  {
    hide BatchOk, Valid, Groups, ShardOk;
    SoundValid(s);
    BeginKeeps(s, values);
  }

  /** Until it ends, the batch holds the lock and its invariant relates every shard to what it held
      when the batch began. */
  lemma {:induction false} DuringInv(s: State, values: Pairs, during: seq<Event>)
    requires CanBegin(s) && NoEnd(during)
    ensures var t := During(s, values, during);
            Inv(t, Stores(s)) && t.writer.Some? && t.writer.value.values == values
  {
    hide Inv, Sound, Next, Step;
    var first := Next(s, Begin(values));
    BeginStarts(s, values);
    if during != [] {
      var n := |during| - 1;
      DuringInv(s, values, during[..n]);
      KeepsLock(During(s, values, during[..n]), during[n], Stores(s));
    }
  }

  lemma KeepsLock(s: State, e: Event, start: seq<Store>)
    requires Sound(s) && Inv(s, start) && s.writer.Some? && !e.End?
    ensures var t := Next(s, e);
            Inv(t, start) && t.writer.Some? && t.writer.value.values == s.writer.value.values
  {
    hide BatchOk, Base, Valid, ActiveExpire, Apply, MSet, ShardFor, Groups;
    SoundValid(s);
    StepKeeps(s, e, start);
  }

  // ---------------------------------------------------------------- atomicity

  /** The shards' live views are what they were in `s`, from now on. */
  ghost predicate ViewsAsIn(s: State, t: State)
    requires N(t) == N(s)
  {
    forall i, later :: 0 <= i < N(s) && t.workers[i].clock <= later ==>
      Live(t.workers[i].store, later) == Live(s.workers[i].store, later)
  }

  /** The cell of `k` that clients of `t` find from now on. */
  ghost predicate Finds(t: State, k: string, later: int, c: Cell)
    requires N(t) > 0
  {
    var m := Live(t.workers[ShardFor(t.hash, N(t), k)].store, later);
    k in m && m[k] == c
  }

  lemma UnchangedViews(s: State, t: State)
    requires N(t) == N(s) && forall i :: 0 <= i < N(t) ==> Unchanged(t, Stores(s), i)
    ensures ViewsAsIn(s, t)
  {
    hide Live;
    forall i, later | 0 <= i < N(s) && t.workers[i].clock <= later
      ensures Live(t.workers[i].store, later) == Live(s.workers[i].store, later)
    {
      assert Unchanged(t, Stores(s), i);
      SameLiveLater(s.workers[i].store, t.workers[i].store, t.workers[i].clock, later);
    }
  }

  /** All or nothing, first half: a batch that is refused, or in which a shard throws, leaves every
      shard's live keys, values and deadlines as they were, now and at every later time, whatever
      sweeps ran in between. */
  lemma RefusedBatchChangesNothing(s: State, values: Pairs, during: seq<Event>)
    requires CanBegin(s) && NoEnd(during)
    ensures var t := During(s, values, during);
            t.writer.Some? && (t.writer.value.phase.Done? && t.writer.value.phase.outcome != Returned(Ok) ==>
                ViewsAsIn(s, t))
  {
    hide Sound, During, Live, ViewsAsIn, Group, Listed, Base, Unchanged, Applied;
    DuringInv(s, values, during);
    var t := During(s, values, during);
    BaseHasWorkers(t);
    if t.writer.value.phase.Done? && t.writer.value.phase.outcome != Returned(Ok) {
      UnchangedViews(s, t);
    }
  }

  lemma AppliedCell(s: State, t: State, i: nat, group: Pairs, later: int)
    requires N(t) == N(s) && i < N(s) && Applied(t, Stores(s), i, group) && t.workers[i].clock <= later
    ensures var was, m := Live(s.workers[i].store, later), Live(t.workers[i].store, later);
            GroupIn(was, m, group, t.policy)
  {
    hide GroupIn, Prune, ViewOf;
    var clock := t.workers[i].clock;
    GroupInLater(Live(s.workers[i].store, clock), Live(t.workers[i].store, clock), group, t.policy, later);
    PruneTwice(ViewOf(s.workers[i].store), clock, later);
    PruneTwice(ViewOf(t.workers[i].store), clock, later);
  }

  /** All or nothing, second half: an accepted batch leaves every listed key with its last listed value
      and no TTL, and every other key it leaves visible as it was; without eviction it leaves all of
      them. */
  lemma AcceptedBatchIsIn(s: State, values: Pairs, during: seq<Event>, k: string, later: int)
    requires CanBegin(s) && NoEnd(during)
    requires var t := During(s, values, during);
             && t.writer.Some? && t.writer.value.phase == Done(Returned(Ok))
             && t.workers[ShardFor(s.hash, N(s), k)].clock <= later
    ensures var t := During(s, values, during);
            if k in LastValues(values) then Finds(t, k, later, Cell(LastValues(values)[k], None))
            else && (forall c :: Finds(t, k, later, c) ==> Finds(s, k, later, c))
                 && (s.policy == NoEviction ==> forall c :: Finds(s, k, later, c) ==> Finds(t, k, later, c))
  {
    hide Sound, During, Live, Group, Base, LastValues, Applied, Unchanged;
    DuringInv(s, values, during);
    var t := During(s, values, during);
    BaseHasWorkers(t);
    var b, i := t.writer.value, ShardFor(s.hash, N(s), k);
    GroupValues(s.hash, N(s), values, i, k);
    if i in b.touched {
      AppliedCell(s, t, i, b.groups[i], later);
    } else {
      assert b.groups[i] == [];
      NoLastValues();
      UnchangedOne(s, t, i, later);
    }
  }

  lemma NoLastValues()
    ensures LastValues([]) == map[]
  {
  }

  lemma UnchangedOne(s: State, t: State, i: nat, later: int)
    requires N(t) == N(s) && i < N(s) && Unchanged(t, Stores(s), i) && t.workers[i].clock <= later
    ensures Live(t.workers[i].store, later) == Live(s.workers[i].store, later)
  {
    hide Live;
    SameLiveLater(s.workers[i].store, t.workers[i].store, t.workers[i].clock, later);
  }

  // ---------------------------------------------------------------- isolation

  /** Isolation: from the moment a batch holds the lock until it ends, no shared-lock holder exists and
      no worker runs a client's task; so none runs between its first and last shard update. */
  lemma NoClientBetween(s: State, values: Pairs, during: seq<Event>, j: nat)
    requires CanBegin(s) && NoEnd(during) && j < |during| && during[j].RunTask?
    ensures var t := During(s, values, during[..j]);
            && t.readers == {}
            && (during[j].i < N(t) && t.workers[during[j].i].tasks != [] ==>
                !t.workers[during[j].i].tasks[0].ClientTask?)
  {
    hide Sound, During, BatchOk, ShardOk;
    DuringInv(s, values, during[..j]);
    var t := During(s, values, during[..j]);
    if during[j].i < N(t) && t.workers[during[j].i].tasks != [] { NoClientTasks(t, during[j].i, 0); }
  }

  /** The other way round: while any client holds the shared lock no batch is in progress, so an
      operation over several keys never sees part of a batch. */
  lemma NoBatchDuringClient(s: State, events: seq<Event>, client: nat)
    requires Sound(s) && client in Reach(s, events).readers
    ensures Reach(s, events).writer.None?
  {
    hide Sound, Reach, BatchOk, ShardOk;
    SoundValid(Reach(s, events));
  }

  /** The batch never blocks: until it is done, the writer can take its next step or a worker can run
      one of its tasks. */
  lemma BatchCanMove(s: State, values: Pairs, during: seq<Event>)
    requires CanBegin(s) && NoEnd(during)
    ensures var t := During(s, values, during);
            && t.writer.Some?
            && var p := t.writer.value.phase;
               || p.Done? || p.Checkpointing? || p.Applying? || p.Restoring?
               || (p.AwaitRestore? && Idle(t))
               || exists i :: 0 <= i < N(t) && t.workers[i].tasks != []
  {
    hide Sound, During, Unchanged, Applied, Saved, Group, Listed, Restored, Base;
    DuringInv(s, values, during);
    var t := During(s, values, during);
    BaseHasWorkers(t);
    var b := t.writer.value;
    if b.phase.AwaitCheckpoint? {
      assert t.workers[b.phase.index].tasks != [];
    } else if b.phase.AwaitApply? {
      assert t.workers[b.touched[b.phase.pos]].tasks != [];
    }
  }

  // ---------------------------------------------------------------- routing and memory

  /** In every interleaving a key is only ever stored in the shard its hash selects. */
  lemma KeysStayHome(s: State, events: seq<Event>, i: nat, k: string)
    requires Sound(s) && i < N(s)
    ensures k in Reach(s, events).workers[i].store.entries ==> ShardFor(s.hash, N(s), k) == i
  {
    hide Sound, Reach, BatchOk, Valid;
    var t := Reach(s, events);
    SoundValid(t);
    FitNow(t, i);
  }

  /** A memory readout reads each shard at its own moment of the run; its total never exceeds the
      configured ceiling. */
  lemma StatsWithinCeiling(s: State, events: seq<Event>, moments: seq<nat>, bytes: seq<nat>)
    requires Sound(s) && |moments| == |bytes| == N(s) && forall i :: 0 <= i < |moments| ==> moments[i] <= |events|
    requires forall i :: 0 <= i < |bytes| ==> bytes[i] == ShardAt(s, events, moments[i], i).usage
    ensures Sum(bytes) <= s.maxmemory
  {
    hide Sound, Reach, BatchOk, ShardOk, Base;
    var n := N(s);
    SoundValid(s);
    BaseHasWorkers(s);
    var stores := seq(n, i requires 0 <= i < n => ShardAt(s, events, moments[i], i));
    forall i | 0 <= i < n ensures ShardOk(s.hash, s.maxmemory, s.policy, n, i, stores[i]) {
      var t := Reach(s, events[..moments[i]]);
      SoundValid(t);
      FitNow(t, i);
    }
    StatsBounded(s.hash, s.maxmemory, s.policy, stores, bytes);
  }

  /** Shard `i` after the first `moment` events. */
  ghost function ShardAt(s: State, events: seq<Event>, moment: nat, i: nat): Store
    requires Sound(s) && moment <= |events| && i < N(s)
  {
    Reach(s, events[..moment]).workers[i].store
  }
}

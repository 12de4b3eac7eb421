/** What a client can find in the sharded database: the live cell of each key, in its home shard. */
module ClientView {
  import opened Wrappers
  import opened Decimal
  import opened Store
  import opened Eviction
  import opened StoreRuns
  import opened LiveMap
  import opened Sharding
  import opened OneStore

  /** What a client reading key `k` at time `t` finds. */
  function Look(db: Db, k: string, t: int): Option<Cell>
    requires |db.shards| > 0
  {
    LookIn(ViewOf(db.shards[Home(db, k)]), k, t)
  }

  function LookIn(m: View, k: string, t: int): Option<Cell> {
    if k in m && Alive(m[k], t) then Some(m[k]) else None
  }

  /** From time `from` on clients find in `e` what they find in `db`. */
  ghost predicate Unchanged(db: Db, e: Db, from: int) {
    && 0 < |db.shards| && 0 < |e.shards|
    && forall k, t :: from <= t ==> Look(e, k, t) == Look(db, k, t)
  }

  /** A key that a write did not name is as it was, or an evicting policy took it. */
  ghost predicate Spared(db: Db, e: Db, k: string, from: int)
    requires |db.shards| > 0 && |e.shards| > 0
  {
    || (forall t :: from <= t ==> Look(e, k, t) == Look(db, k, t))
    || (db.policy != NoEviction && forall t :: from <= t ==> Look(e, k, t) == None)
  }

  // ---------------------------------------------------------------- one map for all shards

  function WholeTo(db: Db, i: nat): View
    requires i <= |db.shards|
  {
    if i == 0 then map[] else WholeTo(db, i - 1) + ViewOf(db.shards[i - 1])
  }

  lemma {:induction false} WholeKey(db: Db, i: nat, k: string)
    requires DbValid(db) && i <= |db.shards|
    ensures if Home(db, k) < i then Agree(WholeTo(db, i), ViewOf(db.shards[Home(db, k)]), k) else k !in WholeTo(db, i)
  {
    hide Valid;
    if i > 0 {
      WholeKey(db, i - 1, k);
      ShardIsOk(db, i - 1);
    }
  }

  lemma WholeMirrors(db: Db, now: int)
    requires DbValid(db)
    ensures Mirrors(db, WholeTo(db, |db.shards|), now)
  {
    hide DbValid, ViewOf, WholeTo;
    HasShards(db);
    var m := WholeTo(db, |db.shards|);
    forall k ensures Agree(Live(db.shards[Home(db, k)], now), Prune(m, now), k) {
      WholeKey(db, |db.shards|, k);
    }
  }

  lemma MirrorLook(db: Db, m: View, now: int)
    requires |db.shards| > 0 && Mirrors(db, m, now)
    ensures forall k, t :: now <= t ==> Look(db, k, t) == LookIn(m, k, t)
  {
    hide ViewOf;
    forall k, t | now <= t ensures Look(db, k, t) == LookIn(m, k, t) {
      var s := db.shards[Home(db, k)];
      assert Agree(Live(s, now), Prune(m, now), k);
      AgreeLater(s, m, k, now, t);
    }
  }

  /** The live map a database shows at `now`. */
  ghost predicate Showing(db: Db, m: View, now: int) {
    && |db.shards| > 0 && Mirrors(db, m, now) && Prune(m, now) == m
    && forall k, t :: now <= t ==> Look(db, k, t) == LookIn(m, k, t)
  }

  lemma LiveMapOf(db: Db, now: int) returns (m: View)
    requires DbValid(db)
    ensures Showing(db, m, now)
  {
    hide DbValid, Look, LookIn, Mirrors, Prune;
    HasShards(db);
    WholeMirrors(db, now);
    MirrorsPruned(db, WholeTo(db, |db.shards|), now);
    m := Prune(WholeTo(db, |db.shards|), now);
    PruneTwice(WholeTo(db, |db.shards|), now, now);
    MirrorLook(db, m, now);
  }

  /** An operation that cannot meet memory pressure does to the live map what it does to a map. */
  lemma Performs(db: Db, m: View, op: Op, now: int)
    requires DbValid(db) && Showing(db, m, now) && !op.SetOp? && !op.MSetOp? && !op.IncrementOp?
    ensures var (e, r) := Perform(db, op, now);
            var (d, q) := ApplyTo(m, op, now);
            r == q && |e.shards| > 0 && forall k, t :: now <= t ==> Look(e, k, t) == LookIn(d, k, t)
  {
    hide DbValid, Perform, ApplyTo, Look, LookIn, Mirrors, Prune;
    PerformRefines(db, m, op, now);
    MirrorLook(Perform(db, op, now).0, ApplyTo(m, op, now).0, now);
  }

  // ---------------------------------------------------------------- writes, with or without room

  /** A write on one key of a store: from `from` on the key shows `cell`, and the other keys are spared. */
  ghost predicate Wrote(s: Store, u: Store, k: string, cell: Cell) {
    && k in u.entries && CellOf(u.entries[k]) == cell
    && (forall j :: j != k && j in u.entries ==> j in s.entries && u.entries[j] == s.entries[j])
    && (s.policy == NoEviction ==> forall j :: j != k && j in s.entries ==> j in u.entries)
  }

  /** A write that is accepted sets its key, and evicts others only under an evicting policy. */
  lemma SetWrites(s: Store, request: SetRequest, now: int)
    requires Valid(s) && Set(s, request, now).1 == Ok
    ensures Wrote(s, Set(s, request, now).0, request.key, Cell(request.value, Deadline(now, request.ttl)))
  {
    hide OrderOk, Total, StampsOk, Evict;
    var t := RemoveIfExpired(s, request.key, now);
    AtLeastOwn(t, request.key);
    var projected := t.usage - Weight(t.entries, request.key) + EntryBytes(request.key, request.value);
    EvictShrinks(t, projected, Some(request.key));
  }

  lemma SetFails(s: Store, request: SetRequest, now: int)
    requires Valid(s)
    ensures Set(s, request, now).1 == ConditionFailed <==>
              !ConditionHolds(request.condition, LookIn(ViewOf(s), request.key, now).Some?)
    ensures Set(s, request, now).1 != Ok ==> Live(Set(s, request, now).0, now) == Live(s, now)
  {
    PurgeLive(s, request.key, now);
    if Set(s, request, now).1 != Ok { RefusedSetEvictsNothing(s, request, now); }
    hide OrderOk, Total, StampsOk, Evict;
  }

  /** The write an increment makes. */
  lemma IncrementWrites(s: Store, k: string, delta: int, now: int, later: int)
    requires Valid(s) && Increment(s, k, delta, now, later).1.Incremented?
    ensures var was := LookIn(ViewOf(s), k, now);
            var number := if was.Some? then FromChars(was.value.value) else Some(0);
            var ttl := if was.Some? && was.value.expiresAt.Some?
                       then Some((was.value.expiresAt.value - now) / NANOS_PER_MILLI) else None;
            && number.Some? && IsInt64(number.value + delta)
            && Increment(s, k, delta, now, later).1 == Incremented(number.value + delta)
            && Wrote(s, Increment(s, k, delta, now, later).0, k,
                     Cell(ToString(number.value + delta), Deadline(later, ttl)))
  {
    hide OrderOk, Total, StampsOk, Set, FromChars, ToString;
    PurgeLive(s, k, now);
    var t := RemoveIfExpired(s, k, now);
    var w := IncrementWrite(s, k, delta, now);
    UnconditionalSet(t, w.value, later);
    SetWrites(t, w.value, later);
  }

  lemma IncrementFails(s: Store, k: string, delta: int, now: int, later: int)
    requires Valid(s) && now <= later && !Increment(s, k, delta, now, later).1.Incremented?
    ensures var was := LookIn(ViewOf(s), k, now);
            var number := if was.Some? then FromChars(was.value.value) else Some(0);
            && Live(Increment(s, k, delta, now, later).0, later) == Live(s, later)
            && (Increment(s, k, delta, now, later).1 == IncrementNoMemory <==>
                  number.Some? && IsInt64(number.value + delta))
  {
    hide OrderOk, Total, StampsOk, Set, FromChars, ToString, Live;
    PurgeLive(s, k, now);
    var t := RemoveIfExpired(s, k, now);
    LivePrune(s, now, later);
    LivePrune(t, now, later);
    LiveLook(s, k, now);
    var w := IncrementWrite(s, k, delta, now);
    if w.Some? {
      UnconditionalSet(t, w.value, later);
      SetFails(t, w.value, later);
    }
  }

  lemma LiveLook(s: Store, k: string, t: int)
    ensures LookIn(ViewOf(s), k, t) == if k in Live(s, t) then Some(Live(s, t)[k]) else None
  {
  }

  // ---------------------------------------------------------------- on the home shard

  lemma HomeIs(db: Db, k: string, op: Op, now: int)
    requires DbValid(db) && OnKey(op, k)
    ensures |db.shards| > 0 && Valid(db.shards[Home(db, k)])
    ensures var i := Home(db, k);
            AtHome(db, k, op, now) ==
            (db.(shards := db.shards[i := Apply(db.shards[i], op, now).0]), Apply(db.shards[i], op, now).1)
    ensures db.shards[Home(db, k)].policy == db.policy
  {
    hide Valid, Apply;
    ShardIsOk(db, Home(db, k));
  }

  lemma HomeWrote(db: Db, k: string, op: Op, now: int, cell: Cell, from: int)
    requires DbValid(db) && OnKey(op, k)
    requires var s := db.shards[Home(db, k)]; Valid(s) && Wrote(s, Apply(s, op, now).0, k, cell)
    ensures var e := AtHome(db, k, op, now).0;
            && |e.shards| == |db.shards| > 0
            && (forall t :: Look(e, k, t) == if Alive(cell, t) then Some(cell) else None)
            && (forall j :: j != k ==> Spared(db, e, j, from))
  {
    HomeIs(db, k, op, now);
    hide Valid, Apply, DbValid, AtHome;
    var e := AtHome(db, k, op, now).0;
    forall j | j != k ensures Spared(db, e, j, from) {
      SparedKey(db, e, Home(db, k), k, j, cell, from);
    }
  }

  lemma SparedKey(db: Db, e: Db, i: nat, k: string, j: string, cell: Cell, from: int)
    requires 0 < |db.shards| && i < |db.shards| && e == db.(shards := e.shards) && j != k
    requires |e.shards| == |db.shards| && e.shards == db.shards[i := e.shards[i]]
    requires Wrote(db.shards[i], e.shards[i], k, cell) && db.shards[i].policy == db.policy
    ensures Spared(db, e, j, from)
  {
    if Home(db, j) == i && j in db.shards[i].entries && j !in e.shards[i].entries {
      assert forall t :: from <= t ==> Look(e, j, t) == None;
    } else {
      assert forall t :: from <= t ==> Look(e, j, t) == Look(db, j, t);
    }
  }

  lemma HomeSame(db: Db, k: string, op: Op, now: int, from: int)
    requires DbValid(db) && OnKey(op, k)
    requires var s := db.shards[Home(db, k)]; Valid(s) && Live(Apply(s, op, now).0, from) == Live(s, from)
    ensures Unchanged(db, AtHome(db, k, op, now).0, from)
  {
    HomeIs(db, k, op, now);
    hide Valid, Apply, DbValid, AtHome, Live;
    var e := AtHome(db, k, op, now).0;
    forall j, t | from <= t ensures Look(e, j, t) == Look(db, j, t) {
      var i := Home(db, j);
      LivePrune(db.shards[i], from, t);
      LivePrune(e.shards[i], from, t);
      LiveLook(db.shards[i], j, t);
      LiveLook(e.shards[i], j, t);
    }
  }

  // ---------------------------------------------------------------- batches

  /** The shard after an accepted batch. */
  ghost predicate Took(s: Store, u: Store, group: Pairs) {
    Valid(s) && if group == [] then u == s else MSet(s, group) == (u, Ok)
  }

  lemma {:induction false} GroupsTaken(db: Db, values: Pairs, i: nat)
    requires DbValid(db) && i <= |db.shards| && ApplyGroups(db, values, i).1 == Ok
    ensures forall j :: 0 <= j < i ==>
              Took(db.shards[j], ApplyGroups(db, values, i).0.shards[j], Group(db.hash, |db.shards|, values, j))
  {
    hide Valid, ShardOk, DbValid, MSet, Group;
    if i > 0 {
      GroupsTaken(db, values, i - 1);
      ShardIsOk(db, i - 1);
    }
  }

  lemma TookKey(s: Store, u: Store, group: Pairs, k: string)
    requires Took(s, u, group)
    ensures k in LastValues(group) ==> k in u.entries && CellOf(u.entries[k]) == Cell(LastValues(group)[k], None)
    ensures k !in LastValues(group) && k in u.entries ==> k in s.entries && u.entries[k] == s.entries[k]
    ensures s.policy == NoEviction && k !in LastValues(group) && k in s.entries ==> k in u.entries
  {
    hide Valid, MSet, MSetFits;
    if group != [] {
      MSetContents(s, group, k);
      if s.policy == NoEviction {
        AcceptedFits(s, group);
        FittingMSet(s, group, k);
      }
    }
  }

  /** An accepted batch: every listed key shows its last listed value without a TTL, the others are spared. */
  lemma BatchWrote(db: Db, values: Pairs, k: string, from: int)
    requires DbValid(db) && MSetDb(db, values).1 == Ok
    ensures var e := MSetDb(db, values).0;
            && |e.shards| == |db.shards| > 0
            && if k in LastValues(values) then forall t :: Look(e, k, t) == Some(Cell(LastValues(values)[k], None))
               else Spared(db, e, k, from)
  {
    hide Valid, DbValid, ApplyGroups, LastValues, Group, ShardOk;
    HasShards(db);
    var e, i := MSetDb(db, values).0, Home(db, k);
    GroupsTaken(db, values, |db.shards|);
    var g := Group(db.hash, |db.shards|, values, i);
    assert Took(db.shards[i], e.shards[i], g);
    TookKey(db.shards[i], e.shards[i], g, k);
    GroupValues(db.hash, |db.shards|, values, i, k);
    ShardPolicy(db, i);
    if k !in LastValues(values) {
      if k in db.shards[i].entries && k !in e.shards[i].entries {
        assert forall t :: from <= t ==> Look(e, k, t) == None;
      } else {
        assert forall t :: from <= t ==> Look(e, k, t) == Look(db, k, t);
      }
    }
  }

  lemma ShardPolicy(db: Db, i: nat)
    requires DbValid(db) && i < |db.shards|
    ensures db.shards[i].policy == db.policy
  {
    hide Valid;
    ShardIsOk(db, i);
  }

  lemma {:induction false} BatchResult(db: Db, values: Pairs, i: nat)
    requires DbValid(db) && i <= |db.shards|
    ensures ApplyGroups(db, values, i).1 == Ok || ApplyGroups(db, values, i).1 == NoMemory
  {
    hide Valid, ShardOk, DbValid, MSet, Group;
    if i > 0 { BatchResult(db, values, i - 1); }
  }
}

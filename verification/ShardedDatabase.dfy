/** The sharded database as an object over its shards' stores, run by one caller at a time: routing,
    per-key loops, and the batch write with its checkpoints and rollback. Every method computes the
    function of the same meaning in module Sharding. */
module ShardedDatabases {
  import opened Wrappers
  import opened Decimal
  import opened StoreRuns
  import opened KvStores
  import opened Sharding
  import opened SnapshotRoundTrip
  import S = Store

  class ShardedDatabase {
    const hash: Hash
    const maxmemory: nat
    const policy: S.Policy
    const shards: seq<KvStore>

    ghost function State(): (db: Db)
      reads shards
      ensures |db.shards| == |shards| && forall i :: 0 <= i < |shards| ==> db.shards[i] == shards[i].State()
    {
      Db(hash, maxmemory, policy, seq(|shards|, i requires 0 <= i < |shards| reads shards => shards[i].State()))
    }

    ghost predicate Valid()
      reads shards
    {
      && (forall i, j :: 0 <= i < j < |shards| ==> shards[i] != shards[j])
      && DbValid(State())
    }

    constructor (hash: Hash, maxmemory: nat, policy: S.Policy, shards: seq<KvStore>)
      ensures this.hash == hash && this.maxmemory == maxmemory && this.policy == policy && this.shards == shards
    {
      this.hash, this.maxmemory, this.policy, this.shards := hash, maxmemory, policy, shards;
    }

    /** Zero shards are refused; otherwise shard `i` is a new empty store with its share of the budget. */
    static method Create(
        n: nat, hash: Hash, maxmemory: nat, policy: S.Policy, layout: S.Layout, generator: nat -> nat)
        returns (db: ShardedDatabase?)
      ensures db == null <==> n == 0
      ensures db != null ==> fresh(db) && fresh(db.shards) && db.Valid()
      ensures db != null ==> db.State() == EmptyDb(hash, maxmemory, policy, layout, generator, n)
    {
      hide DbValid, S.Empty, Budget, Sum;
      var budgets := SplitBudget(maxmemory, n);
      if budgets.None? { return null; }
      var stores := NewStores(budgets.value, policy, layout, generator);
      db := new ShardedDatabase(hash, maxmemory, policy, stores);
      ghost var spec := EmptyDb(hash, maxmemory, policy, layout, generator, n);
      assert db.State().shards == spec.shards;
    }

    static method NewStores(budgets: seq<nat>, policy: S.Policy, layout: S.Layout, generator: nat -> nat)
        returns (stores: seq<KvStore>)
      ensures |stores| == |budgets| && fresh(stores) && forall i, j :: 0 <= i < j < |stores| ==> stores[i] != stores[j]
      ensures forall i :: 0 <= i < |stores| ==> stores[i].State() == S.Empty(budgets[i], policy, layout, generator)
    {
      hide S.Empty, S.Valid;
      stores := [];
      for i := 0 to |budgets|
        invariant |stores| == i && fresh(stores)
        invariant forall j, k :: 0 <= j < k < i ==> stores[j] != stores[k]
        invariant forall j :: 0 <= j < i ==> stores[j].State() == S.Empty(budgets[j], policy, layout, generator)
      {
        var store := new KvStore(budgets[i], policy, layout, generator);
        stores := stores + [store];
      }
    }

    function ShardForKey(key: string): (i: nat)
      requires |shards| > 0
      ensures i < |shards|
    {
      ShardFor(hash, |shards|, key)
    }

    // -------------------------------------------------------------- one key

    /** The shard of a key is in order. */
    lemma AtShard(key: string)
      requires Valid()
      ensures |shards| > 0 && shards[ShardForKey(key)].Valid() && Home(State(), key) == ShardForKey(key)
      ensures State().shards[ShardForKey(key)] == shards[ShardForKey(key)].State()
    {
      hide S.Valid;
      ShardIsOk(State(), ShardForKey(key));
    }

    /** When the home shard of `key` has run `op` and the others are as in `before`, the database has. */
    lemma AfterShard(before: Db, key: string, op: Op, now: int)
      requires DbValid(before) && OnKey(op, key) && |shards| == |before.shards| && Home(before, key) == ShardForKey(key)
      requires before.hash == hash && before.maxmemory == maxmemory && before.policy == policy
      requires S.Valid(before.shards[ShardForKey(key)])
      requires forall i :: 0 <= i < |shards| ==>
                 shards[i].State() ==
                 if i == ShardForKey(key) then Apply(before.shards[i], op, now).0 else before.shards[i]
      ensures State() == AtHome(before, key, op, now).0 && DbValid(State())
      ensures AtHome(before, key, op, now).1 == Apply(before.shards[ShardForKey(key)], op, now).1
    {
      hide S.Valid, Apply;
      assert State().shards == AtHome(before, key, op, now).0.shards;
    }

    method Get(key: string, now: int) returns (value: Option<string>)
      requires Valid()
      modifies shards
      ensures Valid() && (State(), Value(value)) == AtHome(old(State()), key, GetOp(key), now)
    {
      hide DbValid, S.Valid, S.Get, AtHome;
      AtShard(key);
      value := shards[ShardForKey(key)].Get(key, now);
      AfterShard(old(State()), key, GetOp(key), now);
    }

    method Set(request: S.SetRequest, now: int) returns (result: S.WriteResult)
      requires Valid()
      modifies shards
      ensures Valid() && (State(), Written(result)) == AtHome(old(State()), request.key, SetOp(request), now)
    {
      hide DbValid, S.Valid, S.Set, AtHome;
      AtShard(request.key);
      result := shards[ShardForKey(request.key)].Set(request, now);
      AfterShard(old(State()), request.key, SetOp(request), now);
    }

    method Expire(key: string, ttl: int, now: int) returns (found: bool)
      requires Valid()
      modifies shards
      ensures Valid() && (State(), Flag(found)) == AtHome(old(State()), key, ExpireOp(key, ttl), now)
    {
      hide DbValid, S.Valid, S.Expire, AtHome;
      AtShard(key);
      found := shards[ShardForKey(key)].Expire(key, ttl, now);
      AfterShard(old(State()), key, ExpireOp(key, ttl), now);
    }

    method TtlSeconds(key: string, now: int) returns (seconds: int)
      requires Valid()
      modifies shards
      ensures Valid() && (State(), Seconds(seconds)) == AtHome(old(State()), key, TtlOp(key), now)
    {
      hide DbValid, S.Valid, S.TtlSeconds, AtHome;
      AtShard(key);
      seconds := shards[ShardForKey(key)].TtlSeconds(key, now);
      AfterShard(old(State()), key, TtlOp(key), now);
    }

    method Increment(key: string, delta: int, now: int, lag: nat) returns (result: S.IncrementResult)
      requires Valid() && IsInt64(delta)
      modifies shards
      ensures Valid() && (State(), Number(result)) == AtHome(old(State()), key, IncrementOp(key, delta, lag), now)
    {
      hide DbValid, S.Valid, S.Increment, AtHome;
      AtShard(key);
      result := shards[ShardForKey(key)].Increment(key, delta, now, now + lag);
      AfterShard(old(State()), key, IncrementOp(key, delta, lag), now);
    }

    // -------------------------------------------------------------- several keys

    method DeleteOne(key: string, now: int) returns (removed: nat)
      requires Valid()
      modifies shards
      ensures Valid() && (State(), Count(removed)) == AtHome(old(State()), key, DeleteOp([key]), now)
    {
      hide DbValid, S.Valid, S.Delete, AtHome;
      AtShard(key);
      removed := shards[ShardForKey(key)].Delete([key], now);
      AfterShard(old(State()), key, DeleteOp([key]), now);
    }

    method ExistsOne(key: string, now: int) returns (count: nat)
      requires Valid()
      modifies shards
      ensures Valid() && (State(), Count(count)) == AtHome(old(State()), key, ExistsOp([key]), now)
    {
      hide DbValid, S.Valid, S.Exists, AtHome;
      AtShard(key);
      count := shards[ShardForKey(key)].Exists([key], now);
      AfterShard(old(State()), key, ExistsOp([key]), now);
    }

    method Delete(keys: seq<string>, now: int) returns (total: nat)
      requires Valid()
      modifies shards
      ensures Valid() && (State(), total) == DeleteKeys(old(State()), keys, now)
    {
      hide DbValid, AtHome;
      total := 0;
      for j := 0 to |keys|
        invariant Valid() && (State(), total) == DeleteKeys(old(State()), keys[..j], now)
      {
        assert keys[..j + 1][..j] == keys[..j];
        var removed := DeleteOne(keys[j], now);
        total := total + removed;
      }
      assert keys[..|keys|] == keys;
    }

    method Exists(keys: seq<string>, now: int) returns (total: nat)
      requires Valid()
      modifies shards
      ensures Valid() && (State(), total) == ExistsKeys(old(State()), keys, now)
    {
      hide DbValid, AtHome;
      total := 0;
      for j := 0 to |keys|
        invariant Valid() && (State(), total) == ExistsKeys(old(State()), keys[..j], now)
      {
        assert keys[..j + 1][..j] == keys[..j];
        var count := ExistsOne(keys[j], now);
        total := total + count;
      }
      assert keys[..|keys|] == keys;
    }

    // -------------------------------------------------------------- the batch write

    /** Copies the store of every shard that has a group. */
    method Checkpoint(groups: seq<Pairs>) returns (touched: seq<nat>, checkpoints: seq<KvStore?>)
      requires |groups| == |shards|
      ensures |checkpoints| == |shards| && Listed(touched, groups, |shards|)
      ensures forall i :: 0 <= i < |shards| && groups[i] != [] ==>
                checkpoints[i] != null && fresh(checkpoints[i]) && checkpoints[i].State() == shards[i].State()
    {
      touched, checkpoints := [], seq(|shards|, _ => null);
      for index := 0 to |groups|
        invariant |checkpoints| == |shards| && Listed(touched, groups, index)
        invariant forall i :: 0 <= i < index && groups[i] != [] ==>
                    checkpoints[i] != null && fresh(checkpoints[i]) && checkpoints[i].State() == shards[i].State()
      {
        if groups[index] != [] {
          touched := touched + [index];
          var copy := new KvStore.CopyOf(shards[index]);
          checkpoints := checkpoints[index := copy];
        }
      }
    }

    /** Puts the checkpoints back. */
    method Rollback(touched: seq<nat>, checkpoints: seq<KvStore?>, groups: seq<Pairs>, ghost before: Db)
      requires |groups| == |shards| == |before.shards| == |checkpoints| && Listed(touched, groups, |shards|)
      requires forall i, j :: 0 <= i < j < |shards| ==> shards[i] != shards[j]
      requires forall i :: 0 <= i < |shards| && groups[i] != [] ==>
                 checkpoints[i] != null && checkpoints[i] !in shards && checkpoints[i].State() == before.shards[i]
      requires forall i :: 0 <= i < |shards| ==>
                 var s := before.shards[i];
                 shards[i].maxmemory == s.maxmemory && shards[i].policy == s.policy && shards[i].layout == s.layout &&
                     shards[i].generator == s.generator
      requires forall i :: 0 <= i < |shards| && groups[i] == [] ==> shards[i].State() == before.shards[i]
      modifies shards
      ensures forall i :: 0 <= i < |shards| ==> shards[i].State() == before.shards[i]
    {
      for p := 0 to |touched|
        invariant forall q :: 0 <= q < p ==> shards[touched[q]].State() == before.shards[touched[q]]
        invariant forall i :: 0 <= i < |shards| && groups[i] == [] ==> shards[i].State() == before.shards[i]
        invariant forall i :: 0 <= i < |shards| && groups[i] != [] ==>
                    checkpoints[i] != null && checkpoints[i].State() == before.shards[i]
      {
        shards[touched[p]].Assign(checkpoints[touched[p]]);
      }
    }

    /** Shards without a group are as they were. */
    ghost predicate Rest(before: Db, groups: seq<Pairs>)
      reads shards
    {
      |before.shards| == |groups| == |shards| && forall i :: 0 <= i < |shards| && groups[i] == [] ==>
          shards[i].State() == before.shards[i]
    }

    /** Applies the group of the next touched shard. */
    method ApplyNext(p: nat, touched: seq<nat>, groups: seq<Pairs>, values: Pairs, ghost before: Db)
        returns (result: S.WriteResult)
      requires Valid() && DbValid(before) && before.hash == hash && |before.shards| == |shards| &&
               groups == Groups(hash, |shards|, values)
      requires Listed(touched, groups, |groups|) && p < |touched| &&
               Applying(before, values, Upto(touched, p, |shards|))
      modifies shards
      ensures result == S.Ok ==> Valid() && Applying(before, values, Upto(touched, p + 1, |shards|))
      ensures result != S.Ok ==> MSetDb(before, values) == (before, result) && Rest(before, groups)
    {
      hide DbValid, ApplyGroup, Group, ApplyGroups, Listed, MSetDb, Groups;
      ListedAt(touched, groups, p);
      var i := touched[p];
      result := ApplyTo(i, groups[i], values, before);
      if result == S.Ok {
        SkipFrom(before, values, groups, touched, p + 1);
      } else {
        Untouched(before, values, groups, i + 1);
        RefusedAt(before, values, i);
      }
    }

    /** Applies the groups in order until one is refused. */
    method ApplyAll(touched: seq<nat>, groups: seq<Pairs>, values: Pairs, ghost before: Db)
        returns (result: S.WriteResult)
      requires Valid() && before == State() && groups == Groups(hash, |shards|, values) &&
               Listed(touched, groups, |groups|)
      modifies shards
      ensures result == S.Ok ==> Valid() && (State(), result) == MSetDb(before, values)
      ensures result != S.Ok ==> MSetDb(before, values) == (before, result) && Rest(before, groups)
    {
      hide DbValid, ApplyGroup, Group, ApplyGroups, Listed, MSetDb, Groups, Rest;
      Nothing(before, values);
      SkipFrom(before, values, groups, touched, 0);
      result := S.Ok;
      for p := 0 to |touched|
        invariant result == S.Ok && Valid() && Applying(before, values, Upto(touched, p, |shards|))
      {
        result := ApplyNext(p, touched, groups, values, before);
        if result != S.Ok { return; }
      }
      AllApplied(before, values);
    }

    /** The batch write: all groups, or the state as it was. */
    method MSet(values: Pairs) returns (result: S.WriteResult)
      requires Valid()
      modifies shards
      ensures Valid() && (State(), result) == MSetDb(old(State()), values)
    {
      hide DbValid, MSetDb, Group;
      ghost var before := State();
      HasShards();
      var groups := GroupByShard(hash, |shards|, values);
      var touched, checkpoints := Checkpoint(groups);
      result := ApplyAll(touched, groups, values, before);
      if result != S.Ok {
        Rollback(touched, checkpoints, groups, before);
        assert State().shards == before.shards;
      }
    }

    lemma HasShards()
      requires Valid()
      ensures |shards| > 0
    {
    }

    /** The groups before index `i` have been applied to `before`. */
    ghost predicate Applying(before: Db, values: Pairs, i: nat)
      reads shards
    {
      DbValid(before) && i <= |before.shards| && (State(), S.Ok) == ApplyGroups(before, values, i)
    }

    /** Applies one group to its shard. */
    method ApplyTo(i: nat, group: Pairs, values: Pairs, ghost before: Db) returns (result: S.WriteResult)
      requires Valid() && i < |shards| && Applying(before, values, i) && group == Group(hash, |shards|, values, i) &&
               group != []
      modifies shards[i]
      ensures Valid() && DbValid(before) && i < |before.shards| &&
              (State(), result) == ApplyGroups(before, values, i + 1)
    {
      hide S.Valid, S.MSet, Group, ShardOk;
      ghost var now := State();
      ShardIsOk(now, i);
      ghost var spec := ApplyGroup(now, values, i);
      result := shards[i].MSet(group);
      assert State().shards == now.shards[i := shards[i].State()];
    }

    /** One shard's snapshot task. */
    method SnapshotShard(i: nat, clock: Reading) returns (entries: seq<S.SnapshotEntry>)
      requires Valid() && i < |shards|
      modifies shards[i]
      ensures Valid() && S.Valid(old(shards[i].State()))
      ensures (shards[i].State(), entries) == S.Snapshot(old(shards[i].State()), clock.now, clock.later)
    {
      hide S.Valid, S.Snapshot, ShardOk;
      ghost var now := State();
      ShardIsOk(now, i);
      SnapshotShardOk(hash, maxmemory, policy, |shards|, i, now.shards[i], clock);
      entries := shards[i].Snapshot(clock.now, clock.later);
      ghost var after := Replaced(now, i, shards[i].State());
      assert State().shards == after.shards;
    }

    /** The live entries of every shard, flattened in shard order. */
    method Snapshot(clock: seq<Reading>) returns (flattened: seq<S.SnapshotEntry>)
      requires Valid() && |clock| == |shards|
      modifies shards
      ensures Valid() && flattened == SnapshotDb(old(State()), clock, |shards|)
      ensures forall i :: 0 <= i < |shards| ==> Snapped(old(State()), i, clock[i], shards[i].State())
    {
      hide S.Valid, S.Snapshot, DbValid, SnapshotDb;
      ghost var before := State();
      SnapshotStart(before, clock);
      flattened := [];
      for i := 0 to |shards|
        invariant Valid() && flattened == SnapshotDb(before, clock, i)
        invariant forall j :: i <= j < |shards| ==> shards[j].State() == before.shards[j]
        invariant forall j :: 0 <= j < i ==> Snapped(before, j, clock[j], shards[j].State())
      {
        SnapshotNext(before, clock, i);
        var entries := SnapshotShard(i, clock[i]);
        flattened := flattened + entries;
      }
    }

    /** Keys and bytes over all shards; the bytes stay within the ceiling. */
    method Stats() returns (keys: nat, bytes: nat)
      requires Valid()
      ensures bytes == Sum(Usages(State())) <= maxmemory
      ensures keys == Sum(Sizes(State()))
    {
      hide S.Valid, DbValid, Sum, Usages, Sizes;
      keys, bytes := 0, 0;
      ghost var db := State();
      StatsStart(db);
      for i := 0 to |shards|
        invariant bytes == Sum(Usages(db)[..i]) && keys == Sum(Sizes(db)[..i])
      {
        StatsNext(db, i);
        keys := keys + |shards[i].entries|;
        bytes := bytes + shards[i].usage;
      }
      StatsEnd(db);
    }
  }

  lemma StatsStart(db: Db)
    ensures Sum(Usages(db)[..0]) == 0 == Sum(Sizes(db)[..0])
  {
  }

  lemma StatsNext(db: Db, i: nat)
    requires i < |db.shards|
    ensures Sum(Usages(db)[..i + 1]) == Sum(Usages(db)[..i]) + db.shards[i].usage
    ensures Sum(Sizes(db)[..i + 1]) == Sum(Sizes(db)[..i]) + |db.shards[i].entries|
  {
    assert Usages(db)[..i + 1][..i] == Usages(db)[..i];
    assert Sizes(db)[..i + 1][..i] == Sizes(db)[..i];
  }

  lemma StatsEnd(db: Db)
    requires DbValid(db)
    ensures Usages(db)[..|db.shards|] == Usages(db) && Sizes(db)[..|db.shards|] == Sizes(db)
    ensures Sum(Usages(db)) <= db.maxmemory
  {
    hide S.Valid;
    StatsBounded(db.hash, db.maxmemory, db.policy, db.shards, Usages(db));
  }

  lemma SnapshotStart(db: Db, clock: seq<Reading>)
    requires DbValid(db) && |clock| == |db.shards|
    ensures SnapshotDb(db, clock, 0) == []
  {
  }

  lemma SnapshotNext(db: Db, clock: seq<Reading>, i: nat)
    requires DbValid(db) && |clock| == |db.shards| && i < |db.shards|
    ensures S.Valid(db.shards[i])
    ensures SnapshotDb(db, clock, i + 1) ==
            SnapshotDb(db, clock, i) + S.Snapshot(db.shards[i], clock[i].now, clock[i].later).1
  {
    hide DbValid, S.Valid, S.Snapshot;
    ShardIsOk(db, i);
  }

  /** `t` is shard `i` of `db` after its snapshot. */
  ghost predicate Snapped(db: Db, i: nat, clock: Reading, t: S.Store) {
    i < |db.shards| && S.Valid(db.shards[i]) && t == S.Snapshot(db.shards[i], clock.now, clock.later).0
  }

  lemma SnapshotShardOk(hash: Hash, maxmemory: nat, policy: S.Policy, n: nat, i: nat, s: S.Store, clock: Reading)
    requires n > 0 && ShardOk(hash, maxmemory, policy, n, i, s)
    ensures ShardOk(hash, maxmemory, policy, n, i, S.Snapshot(s, clock.now, clock.later).0)
  {
    hide S.OrderOk, S.Total, S.StampsOk, S.ActiveExpire, ShardOk;
    SweepShardOk(hash, maxmemory, policy, n, i, s, |s.order|, clock.now);
  }

  ghost function Usages(db: Db): (r: seq<nat>)
    ensures |r| == |db.shards|
  {
    seq(|db.shards|, i requires 0 <= i < |db.shards| => db.shards[i].usage)
  }

  ghost function Sizes(db: Db): (r: seq<nat>)
    ensures |r| == |db.shards|
  {
    seq(|db.shards|, i requires 0 <= i < |db.shards| => |db.shards[i].entries|)
  }
}

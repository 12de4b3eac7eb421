/** The sharded database behaves as one store: every operation refines the operation on one live map,
    so without memory pressure it replies as a single store does. */
module OneStore {
  import opened Decimal
  import opened Store
  import opened StoreRuns
  import opened LiveMap
  import opened Transparency
  import opened Sharding

  ghost predicate Agree(a: View, b: View, k: string) {
    (k in a <==> k in b) && (k in a ==> a[k] == b[k])
  }

  /** The shards together hold exactly the live map `m`, each key in its home shard. */
  ghost predicate Mirrors(db: Db, m: View, now: int)
    requires |db.shards| > 0
  {
    forall k :: Agree(Live(db.shards[Home(db, k)], now), Prune(m, now), k)
  }

  lemma MirrorsLater(db: Db, m: View, now: int, later: int)
    requires |db.shards| > 0 && Mirrors(db, m, now) && now <= later
    ensures Mirrors(db, m, later)
  {
    hide Live, Prune;
    forall k ensures Agree(Live(db.shards[Home(db, k)], later), Prune(m, later), k) {
      assert Agree(Live(db.shards[Home(db, k)], now), Prune(m, now), k);
      AgreeLater(db.shards[Home(db, k)], m, k, now, later);
    }
  }

  lemma AgreeLater(s: Store, m: View, k: string, now: int, later: int)
    requires Agree(Live(s, now), Prune(m, now), k) && now <= later
    ensures Agree(Live(s, later), Prune(m, later), k)
  {
  }

  // ---------------------------------------------------------------- operations on one key

  /** Key operations are local: the reply and the key's cell depend on that cell alone, and every
      other key keeps its cell. */
  lemma Local(a: View, b: View, op: Op, k: string, now: int)
    requires OnKey(op, k) && Agree(a, b, k)
    ensures var (d, p) := ApplyTo(a, op, now);
            var (e, q) := ApplyTo(b, op, now);
            p == q && Agree(Prune(d, After(op, now)), Prune(e, After(op, now)), k)
  {
    hide FromChars, ToString;
    UnfoldOne(a, k);
    UnfoldOne(b, k);
  }

  lemma LocalElsewhere(a: View, op: Op, k: string, j: string, now: int)
    requires OnKey(op, k) && j != k
    ensures Agree(Prune(ApplyTo(a, op, now).0, After(op, now)), Prune(a, After(op, now)), j)
  {
    hide FromChars, ToString;
    UnfoldOne(a, k);
  }

  /** One key's operation on its home shard refines the operation on the whole live map. */
  lemma AtHomeRefines(db: Db, m: View, k: string, op: Op, now: int)
    requires DbValid(db) && OnKey(op, k) && Mirrors(db, m, now) && Valid(db.shards[Home(db, k)])
    requires Fits(db.shards[Home(db, k)], op, now)
    ensures var (e, r) := AtHome(db, k, op, now);
            var (d, q) := ApplyTo(Prune(m, now), op, now);
            r == q && Mirrors(e, d, After(op, now))
  {
    hide Valid, Apply, ApplyTo, Fits, Live, Prune, ShardOk;
    var (e, r) := AtHome(db, k, op, now);
    var (d, q) := ApplyTo(Prune(m, now), op, now);
    var i, later := Home(db, k), After(op, now);
    var s := db.shards[i];
    Refines(s, op, now);
    Local(Live(s, now), Prune(m, now), op, k, now);
    forall j ensures Agree(Live(e.shards[Home(e, j)], later), Prune(d, later), j) {
      if j != k {
        var before := db.shards[Home(db, j)];
        assert Agree(Live(before, now), Prune(m, now), j);
        AgreeLater(before, m, j, now, later);
        PruneTwice(m, now, later);
        LocalElsewhere(Prune(m, now), op, k, j, now);
        if Home(db, j) == i {
          LocalElsewhere(Live(s, now), op, k, j, now);
          LivePrune(s, now, later);
        }
      }
    }
  }

  lemma LivePrune(s: Store, now: int, later: int)
    requires now <= later
    ensures Prune(Live(s, now), later) == Live(s, later)
  {
    PruneTwice(ViewOf(s), now, later);
  }

  // ---------------------------------------------------------------- operations on several keys

  lemma {:induction false} DeleteKeysRefines(db: Db, m: View, keys: seq<string>, now: int)
    requires DbValid(db) && Mirrors(db, m, now)
    ensures var (e, n) := DeleteKeys(db, keys, now);
            var (d, c) := DeleteFrom(Prune(m, now), keys);
            n == c && Mirrors(e, d, now) && Prune(d, now) == d
  {
    hide DbValid, AtHome, Live, Prune, Home;
    PruneTwice(m, now, now);
    if keys == [] {
      HasShards(db);
      MirrorsPruned(db, m, now);
    } else {
      var init, k := keys[..|keys| - 1], keys[|keys| - 1];
      DeleteKeysRefines(db, m, init, now);
      var e, d := DeleteKeys(db, init, now).0, DeleteFrom(Prune(m, now), init).0;
      HomeValid(e, k);
      AtHomeRefines(e, d, k, DeleteOp([k]), now);
      UnfoldOne(d, k);
      PruneWithout(d, k, now);
    }
  }

  lemma PruneWithout(m: View, k: string, now: int)
    requires Prune(m, now) == m
    ensures Prune(m - {k}, now) == m - {k}
  {
    assert forall j :: j in m ==> j in Prune(m, now);
  }

  lemma {:induction false} ExistsKeysRefines(db: Db, m: View, keys: seq<string>, now: int)
    requires DbValid(db) && Mirrors(db, m, now)
    ensures var (e, n) := ExistsKeys(db, keys, now);
            n == CountIn(Prune(m, now), keys) && Mirrors(e, Prune(m, now), now)
  {
    hide DbValid, AtHome, Live, Prune, Home;
    PruneTwice(m, now, now);
    if keys == [] {
      HasShards(db);
      MirrorsPruned(db, m, now);
    } else {
      var init, k := keys[..|keys| - 1], keys[|keys| - 1];
      ExistsKeysRefines(db, m, init, now);
      var e := ExistsKeys(db, init, now).0;
      HomeValid(e, k);
      AtHomeRefines(e, Prune(m, now), k, ExistsOp([k]), now);
      UnfoldOne(Prune(m, now), k);
    }
  }

  // ---------------------------------------------------------------- the batch write

  /** Every group fits its shard without eviction. */
  ghost predicate GroupsFit(db: Db, values: Pairs)
    requires DbValid(db)
  {
    forall i :: 0 <= i < |db.shards| ==>
      Valid(db.shards[i]) && MSetFits(db.shards[i], Group(db.hash, |db.shards|, values, i))
  }

  /** Groups that fit are all applied: the first `i` shards hold their groups' batches, the others are
      untouched. */
  lemma {:induction false} GroupsApplied(db: Db, values: Pairs, i: nat)
    requires DbValid(db) && i <= |db.shards| && GroupsFit(db, values)
    ensures var (d, w) := ApplyGroups(db, values, i);
            && w == Ok
            && forall j :: 0 <= j < i ==>
                 var g := Group(db.hash, |db.shards|, values, j);
                 d.shards[j] == if g == [] then db.shards[j] else MSet(db.shards[j], g).0
  {
    hide Valid, ShardOk, DbValid, MSet, MSetFits, Group;
    if i > 0 {
      GroupsApplied(db, values, i - 1);
      var g := Group(db.hash, |db.shards|, values, i - 1);
      assert MSetFits(db.shards[i - 1], g);
      FittingMSet(db.shards[i - 1], g, "");
    }
  }

  lemma ShardBatch(s: Store, group: Pairs, k: string, now: int)
    requires Valid(s) && MSetFits(s, group)
    ensures var t := if group == [] then s else MSet(s, group).0;
            Agree(Live(t, now), Live(s, now) + Fresh(LastValues(group)), k)
  {
    hide Valid, MSet, MSetFits;
    if group != [] { FittingMSet(s, group, k); }
  }

  lemma MSetDbRefines(db: Db, m: View, values: Pairs, now: int)
    requires DbValid(db) && Mirrors(db, m, now) && GroupsFit(db, values)
    ensures var (e, w) := MSetDb(db, values);
            w == Ok && Mirrors(e, Prune(m, now) + Fresh(LastValues(values)), now)
  {
    hide Valid, ShardOk, DbValid, MSet, MSetFits, Group, LastValues, Prune, Live, ApplyGroups;
    var e, n := MSetDb(db, values).0, |db.shards|;
    GroupsApplied(db, values, n);
    var d := Prune(m, now) + Fresh(LastValues(values));
    forall k ensures Agree(Live(e.shards[Home(e, k)], now), Prune(d, now), k) {
      var i := Home(db, k);
      var g := Group(db.hash, n, values, i);
      assert MSetFits(db.shards[i], g);
      ShardBatch(db.shards[i], g, k, now);
      GroupValues(db.hash, n, values, i, k);
      assert Agree(Live(db.shards[i], now), Prune(m, now), k);
      PruneFresh(m, LastValues(values), now);
    }
  }

  lemma PruneFresh(m: View, values: map<string, string>, now: int)
    ensures Prune(Prune(m, now) + Fresh(values), now) == Prune(m, now) + Fresh(values)
  {
  }

  // ---------------------------------------------------------------- refinement and whole runs

  /** No memory pressure on any shard the operation writes. */
  ghost predicate DbFits(db: Db, op: Op, now: int)
    requires DbValid(db)
  {
    match op
    case SetOp(request) => Valid(db.shards[Home(db, request.key)]) && Fits(db.shards[Home(db, request.key)], op, now)
    case IncrementOp(k, _, _) => Valid(db.shards[Home(db, k)]) && Fits(db.shards[Home(db, k)], op, now)
    case MSetOp(values) => GroupsFit(db, values)
    case _ => true
  }

  /** Every database operation refines the operation on one live map. */
  lemma PerformRefines(db: Db, m: View, op: Op, now: int)
    requires DbValid(db) && Mirrors(db, m, now) && DbFits(db, op, now)
    ensures var (e, r) := Perform(db, op, now);
            var (d, q) := ApplyTo(Prune(m, now), op, now);
            r == q && Mirrors(e, d, After(op, now))
  {
    hide DbValid, AtHome, MSetDb, DeleteKeys, ExistsKeys, Live, Prune, Valid, Mirrors, DeleteFrom, CountIn,
        IncrementIn, SetFits, Home, GroupsFit;
    match op
    case DeleteOp(keys) => DeleteKeysRefines(db, m, keys, now);
    case ExistsOp(keys) => ExistsKeysRefines(db, m, keys, now);
    case MSetOp(values) => MSetDbRefines(db, m, values, now);
    case SetOp(request) => HomeValid(db, request.key); AtHomeRefines(db, m, request.key, op, now);
    case ActiveExpireOp(_) => HasShards(db); MirrorsPruned(db, m, now);
    case GetOp(k) => HomeValid(db, k); AtHomeRefines(db, m, k, op, now);
    case ExpireOp(k, _) => HomeValid(db, k); AtHomeRefines(db, m, k, op, now);
    case TtlOp(k) => HomeValid(db, k); AtHomeRefines(db, m, k, op, now);
    case IncrementOp(k, _, _) => HomeValid(db, k); AtHomeRefines(db, m, k, op, now);
  }

  lemma MirrorsPruned(db: Db, m: View, now: int)
    requires |db.shards| > 0 && Mirrors(db, m, now)
    ensures Mirrors(db, Prune(m, now), now)
  {
    hide Live;
    PruneTwice(m, now, now);
  }

  lemma SweepShardMirrors(db: Db, m: View, i: nat, samples: nat, now: int)
    requires DbValid(db) && i < |db.shards| && Mirrors(db, m, now)
    ensures Mirrors(SweepShard(db, i, samples, now), m, now)
  {
    hide Live, Prune, Valid, ActiveExpire;
    ShardIsOk(db, i);
    ActiveExpireLive(db.shards[i], samples, now);
    var e := SweepShard(db, i, samples, now);
    forall k ensures Agree(Live(e.shards[Home(e, k)], now), Prune(m, now), k) {
      assert Agree(Live(db.shards[Home(db, k)], now), Prune(m, now), k);
    }
  }

  /** What happens to a sharded database: a client's operation, or a worker sweeping its shard. */
  datatype DbEvent = Call(op: Op, now: int) | SweepAt(shard: nat, samples: nat, now: int)
  {
    function End(): int {
      if Call? then After(op, now) else now
    }
  }

  function DbStep(db: Db, e: DbEvent): (r: Db)
    requires DbValid(db)
    ensures DbValid(r) && |r.shards| == |db.shards|
    ensures r.hash == db.hash && r.maxmemory == db.maxmemory && r.policy == db.policy
  {
    hide DbValid, Perform;
    match e
    case Call(op, now) => Perform(db, op, now).0
    case SweepAt(i, samples, now) => if i < |db.shards| then SweepShard(db, i, samples, now) else db
  }

  function DbRun(db: Db, run: seq<DbEvent>): (r: Db)
    requires DbValid(db)
    ensures DbValid(r) && |r.shards| == |db.shards|
    ensures r.hash == db.hash && r.maxmemory == db.maxmemory && r.policy == db.policy
  {
    hide DbValid, DbStep;
    if run == [] then db else DbStep(DbRun(db, run[..|run| - 1]), run[|run| - 1])
  }

  /** In every run each key lives only in the shard its hash selects, and the shards' memory stays
      within the ceiling. */
  lemma KeysAtHome(db: Db, run: seq<DbEvent>, i: nat, k: string)
    requires DbValid(db) && i < |db.shards|
    ensures var d := DbRun(db, run);
            && (k in d.shards[i].entries ==> Home(db, k) == i)
            && Sum(seq(|d.shards|, j requires 0 <= j < |d.shards| => d.shards[j].usage)) <= db.maxmemory
  {
    hide Valid, DbRun;
    var d := DbRun(db, run);
    ShardIsOk(d, i);
    StatsBounded(d.hash, d.maxmemory, d.policy, d.shards, seq(|d.shards|,
        j requires 0 <= j < |d.shards| => d.shards[j].usage));
  }

  /** The clients' operations of a run. */
  function Calls(run: seq<DbEvent>): seq<Timed> {
    if run == [] then []
    else
      var e := run[|run| - 1];
      Calls(run[..|run| - 1]) + if e.Call? && !e.op.ActiveExpireOp? then [Timed(e.op, e.now)] else []
  }

  function DbReplies(db: Db, run: seq<DbEvent>): seq<Reply>
    requires DbValid(db)
  {
    if run == [] then []
    else
      var init, e := run[..|run| - 1], run[|run| - 1];
      DbReplies(db, init) + if e.Call? && !e.op.ActiveExpireOp? then [Perform(DbRun(db, init), e.op, e.now).1] else []
  }

  ghost predicate DbOrdered(run: seq<DbEvent>) {
    forall i, j :: 0 <= i < j < |run| ==> run[i].End() <= run[j].now
  }

  ghost predicate DbFitsAll(db: Db, run: seq<DbEvent>)
    requires DbValid(db)
  {
    forall i :: 0 <= i < |run| && run[i].Call? ==> DbFits(DbRun(db, run[..i]), run[i].op, run[i].now)
  }

  ghost predicate DbEndsBy(run: seq<DbEvent>, t: int) {
    forall i :: 0 <= i < |run| ==> run[i].End() <= t
  }

  /** The sharded database gives the replies of one store: whatever sweeps its workers make, with a
      clock that never goes back and no memory pressure on either side. */
  lemma {:induction false} RepliesAsOneStore(db: Db, one: Store, run: seq<DbEvent>, start: int, t: int)
    requires DbValid(db) && Valid(one) && DbOrdered(run) && DbEndsBy(run, t)
    requires Mirrors(db, ViewOf(one), start) && start <= t && forall i :: 0 <= i < |run| ==> start <= run[i].now
    requires DbFitsAll(db, run) && FitsAll(one, Calls(run))
    ensures DbReplies(db, run) == Replies(one, Calls(run))
    ensures Mirrors(DbRun(db, run), ViewOf(Run(one, Calls(run))), t)
  {
    hide DbValid, Valid, Apply, Perform, Fits, FitsAll, DbFits, DbFitsAll, DbStep, ViewOf, Mirrors;
    HasShards(DbRun(db, run));
    if run == [] {
      MirrorsLater(db, ViewOf(one), start, t);
    } else {
      var n := |run| - 1;
      var init, e := run[..n], run[n];
      DbFitsInit(db, run);
      if e.Call? && !e.op.ActiveExpireOp? {
        var base := Calls(init);
        FitsPrefix(one, base, Timed(e.op, e.now));
        RepliesAsOneStore(db, one, init, start, e.now);
        CallStep(DbRun(db, init), Run(one, base), e.op, e.now);
        RunSnoc(one, base, Timed(e.op, e.now));
        MirrorsLater(DbRun(db, run), ViewOf(Run(one, Calls(run))), After(e.op, e.now), t);
      } else {
        assert Calls(init) + [] == Calls(init);
        RepliesAsOneStore(db, one, init, start, e.now);
        IdleStep(DbRun(db, init), ViewOf(Run(one, Calls(init))), e);
        MirrorsLater(DbRun(db, run), ViewOf(Run(one, Calls(run))), e.now, t);
      }
    }
  }

  lemma HasShards(db: Db)
    requires DbValid(db)
    ensures |db.shards| > 0
  {
  }

  /** Empty databases start out agreeing. */
  lemma EmptyMirrors(db: Db, one: Store, now: int)
    requires DbValid(db) && one.entries == map[] && forall i :: 0 <= i < |db.shards| ==> db.shards[i].entries == map[]
    ensures Mirrors(db, ViewOf(one), now)
  {
  }

  /** From the beginning: a new sharded database and a new store, whatever their budgets, policies and
      hash orders, give the same replies as long as neither meets memory pressure. */
  lemma NewDatabaseRepliesAsOneStore(
      hash: Hash, maxmemory: nat, policy: Policy, layout: Layout, generator: nat -> nat, n: nat,
      one: Store, run: seq<DbEvent>)
    requires n > 0 && one == Empty(one.maxmemory, one.policy, one.layout, one.generator) && DbOrdered(run)
    requires DbFitsAll(EmptyDb(hash, maxmemory, policy, layout, generator, n), run) && FitsAll(one, Calls(run))
    ensures DbReplies(EmptyDb(hash, maxmemory, policy, layout, generator, n), run) == Replies(one, Calls(run))
  {
    hide DbFitsAll, FitsAll, DbReplies, Replies, Mirrors, DbValid;
    var db := EmptyDb(hash, maxmemory, policy, layout, generator, n);
    var start := if run == [] then 0 else run[0].now;
    var end := if run == [] then 0 else run[|run| - 1].End();
    EmptyMirrors(db, one, start);
    Clocks(run);
    RepliesAsOneStore(db, one, run, start, end);
  }

  /** An ordered run takes place between its first and its last clock reading. */
  lemma Clocks(run: seq<DbEvent>)
    requires DbOrdered(run)
    ensures run != [] ==> DbEndsBy(run, run[|run| - 1].End()) && forall i :: 0 <= i < |run| ==> run[0].now <= run[i].now
    ensures run != [] ==> run[0].now <= run[|run| - 1].End()
  {
    forall i | 0 <= i < |run| ensures run[i].now <= run[i].End() {}
  }

  lemma DbFitsInit(db: Db, run: seq<DbEvent>)
    requires DbValid(db) && run != [] && DbFitsAll(db, run)
    ensures DbFitsAll(db, run[..|run| - 1])
    ensures var e := run[|run| - 1]; e.Call? ==> DbFits(DbRun(db, run[..|run| - 1]), e.op, e.now)
  {
    hide DbFits, DbRun;
    var init := run[..|run| - 1];
    forall i | 0 <= i < |init| && init[i].Call? ensures DbFits(DbRun(db, init[..i]), init[i].op, init[i].now) {
      assert init[..i] == run[..i];
    }
  }

  lemma CallStep(db: Db, one: Store, op: Op, now: int)
    requires DbValid(db) && Valid(one) && Mirrors(db, ViewOf(one), now) && DbFits(db, op, now) && Fits(one, op, now)
    ensures Perform(db, op, now).1 == Apply(one, op, now).1
    ensures Mirrors(DbStep(db, Call(op, now)), ViewOf(Apply(one, op, now).0), After(op, now))
  {
    hide DbValid, Valid, Perform, Apply, Fits, DbFits, ApplyTo, Prune;
    PerformRefines(db, ViewOf(one), op, now);
    Refines(one, op, now);
  }

  lemma IdleStep(db: Db, m: View, e: DbEvent)
    requires DbValid(db) && Mirrors(db, m, e.now) && (e.Call? ==> e.op.ActiveExpireOp?)
    ensures Mirrors(DbStep(db, e), m, e.now)
  {
    hide DbValid, Mirrors, SweepShard;
    if e.SweepAt? && e.shard < |db.shards| { SweepShardMirrors(db, m, e.shard, e.samples, e.now); }
  }
}

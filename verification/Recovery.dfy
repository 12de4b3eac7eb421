/** Log recovery: replaying only the logged commands of a sequential run rebuilds the same keys and
    values, because every command that is not logged left them alone. */
module Recovery {
  import opened Wrappers
  import opened Decimal
  import opened Resp
  import opened Frames
  import opened StoreRuns
  import opened LiveMap
  import opened Sharding
  import opened OneStore
  import opened Twins
  import opened Executor
  import S = Store

  ghost predicate DbNoTtls(db: Db) {
    forall i :: 0 <= i < |db.shards| ==> NoTtls(ViewOf(db.shards[i]))
  }

  /** Databases of the same shape without TTLs whose shards hold the same keys and values. */
  ghost predicate TwinDb(a: Db, b: Db) {
    && DbValid(a) && DbValid(b) && SameShape(a, b)
    && forall i :: 0 <= i < |a.shards| ==> Twin(a.shards[i], b.shards[i])
  }

  lemma TwinDbSteps(a: Db, b: Db, c: Db)
    requires TwinDb(a, b)
    ensures TwinDb(b, a) && TwinDb(a, a) && DbNoTtls(a) && DbNoTtls(b)
    ensures TwinDb(b, c) ==> TwinDb(a, c)
  {
    hide DbValid, S.Valid, ViewOf, NoTtls;
  }

  /** Empty databases of the same shape are twins, whatever their hash orders. */
  lemma EmptyTwins(
      hash: Hash, maxmemory: nat, policy: S.Policy, n: nat, x: S.Layout, f: nat -> nat, y: S.Layout, g: nat -> nat)
    requires n > 0
    ensures TwinDb(EmptyDb(hash, maxmemory, policy, x, f, n), EmptyDb(hash, maxmemory, policy, y, g, n))
  {
    var a, b := EmptyDb(hash, maxmemory, policy, x, f, n), EmptyDb(hash, maxmemory, policy, y, g, n);
    forall i | 0 <= i < n ensures Twin(a.shards[i], b.shards[i]) {
      assert ViewOf(a.shards[i]) == map[] == ViewOf(b.shards[i]);
    }
  }

  // ---------------------------------------------------------------- operations keep twins

  lemma TwinAtHome(a: Db, b: Db, p: Op, q: Op, k: string, now: int, then_: int)
    requires TwinDb(a, b) && OnKey(p, k) && OnKey(q, k) && Again(p, q)
    requires S.Valid(a.shards[Home(a, k)]) && Fits(a.shards[Home(a, k)], p, now)
    requires NoTtls(ViewOf(AtHome(a, k, p, now).0.shards[Home(a, k)]))
    ensures AtHome(a, k, p, now).1 == AtHome(b, k, q, then_).1
    ensures TwinDb(AtHome(a, k, p, now).0, AtHome(b, k, q, then_).0)
  {
    hide ShardOk, S.Valid, ViewOf, NoTtls, Apply, Twin, OnKey, Again, Fits;
    var i := Home(a, k);
    assert Twin(a.shards[i], b.shards[i]);
    ShardIsOk(a, i);
    ShardIsOk(b, i);
    TwinStep(a.shards[i], b.shards[i], p, q, k, now, then_);
  }

  lemma DeleteSetsNoTtl(db: Db, k: string, now: int)
    requires TwinDb(db, db)
    ensures NoTtls(ViewOf(AtHome(db, k, DeleteOp([k]), now).0.shards[Home(db, k)]))
    ensures NoTtls(ViewOf(AtHome(db, k, ExistsOp([k]), now).0.shards[Home(db, k)]))
  {
    hide ShardOk, S.Valid, Apply;
    var i := Home(db, k);
    assert Twin(db.shards[i], db.shards[i]);
    KeyExact(db.shards[i], DeleteOp([k]), k, now);
    KeyExact(db.shards[i], ExistsOp([k]), k, now);
    UnfoldOne(ViewOf(db.shards[i]), k);
  }

  lemma {:induction false} TwinDelete(a: Db, b: Db, keys: seq<string>, now: int, then_: int)
    requires TwinDb(a, b)
    ensures DeleteKeys(a, keys, now).1 == DeleteKeys(b, keys, then_).1
    ensures TwinDb(DeleteKeys(a, keys, now).0, DeleteKeys(b, keys, then_).0)
  {
    hide TwinDb, AtHome, NoTtls, ViewOf, DbValid;
    TwinValid(a, b);
    if keys != [] {
      var init, k := keys[..|keys| - 1], keys[|keys| - 1];
      TwinDelete(a, b, init, now, then_);
      var x, y := DeleteKeys(a, init, now).0, DeleteKeys(b, init, then_).0;
      TwinDbSteps(x, y, y);
      DeleteSetsNoTtl(x, k, now);
      HomeValid(x, k);
      TwinAtHome(x, y, DeleteOp([k]), DeleteOp([k]), k, now, then_);
    }
  }

  lemma TwinValid(a: Db, b: Db)
    requires TwinDb(a, b)
    ensures DbValid(a) && DbValid(b) && SameShape(a, b) && |a.shards| > 0
  {
  }

  lemma TwinGroup(a: Db, b: Db, values: Pairs, i: nat)
    requires TwinDb(a, b) && i < |a.shards| && S.Valid(a.shards[i])
    requires MSetFits(a.shards[i], Group(a.hash, |a.shards|, values, i))
    ensures ApplyGroup(a, values, i).1 == ApplyGroup(b, values, i).1 == S.Ok
    ensures TwinDb(ApplyGroup(a, values, i).0, ApplyGroup(b, values, i).0)
  {
    hide ShardOk, S.Valid, S.MSet, Group, ViewOf, NoTtls, Twin, MSetFits;
    assert Twin(a.shards[i], b.shards[i]);
    ShardIsOk(a, i);
    ShardIsOk(b, i);
    TwinMSet(a.shards[i], b.shards[i], Group(a.hash, |a.shards|, values, i));
  }

  lemma {:induction false} TwinGroups(a: Db, b: Db, values: Pairs, i: nat)
    requires TwinDb(a, b) && i <= |a.shards| && DbValid(a) && GroupsFit(a, values)
    ensures ApplyGroups(a, values, i).1 == ApplyGroups(b, values, i).1 == S.Ok
    ensures TwinDb(ApplyGroups(a, values, i).0, ApplyGroups(b, values, i).0)
  {
    hide TwinDb, DbValid, ApplyGroup, S.Valid, MSetFits, Group;
    TwinValid(a, b);
    if i > 0 {
      TwinGroups(a, b, values, i - 1);
      assert MSetFits(a.shards[i - 1], Group(a.hash, |a.shards|, values, i - 1));
      TwinGroup(ApplyGroups(a, values, i - 1).0, ApplyGroups(b, values, i - 1).0, values, i - 1);
    }
  }

  lemma TwinMSetDb(a: Db, b: Db, values: Pairs)
    requires TwinDb(a, b) && DbValid(a) && GroupsFit(a, values)
    ensures MSetDb(a, values).1 == MSetDb(b, values).1
    ensures TwinDb(MSetDb(a, values).0, MSetDb(b, values).0)
  {
    hide TwinDb, DbValid, ApplyGroups, GroupsFit;
    TwinValid(a, b);
    TwinGroups(a, b, values, |a.shards|);
  }

  /** An effective operation that fits and sets no TTL does the same to both twins. */
  lemma TwinPerform(a: Db, b: Db, p: Op, q: Op, now: int, then_: int)
    requires TwinDb(a, b) && Again(p, q) && !p.ExistsOp? && DbValid(a) && DbFits(a, p, now)
    requires DbNoTtls(Perform(a, p, now).0)
    ensures Perform(a, p, now).1 == Perform(b, q, then_).1
    ensures TwinDb(Perform(a, p, now).0, Perform(b, q, then_).0)
  {
    hide TwinDb, DbValid, AtHome, DeleteKeys, ExistsKeys, MSetDb, NoTtls, ViewOf, S.Valid, SetFits, GroupsFit;
    TwinValid(a, b);
    match p
    case DeleteOp(keys) => TwinDelete(a, b, keys, now, then_);
    case MSetOp(values) => TwinMSetDb(a, b, values);
    case SetOp(request) => TwinAtHome(a, b, p, q, request.key, now, then_);
    case GetOp(k) => HomeValid(a, k); TwinAtHome(a, b, p, q, k, now, then_);
    case ExpireOp(k, _) => HomeValid(a, k); TwinAtHome(a, b, p, q, k, now, then_);
    case TtlOp(k) => HomeValid(a, k); TwinAtHome(a, b, p, q, k, now, then_);
    case IncrementOp(k, _, _) => TwinAtHome(a, b, p, q, k, now, then_);
    case ActiveExpireOp(_) =>
  }

  // ---------------------------------------------------------------- what leaves the contents alone

  lemma IneffectiveAtHome(db: Db, op: Op, k: string, now: int)
    requires TwinDb(db, db) && OnKey(op, k) && (op.ExistsOp? || Ineffective(op, AtHome(db, k, op, now).1))
    ensures TwinDb(db, AtHome(db, k, op, now).0)
  {
    hide ShardOk, S.Valid, Apply, ViewOf, NoTtls;
    var i := Home(db, k);
    var s := db.shards[i];
    assert Twin(s, s);
    ShardIsOk(db, i);
    ApplyConfig(s, op, now);
    KeyIneffective(s, op, k, now);
  }

  lemma {:induction false} IneffectiveExists(db: Db, keys: seq<string>, now: int)
    requires TwinDb(db, db)
    ensures TwinDb(db, ExistsKeys(db, keys, now).0)
  {
    hide TwinDb, DbValid, AtHome;
    TwinValid(db, db);
    if keys != [] {
      var init, k := keys[..|keys| - 1], keys[|keys| - 1];
      IneffectiveExists(db, init, now);
      var d := ExistsKeys(db, init, now).0;
      TwinDbSteps(db, d, db);
      TwinDbSteps(d, db, d);
      IneffectiveAtHome(d, ExistsOp([k]), k, now);
      TwinDbSteps(db, d, AtHome(d, k, ExistsOp([k]), now).0);
    }
  }

  lemma {:induction false} IneffectiveReads(db: Db, keys: seq<string>, now: int)
    requires TwinDb(db, db)
    ensures TwinDb(db, ReadKeys(db, keys, now).0)
  {
    hide TwinDb, DbValid, AtHome;
    TwinValid(db, db);
    if keys != [] {
      var init, k := keys[..|keys| - 1], keys[|keys| - 1];
      IneffectiveReads(db, init, now);
      var d := ReadKeys(db, init, now).0;
      TwinDbSteps(db, d, db);
      TwinDbSteps(d, db, d);
      IneffectiveAtHome(d, GetOp(k), k, now);
      TwinDbSteps(db, d, AtHome(d, k, GetOp(k), now).0);
    }
  }

  lemma IneffectivePerform(db: Db, op: Op, now: int)
    requires TwinDb(db, db) && Ineffective(op, Perform(db, op, now).1)
    ensures TwinDb(db, Perform(db, op, now).0)
  {
    hide TwinDb, DbValid, AtHome, ExistsKeys, ApplyGroups;
    TwinValid(db, db);
    match op
    case ExistsOp(keys) => IneffectiveExists(db, keys, now);
    case MSetOp(_) =>
    case SetOp(request) => IneffectiveAtHome(db, op, request.key, now);
    case GetOp(k) => IneffectiveAtHome(db, op, k, now);
    case TtlOp(k) => IneffectiveAtHome(db, op, k, now);
    case IncrementOp(k, _, _) => IneffectiveAtHome(db, op, k, now);
    case ActiveExpireOp(_) =>
  }

  /** A command that is not logged leaves every key and value as it was. */
  lemma UnloggedLeavesContents(db: Db, arguments: Command, healthy: bool, now: int, lag: nat)
    requires TwinDb(db, db) && !Execute(db, arguments, healthy, now, lag).logged
    ensures TwinDb(db, Execute(db, arguments, healthy, now, lag).db)
  {
    hide TwinDb, DbValid, Perform, ReadKeys, ParseSet, FromChars, PairUp, Uppercase;
    TwinValid(db, db);
    if arguments != [] {
      var found := Find(Uppercase(arguments[0]));
      if found.Some? && ArityOk(found.value, |arguments|) && (!Mutates(found.value) || healthy) {
        var plan := PlanOf(found.value, arguments, lag);
        match plan
        case Refuse(_) =>
        case Read(keys) => IneffectiveReads(db, keys, now);
        case Ask(op) =>
          AskedReplies(db, op, now);
          IneffectivePerform(db, op, now);
      }
    }
  }

  /** The kind of reply each operation gives. */
  lemma AskedReplies(db: Db, op: Op, now: int)
    requires DbValid(db)
    ensures var r := Perform(db, op, now).1;
            && (op.DeleteOp? ==> r.Count?) && (op.ExpireOp? ==> r.Flag?)
            && (op.SetOp? || op.MSetOp? ==> r.Written?) && (op.IncrementOp? ==> r.Number?)
  {
    hide DbValid, DeleteKeys, ExistsKeys, MSetDb, S.Set, S.Increment, S.Expire, S.Get, S.TtlSeconds;
    if op.SetOp? || op.ExpireOp? || op.IncrementOp? {
      HomeValid(db, if op.SetOp? then op.request.key else op.key);
    }
  }

  /** The database operation a command asks for, if it asks for one. */
  function OpOf(arguments: Command, lag: nat): Option<Op> {
    if arguments == [] then None
    else
      var found := Find(Uppercase(arguments[0]));
      if found.None? || !ArityOk(found.value, |arguments|) then None
      else
        var plan := PlanOf(found.value, arguments, lag);
        if plan.Ask? then Some(plan.op) else None
  }

  /** What the command writes fits without eviction. */
  ghost predicate CommandFits(db: Db, arguments: Command, now: int, lag: nat)
    requires DbValid(db)
  {
    var op := OpOf(arguments, lag);
    op.Some? ==> DbFits(db, op.value, now)
  }

  /** A logged command that fits and sets no TTL does the same to a twin and gives it the same reply. */
  lemma LoggedRepeats(a: Db, b: Db, arguments: Command, now: int, lag: nat, then_: int, delay: nat)
    requires TwinDb(a, b) && Execute(a, arguments, true, now, lag).logged
    requires DbNoTtls(Execute(a, arguments, true, now, lag).db) && CommandFits(a, arguments, now, lag)
    ensures Execute(b, arguments, true, then_, delay).reply == Execute(a, arguments, true, now, lag).reply
    ensures Execute(b, arguments, true, then_, delay).logged
    ensures TwinDb(Execute(a, arguments, true, now, lag).db, Execute(b, arguments, true, then_, delay).db)
  {
    hide TwinDb, DbValid, Perform, ReadKeys, ParseSet, FromChars, PairUp, Uppercase, DbNoTtls, DbFits;
    TwinValid(a, b);
    var v := Find(Uppercase(arguments[0])).value;
    var p, q := PlanOf(v, arguments, lag), PlanOf(v, arguments, delay);
    if p.Ask? { TwinPerform(a, b, p.op, q.op, now, then_); }
  }

  // ---------------------------------------------------------------- whole runs

  /** A sequential run: commands one after another, with sweeps of any shard between them. */
  datatype Happening =
    | Do(arguments: Command, healthy: bool, now: int, lag: nat)
    | Swept(shard: nat, samples: nat, now: int)

  function Happen(db: Db, h: Happening): (r: Db)
    requires DbValid(db)
    ensures DbValid(r) && SameShape(db, r)
  {
    hide DbValid, Execute, SweepShard;
    match h
    case Do(arguments, healthy, now, lag) => Execute(db, arguments, healthy, now, lag).db
    case Swept(i, samples, now) => if i < |db.shards| then SweepShard(db, i, samples, now) else db
  }

  function RunOf(db: Db, hs: seq<Happening>): (r: Db)
    requires DbValid(db)
    ensures DbValid(r) && SameShape(db, r)
  {
    hide DbValid, Happen;
    if hs == [] then db else Happen(RunOf(db, hs[..|hs| - 1]), hs[|hs| - 1])
  }

  predicate Logs(db: Db, h: Happening)
    requires DbValid(db)
  {
    h.Do? && Execute(db, h.arguments, h.healthy, h.now, h.lag).logged
  }

  /** The commands a run hands to the log, in order. */
  function LogOf(db: Db, hs: seq<Happening>): seq<Command>
    requires DbValid(db)
  {
    if hs == [] then []
    else
      var n := |hs| - 1;
      LogOf(db, hs[..n]) + if Logs(RunOf(db, hs[..n]), hs[n]) then [hs[n].arguments] else []
  }

  /** The commands a run executes. */
  function CommandsOf(hs: seq<Happening>): seq<Command> {
    if hs == [] then []
    else
      var n := |hs| - 1;
      CommandsOf(hs[..n]) + if hs[n].Do? then [hs[n].arguments] else []
  }

  /** No key has a TTL at any point of the run. */
  ghost predicate NeverTtls(db: Db, hs: seq<Happening>)
    requires DbValid(db)
  {
    forall i :: 0 <= i <= |hs| ==> DbNoTtls(RunOf(db, hs[..i]))
  }

  /** No logged command of the run meets memory pressure. */
  ghost predicate RunFits(db: Db, hs: seq<Happening>)
    requires DbValid(db)
  {
    forall i :: 0 <= i < |hs| ==> HappeningFits(RunOf(db, hs[..i]), hs[i])
  }

  ghost predicate HappeningFits(db: Db, h: Happening)
    requires DbValid(db)
  {
    Logs(db, h) ==> CommandFits(db, h.arguments, h.now, h.lag)
  }

  /** Recovery runs before the log is opened, so nothing refuses mutations. */
  ghost predicate AllHealthy(hs: seq<Happening>) {
    forall i :: 0 <= i < |hs| && hs[i].Do? ==> hs[i].healthy
  }

  ghost predicate NoErrors(db: Db, hs: seq<Happening>)
    requires DbValid(db)
  {
    forall i :: 0 <= i < |hs| && hs[i].Do? ==> !ReplyAt(db, hs, i).Error?
  }

  function ReplyAt(db: Db, hs: seq<Happening>, i: nat): Value
    requires DbValid(db) && i < |hs| && hs[i].Do?
  {
    Execute(RunOf(db, hs[..i]), hs[i].arguments, hs[i].healthy, hs[i].now, hs[i].lag).reply
  }

  lemma SweptTwin(db: Db, i: nat, samples: nat, now: int)
    requires TwinDb(db, db) && i < |db.shards|
    ensures TwinDb(db, SweepShard(db, i, samples, now))
  {
    hide ShardOk, S.Valid, ViewOf, NoTtls, S.ActiveExpire, Twin;
    ShardIsOk(db, i);
    assert Twin(db.shards[i], db.shards[i]);
    TwinSweep(db.shards[i], samples, now);
  }

  /** Whatever is not logged can be left out. */
  lemma IdleHappening(db: Db, h: Happening)
    requires TwinDb(db, db) && !Logs(db, h)
    ensures TwinDb(db, Happen(db, h))
  {
    hide TwinDb, DbValid, Execute, SweepShard;
    TwinValid(db, db);
    match h
    case Do(arguments, healthy, now, lag) => UnloggedLeavesContents(db, arguments, healthy, now, lag);
    case Swept(i, samples, now) => if i < |db.shards| { SweptTwin(db, i, samples, now); }
  }

  lemma RunSnocs(db: Db, hs: seq<Happening>)
    requires DbValid(db) && hs != []
    ensures var n := |hs| - 1;
            && RunOf(db, hs) == Happen(RunOf(db, hs[..n]), hs[n])
            && (NeverTtls(db, hs) ==> NeverTtls(db, hs[..n]) && DbNoTtls(RunOf(db, hs)))
            && (RunFits(db, hs) ==> RunFits(db, hs[..n]) && HappeningFits(RunOf(db, hs[..n]), hs[n]))
            && (AllHealthy(hs) ==> AllHealthy(hs[..n]))
  {
    hide DbValid, Happen, DbNoTtls, HappeningFits;
    var n := |hs| - 1;
    if RunFits(db, hs) {
      forall i | 0 <= i < n ensures HappeningFits(RunOf(db, hs[..n][..i]), hs[..n][i]) {
        assert hs[..n][..i] == hs[..i];
      }
    }
    if NeverTtls(db, hs) {
      forall i | 0 <= i <= n ensures DbNoTtls(RunOf(db, hs[..n][..i])) { assert hs[..n][..i] == hs[..i]; }
      assert hs[..|hs|] == hs;
    }
  }

  lemma NoErrorsSnoc(db: Db, hs: seq<Happening>)
    requires DbValid(db) && hs != [] && NoErrors(db, hs[..|hs| - 1])
    requires hs[|hs| - 1].Do? ==> !ReplyAt(db, hs, |hs| - 1).Error?
    ensures NoErrors(db, hs)
  {
    hide DbValid, RunOf, Execute;
    var n := |hs| - 1;
    forall i | 0 <= i < |hs| && hs[i].Do? ensures !ReplyAt(db, hs, i).Error? {
      if i < n {
        assert hs[..n][..i] == hs[..i];
        assert !ReplyAt(db, hs[..n], i).Error?;
      }
    }
  }

  /** Recovery: take any sequential run without memory pressure in which no key ever has a TTL, with sweeps
      anywhere, and execute just its logged commands on a database that started out with the same
      contents, at other times and with other sweeps. No command fails, each would be logged again, and
      the contents end the same. */
  lemma {:induction false} LogRebuilds(a: Db, b: Db, hs: seq<Happening>, rs: seq<Happening>)
    requires TwinDb(a, b) && NeverTtls(a, hs) && RunFits(a, hs) && AllHealthy(rs) && CommandsOf(rs) == LogOf(a, hs)
    ensures TwinDb(RunOf(a, hs), RunOf(b, rs)) && NoErrors(b, rs) && LogOf(b, rs) == CommandsOf(rs)
    decreases |hs| + |rs|, 1
  {
    hide TwinDb, DbValid, Logs, DbNoTtls, NeverTtls, RunFits, NoErrors, RunOf;
    TwinValid(a, b);
    if rs != [] && rs[|rs| - 1].Swept? {
      LogRebuildsSwept(a, b, hs, rs);
    } else if hs != [] && !Logs(RunOf(a, hs[..|hs| - 1]), hs[|hs| - 1]) {
      LogRebuildsIdle(a, b, hs, rs);
    } else if hs != [] {
      LogRebuildsLast(a, b, hs, rs);
    } else {
      assert |CommandsOf(rs)| == 0;
      NothingRan(a, b);
    }
  }

  lemma NothingRan(a: Db, b: Db)
    requires TwinDb(a, b)
    ensures DbValid(a) && DbValid(b) && TwinDb(RunOf(a, []), RunOf(b, [])) && NoErrors(b, [])
    ensures LogOf(b, []) == []
  {
    hide Twin;
    TwinValid(a, b);
    NoErrorsNone(b);
  }

  /** The replay ends in a sweep. */
  lemma LogRebuildsSwept(a: Db, b: Db, hs: seq<Happening>, rs: seq<Happening>)
    requires TwinDb(a, b) && NeverTtls(a, hs) && RunFits(a, hs) && AllHealthy(rs) && CommandsOf(rs) == LogOf(a, hs)
    requires rs != [] && rs[|rs| - 1].Swept?
    ensures TwinDb(RunOf(a, hs), RunOf(b, rs)) && NoErrors(b, rs) && LogOf(b, rs) == CommandsOf(rs)
    decreases |hs| + |rs|, 0
  {
    hide TwinDb, DbValid, Execute, Happen, DbNoTtls, NeverTtls, RunFits, NoErrors, RunOf;
    TwinValid(a, b);
    var m := |rs| - 1;
    assert CommandsOf(rs[..m]) == CommandsOf(rs);
    assert LogOf(b, rs) == LogOf(b, rs[..m]) + [];
    RunSnocs(b, rs);
    LogRebuilds(a, b, hs, rs[..m]);
    var x, y := RunOf(a, hs), RunOf(b, rs[..m]);
    TwinDbSteps(x, y, y);
    TwinDbSteps(y, x, y);
    IdleHappening(y, rs[m]);
    TwinDbSteps(x, y, Happen(y, rs[m]));
    NoErrorsSnoc(b, rs);
  }

  /** The run ends in something that is not logged. */
  lemma LogRebuildsIdle(a: Db, b: Db, hs: seq<Happening>, rs: seq<Happening>)
    requires TwinDb(a, b) && NeverTtls(a, hs) && RunFits(a, hs) && AllHealthy(rs) && CommandsOf(rs) == LogOf(a, hs)
    requires hs != [] && !Logs(RunOf(a, hs[..|hs| - 1]), hs[|hs| - 1])
    ensures TwinDb(RunOf(a, hs), RunOf(b, rs)) && NoErrors(b, rs) && LogOf(b, rs) == CommandsOf(rs)
    decreases |hs| + |rs|, 0
  {
    hide TwinDb, DbValid, Logs, Happen, DbNoTtls, NeverTtls, RunFits, NoErrors, RunOf;
    TwinValid(a, b);
    var n := |hs| - 1;
    assert LogOf(a, hs[..n]) == LogOf(a, hs);
    RunSnocs(a, hs);
    LogRebuilds(a, b, hs[..n], rs);
    var x, y := RunOf(a, hs[..n]), RunOf(b, rs);
    TwinDbSteps(x, y, x);
    IdleHappening(x, hs[n]);
    TwinDbSteps(x, Happen(x, hs[n]), x);
    TwinDbSteps(Happen(x, hs[n]), x, y);
  }

  lemma NoErrorsNone(db: Db)
    requires DbValid(db)
    ensures NoErrors(db, [])
  {
  }

  lemma LogRebuildsLast(a: Db, b: Db, hs: seq<Happening>, rs: seq<Happening>)
    requires TwinDb(a, b) && NeverTtls(a, hs) && RunFits(a, hs) && AllHealthy(rs) && CommandsOf(rs) == LogOf(a, hs)
    requires hs != [] && Logs(RunOf(a, hs[..|hs| - 1]), hs[|hs| - 1]) && !(rs != [] && rs[|rs| - 1].Swept?)
    ensures TwinDb(RunOf(a, hs), RunOf(b, rs)) && NoErrors(b, rs) && LogOf(b, rs) == CommandsOf(rs)
    decreases |hs| + |rs|, 0
  {
    hide TwinDb, DbValid, Execute, DbNoTtls, NeverTtls, RunFits, NoErrors, RunOf;
    TwinValid(a, b);
    var n, m := |hs| - 1, |rs| - 1;
    assert |CommandsOf(rs)| == |LogOf(a, hs[..n])| + 1;
    assert rs != [];
    assert CommandsOf(rs[..m]) == CommandsOf(rs)[..|CommandsOf(rs)| - 1] == LogOf(a, hs[..n]);
    assert rs[m].arguments == hs[n].arguments;
    RunSnocs(a, hs);
    RunSnocs(b, rs);
    LogRebuilds(a, b, hs[..n], rs[..m]);
    var x, y := RunOf(a, hs[..n]), RunOf(b, rs[..m]);
    UnhealthyIsUnlogged(x, hs[n]);
    LoggedRepeats(x, y, hs[n].arguments, hs[n].now, hs[n].lag, rs[m].now, rs[m].lag);
    LoggedIsNoError(x, hs[n]);
    NoErrorsSnoc(b, rs);
  }

  lemma UnhealthyIsUnlogged(db: Db, h: Happening)
    requires DbValid(db) && Logs(db, h)
    ensures Execute(db, h.arguments, h.healthy, h.now, h.lag) == Execute(db, h.arguments, true, h.now, h.lag)
  {
    hide DbValid, Carry, PlanOf, Find;
  }

  lemma LoggedIsNoError(db: Db, h: Happening)
    requires DbValid(db) && Logs(db, h)
    ensures !Execute(db, h.arguments, h.healthy, h.now, h.lag).reply.Error?
  {
    hide DbValid, Carry, PlanOf, Find;
  }

  /** The same through the log file: the commands read back from the file written by the run rebuild
      its contents. */
  lemma FileRebuilds(p: Parser, a: Db, b: Db, hs: seq<Happening>, rs: seq<Happening>)
    requires TwinDb(a, b) && NeverTtls(a, hs) && RunFits(a, hs) && AllHealthy(rs) && AllLoggable(p, LogOf(a, hs))
    requires CommandsOf(rs) == ReadFrames(p, EncodeLog(LogOf(a, hs))).commands
    ensures TwinDb(RunOf(a, hs), RunOf(b, rs)) && NoErrors(b, rs) && LogOf(b, rs) == CommandsOf(rs)
  {
    hide TwinDb, DbValid, NeverTtls, RunFits, NoErrors, RunOf, LogOf, ReadFrames;
    TwinValid(a, b);
    var log := LogOf(a, hs);
    ReadLog(p, log, "");
    assert EncodeLog(log) + "" == EncodeLog(log);
    NothingToRead(p);
    assert log + [] == log;
    LogRebuilds(a, b, hs, rs);
  }

  // ---------------------------------------------------------------- no eviction

  lemma EmptyGroupFits(s: S.Store)
    requires S.Valid(s)
    ensures MSetFits(s, [])
  {
    hide S.OrderOk, S.Total, S.StampsOk;
  }

  lemma {:induction false} AcceptedGroupsFit(db: Db, values: Pairs, i: nat, j: nat)
    requires DbValid(db) && db.policy == S.NoEviction && j < i <= |db.shards| && ApplyGroups(db, values, i).1 == S.Ok
    ensures S.Valid(db.shards[j]) && MSetFits(db.shards[j], Group(db.hash, |db.shards|, values, j))
  {
    hide DbValid, S.Valid, S.MSet, MSetFits, Group, ShardOk;
    if j < i - 1 {
      AcceptedGroupsFit(db, values, i - 1, j);
    } else {
      ShardIsOk(db, j);
      ShardPolicy(db, j);
      var g := Group(db.hash, |db.shards|, values, j);
      if g == [] { EmptyGroupFits(db.shards[j]); } else { AcceptedFits(db.shards[j], g); }
    }
  }

  lemma ShardPolicy(db: Db, i: nat)
    requires DbValid(db) && i < |db.shards|
    ensures db.shards[i].policy == db.policy
  {
  }

  lemma SelfTwin(db: Db)
    requires DbValid(db) && DbNoTtls(db)
    ensures TwinDb(db, db)
  {
    hide NoTtls, ViewOf;
    forall i | 0 <= i < |db.shards| ensures Twin(db.shards[i], db.shards[i]) { ShardIsOk(db, i); }
  }

  lemma AcceptedAtHome(db: Db, op: Op, k: string, now: int)
    requires TwinDb(db, db) && db.policy == S.NoEviction && OnKey(op, k) && AtHome(db, k, op, now).1 != RefusedReply(op)
    ensures S.Valid(db.shards[Home(db, k)]) && Fits(db.shards[Home(db, k)], op, now)
  {
    hide ShardOk, S.Valid, Apply, Fits, ViewOf, NoTtls;
    var i := Home(db, k);
    assert Twin(db.shards[i], db.shards[i]);
    ShardPolicy(db, i);
    AcceptedOpFits(db.shards[i], op, k, now);
  }

  /** Without eviction a write that is accepted fits. */
  lemma AcceptedPerformFits(db: Db, op: Op, now: int)
    requires TwinDb(db, db) && db.policy == S.NoEviction && DbValid(db) && !Ineffective(op, Perform(db, op, now).1)
    ensures DbFits(db, op, now)
  {
    hide TwinDb, DbValid, AtHome, DeleteKeys, ExistsKeys, ApplyGroups, S.Valid, Fits;
    TwinValid(db, db);
    match op
    case SetOp(request) => AcceptedAtHome(db, op, request.key, now);
    case IncrementOp(k, _, _) => AcceptedAtHome(db, op, k, now);
    case MSetOp(values) =>
      forall i | 0 <= i < |db.shards|
        ensures S.Valid(db.shards[i]) && MSetFits(db.shards[i], Group(db.hash, |db.shards|, values, i))
      {
        AcceptedGroupsFit(db, values, |db.shards|, i);
      }
    case _ =>
  }

  lemma LoggedFits(db: Db, h: Happening)
    requires TwinDb(db, db) && db.policy == S.NoEviction && DbValid(db)
    ensures HappeningFits(db, h)
  {
    hide TwinDb, DbValid, Perform, ReadKeys, ParseSet, FromChars, PairUp, Uppercase, DbFits;
    if Logs(db, h) {
      var op := OpOf(h.arguments, h.lag);
      if op.Some? {
        AskedReplies(db, op.value, h.now);
        if !Ineffective(op.value, Perform(db, op.value, h.now).1) { AcceptedPerformFits(db, op.value, h.now); }
      }
    }
  }

  /** Under no eviction a run without TTLs never logs a command that did not fit, so recovery needs no
      further assumption. */
  lemma NoEvictionRunFits(a: Db, hs: seq<Happening>)
    requires DbValid(a) && a.policy == S.NoEviction && NeverTtls(a, hs)
    ensures RunFits(a, hs)
  {
    hide DbValid, RunOf, DbNoTtls, HappeningFits, TwinDb;
    forall i | 0 <= i < |hs| ensures HappeningFits(RunOf(a, hs[..i]), hs[i]) {
      SelfTwin(RunOf(a, hs[..i]));
      LoggedFits(RunOf(a, hs[..i]), hs[i]);
    }
  }
}

/** Snapshots: saving the live entries as SET commands and loading them into an empty database of the
    same shape restores exactly the live keys and values, in any entry order. */
module SnapshotLoad {
  import opened Wrappers
  import opened Decimal
  import opened Resp
  import opened Frames
  import opened RespParser
  import opened StoreRuns
  import opened LiveMap
  import opened Sharding
  import opened OneStore
  import opened Executor
  import opened Recovery
  import S = Store

  type Entries = seq<S.SnapshotEntry>

  // ---------------------------------------------------------------- saving

  /** The TTL written for an entry: at least one millisecond. */
  function SavedTtl(e: S.SnapshotEntry): Option<int> {
    if e.ttl.None? then None else Some(if e.ttl.value < 1 then 1 else e.ttl.value)
  }

  function SaveCommand(e: S.SnapshotEntry): Command {
    ["SET", e.key, e.value] + if e.ttl.Some? then ["PX", ToString(SavedTtl(e).value)] else []
  }

  function SaveAll(es: Entries): (r: seq<Command>)
    ensures |r| == |es|
  {
    if es == [] then [] else SaveAll(es[..|es| - 1]) + [SaveCommand(es[|es| - 1])]
  }

  /** The bytes of a snapshot file. */
  method Save(entries: Entries) returns (file: string)
    ensures file == EncodeLog(SaveAll(entries))
  {
    file := "";
    for i := 0 to |entries|
      invariant file == EncodeLog(SaveAll(entries[..i]))
    {
      var command := ["SET", entries[i].key, entries[i].value];
      if entries[i].ttl.Some? {
        command := command + ["PX", ToString(if entries[i].ttl.value < 1 then 1 else entries[i].ttl.value)];
      }
      var bytes := EncodeCommandLine(command);
      assert command == SaveCommand(entries[i]);
      assert entries[..i + 1][..i] == entries[..i];
      EncodeLogSnoc(SaveAll(entries[..i]), command);
      file := file + bytes;
    }
    assert entries[..|entries|] == entries;
  }

  /** Deadlines stay within the 64-bit range of the clock. */
  predicate InRange(e: S.SnapshotEntry) {
    e.ttl.Some? ==> e.ttl.value <= INT64_MAX
  }

  /** A saved command reads back as an unconditional SET of the entry with its saved TTL. */
  lemma SavedIsSet(e: S.SnapshotEntry)
    requires InRange(e)
    ensures ParseSet(SaveCommand(e)) == Parsed(S.SetRequest(e.key, e.value, SavedTtl(e), S.Always))
  {
    var c := SaveCommand(e);
    var r := S.SetRequest(e.key, e.value, SavedTtl(e), S.Always);
    if e.ttl.Some? {
      RoundTrip(SavedTtl(e).value);
      assert Uppercase("PX") == "PX";
      assert c[3..] == ["PX", ToString(SavedTtl(e).value)];
      assert IsTtl(c[3..][0], c[3..][1], r.ttl.value);
    }
    SetAcceptsGrammar(c, r);
  }

  lemma SavedExecutes(db: Db, e: S.SnapshotEntry, now: int, lag: nat)
    requires DbValid(db) && InRange(e)
    ensures var (d, r) := Perform(db, SetOp(S.SetRequest(e.key, e.value, SavedTtl(e), S.Always)), now);
            && Execute(db, SaveCommand(e), true, now, lag).db == d
            && Execute(db, SaveCommand(e), true, now, lag).reply == ReplyTo(SET, r)
  {
    hide DbValid, Perform, ParseSet;
    SavedIsSet(e);
    assert Uppercase("SET") == "SET";
    assert Find("SET") == Some(SET);
  }

  // ---------------------------------------------------------------- loading

  /** The bytes the listed entries take in shard `i`. */
  function ShardBytes(hash: Hash, n: nat, es: Entries, i: nat): nat
    requires n > 0
  {
    if es == [] then 0
    else
      var e := es[|es| - 1];
      ShardBytes(hash, n, es[..|es| - 1], i) + if ShardFor(hash, n, e.key) == i then S.EntryBytes(e.key, e.value) else 0
  }

  ghost predicate WithinBudgets(db: Db, es: Entries)
    requires |db.shards| > 0
  {
    forall i :: 0 <= i < |db.shards| ==>
      ShardBytes(db.hash, |db.shards|, es, i) <= Budget(db.maxmemory, |db.shards|, i)
  }

  /** `load` executes the saved commands of `es` in order, with sweeps anywhere between them. */
  ghost predicate Loads(load: seq<Happening>, es: Entries) {
    CommandsOf(load) == SaveAll(es) && AllHealthy(load)
  }

  /** A load ends in a sweep, or in the command of its last entry. */
  lemma LoadsInit(load: seq<Happening>, es: Entries)
    requires Loads(load, es) && load != []
    ensures var init, h := load[..|load| - 1], load[|load| - 1];
            if h.Do? then es != [] && h.healthy && h.arguments == SaveCommand(es[|es| - 1]) &&
                Loads(init, es[..|es| - 1])
            else Loads(init, es)
  {
    hide SaveCommand;
    var init, h := load[..|load| - 1], load[|load| - 1];
    if h.Do? {
      assert |CommandsOf(load)| == |CommandsOf(init)| + 1;
      assert CommandsOf(load)[..|CommandsOf(init)|] == CommandsOf(init);
      assert SaveAll(es)[..|es| - 1] == SaveAll(es[..|es| - 1]);
    } else {
      assert CommandsOf(init) + [] == CommandsOf(init);
    }
  }

  /** What loading should leave: each entry's value, its saved TTL running from its own load time. */
  function LoadedView(load: seq<Happening>, es: Entries): View {
    if load == [] then map[]
    else
      var init, h := load[..|load| - 1], load[|load| - 1];
      if h.Do? && es != [] then
        var e := es[|es| - 1];
        LoadedView(init, es[..|es| - 1])[e.key := Cell(e.value, S.Deadline(h.now, SavedTtl(e)))]
      else LoadedView(init, es)
  }

  ghost predicate Timely(load: seq<Happening>) {
    forall i, j :: 0 <= i < j < |load| ==> load[i].now <= load[j].now
  }

  ghost predicate AllInRange(es: Entries) {
    forall i :: 0 <= i < |es| ==> InRange(es[i])
  }

  // ---------------------------------------------------------------- memory while loading

  /** Each shard uses at most the bytes of the entries loaded into it. */
  ghost predicate UsesAtMost(db: Db, es: Entries)
    requires |db.shards| > 0
  {
    forall i :: 0 <= i < |db.shards| ==> db.shards[i].usage <= ShardBytes(db.hash, |db.shards|, es, i)
  }

  lemma SetUsage(s: S.Store, request: S.SetRequest, now: int)
    requires S.Valid(s) && SetFits(s, request, now)
    ensures S.Set(s, request, now).0.usage <= s.usage + S.EntryBytes(request.key, request.value)
  {
    hide S.OrderOk, S.Total, S.StampsOk, S.Evict;
    S.AtLeastOwn(S.RemoveIfExpired(s, request.key, now), request.key);
  }

  lemma SweepUsage(s: S.Store, samples: nat, now: int)
    requires S.Valid(s)
    ensures S.ActiveExpire(s, samples, now).0.usage <= s.usage
  {
    hide S.OrderOk, S.Total, S.StampsOk, S.Sweep;
    SweepKeysUsage(s, S.Window(s, samples), now);
  }

  lemma {:induction false} SweepKeysUsage(s: S.Store, keys: seq<string>, now: int)
    requires S.Valid(s)
    ensures S.Sweep(s, keys, now).0.usage <= s.usage
  {
    hide S.OrderOk, S.Total, S.StampsOk;
    if keys != [] { SweepKeysUsage(s, keys[..|keys| - 1], now); }
  }

  lemma EntryFits(db: Db, es: Entries, e: S.SnapshotEntry, now: int)
    requires DbValid(db) && UsesAtMost(db, es) && WithinBudgets(db, es + [e])
    ensures S.Valid(db.shards[Home(db, e.key)])
    ensures SetFits(db.shards[Home(db, e.key)], S.SetRequest(e.key, e.value, SavedTtl(e), S.Always), now)
  {
    hide S.OrderOk, S.Total, S.StampsOk, Budget;
    var i := Home(db, e.key);
    assert (es + [e])[..|es|] == es;
    ShardIsOk(db, i);
    var t := S.RemoveIfExpired(db.shards[i], e.key, now);
    S.AtLeastOwn(t, e.key);
    assert t.usage <= db.shards[i].usage;
  }

  lemma EntryUsage(db: Db, es: Entries, e: S.SnapshotEntry, now: int)
    requires DbValid(db) && UsesAtMost(db, es) && WithinBudgets(db, es + [e])
    ensures var d := Perform(db, SetOp(S.SetRequest(e.key, e.value, SavedTtl(e), S.Always)), now).0;
            UsesAtMost(d, es + [e])
  {
    hide S.Valid, S.Set, ShardOk, SetFits, Budget;
    var request := S.SetRequest(e.key, e.value, SavedTtl(e), S.Always);
    EntryFits(db, es, e, now);
    SetUsage(db.shards[Home(db, e.key)], request, now);
    assert (es + [e])[..|es|] == es;
  }

  lemma SweptUsage(db: Db, es: Entries, h: Happening)
    requires DbValid(db) && UsesAtMost(db, es) && h.Swept?
    ensures UsesAtMost(Happen(db, h), es)
  {
    hide S.Valid, ShardOk, S.ActiveExpire, ShardBytes;
    if h.shard < |db.shards| { ShardIsOk(db, h.shard); SweepUsage(db.shards[h.shard], h.samples, h.now); }
  }

  // ---------------------------------------------------------------- the load

  lemma EntryStep(db: Db, es: Entries, m: View, e: S.SnapshotEntry, now: int, lag: nat)
    requires DbValid(db) && UsesAtMost(db, es) && InRange(e) && WithinBudgets(db, es + [e]) && Mirrors(db, m, now)
    ensures var r := Execute(db, SaveCommand(e), true, now, lag);
            && r.reply == Simple("OK") && UsesAtMost(r.db, es + [e])
            && Mirrors(r.db, Prune(m, now)[e.key := Cell(e.value, S.Deadline(now, SavedTtl(e)))], now)
  {
    hide S.Valid, ShardOk, Execute, Perform, UsesAtMost, WithinBudgets, Mirrors, DbValid, Prune, SetFits, Home;
    var request := S.SetRequest(e.key, e.value, SavedTtl(e), S.Always);
    EntryFits(db, es, e, now);
    PerformRefines(db, m, SetOp(request), now);
    SavedExecutes(db, e, now, lag);
    EntryUsage(db, es, e, now);
  }

  /** A view that only differs in cells dead at `now` mirrors as well. */
  lemma MirrorsUnpruned(db: Db, m: View, k: string, c: Cell, now: int)
    requires |db.shards| > 0 && Mirrors(db, Prune(m, now)[k := c], now)
    ensures Mirrors(db, m[k := c], now)
  {
    hide Live;
    assert Prune(Prune(m, now)[k := c], now) == Prune(m[k := c], now);
  }

  /** Every command of the load is answered OK. */
  ghost predicate AllOk(db: Db, load: seq<Happening>)
    requires DbValid(db)
  {
    forall j :: 0 <= j < |load| && load[j].Do? ==> ReplyAt(db, load, j) == Simple("OK")
  }

  lemma AllOkSnoc(db: Db, load: seq<Happening>)
    requires DbValid(db) && load != [] && AllOk(db, load[..|load| - 1])
    requires load[|load| - 1].Do? ==> ReplyAt(db, load, |load| - 1) == Simple("OK")
    ensures AllOk(db, load)
  {
    hide DbValid, RunOf, Execute;
    var n := |load| - 1;
    forall j | 0 <= j < |load| && load[j].Do? ensures ReplyAt(db, load, j) == Simple("OK") {
      if j < n {
        assert load[..n][..j] == load[..j];
        assert ReplyAt(db, load[..n], j) == Simple("OK");
      }
    }
  }

  /** Loading entries, in any order, at any non-decreasing times, with sweeps between, into an empty
      database they fit: every command is answered OK, nothing is evicted, and clients find exactly the
      loaded entries, each with its saved TTL counted from its own load time. */
  lemma {:induction false} LoadRestores(db: Db, load: seq<Happening>, es: Entries, start: int, t: int)
    requires DbValid(db) && (forall i :: 0 <= i < |db.shards| ==> db.shards[i].entries == map[])
    requires Loads(load, es) && Timely(load) && AllInRange(es) && WithinBudgets(db, es)
    requires start <= t && forall i :: 0 <= i < |load| ==> start <= load[i].now <= t
    ensures |RunOf(db, load).shards| > 0 && Mirrors(RunOf(db, load), LoadedView(load, es), t)
    ensures UsesAtMost(RunOf(db, load), es) && AllOk(db, load)
    decreases |load|
  {
    hide DbValid, Happen, Loads, Mirrors, UsesAtMost, WithinBudgets, AllOk, SaveCommand, RunOf, LoadedView, InRange;
    HasShards(db);
    HasShards(RunOf(db, load));
    if load == [] {
      LoadedNothing(db, es, t);
    } else {
      LoadsInit(load, es);
      var n := |load| - 1;
      var init, h := load[..n], load[n];
      var d, rest := RunOf(db, init), if h.Do? then es[..|es| - 1] else es;
      if h.Do? {
        assert es == rest + [es[|es| - 1]];
        FewerBytes(db, rest, [es[|es| - 1]]);
      }
      LoadRestores(db, init, rest, start, h.now);
      SameBudgets(db, d, es);
      StepLoads(d, es, LoadedView(init, rest), h);
      RunSnocs(db, load);
      LoadedLast(load, es);
      MirrorsLater(RunOf(db, load), LoadedView(load, es), h.now, t);
      AllOkSnoc(db, load);
    }
  }

  lemma LoadedLast(load: seq<Happening>, es: Entries)
    requires load != [] && (load[|load| - 1].Do? ==> es != [])
    ensures var init, h := load[..|load| - 1], load[|load| - 1];
            LoadedView(load, es) ==
            if h.Do? then
              var e := es[|es| - 1];
              LoadedView(init, es[..|es| - 1])[e.key := Cell(e.value, S.Deadline(h.now, SavedTtl(e)))]
            else LoadedView(init, es)
  {
  }

  lemma LoadedNothing(db: Db, es: Entries, t: int)
    requires DbValid(db) && (forall i :: 0 <= i < |db.shards| ==> db.shards[i].entries == map[]) && Loads([], es)
    ensures Mirrors(RunOf(db, []), LoadedView([], es), t) && UsesAtMost(RunOf(db, []), es) && AllOk(db, [])
  {
    hide DbValid, Mirrors, UsesAtMost;
    assert |SaveAll(es)| == 0;
    EmptyStart(db, t);
  }

  lemma SameBudgets(a: Db, b: Db, es: Entries)
    requires |a.shards| > 0 && SameShape(a, b) && WithinBudgets(a, es)
    ensures WithinBudgets(b, es)
  {
  }

  lemma EmptyStart(db: Db, t: int)
    requires DbValid(db) && forall i :: 0 <= i < |db.shards| ==> db.shards[i].entries == map[]
    ensures Mirrors(db, map[], t) && UsesAtMost(db, [])
  {
    forall i | 0 <= i < |db.shards| ensures db.shards[i].usage == 0 {
      ShardIsOk(db, i);
      S.OrderFacts(db.shards[i].order, db.shards[i].entries);
    }
  }

  lemma FewerBytes(db: Db, es: Entries, more: Entries)
    requires |db.shards| > 0 && |more| <= 1 && WithinBudgets(db, es + more)
    ensures WithinBudgets(db, es)
  {
    hide Budget;
    forall i | 0 <= i < |db.shards| ensures ShardBytes(db.hash, |db.shards|, es, i) <= Budget(db.maxmemory,
        |db.shards|, i) {
      assert ShardBytes(db.hash, |db.shards|, es + more, i) <= Budget(db.maxmemory, |db.shards|, i);
      if more == [] { assert es + more == es; } else { assert (es + more)[..|es|] == es; }
    }
  }

  /** One step of a load: the last entry of `es` is loaded, or a shard is swept. */
  lemma StepLoads(db: Db, es: Entries, m: View, h: Happening)
    requires DbValid(db) && Mirrors(db, m, h.now) && WithinBudgets(db, es) && AllInRange(es)
    requires h.Do? ==>
               es != [] && h.healthy && h.arguments == SaveCommand(es[|es| - 1]) && UsesAtMost(db, es[..|es| - 1])
    requires h.Swept? ==> UsesAtMost(db, es)
    ensures UsesAtMost(Happen(db, h), es)
    ensures h.Swept? ==> Mirrors(Happen(db, h), m, h.now)
    ensures h.Do? ==>
              var e := es[|es| - 1];
              && Mirrors(Happen(db, h), m[e.key := Cell(e.value, S.Deadline(h.now, SavedTtl(e)))], h.now)
              && Execute(db, h.arguments, h.healthy, h.now, h.lag).reply == Simple("OK")
  {
    hide DbValid, Mirrors, Execute, UsesAtMost, WithinBudgets, Prune, SweepShard, SaveCommand;
    HasShards(db);
    HasShards(Happen(db, h));
    if h.Swept? {
      SweptUsage(db, es, h);
      if h.shard < |db.shards| { SweepShardMirrors(db, m, h.shard, h.samples, h.now); }
    } else {
      var e, rest := es[|es| - 1], es[..|es| - 1];
      assert es == rest + [e];
      EntryStep(db, rest, m, e, h.now, h.lag);
      MirrorsUnpruned(Happen(db, h), m, e.key, Cell(e.value, S.Deadline(h.now, SavedTtl(e))), h.now);
    }
  }
}

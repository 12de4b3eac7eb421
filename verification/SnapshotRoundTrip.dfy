/** The snapshot of a database lists exactly what is live, fits an empty database of the same shape, and
    so survives saving and loading. */
module SnapshotRoundTrip {
  import opened Wrappers
  import opened Resp
  import opened Frames
  import opened Eviction
  import opened LiveMap
  import opened Sweeping
  import opened Sharding
  import opened OneStore
  import opened Executor
  import opened Recovery
  import opened SnapshotLoad
  import S = Store

  // ---------------------------------------------------------------- one shard

  /** The remaining whole milliseconds of a cell's TTL, none below zero. */
  function Remaining(c: Cell, now: int): Option<int> {
    if c.expiresAt.None? then None
    else Some(if c.expiresAt.value <= now then 0 else (c.expiresAt.value - now) / S.NANOS_PER_MILLI)
  }

  /** The entry describes key `e.key` of the map `m`. */
  ghost predicate Describes(e: S.SnapshotEntry, m: View, now: int) {
    e.key in m && e.value == m[e.key].value && e.ttl == Remaining(m[e.key], now)
  }

  ghost predicate Distinct(es: Entries) {
    forall i, j :: 0 <= i < j < |es| ==> es[i].key != es[j].key
  }

  ghost predicate Names(es: Entries, k: string) {
    exists j :: 0 <= j < |es| && es[j].key == k
  }

  /** After the full sweep of a snapshot the stored keys are the live ones. */
  lemma SweptIsLive(s: S.Store, now: int, k: string)
    requires S.Valid(s)
    ensures var t := S.ActiveExpire(s, |s.order|, now).0;
            && (k in t.entries <==> k in Live(s, now))
            && (k in t.entries ==> CellOf(t.entries[k]) == Live(s, now)[k])
  {
    hide S.Valid, S.ActiveExpire;
    var t := S.ActiveExpire(s, |s.order|, now).0;
    ActiveExpireLive(s, |s.order|, now);
    FullSweep(s, |s.order|, now, k);
    assert k in Live(t, now) <==> k in t.entries;
  }

  lemma ShardSnapshot(s: S.Store, now: int, later: int)
    requires S.Valid(s)
    ensures var es := S.Snapshot(s, now, later).1;
            && Distinct(es)
            && (forall j :: 0 <= j < |es| ==> Describes(es[j], Live(s, now), later))
            && (forall k :: k in Live(s, now) ==> Names(es, k))
  {
    hide S.OrderOk, S.Total, S.StampsOk, S.ActiveExpire, Live;
    var (t, es) := S.Snapshot(s, now, later);
    S.OrderFacts(t.order, t.entries);
    forall j | 0 <= j < |es| ensures Describes(es[j], Live(s, now), later) {
      assert t.order[j] in t.order;
      SweptIsLive(s, now, t.order[j]);
    }
    forall k | k in Live(s, now) ensures Names(es, k) {
      SweptIsLive(s, now, k);
      assert k in t.order;
      var j :| 0 <= j < |t.order| && t.order[j] == k;
      assert es[j].key == k;
    }
  }

  lemma ShardBytesAppend(hash: Hash, n: nat, a: Entries, b: Entries, i: nat)
    requires n > 0
    ensures ShardBytes(hash, n, a + b, i) == ShardBytes(hash, n, a, i) + ShardBytes(hash, n, b, i)
    decreases |b|
  {
    if b == [] {
      assert a + b == a;
    } else {
      assert (a + b)[..|a + b| - 1] == a + b[..|b| - 1];
      ShardBytesAppend(hash, n, a, b[..|b| - 1], i);
    }
  }

  /** Entries listed from a shard take as many bytes as the shard uses, all in that shard. */
  lemma {:induction false} ListBytes(
      hash: Hash, n: nat, home: nat, i: nat, order: seq<string>, entries: map<string, S.Entry>, es: Entries)
    requires n > 0 && |es| == |order|
    requires forall j :: 0 <= j < |order| ==>
               order[j] in entries && es[j].key == order[j] && es[j].value == entries[order[j]].value &&
                   ShardFor(hash, n, order[j]) == home
    ensures ShardBytes(hash, n, es, i) == if i == home then S.Total(order, entries) else 0
  {
    if order != [] {
      var m := |order| - 1;
      ListBytes(hash, n, home, i, order[..m], entries, es[..m]);
      TotalSnoc(order[..m], order[m], entries);
      assert order == order[..m] + [order[m]];
    }
  }

  lemma SnapshotBytes(
      hash: Hash, maxmemory: nat, policy: S.Policy, n: nat, home: nat, i: nat, s: S.Store, now: int, later: int)
    requires n > 0 && ShardOk(hash, maxmemory, policy, n, home, s)
    ensures ShardBytes(hash, n, S.Snapshot(s, now, later).1, i) <= if i == home then Budget(maxmemory, n, home) else 0
  {
    hide S.OrderOk, S.Total, S.StampsOk, S.ActiveExpire, ShardBytes, Budget;
    var (t, es) := S.Snapshot(s, now, later);
    SweepShardOk(hash, maxmemory, policy, n, home, s, |s.order|, now);
    S.OrderFacts(t.order, t.entries);
    forall j | 0 <= j < |t.order| ensures t.order[j] in t.entries && ShardFor(hash, n, t.order[j]) == home {
      assert t.order[j] in t.order;
    }
    ListBytes(hash, n, home, i, t.order, t.entries, es);
  }

  // ---------------------------------------------------------------- the whole database

  /** The two clock readings of each shard's snapshot task. */
  datatype Reading = Reading(now: int, later: int)

  /** The entries of the first `i` shards. */
  function SnapshotDb(db: Db, clock: seq<Reading>, i: nat): Entries
    requires DbValid(db) && |clock| == |db.shards| && i <= |db.shards|
  {
    if i == 0 then []
    else
      ShardIsOk(db, i - 1);
      SnapshotDb(db, clock, i - 1) + S.Snapshot(db.shards[i - 1], clock[i - 1].now, clock[i - 1].later).1
  }

  /** What clients saw when key `k`'s shard took its snapshot. */
  function SeenAt(db: Db, clock: seq<Reading>, k: string): View
    requires |db.shards| > 0 && |clock| == |db.shards|
  {
    Live(db.shards[Home(db, k)], clock[Home(db, k)].now)
  }

  ghost predicate Pictures(db: Db, clock: seq<Reading>, es: Entries)
    requires |db.shards| > 0 && |clock| == |db.shards|
  {
    forall j :: 0 <= j < |es| ==> Describes(es[j], SeenAt(db, clock, es[j].key), clock[Home(db, es[j].key)].later)
  }

  lemma HomeOfLive(db: Db, i: nat, k: string, now: int)
    requires DbValid(db) && i < |db.shards| && k in Live(db.shards[i], now)
    ensures Home(db, k) == i
  {
    hide S.Valid;
    ShardIsOk(db, i);
  }

  /** The entries are those of the first `i` shards: each described truly, each live key once. */
  ghost predicate Covering(db: Db, clock: seq<Reading>, es: Entries, i: nat)
    requires |db.shards| > 0 && |clock| == |db.shards|
  {
    && Distinct(es) && Pictures(db, clock, es)
    && (forall j :: 0 <= j < |es| ==> Home(db, es[j].key) < i)
    && (forall k :: k in SeenAt(db, clock, k) && Home(db, k) < i ==> Names(es, k))
  }

  lemma NamesAppend(a: Entries, b: Entries, k: string)
    requires Names(a, k) || Names(b, k)
    ensures Names(a + b, k)
  {
    if Names(a, k) {
      var j :| 0 <= j < |a| && a[j].key == k;
      assert (a + b)[j].key == k;
    } else {
      var j :| 0 <= j < |b| && b[j].key == k;
      assert (a + b)[|a| + j].key == k;
    }
  }

  lemma CoveringAppend(db: Db, clock: seq<Reading>, front: Entries, es: Entries, n: nat)
    requires |db.shards| > 0 && |clock| == |db.shards| && n < |db.shards| && Covering(db, clock, front, n) &&
             Distinct(es)
    requires forall j :: 0 <= j < |es| ==>
               Home(db, es[j].key) == n && Describes(es[j], SeenAt(db, clock, es[j].key), clock[n].later)
    requires forall k :: k in SeenAt(db, clock, k) && Home(db, k) == n ==> Names(es, k)
    ensures Covering(db, clock, front + es, n + 1)
  {
    hide SeenAt, Describes, Home, Names;
    var all := front + es;
    forall j | 0 <= j < |all|
      ensures Home(db, all[j].key) < n + 1 && Describes(all[j], SeenAt(db, clock, all[j].key),
              clock[Home(db, all[j].key)].later)
    {
      if j >= |front| { assert all[j] == es[j - |front|]; }
    }
    forall k | k in SeenAt(db, clock, k) && Home(db, k) < n + 1 ensures Names(all, k) {
      assert Names(front, k) || Names(es, k);
      NamesAppend(front, es, k);
    }
  }

  lemma {:induction false} SnapshotDescribes(db: Db, clock: seq<Reading>, i: nat)
    requires DbValid(db) && |clock| == |db.shards| && i <= |db.shards|
    ensures |db.shards| > 0 && Covering(db, clock, SnapshotDb(db, clock, i), i)
  {
    hide DbValid, S.Snapshot, Live, Describes, Home, Distinct, Names, Covering;
    HasShards(db);
    if i == 0 {
      CoveringNothing(db, clock);
    } else {
      var n := i - 1;
      SnapshotDescribes(db, clock, n);
      ShardIsOk(db, n);
      ShardSnapshot(db.shards[n], clock[n].now, clock[n].later);
      var es := S.Snapshot(db.shards[n], clock[n].now, clock[n].later).1;
      forall j | 0 <= j < |es| ensures Home(db, es[j].key) == n {
        DescribesKey(es[j], Live(db.shards[n], clock[n].now), clock[n].later);
        HomeOfLive(db, n, es[j].key, clock[n].now);
      }
      CoveringAppend(db, clock, SnapshotDb(db, clock, n), es, n);
    }
  }

  lemma CoveringNothing(db: Db, clock: seq<Reading>)
    requires |db.shards| > 0 && |clock| == |db.shards|
    ensures Covering(db, clock, [], 0)
  {
  }

  lemma DescribesKey(e: S.SnapshotEntry, m: View, now: int)
    requires Describes(e, m, now)
    ensures e.key in m
  {
  }

  /** A snapshot fits the budgets of a database of the same shape. */
  lemma {:induction false} SnapshotFits(db: Db, clock: seq<Reading>, i: nat, shard: nat)
    requires DbValid(db) && |clock| == |db.shards| && i <= |db.shards| && shard < |db.shards|
    ensures ShardBytes(db.hash, |db.shards|, SnapshotDb(db, clock, i), shard) <=
            if shard < i then Budget(db.maxmemory, |db.shards|, shard) else 0
  {
    hide DbValid, S.Snapshot, ShardBytes, Budget, ShardOk;
    if i == 0 {
      NoBytes(db.hash, |db.shards|, shard);
    } else {
      var n := i - 1;
      SnapshotFits(db, clock, n, shard);
      ShardIsOk(db, n);
      var es := S.Snapshot(db.shards[n], clock[n].now, clock[n].later).1;
      SnapshotBytes(db.hash, db.maxmemory, db.policy, |db.shards|, n, shard, db.shards[n], clock[n].now,
          clock[n].later);
      ShardBytesAppend(db.hash, |db.shards|, SnapshotDb(db, clock, n), es, shard);
    }
  }

  lemma NoBytes(hash: Hash, n: nat, i: nat)
    requires n > 0
    ensures ShardBytes(hash, n, [], i) == 0
  {
  }

  // ---------------------------------------------------------------- any order

  function Without(es: Entries, j: nat): Entries
    requires j < |es|
  {
    es[..j] + es[j + 1..]
  }

  lemma BytesWithout(hash: Hash, n: nat, es: Entries, j: nat, i: nat)
    requires n > 0 && j < |es|
    ensures ShardBytes(hash, n, es, i) == ShardBytes(hash, n, Without(es, j), i) + ShardBytes(hash, n, [es[j]], i)
    ensures multiset(es) == multiset(Without(es, j)) + multiset{es[j]}
  {
    hide ShardBytes;
    assert es == es[..j] + ([es[j]] + es[j + 1..]);
    ShardBytesAppend(hash, n, es[..j], [es[j]] + es[j + 1..], i);
    ShardBytesAppend(hash, n, [es[j]], es[j + 1..], i);
    ShardBytesAppend(hash, n, es[..j], es[j + 1..], i);
  }

  /** The bytes per shard do not depend on the order of the entries. */
  lemma {:induction false} BytesPermutation(hash: Hash, n: nat, a: Entries, b: Entries, i: nat)
    requires n > 0 && multiset(a) == multiset(b)
    ensures ShardBytes(hash, n, a, i) == ShardBytes(hash, n, b, i)
    decreases |a|
  {
    hide ShardBytes;
    if a == [] {
      assert |multiset(b)| == 0;
    } else {
      assert a[0] in multiset(b);
      var j :| 0 <= j < |b| && b[j] == a[0];
      BytesWithout(hash, n, a, 0, i);
      BytesWithout(hash, n, b, j, i);
      assert multiset(Without(a, 0)) == multiset(a) - multiset{a[0]};
      assert multiset(Without(b, j)) == multiset(b) - multiset{a[0]};
      BytesPermutation(hash, n, Without(a, 0), Without(b, j), i);
    }
  }

  /** A shuffled snapshot still pictures the database, names each live key, and names it once. */
  lemma Shuffled(db: Db, clock: seq<Reading>, es: Entries, shuffled: Entries)
    requires |db.shards| > 0 && |clock| == |db.shards| && multiset(es) == multiset(shuffled)
    requires Distinct(es) && Pictures(db, clock, es)
    ensures Pictures(db, clock, shuffled) && Distinct(shuffled)
    ensures forall k :: Names(es, k) <==> Names(shuffled, k)
  {
    hide Describes, SeenAt, Home;
    forall j | 0 <= j < |shuffled|
      ensures Describes(shuffled[j], SeenAt(db, clock, shuffled[j].key), clock[Home(db, shuffled[j].key)].later)
    {
      assert shuffled[j] in multiset(es);
    }
    forall k ensures Names(es, k) <==> Names(shuffled, k) {
      if Names(es, k) {
        var j :| 0 <= j < |es| && es[j].key == k;
        assert es[j] in multiset(shuffled);
        var p :| 0 <= p < |shuffled| && shuffled[p] == es[j];
      }
      if Names(shuffled, k) {
        var j :| 0 <= j < |shuffled| && shuffled[j].key == k;
        assert shuffled[j] in multiset(es);
        var p :| 0 <= p < |es| && es[p] == shuffled[j];
      }
    }
    ShuffledDistinct(es, shuffled);
  }

  lemma ShuffledDistinct(es: Entries, shuffled: Entries)
    requires multiset(es) == multiset(shuffled) && Distinct(es)
    ensures Distinct(shuffled)
  {
    forall i, j | 0 <= i < j < |shuffled| ensures shuffled[i].key != shuffled[j].key {
      var x, y := shuffled[i], shuffled[j];
      assert x in multiset(es) && y in multiset(es);
      if x == y {
        assert shuffled == shuffled[..j] + [y] + shuffled[j + 1..];
        assert shuffled[..j][i] in multiset(shuffled[..j]);
        assert multiset(shuffled)[y] >= 2;
        Once(es, y);
      } else {
        var p :| 0 <= p < |es| && es[p] == x;
        var q :| 0 <= q < |es| && es[q] == y;
      }
    }
  }

  lemma Once(es: Entries, e: S.SnapshotEntry)
    requires Distinct(es) && e in es
    ensures multiset(es)[e] == 1
  {
    var p :| 0 <= p < |es| && es[p] == e;
    assert es == es[..p] + [e] + es[p + 1..];
    assert e !in es[..p] && e !in es[p + 1..];
  }

  // ---------------------------------------------------------------- what the loaded view means

  lemma NamesSnoc(es: Entries, e: S.SnapshotEntry, k: string)
    ensures Names(es + [e], k) <==> Names(es, k) || e.key == k
  {
    if Names(es, k) { NamesAppend(es, [e], k); }
    assert (es + [e])[|es|] == e;
  }

  lemma {:induction false} LoadedKeys(load: seq<Happening>, es: Entries, k: string)
    requires Loads(load, es)
    ensures k in LoadedView(load, es) <==> Names(es, k)
  {
    hide Loads, SaveCommand;
    if load == [] {
      NothingLoaded(es);
    } else {
      LoadsInit(load, es);
      var init, h := load[..|load| - 1], load[|load| - 1];
      if h.Do? {
        LoadedKeys(init, es[..|es| - 1], k);
        assert es == es[..|es| - 1] + [es[|es| - 1]];
        NamesSnoc(es[..|es| - 1], es[|es| - 1], k);
      } else {
        LoadedKeys(init, es, k);
      }
    }
  }

  lemma NothingLoaded(es: Entries)
    requires Loads([], es)
    ensures es == []
  {
    assert |SaveAll(es)| == 0;
  }

  /** Step `j` of the load loads entry `n`. */
  ghost predicate LoadsAt(load: seq<Happening>, j: nat, n: nat) {
    j < |load| && load[j].Do? && |CommandsOf(load[..j])| == n
  }

  /** Each loaded key holds its entry's value until its saved TTL has run from its own load time. */
  lemma {:induction false} LoadedCells(load: seq<Happening>, es: Entries, j: nat, n: nat)
    requires Loads(load, es) && LoadsAt(load, j, n) && Distinct(es)
    ensures n < |es| && es[n].key in LoadedView(load, es)
    ensures LoadedView(load, es)[es[n].key] == Cell(es[n].value, S.Deadline(load[j].now, SavedTtl(es[n])))
  {
    LoadsInit(load, es);
    LoadsCount(load, es);
    hide Loads, SaveCommand;
    var m := |load| - 1;
    var init, h := load[..m], load[m];
    if j < m {
      assert load[..j] == init[..j] && load[j] == init[j];
      LoadedCells(init, if h.Do? then es[..|es| - 1] else es, j, n);
    }
  }

  lemma LoadsCount(load: seq<Happening>, es: Entries)
    requires Loads(load, es) && load != []
    ensures |CommandsOf(load[..|load| - 1])| == if load[|load| - 1].Do? then |es| - 1 else |es|
  {
    hide SaveCommand;
  }

  // ---------------------------------------------------------------- the round trip

  /** An empty database of the same shape. */
  ghost predicate BlankLike(db: Db, blank: Db) {
    DbValid(blank) && SameShape(db, blank) && forall i :: 0 <= i < |blank.shards| ==> blank.shards[i].entries == map[]
  }

  /** Loading a snapshot, in any entry order, with sweeps between the commands, into an empty database of
      the same shape: every command is answered OK, clients find exactly the loaded view, and that view
      has exactly the keys live when the snapshot was taken. */
  lemma SnapshotRestores(db: Db, clock: seq<Reading>, blank: Db, es: Entries, load: seq<Happening>, start: int, t: int)
    requires DbValid(db) && |clock| == |db.shards| && BlankLike(db, blank)
    requires multiset(es) == multiset(SnapshotDb(db, clock, |db.shards|)) && Loads(load, es)
    requires Timely(load) && AllInRange(es) && start <= t && forall i :: 0 <= i < |load| ==> start <= load[i].now <= t
    ensures AllOk(blank, load)
    ensures |RunOf(blank, load).shards| > 0 && Mirrors(RunOf(blank, load), LoadedView(load, es), t)
    ensures |db.shards| > 0 && forall k :: k in LoadedView(load, es) <==> k in SeenAt(db, clock, k)
  {
    hide DbValid, SnapshotDb, LoadedView, ShardBytes, Budget, SeenAt, Describes, Mirrors, Execute, Home, Names, Loads,
        AllOk, RunOf;
    HasShards(db);
    var n := |db.shards|;
    var all := SnapshotDb(db, clock, n);
    SnapshotDescribes(db, clock, n);
    Shuffled(db, clock, all, es);
    forall i | 0 <= i < n ensures ShardBytes(blank.hash, n, es, i) <= Budget(blank.maxmemory, n, i) {
      SnapshotFits(db, clock, n, i);
      BytesPermutation(db.hash, n, es, all, i);
    }
    LoadRestores(blank, load, es, start, t);
    forall k ensures k in LoadedView(load, es) <==> k in SeenAt(db, clock, k) {
      LoadedKeys(load, es, k);
      if Names(all, k) { NamedIsSeen(db, clock, all, k); }
      HomeInside(db, k);
    }
  }

  lemma HomeInside(db: Db, k: string)
    requires |db.shards| > 0
    ensures Home(db, k) < |db.shards|
  {
  }

  lemma NamedIsSeen(db: Db, clock: seq<Reading>, es: Entries, k: string)
    requires |db.shards| > 0 && |clock| == |db.shards| && Pictures(db, clock, es) && Names(es, k)
    ensures k in SeenAt(db, clock, k)
  {
    hide SeenAt, Home;
    var j :| 0 <= j < |es| && es[j].key == k;
    assert Describes(es[j], SeenAt(db, clock, es[j].key), clock[Home(db, es[j].key)].later);
  }

  /** The restored value of a key is its value when the snapshot was taken; it has a TTL just if it had
      one then, and the TTL is the whole milliseconds left then, but at least one, from its load time. */
  lemma RestoredCell(db: Db, clock: seq<Reading>, es: Entries, load: seq<Happening>, j: nat, n: nat)
    requires DbValid(db) && |clock| == |db.shards|
    requires multiset(es) == multiset(SnapshotDb(db, clock, |db.shards|)) && Loads(load, es) && LoadsAt(load, j, n)
    ensures |db.shards| > 0 && n < |es| && es[n].key in LoadedView(load, es)
    ensures var k := es[n].key;
            var was, got := SeenAt(db, clock, k), LoadedView(load, es)[k];
            && k in was && got.value == was[k].value
            && (was[k].expiresAt.None? <==> got.expiresAt.None?)
            && (was[k].expiresAt.Some? ==>
                  var left := (was[k].expiresAt.value - clock[Home(db, k)].later) / S.NANOS_PER_MILLI;
                  got.expiresAt.value == load[j].now + (if left < 1 then 1 else left) * S.NANOS_PER_MILLI)
  {
    hide DbValid, SnapshotDb, LoadedView, SeenAt, Home, Loads;
    HasShards(db);
    var all := SnapshotDb(db, clock, |db.shards|);
    SnapshotDescribes(db, clock, |db.shards|);
    Shuffled(db, clock, all, es);
    LoadedCells(load, es, j, n);
    assert Describes(es[n], SeenAt(db, clock, es[n].key), clock[Home(db, es[n].key)].later);
  }

  /** The file of a snapshot reads back as its commands. */
  lemma SavedFileReadsBack(p: Parser, es: Entries)
    requires AllLoggable(p, SaveAll(es))
    ensures ReadFrames(p, EncodeLog(SaveAll(es))) == Split(SaveAll(es), |EncodeLog(SaveAll(es))|, Exhausted)
  {
    hide EncodeLog, ReadFrames;
    var log := SaveAll(es);
    ReadLog(p, log, "");
    NothingToRead(p);
    assert EncodeLog(log) + "" == EncodeLog(log);
    assert log + [] == log;
  }

  /** From file to database: executing the commands read back from the file of a snapshot, saved in any
      entry order, restores exactly the keys live when it was taken, with no error. */
  lemma SnapshotFileRestores(
      p: Parser, db: Db, clock: seq<Reading>, blank: Db, es: Entries, file: string, load: seq<Happening>, start: int,
          t: int)
    requires DbValid(db) && |clock| == |db.shards| && BlankLike(db, blank)
    requires multiset(es) == multiset(SnapshotDb(db, clock, |db.shards|)) && AllInRange(es)
    requires file == EncodeLog(SaveAll(es)) && AllLoggable(p, SaveAll(es))
    requires CommandsOf(load) == ReadFrames(p, file).commands && AllHealthy(load)
    requires Timely(load) && start <= t && forall i :: 0 <= i < |load| ==> start <= load[i].now <= t
    ensures AllOk(blank, load)
    ensures |RunOf(blank, load).shards| > 0 && Mirrors(RunOf(blank, load), LoadedView(load, es), t)
    ensures |db.shards| > 0 && forall k :: k in LoadedView(load, es) <==> k in SeenAt(db, clock, k)
  {
    hide DbValid, SnapshotDb, LoadedView, SeenAt, Mirrors, AllOk, RunOf, EncodeLog, ReadFrames, SaveCommand;
    SavedFileReadsBack(p, es);
    SnapshotRestores(db, clock, blank, es, load, start, t);
  }
}

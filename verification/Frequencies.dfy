/** What an entry's frequency counts: its hits since it was last written. */
module Frequencies {
  import opened Wrappers
  import opened Decimal
  import opened Store
  import opened Eviction
  import opened StoreRuns

  /** A key used by a successful read (`hit`) or write. */
  datatype Use = Use(key: string, hit: bool)

  function Marked(keys: seq<string>, hit: bool): (r: seq<Use>)
    ensures |r| == |keys| && forall i :: 0 <= i < |keys| ==> r[i] == Use(keys[i], hit)
  {
    seq(|keys|, i requires 0 <= i < |keys| => Use(keys[i], hit))
  }

  /** Reads of a key since its last write. */
  function HitsSince(log: seq<Use>, k: string): nat {
    if log == [] then 0
    else
      var last := log[|log| - 1];
      if last == Use(k, false) then 0
      else HitsSince(log[..|log| - 1], k) + if last == Use(k, true) then 1 else 0
  }

  /** A count of hits as an entry holds it: from one, and saturating. */
  function Held(hits: nat): nat {
    if 1 + hits <= FREQUENCY_MAX then 1 + hits else FREQUENCY_MAX
  }

  /** Every frequency counts the hits of its key since it was written. */
  ghost predicate Counted(s: Store, log: seq<Use>) {
    forall k :: k in s.entries ==> s.entries[k].frequency == Held(HitsSince(log, k))
  }

  lemma HitsSnoc(log: seq<Use>, u: Use, k: string)
    ensures HitsSince(log + [u], k) ==
            if u == Use(k, false) then 0 else HitsSince(log, k) + if u == Use(k, true) then 1 else 0
  {
    assert (log + [u])[..|log|] == log;
  }

  lemma MarkedOne(k: string, hit: bool)
    ensures Marked([k], hit) == [Use(k, hit)]
  {
  }

  // ---------------------------------------------------------------- every operation keeps count

  lemma KeptCounted(s: Store, t: Store, log: seq<Use>)
    requires Counted(s, log) && StampsKept(s, t)
    ensures Counted(t, log + Marked([], true)) && Counted(t, log + Marked([], false)) && Counted(t, log)
  {
    assert log + Marked([], true) == log && log + Marked([], false) == log;
  }

  lemma PutCounted(s: Store, k: string, value: string, expiresAt: Option<int>, log: seq<Use>)
    requires Valid(s) && s.usage - Weight(s.entries, k) + EntryBytes(k, value) <= s.maxmemory && Counted(s, log)
    ensures Counted(Put(s, k, value, expiresAt), log + [Use(k, false)])
  {
    hide OrderOk, Total, StampsOk, HitsSince;
    forall j ensures HitsSince(log + [Use(k, false)], j) == if j == k then 0 else HitsSince(log, j) {
      HitsSnoc(log, Use(k, false), j);
    }
  }

  lemma {:induction false} InsertAllCounted(s: Store, order: seq<string>, values: map<string, string>, log: seq<Use>)
    requires Insertable(s, order, values) && Counted(s, log)
    ensures Counted(InsertAll(s, order, values), log + Marked(order, false))
  {
    hide Valid, Counted, Put, InsertAll, BatchBytes;
    if order == [] {
      assert log + Marked(order, false) == log;
      InsertNone(s, order, values);
    } else {
      var n := |order| - 1;
      InsertAllLast(s, order, values);
      InsertAllCounted(s, order[..n], values, log);
      InsertedFits(s, order, values);
      PutCounted(InsertAll(s, order[..n], values), order[n], values[order[n]], None, log + Marked(order[..n], false));
      assert log + Marked(order, false) == log + Marked(order[..n], false) + [Use(order[n], false)];
    }
  }

  lemma InsertNone(s: Store, order: seq<string>, values: map<string, string>)
    requires Insertable(s, order, values) && order == []
    ensures InsertAll(s, order, values) == s
  {
  }

  lemma InsertedFits(s: Store, order: seq<string>, values: map<string, string>)
    requires order != [] && Insertable(s, order, values)
    ensures var n := |order| - 1;
            && Insertable(s, order[..n], values) && order[n] in values
            && var t, k := InsertAll(s, order[..n], values), order[n];
               Valid(t) && t.usage - Weight(t.entries, k) + EntryBytes(k, values[k]) <= t.maxmemory
  {
    hide Valid, Insertable, InsertAll, Put;
    InsertAllLast(s, order, values);
  }

  lemma GetCounted(s: Store, k: string, now: int, log: seq<Use>)
    requires Valid(s) && Counted(s, log)
    ensures Counted(Get(s, k, now).0, log + Marked(if Get(s, k, now).1.Some? then [k] else [], true))
  {
    hide OrderOk, Total, StampsOk, HitsSince;
    if Get(s, k, now).1.Some? {
      MarkedOne(k, true);
      forall j ensures HitsSince(log + [Use(k, true)], j) == HitsSince(log, j) + if j == k then 1 else 0 {
        HitsSnoc(log, Use(k, true), j);
      }
    } else {
      KeptCounted(s, Get(s, k, now).0, log);
    }
  }

  lemma SetCounted(s: Store, request: SetRequest, now: int, log: seq<Use>)
    requires Valid(s) && Counted(s, log)
    ensures Counted(Set(s, request, now).0,
                    log + Marked(if Set(s, request, now).1 == Ok then [request.key] else [], false))
  {
    hide OrderOk, Total, StampsOk, Evict, Counted, Put;
    var t := RemoveIfExpired(s, request.key, now);
    KeptCounted(s, t, log);
    if Set(s, request, now).1 == Ok {
      AtLeastOwn(t, request.key);
      var projected := t.usage - Weight(t.entries, request.key) + EntryBytes(request.key, request.value);
      var u := MakeRoom(t, projected, request.key).0;
      if projected > t.maxmemory { EvictStamps(t, projected, Some(request.key)); }
      KeptCounted(t, u, log);
      AtLeastOwn(u, request.key);
      PutCounted(u, request.key, request.value, Deadline(now, request.ttl), log);
      MarkedOne(request.key, false);
    } else {
      RefusedSetEvictsNothing(s, request, now);
    }
  }

  lemma MSetCounted(s: Store, values: seq<(string, string)>, log: seq<Use>)
    requires Valid(s) && Counted(s, log)
    ensures Counted(MSet(s, values).0,
                    log + Marked(if MSet(s, values).1 == Ok then BatchOf(s.layout, values).order else [], false))
  {
    hide OrderOk, Total, StampsOk, Evict, BatchOf, InsertAll, EraseAll, BatchBytes, Counted;
    if MSet(s, values).1 == Ok {
      var b := BatchOf(s.layout, values);
      OrderFacts(b.order, b.values);
      var t, required := EraseAll(s, b.order), BatchBytes(b.order, b.values);
      EraseAllStamps(s, b.order);
      KeptCounted(s, t, log);
      var u := Evict(t, t.usage + required, None).0;
      EvictStamps(t, t.usage + required, None);
      EvictShrinks(t, t.usage + required, None);
      KeptCounted(t, u, log);
      InsertAllCounted(u, b.order, b.values, log);
    } else {
      KeptCounted(s, s, log);
    }
  }

  lemma IncrementCounted(s: Store, k: string, delta: int, now: int, later: int, log: seq<Use>)
    requires Valid(s) && Counted(s, log)
    ensures Counted(Increment(s, k, delta, now, later).0,
                    log + Marked(if Increment(s, k, delta, now, later).1.Incremented? then [k] else [], false))
  {
    hide OrderOk, Total, StampsOk, Set, Counted, FromChars, ToString;
    var t := RemoveIfExpired(s, k, now);
    KeptCounted(s, t, log);
    var current := if k in t.entries then FromChars(t.entries[k].value) else Some(0);
    if current.Some? && IsInt64(current.value + delta) {
      var ttl := if k in t.entries && t.entries[k].expiresAt.Some?
                 then Some((t.entries[k].expiresAt.value - now) / NANOS_PER_MILLI) else None;
      var request := SetRequest(k, ToString(current.value + delta), ttl, Always);
      SetCounted(t, request, later, log);
      UnconditionalSet(t, request, later);
    }
  }

  /** The uses an operation makes: hits of reads, writes of everything else that touches a key. */
  function Uses(s: Store, op: Op, now: int): seq<Use>
    requires Valid(s)
  {
    Marked(Touches(s, op, now), op.GetOp?)
  }

  lemma ApplyCounted(s: Store, op: Op, now: int, log: seq<Use>)
    requires Valid(s) && Counted(s, log)
    ensures Counted(Apply(s, op, now).0, log + Uses(s, op, now))
  {
    hide OrderOk, Total, StampsOk, Counted, Set, MSet, Increment, Get, Delete, Exists, Sweep, Marked;
    match op
    case GetOp(k) => GetCounted(s, k, now, log);
    case SetOp(request) => SetCounted(s, request, now, log);
    case MSetOp(values) => MSetCounted(s, values, log);
    case DeleteOp(keys) => DeleteStamps(s, keys, now); KeptCounted(s, Delete(s, keys, now).0, log);
    case ExistsOp(keys) => ExistsStamps(s, keys, now); KeptCounted(s, Exists(s, keys, now).0, log);
    case ExpireOp(k, ttl) => KeptCounted(s, Expire(s, k, ttl, now).0, log);
    case TtlOp(k) => KeptCounted(s, TtlSeconds(s, k, now).0, log);
    case IncrementOp(k, delta, lag) => IncrementCounted(s, k, delta, now, now + lag, log);
    case ActiveExpireOp(samples) =>
      SweepStamps(s, Window(s, samples), now);
      KeptCounted(s, ActiveExpire(s, samples, now).0, log);
  }

  function UseLog(s: Store, run: seq<Timed>): seq<Use>
    requires Valid(s)
  {
    if run == [] then []
    else
      var n := |run| - 1;
      UseLog(s, run[..n]) + Uses(Run(s, run[..n]), run[n].op, run[n].now)
  }

  // ---------------------------------------------------------------- theorems

  /** Frequencies: in every run a stored key's frequency is one plus the hits on it since it was last
      written, as far as the counter goes. */
  lemma {:induction false} FrequenciesCountHits(
      maxmemory: nat, policy: Policy, layout: Layout, generator: nat -> nat, run: seq<Timed>)
    ensures var s := Empty(maxmemory, policy, layout, generator); Counted(Run(s, run), UseLog(s, run))
  {
    hide Apply, Uses;
    var s := Empty(maxmemory, policy, layout, generator);
    if run != [] {
      var n := |run| - 1;
      FrequenciesCountHits(maxmemory, policy, layout, generator, run[..n]);
      ApplyCounted(Run(s, run[..n]), run[n].op, run[n].now, UseLog(s, run[..n]));
    }
  }

  /** Under LFU an accepted write evicts no entry used more often than a survivor it did not write. */
  lemma SetEvictsLeastUsed(s: Store, request: SetRequest, now: int, gone: string, kept: string)
    requires Valid(s) && s.policy == Lfu && Set(s, request, now).1 == Ok
    requires var t, u := RemoveIfExpired(s, request.key, now), Set(s, request, now).0;
             Evicted(t, u, gone) && kept in t.entries && kept in u.entries && kept != request.key
    ensures s.entries[gone].frequency <= s.entries[kept].frequency
  {
    hide OrderOk, Total, StampsOk, Evict;
    var t := RemoveIfExpired(s, request.key, now);
    AtLeastOwn(t, request.key);
    var projected := t.usage - Weight(t.entries, request.key) + EntryBytes(request.key, request.value);
    LfuEvictsLeastUsed(t, projected, Some(request.key), gone, kept);
  }

  lemma MSetEvictsLeastUsed(s: Store, values: seq<(string, string)>, gone: string, kept: string)
    requires Valid(s) && s.policy == Lfu && MSet(s, values).1 == Ok
    requires var u := MSet(s, values).0;
             Evicted(s, u, gone) && kept in s.entries && kept in u.entries && kept !in LastValues(values)
    ensures s.entries[gone].frequency <= s.entries[kept].frequency
  {
    hide Valid, Evict, MSet, LastValues;
    var t, projected := MSetPass(s, values);
    LfuEvictsLeastUsed(t, projected, None, gone, kept);
  }

  /** LFU over whole runs: after any run, a write that succeeds evicts only keys with at most as many hits
      since they were written as every surviving key it did not write, as far as the counter goes. */
  lemma LfuEvictsLeastHit(
      maxmemory: nat, layout: Layout, generator: nat -> nat, run: seq<Timed>, request: SetRequest, now: int,
          gone: string, kept: string)
    requires var s := Run(Empty(maxmemory, Lfu, layout, generator), run);
             && Set(s, request, now).1 == Ok
             && var t, u := RemoveIfExpired(s, request.key, now), Set(s, request, now).0;
                Evicted(t, u, gone) && kept in t.entries && kept in u.entries && kept != request.key
    ensures var log := UseLog(Empty(maxmemory, Lfu, layout, generator), run);
            HitsSince(log, gone) <= HitsSince(log, kept) || 1 + HitsSince(log, kept) >= FREQUENCY_MAX
  {
    hide OrderOk, Total, StampsOk, Set, UseLog;
    FrequenciesCountHits(maxmemory, Lfu, layout, generator, run);
    StampsAreLastTouches(maxmemory, Lfu, layout, generator, run);
    var s := Run(Empty(maxmemory, Lfu, layout, generator), run);
    hide Run;
    SetEvictsLeastUsed(s, request, now, gone, kept);
  }

  /** The same for batches. */
  lemma LfuBatchEvictsLeastHit(
      maxmemory: nat, layout: Layout, generator: nat -> nat, run: seq<Timed>, values: seq<(string, string)>,
          gone: string, kept: string)
    requires var s := Run(Empty(maxmemory, Lfu, layout, generator), run);
             && MSet(s, values).1 == Ok
             && var u := MSet(s, values).0;
                Evicted(s, u, gone) && kept in s.entries && kept in u.entries && kept !in LastValues(values)
    ensures var log := UseLog(Empty(maxmemory, Lfu, layout, generator), run);
            HitsSince(log, gone) <= HitsSince(log, kept) || 1 + HitsSince(log, kept) >= FREQUENCY_MAX
  {
    hide OrderOk, Total, StampsOk, MSet, UseLog;
    FrequenciesCountHits(maxmemory, Lfu, layout, generator, run);
    StampsAreLastTouches(maxmemory, Lfu, layout, generator, run);
    var s := Run(Empty(maxmemory, Lfu, layout, generator), run);
    hide Run;
    MSetEvictsLeastUsed(s, values, gone, kept);
  }
}

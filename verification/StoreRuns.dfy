/** Runs of one store: any sequence of operations with their clock readings. */
module StoreRuns {
  import opened Wrappers
  import opened Decimal
  import opened Store
  import opened Eviction

  /** An operation; Increment's second clock reading comes `lag` after its first. */
  datatype Op =
    | GetOp(key: string)
    | SetOp(request: SetRequest)
    | MSetOp(values: seq<(string, string)>)
    | DeleteOp(keys: seq<string>)
    | ExistsOp(keys: seq<string>)
    | ExpireOp(key: string, ttl: int)
    | TtlOp(key: string)
    | IncrementOp(key: string, delta: int, lag: nat)
    | ActiveExpireOp(samples: nat)

  datatype Reply =
    | Value(value: Option<string>)
    | Written(result: WriteResult)
    | Count(count: nat)
    | Flag(flag: bool)
    | Seconds(seconds: int)
    | Number(number: IncrementResult)
    | Swept

  function Apply(s: Store, op: Op, now: int): (r: (Store, Reply))
    requires Valid(s)
    ensures Valid(r.0)
  {
    match op
    case GetOp(k) => var (t, v) := Get(s, k, now); (t, Value(v))
    case SetOp(request) => var (t, w) := Set(s, request, now); (t, Written(w))
    case MSetOp(values) => var (t, w) := MSet(s, values); (t, Written(w))
    case DeleteOp(keys) => var (t, n) := Delete(s, keys, now); (t, Count(n))
    case ExistsOp(keys) => var (t, n) := Exists(s, keys, now); (t, Count(n))
    case ExpireOp(k, ttl) => var (t, b) := Expire(s, k, ttl, now); (t, Flag(b))
    case TtlOp(k) => var (t, n) := TtlSeconds(s, k, now); (t, Seconds(n))
    case IncrementOp(k, delta, lag) => var (t, r) := Increment(s, k, delta, now, now + lag); (t, Number(r))
    case ActiveExpireOp(samples) => (ActiveExpire(s, samples, now).0, Swept)
  }

  datatype Timed = Timed(op: Op, now: int)

  function Run(s: Store, run: seq<Timed>): (r: Store)
    requires Valid(s)
    ensures Valid(r)
  {
    if run == [] then s
    else var n := |run| - 1; Apply(Run(s, run[..n]), run[n].op, run[n].now).0
  }

  /** The accounting law: in every run, under any policy, iteration order and clock, the recorded
      usage is the bytes of the stored entries and stays within the ceiling. */
  lemma {:induction false} UsageExact(
      maxmemory: nat, policy: Policy, layout: Layout, generator: nat -> nat, run: seq<Timed>)
    ensures var s := Run(Empty(maxmemory, policy, layout, generator), run);
            && s.maxmemory == maxmemory && s.policy == policy
            && s.usage == Total(s.order, s.entries) <= maxmemory
            && multiset(s.order) == multiset(s.entries.Keys)
  {
    StampsAreLastTouches(maxmemory, policy, layout, generator, run);
  }

  // ---------------------------------------------------------------- configuration and stamps

  /** `t` is `s` with entries dropped or rescheduled: same configuration, clock, stamps and frequencies. */
  ghost predicate StampsKept(s: Store, t: Store) {
    && SameConfig(s, t) && t.clock == s.clock
    && forall k :: k in t.entries ==>
         && k in s.entries && t.entries[k].lastAccess == s.entries[k].lastAccess
         && t.entries[k].frequency == s.entries[k].frequency
  }

  ghost predicate SameConfig(s: Store, t: Store) {
    t.maxmemory == s.maxmemory && t.policy == s.policy && t.layout == s.layout && t.generator == s.generator
  }

  lemma {:induction false} EvictStamps(s: Store, projected: nat, protected: Option<string>)
    requires CanEvict(s, projected, protected)
    ensures StampsKept(s, Evict(s, projected, protected).0)
    decreases |s.order|
  {
    hide OrderOk, Total, StampsOk, SelectVictim, Evict;
    if projected <= s.maxmemory {
      EvictDone(s, projected, protected);
    } else {
      EvictUnfold(s, projected, protected);
      var (random, victim) := SelectVictim(s, protected);
      if victim.Some? {
        EvictStamps(Erase(Seeded(s, random), victim.value), projected - Weight(s.entries, victim.value), protected);
      }
    }
  }

  lemma {:induction false} DeleteStamps(s: Store, keys: seq<string>, now: int)
    requires Valid(s)
    ensures StampsKept(s, Delete(s, keys, now).0)
  {
    hide OrderOk, Total, StampsOk;
    if keys != [] { DeleteStamps(s, keys[..|keys| - 1], now); }
  }

  lemma {:induction false} ExistsStamps(s: Store, keys: seq<string>, now: int)
    requires Valid(s)
    ensures StampsKept(s, Exists(s, keys, now).0)
  {
    hide OrderOk, Total, StampsOk;
    if keys != [] { ExistsStamps(s, keys[..|keys| - 1], now); }
  }

  lemma {:induction false} SweepStamps(s: Store, keys: seq<string>, now: int)
    requires Valid(s)
    ensures StampsKept(s, Sweep(s, keys, now).0)
  {
    hide OrderOk, Total, StampsOk;
    if keys != [] { SweepStamps(s, keys[..|keys| - 1], now); }
  }

  lemma {:induction false} EraseAllStamps(s: Store, keys: seq<string>)
    requires Valid(s)
    ensures StampsKept(s, EraseAll(s, keys))
  {
    hide OrderOk, Total, StampsOk;
    if keys != [] { EraseAllStamps(s, keys[..|keys| - 1]); }
  }

  lemma {:induction false} InsertAllConfig(s: Store, order: seq<string>, values: map<string, string>)
    requires Valid(s) && (forall k :: k in order ==> k in values && k !in s.entries)
    requires forall i, j :: 0 <= i < j < |order| ==> order[i] != order[j]
    requires s.usage + BatchBytes(order, values) <= s.maxmemory
    ensures SameConfig(s, InsertAll(s, order, values))
  {
    hide OrderOk, Total, StampsOk;
    if order != [] {
      assert order == order[..|order| - 1] + [order[|order| - 1]];
      InsertAllConfig(s, order[..|order| - 1], values);
    }
  }

  lemma SetConfig(s: Store, request: SetRequest, now: int)
    requires Valid(s)
    ensures SameConfig(s, Set(s, request, now).0)
  {
    hide OrderOk, Total, StampsOk, Evict;
    var t := RemoveIfExpired(s, request.key, now);
    AtLeastOwn(t, request.key);
    EvictStamps(t, t.usage - Weight(t.entries, request.key) + EntryBytes(request.key, request.value),
        Some(request.key));
  }

  lemma MSetConfig(s: Store, values: seq<(string, string)>)
    requires Valid(s)
    ensures SameConfig(s, MSet(s, values).0)
  {
    hide OrderOk, Total, StampsOk, Evict, BatchOf, InsertAll, EraseAll, BatchBytes;
    if MSet(s, values).1 == Ok {
      var b := BatchOf(s.layout, values);
      OrderFacts(b.order, b.values);
      var t, required := EraseAll(s, b.order), BatchBytes(b.order, b.values);
      EraseAllStamps(s, b.order);
      EvictStamps(t, t.usage + required, None);
      EvictShrinks(t, t.usage + required, None);
      InsertAllConfig(Evict(t, t.usage + required, None).0, b.order, b.values);
    }
  }

  lemma IncrementConfig(s: Store, k: string, delta: int, now: int, later: int)
    requires Valid(s)
    ensures SameConfig(s, Increment(s, k, delta, now, later).0)
  {
    hide OrderOk, Total, StampsOk, Set, FromChars, ToString;
    forall request: SetRequest ensures SameConfig(s, Set(RemoveIfExpired(s, k, now), request, later).0) {
      SetConfig(RemoveIfExpired(s, k, now), request, later);
    }
  }

  /** No operation changes the ceiling, the policy or the hash layout. */
  lemma ApplyConfig(s: Store, op: Op, now: int)
    requires Valid(s)
    ensures SameConfig(s, Apply(s, op, now).0)
  {
    hide OrderOk, Total, StampsOk, Set, MSet, Increment, Delete, Exists, Sweep;
    match op
    case SetOp(request) => SetConfig(s, request, now);
    case MSetOp(values) => MSetConfig(s, values);
    case DeleteOp(keys) => DeleteStamps(s, keys, now);
    case ExistsOp(keys) => ExistsStamps(s, keys, now);
    case IncrementOp(k, delta, lag) => IncrementConfig(s, k, delta, now, now + lag);
    case ActiveExpireOp(samples) =>
      SweepStamps(s, Window(s, samples), now);
    case _ =>
  }

  // ---------------------------------------------------------------- the touch log

  /** The keys touched by successful reads and writes, oldest first; a key's stamp points at its last
      touch. */
  ghost predicate Logged(s: Store, log: seq<string>) {
    && s.clock == |log|
    && forall k :: k in s.entries ==>
         var stamp := s.entries[k].lastAccess;
         && 1 <= stamp <= |log| && log[stamp - 1] == k
         && forall i :: stamp <= i < |log| ==> log[i] != k
  }

  lemma KeptLogged(s: Store, t: Store, log: seq<string>)
    requires Logged(s, log) && StampsKept(s, t)
    ensures Logged(t, log)
  {
  }

  lemma PutLogged(s: Store, k: string, value: string, expiresAt: Option<int>, log: seq<string>)
    requires Valid(s) && s.usage - Weight(s.entries, k) + EntryBytes(k, value) <= s.maxmemory && Logged(s, log)
    ensures Logged(Put(s, k, value, expiresAt), log + [k])
  {
    hide OrderOk, Total, StampsOk;
    assert forall i :: 0 <= i < |log| ==> (log + [k])[i] == log[i];
  }

  lemma {:induction false} InsertAllLogged(s: Store, order: seq<string>, values: map<string, string>, log: seq<string>)
    requires Valid(s) && (forall k :: k in order ==> k in values && k !in s.entries)
    requires forall i, j :: 0 <= i < j < |order| ==> order[i] != order[j]
    requires s.usage + BatchBytes(order, values) <= s.maxmemory && Logged(s, log)
    ensures Logged(InsertAll(s, order, values), log + order)
  {
    hide OrderOk, Total, StampsOk, Logged, Put;
    if order == [] {
      assert log + order == log;
    } else {
      var n := |order| - 1;
      assert order == order[..n] + [order[n]];
      InsertAllLogged(s, order[..n], values, log);
      var t := InsertAll(s, order[..n], values);
      PutLogged(t, order[n], values[order[n]], None, log + order[..n]);
      assert log + order == log + order[..n] + [order[n]];
    }
  }

  /** The keys an operation touches, in order: a hit, a write that succeeds, a batch that succeeds. */
  function Touches(s: Store, op: Op, now: int): seq<string>
    requires Valid(s)
  {
    match op
    case GetOp(k) => if Get(s, k, now).1.Some? then [k] else []
    case SetOp(request) => if Set(s, request, now).1 == Ok then [request.key] else []
    case MSetOp(values) => if MSet(s, values).1 == Ok then BatchOf(s.layout, values).order else []
    case IncrementOp(k, delta, lag) => if Increment(s, k, delta, now, now + lag).1.Incremented? then [k] else []
    case _ => []
  }

  lemma GetLogged(s: Store, k: string, now: int, log: seq<string>)
    requires Valid(s) && Logged(s, log)
    ensures Logged(Get(s, k, now).0, log + if Get(s, k, now).1.Some? then [k] else [])
  {
    hide OrderOk, Total, StampsOk;
    assert log + [] == log;
    assert forall i :: 0 <= i < |log| ==> (log + [k])[i] == log[i];
  }

  lemma SetLogged(s: Store, request: SetRequest, now: int, log: seq<string>)
    requires Valid(s) && Logged(s, log)
    ensures Logged(Set(s, request, now).0, log + if Set(s, request, now).1 == Ok then [request.key] else [])
  {
    hide OrderOk, Total, StampsOk, Evict, Logged, Put;
    var t := RemoveIfExpired(s, request.key, now);
    KeptLogged(s, t, log);
    assert log + [] == log;
    if Set(s, request, now).1 == Ok {
      AtLeastOwn(t, request.key);
      var projected := t.usage - Weight(t.entries, request.key) + EntryBytes(request.key, request.value);
      var u := MakeRoom(t, projected, request.key).0;
      if projected > t.maxmemory { EvictStamps(t, projected, Some(request.key)); }
      KeptLogged(t, u, log);
      AtLeastOwn(u, request.key);
      PutLogged(u, request.key, request.value, Deadline(now, request.ttl), log);
    } else {
      RefusedSetEvictsNothing(s, request, now);
    }
  }

  lemma MSetLogged(s: Store, values: seq<(string, string)>, log: seq<string>)
    requires Valid(s) && Logged(s, log)
    ensures Logged(MSet(s, values).0, log + if MSet(s, values).1 == Ok then BatchOf(s.layout, values).order else [])
  {
    hide OrderOk, Total, StampsOk, Evict, BatchOf, InsertAll, EraseAll, BatchBytes, Logged;
    assert log + [] == log;
    if MSet(s, values).1 == Ok {
      var b := BatchOf(s.layout, values);
      OrderFacts(b.order, b.values);
      var t, required := EraseAll(s, b.order), BatchBytes(b.order, b.values);
      EraseAllStamps(s, b.order);
      KeptLogged(s, t, log);
      var u := Evict(t, t.usage + required, None).0;
      EvictStamps(t, t.usage + required, None);
      EvictShrinks(t, t.usage + required, None);
      KeptLogged(t, u, log);
      InsertAllLogged(u, b.order, b.values, log);
    }
  }

  lemma IncrementLogged(s: Store, k: string, delta: int, now: int, later: int, log: seq<string>)
    requires Valid(s) && Logged(s, log)
    ensures Logged(Increment(s, k, delta, now, later).0,
                   log + if Increment(s, k, delta, now, later).1.Incremented? then [k] else [])
  {
    hide OrderOk, Total, StampsOk, Set, Logged, FromChars, ToString;
    var t := RemoveIfExpired(s, k, now);
    KeptLogged(s, t, log);
    assert log + [] == log;
    var current := if k in t.entries then FromChars(t.entries[k].value) else Some(0);
    if current.Some? && IsInt64(current.value + delta) {
      var ttl := if k in t.entries && t.entries[k].expiresAt.Some?
                 then Some((t.entries[k].expiresAt.value - now) / NANOS_PER_MILLI) else None;
      var request := SetRequest(k, ToString(current.value + delta), ttl, Always);
      SetLogged(t, request, later, log);
      UnconditionalSet(t, request, later);
    }
  }

  lemma UnconditionalSet(s: Store, request: SetRequest, now: int)
    requires Valid(s) && request.condition == Always
    ensures Set(s, request, now).1 != ConditionFailed
  {
    hide OrderOk, Total, StampsOk, Evict;
  }

  /** Every operation extends the touch log by exactly the keys it touches. */
  lemma ApplyLogged(s: Store, op: Op, now: int, log: seq<string>)
    requires Valid(s) && Logged(s, log)
    ensures Logged(Apply(s, op, now).0, log + Touches(s, op, now))
  {
    hide OrderOk, Total, StampsOk, Logged, Set, MSet, Increment, Get, Delete, Exists, Sweep;
    assert log + [] == log;
    match op
    case GetOp(k) => GetLogged(s, k, now, log);
    case SetOp(request) => SetLogged(s, request, now, log);
    case MSetOp(values) => MSetLogged(s, values, log);
    case DeleteOp(keys) => DeleteStamps(s, keys, now); KeptLogged(s, Delete(s, keys, now).0, log);
    case ExistsOp(keys) => ExistsStamps(s, keys, now); KeptLogged(s, Exists(s, keys, now).0, log);
    case ExpireOp(k, ttl) => KeptLogged(s, Expire(s, k, ttl, now).0, log);
    case TtlOp(k) => KeptLogged(s, TtlSeconds(s, k, now).0, log);
    case IncrementOp(k, delta, lag) => IncrementLogged(s, k, delta, now, now + lag, log);
    case ActiveExpireOp(samples) =>
      SweepStamps(s, Window(s, samples), now);
      KeptLogged(s, ActiveExpire(s, samples, now).0, log);
  }

  function TouchLog(s: Store, run: seq<Timed>): seq<string>
    requires Valid(s)
  {
    if run == [] then []
    else
      var n := |run| - 1;
      TouchLog(s, run[..n]) + Touches(Run(s, run[..n]), run[n].op, run[n].now)
  }

  /** Access stamps: in every run each stored key's stamp is the position of its last touch, so stamps
      are distinct and ordered by last touch. */
  lemma {:induction false} StampsAreLastTouches(
      maxmemory: nat, policy: Policy, layout: Layout, generator: nat -> nat, run: seq<Timed>)
    ensures var s := Empty(maxmemory, policy, layout, generator);
            Logged(Run(s, run), TouchLog(s, run)) && SameConfig(s, Run(s, run))
  {
    hide Apply, Touches;
    var s := Empty(maxmemory, policy, layout, generator);
    if run != [] {
      var n := |run| - 1;
      StampsAreLastTouches(maxmemory, policy, layout, generator, run[..n]);
      ApplyLogged(Run(s, run[..n]), run[n].op, run[n].now, TouchLog(s, run[..n]));
      ApplyConfig(Run(s, run[..n]), run[n].op, run[n].now);
    }
  }

  /** Position of the last touch of a key, -1 if it was never touched. */
  function LastTouch(log: seq<string>, k: string): int {
    if log == [] then -1
    else if log[|log| - 1] == k then |log| - 1
    else LastTouch(log[..|log| - 1], k)
  }

  lemma {:induction false} LastTouchIs(log: seq<string>, k: string, i: nat)
    requires i < |log| && log[i] == k && forall j :: i < j < |log| ==> log[j] != k
    ensures LastTouch(log, k) == i
  {
    if log[|log| - 1] != k { LastTouchIs(log[..|log| - 1], k, i); }
  }

  /** LRU over whole runs: after any run, a write that succeeds evicts only keys whose last touch is
      older than that of every surviving key it did not write. */
  lemma LruEvictsLeastRecentlyTouched(
      maxmemory: nat, layout: Layout, generator: nat -> nat, run: seq<Timed>, request: SetRequest, now: int,
          gone: string, kept: string)
    requires var s := Run(Empty(maxmemory, Lru, layout, generator), run);
             && Set(s, request, now).1 == Ok
             && var t, u := RemoveIfExpired(s, request.key, now), Set(s, request, now).0;
                Evicted(t, u, gone) && kept in t.entries && kept in u.entries && kept != request.key
    ensures var log := TouchLog(Empty(maxmemory, Lru, layout, generator), run);
            0 <= LastTouch(log, gone) < LastTouch(log, kept)
  {
    hide OrderOk, Total, StampsOk, Set, TouchLog;
    StampsAreLastTouches(maxmemory, Lru, layout, generator, run);
    var e := Empty(maxmemory, Lru, layout, generator);
    var s, log := Run(e, run), TouchLog(e, run);
    hide Run;
    SetEvictsOldest(s, request, now, gone, kept);
    LastTouchIs(log, gone, s.entries[gone].lastAccess - 1);
    LastTouchIs(log, kept, s.entries[kept].lastAccess - 1);
  }

  /** The same for batches: after any run, a batch that succeeds evicts only keys whose last touch is older
      than that of every surviving key it did not write. */
  lemma LruBatchEvictsLeastRecentlyTouched(
      maxmemory: nat, layout: Layout, generator: nat -> nat, run: seq<Timed>, values: seq<(string, string)>,
          gone: string, kept: string)
    requires var s := Run(Empty(maxmemory, Lru, layout, generator), run);
             && MSet(s, values).1 == Ok
             && var u := MSet(s, values).0;
                Evicted(s, u, gone) && kept in s.entries && kept in u.entries && kept !in LastValues(values)
    ensures var log := TouchLog(Empty(maxmemory, Lru, layout, generator), run);
            0 <= LastTouch(log, gone) < LastTouch(log, kept)
  {
    hide OrderOk, Total, StampsOk, MSet, TouchLog;
    StampsAreLastTouches(maxmemory, Lru, layout, generator, run);
    var e := Empty(maxmemory, Lru, layout, generator);
    var s, log := Run(e, run), TouchLog(e, run);
    hide Run;
    MSetEvictsOldest(s, values, gone, kept);
    LastTouchIs(log, gone, s.entries[gone].lastAccess - 1);
    LastTouchIs(log, kept, s.entries[kept].lastAccess - 1);
  }
}

/** The store as its clients see it: a map from live keys to values and deadlines. Without memory
    pressure every operation refines the same operation on that map, so expired entries and the
    sweeps that drop them are invisible. */
module LiveMap {
  import opened Wrappers
  import opened Decimal
  import opened Store
  import opened Eviction
  import opened StoreRuns

  datatype Cell = Cell(value: string, expiresAt: Option<int>)

  type View = map<string, Cell>

  predicate Alive(c: Cell, t: int) {
    c.expiresAt.None? || c.expiresAt.value > t
  }

  /** The part of a view still alive at time `t`. */
  function Prune(m: View, t: int): View {
    map k | k in m && Alive(m[k], t) :: m[k]
  }

  function CellOf(e: Entry): Cell {
    Cell(e.value, e.expiresAt)
  }

  /** Everything stored, expired or not. */
  function ViewOf(s: Store): View {
    map k | k in s.entries :: CellOf(s.entries[k])
  }

  /** The live map at time `t`. */
  function Live(s: Store, t: int): View {
    Prune(ViewOf(s), t)
  }

  lemma PruneTwice(m: View, t: int, u: int)
    requires t <= u
    ensures Prune(Prune(m, t), u) == Prune(m, u)
  {
  }

  lemma LiveIs(s: Store, now: int)
    ensures Live(s, now) == Prune(ViewOf(s), now)
  {
  }

  // ---------------------------------------------------------------- operations on views

  function DeleteFrom(m: View, keys: seq<string>): (View, nat) {
    if keys == [] then (m, 0)
    else
      var (d, n) := DeleteFrom(m, keys[..|keys| - 1]);
      var k := keys[|keys| - 1];
      if k in d then (d - {k}, n + 1) else (d, n)
  }

  function CountIn(m: View, keys: seq<string>): nat {
    if keys == [] then 0
    else CountIn(m, keys[..|keys| - 1]) + if keys[|keys| - 1] in m then 1 else 0
  }

  lemma UnfoldOne(m: View, k: string)
    ensures DeleteFrom(m, [k]) == if k in m then (m - {k}, 1) else (m, 0)
    ensures CountIn(m, [k]) == if k in m then 1 else 0
  {
    assert [k][..0] == [];
  }

  function Fresh(values: map<string, string>): View {
    map k | k in values :: Cell(values[k], None)
  }

  function IncrementIn(m: View, k: string, delta: int, now: int, later: int): (View, IncrementResult) {
    var current := if k in m then FromChars(m[k].value) else Some(0);
    if current.None? then (m, NotInteger)
    else if !IsInt64(current.value + delta) then (m, Overflow)
    else
      var ttl := if k in m && m[k].expiresAt.Some? then Some((m[k].expiresAt.value - now) / NANOS_PER_MILLI) else None;
      (Prune(m, later)[k := Cell(ToString(current.value + delta), Deadline(later, ttl))],
       Incremented(current.value + delta))
  }

  /** An operation on the live map `m` of its clock reading `now`. */
  function ApplyTo(m: View, op: Op, now: int): (View, Reply) {
    match op
    case GetOp(k) => (m, Value(if k in m then Some(m[k].value) else None))
    case SetOp(r) =>
      if ConditionHolds(r.condition, r.key in m) then (m[r.key := Cell(r.value, Deadline(now, r.ttl))], Written(Ok))
      else (m, Written(ConditionFailed))
    case MSetOp(values) => (m + Fresh(LastValues(values)), Written(Ok))
    case DeleteOp(keys) => var (d, n) := DeleteFrom(m, keys); (d, Count(n))
    case ExistsOp(keys) => (m, Count(CountIn(m, keys)))
    case ExpireOp(k, ttl) =>
      if k !in m then (m, Flag(false))
      else if ttl <= 0 then (m - {k}, Flag(true))
      else (m[k := m[k].(expiresAt := Some(now + ttl * NANOS_PER_MILLI))], Flag(true))
    case TtlOp(k) =>
      (m, Seconds(if k !in m then -2 else if m[k].expiresAt.None? then -1
                  else (m[k].expiresAt.value - now) / NANOS_PER_SECOND))
    case IncrementOp(k, delta, lag) => var (d, r) := IncrementIn(m, k, delta, now, now + lag); (d, Number(r))
    case ActiveExpireOp(_) => (m, Swept)
  }

  /** The clock after an operation read it at `now`. */
  function After(op: Op, now: int): int {
    if op.IncrementOp? then now + op.lag else now
  }

  // ---------------------------------------------------------------- memory pressure

  predicate SetFits(s: Store, request: SetRequest, now: int)
    requires Valid(s)
  {
    var t := RemoveIfExpired(s, request.key, now);
    ConditionHolds(request.condition, request.key in t.entries) ==>
      t.usage - Weight(t.entries, request.key) + EntryBytes(request.key, request.value) <= s.maxmemory
  }

  ghost predicate MSetFits(s: Store, values: seq<(string, string)>)
    requires Valid(s)
  {
    var b := BatchOf(s.layout, values);
    (forall k :: k in b.order ==> k in b.values) &&
    EraseAll(s, b.order).usage + BatchBytes(b.order, b.values) <= s.maxmemory
  }

  /** The write an increment makes, if it gets that far. */
  function IncrementWrite(s: Store, k: string, delta: int, now: int): Option<SetRequest>
    requires Valid(s)
  {
    var t := RemoveIfExpired(s, k, now);
    var current := if k in t.entries then FromChars(t.entries[k].value) else Some(0);
    if current.None? || !IsInt64(current.value + delta) then None
    else
      var ttl := if k in t.entries && t.entries[k].expiresAt.Some?
                 then Some((t.entries[k].expiresAt.value - now) / NANOS_PER_MILLI) else None;
      Some(SetRequest(k, ToString(current.value + delta), ttl, Always))
  }

  /** The operation meets no memory pressure: what it writes fits without eviction. */
  ghost predicate Fits(s: Store, op: Op, now: int)
    requires Valid(s)
  {
    match op
    case SetOp(request) => SetFits(s, request, now)
    case MSetOp(values) => MSetFits(s, values)
    case IncrementOp(k, delta, lag) =>
      var w := IncrementWrite(s, k, delta, now);
      w.Some? ==> SetFits(RemoveIfExpired(s, k, now), w.value, now + lag)
    case _ => true
  }

  // ---------------------------------------------------------------- refinement, operation by operation

  /** `t` agrees with the view `m` from time `now` on. */
  ghost predicate Shows(s: Store, m: View, now: int) {
    forall t :: now <= t ==> Live(s, t) == Prune(m, t)
  }

  lemma ShowsAt(s: Store, m: View, now: int)
    requires Live(s, now) == Prune(m, now)
    ensures Shows(s, m, now)
  {
    forall t | now <= t ensures Live(s, t) == Prune(m, t) {
      PruneTwice(ViewOf(s), now, t);
      PruneTwice(m, now, t);
    }
  }

  lemma PurgeLive(s: Store, k: string, now: int)
    requires Valid(s)
    ensures var t := RemoveIfExpired(s, k, now);
            && Live(t, now) == Live(s, now)
            && (k in t.entries <==> k in Live(s, now))
            && (k in t.entries ==> CellOf(t.entries[k]) == Live(s, now)[k])
  {
    hide OrderOk, Total, StampsOk;
  }

  /** A write that fits evicts nothing. */
  lemma FittingSet(s: Store, request: SetRequest, now: int)
    requires Valid(s) && SetFits(s, request, now)
    ensures var t := RemoveIfExpired(s, request.key, now);
            var (u, w) := Set(s, request, now);
            if ConditionHolds(request.condition, request.key in t.entries)
            then && w == Ok
                 && (forall k :: k in u.entries <==> k in t.entries || k == request.key)
                 && (forall k :: k in u.entries && k != request.key ==> u.entries[k] == t.entries[k])
                 && CellOf(u.entries[request.key]) == Cell(request.value, Deadline(now, request.ttl))
            else w == ConditionFailed && u == t
  {
    hide OrderOk, Total, StampsOk, Evict;
    AtLeastOwn(RemoveIfExpired(s, request.key, now), request.key);
  }

  lemma SetRefines(s: Store, request: SetRequest, now: int)
    requires Valid(s) && SetFits(s, request, now)
    ensures var m := Live(s, now);
            var (u, w) := Set(s, request, now);
            var (d, r) := ApplyTo(m, SetOp(request), now);
            Written(w) == r && Live(u, now) == Prune(d, now)
  {
    hide Valid, Set, RemoveIfExpired, SetFits;
    PurgeLive(s, request.key, now);
    FittingSet(s, request, now);
    var t, u := RemoveIfExpired(s, request.key, now), Set(s, request, now).0;
    var d := ApplyTo(Live(s, now), SetOp(request), now).0;
    PruneTwice(ViewOf(s), now, now);
    if ConditionHolds(request.condition, request.key in t.entries) {
      forall k ensures k in Live(u, now) <==> k in Prune(d, now)
        ensures k in Live(u, now) ==> Live(u, now)[k] == Prune(d, now)[k]
      {
        assert k != request.key ==> (k in Live(t, now) <==> k in Live(s, now));
      }
      assert Live(u, now) == Prune(d, now);
    }
  }

  /** A batch that fits evicts nothing. */
  lemma FittingMSet(s: Store, values: seq<(string, string)>, k: string)
    requires Valid(s) && MSetFits(s, values)
    ensures var (u, w) := MSet(s, values);
            && w == Ok
            && (k in LastValues(values) ==> k in u.entries && CellOf(u.entries[k]) == Cell(LastValues(values)[k], None))
            && (k !in LastValues(values) ==>
                   (k in u.entries <==> k in s.entries) && (k in s.entries ==> u.entries[k] == s.entries[k]))
  {
    hide OrderOk, Total, StampsOk, Evict, BatchOf, InsertAll, EraseAll, BatchBytes;
    var b := BatchOf(s.layout, values);
    OrderFacts(b.order, b.values);
    var t := EraseAll(s, b.order);
    EvictDone(t, t.usage + BatchBytes(b.order, b.values), None);
    InsertAllContents(t, b.order, b.values, k);
  }

  /** Without eviction an accepted batch fits. */
  lemma AcceptedFits(s: Store, values: seq<(string, string)>)
    requires Valid(s) && MSet(s, values).1 == Ok && s.policy == NoEviction
    ensures MSetFits(s, values)
  {
    hide OrderOk, Total, StampsOk, Evict, BatchOf, InsertAll, EraseAll, BatchBytes;
    var b := BatchOf(s.layout, values);
    OrderFacts(b.order, b.values);
  }

  lemma MSetRefines(s: Store, values: seq<(string, string)>, now: int)
    requires Valid(s) && MSetFits(s, values)
    ensures var (u, w) := MSet(s, values);
            var (d, r) := ApplyTo(Live(s, now), MSetOp(values), now);
            Written(w) == r && Live(u, now) == Prune(d, now)
  {
    hide OrderOk, Total, StampsOk, MSet, MSetFits;
    forall k ensures k in LastValues(values) || k in s.entries || k !in MSet(s, values).0.entries {
      FittingMSet(s, values, k);
    }
    var u, d := MSet(s, values).0, ApplyTo(Live(s, now), MSetOp(values), now).0;
    FittingMSet(s, values, "");
    forall k ensures (k in Live(u, now) <==> k in Prune(d, now)) &&
        (k in Live(u, now) ==> Live(u, now)[k] == Prune(d, now)[k]) {
      FittingMSet(s, values, k);
    }
    assert Live(u, now) == Prune(d, now);
  }

  lemma {:induction false} DeleteRefines(s: Store, keys: seq<string>, now: int)
    requires Valid(s)
    ensures var (u, n) := Delete(s, keys, now);
            (Live(u, now), n) == DeleteFrom(Live(s, now), keys)
  {
    hide OrderOk, Total, StampsOk;
    if keys != [] {
      var k := keys[|keys| - 1];
      DeleteRefines(s, keys[..|keys| - 1], now);
      var t := Delete(s, keys[..|keys| - 1], now).0;
      PurgeLive(t, k, now);
      var p := RemoveIfExpired(t, k, now);
      if k in p.entries {
        assert Live(Erase(p, k), now) == Live(p, now) - {k};
      }
    }
  }

  lemma {:induction false} ExistsRefines(s: Store, keys: seq<string>, now: int)
    requires Valid(s)
    ensures var (u, n) := Exists(s, keys, now);
            Live(u, now) == Live(s, now) && n == CountIn(Live(s, now), keys)
  {
    hide OrderOk, Total, StampsOk;
    if keys != [] {
      ExistsRefines(s, keys[..|keys| - 1], now);
      PurgeLive(Exists(s, keys[..|keys| - 1], now).0, keys[|keys| - 1], now);
    }
  }

  lemma {:induction false} SweepLive(s: Store, keys: seq<string>, now: int)
    requires Valid(s)
    ensures Live(Sweep(s, keys, now).0, now) == Live(s, now)
  {
    hide OrderOk, Total, StampsOk;
    if keys != [] {
      SweepLive(s, keys[..|keys| - 1], now);
      PurgeLive(Sweep(s, keys[..|keys| - 1], now).0, keys[|keys| - 1], now);
    }
  }

  /** A sweep changes nothing a client can see, now or later. */
  lemma ActiveExpireLive(s: Store, samples: nat, now: int)
    requires Valid(s)
    ensures Live(ActiveExpire(s, samples, now).0, now) == Live(s, now)
  {
    hide OrderOk, Total, Sweep;
    SweepLive(s, Window(s, samples), now);
  }

  lemma GetRefines(s: Store, k: string, now: int)
    requires Valid(s)
    ensures Live(Get(s, k, now).0, now) == Live(s, now)
    ensures Get(s, k, now).1 == if k in Live(s, now) then Some(Live(s, now)[k].value) else None
  {
    hide OrderOk, Total, StampsOk;
    PurgeLive(s, k, now);
  }

  lemma ExpireRefines(s: Store, k: string, ttl: int, now: int)
    requires Valid(s)
    ensures var (u, b) := Expire(s, k, ttl, now);
            var (d, r) := ApplyTo(Live(s, now), ExpireOp(k, ttl), now);
            Flag(b) == r && Live(u, now) == Prune(d, now)
  {
    hide OrderOk, Total, StampsOk;
    PurgeLive(s, k, now);
  }

  lemma UnconditionalSetRefines(s: Store, request: SetRequest, now: int)
    requires Valid(s) && SetFits(s, request, now) && request.condition == Always
    ensures Set(s, request, now).1 == Ok
    ensures Live(Set(s, request, now).0, now) ==
            Prune(Live(s, now)[request.key := Cell(request.value, Deadline(now, request.ttl))], now)
  {
    hide OrderOk, Total, StampsOk, Set, Prune;
    SetRefines(s, request, now);
  }

  lemma IncrementRefines(s: Store, k: string, delta: int, now: int, lag: nat)
    requires Valid(s) && Fits(s, IncrementOp(k, delta, lag), now)
    ensures var (u, n) := Increment(s, k, delta, now, now + lag);
            var (d, r) := IncrementIn(Live(s, now), k, delta, now, now + lag);
            n == r && Live(u, now + lag) == Prune(d, now + lag)
  {
    hide OrderOk, Total, StampsOk, Set, FromChars, ToString, Prune, ViewOf, SetFits, RemoveIfExpired;
    var later := now + lag;
    PurgeLive(s, k, now);
    var t := RemoveIfExpired(s, k, now);
    PruneTwice(ViewOf(t), now, later);
    var w := IncrementWrite(s, k, delta, now);
    if w.Some? { UnconditionalSetRefines(t, w.value, later); }
  }

  /** Refinement: without memory pressure an operation replies as it does on the live map, and the
      store shows the resulting map at every later time. */
  lemma Refines(s: Store, op: Op, now: int)
    requires Valid(s) && Fits(s, op, now)
    ensures var (u, r) := Apply(s, op, now);
            var (d, q) := ApplyTo(Live(s, now), op, now);
            r == q && Shows(u, d, After(op, now))
  {
    hide OrderOk, Total, StampsOk, Set, MSet, Increment, Get, Delete, Exists, Expire, ActiveExpire, DeleteFrom,
        CountIn, IncrementIn, Shows, Prune;
    var (u, r) := Apply(s, op, now);
    var (d, q) := ApplyTo(Live(s, now), op, now);
    PruneTwice(ViewOf(s), now, now);
    match op
    case GetOp(k) => GetRefines(s, k, now); ShowsAt(u, d, now);
    case SetOp(request) => SetRefines(s, request, now); ShowsAt(u, d, now);
    case MSetOp(values) => MSetRefines(s, values, now); ShowsAt(u, d, now);
    case DeleteOp(keys) => DeleteRefines(s, keys, now); PruneTwice(ViewOf(u), now, now); ShowsAt(u, d, now);
    case ExistsOp(keys) => ExistsRefines(s, keys, now); ShowsAt(u, d, now);
    case ExpireOp(k, ttl) => ExpireRefines(s, k, ttl, now); ShowsAt(u, d, now);
    case TtlOp(k) => TtlRefines(s, k, now); ShowsAt(u, d, now);
    case IncrementOp(k, delta, lag) => IncrementRefines(s, k, delta, now, lag); ShowsAt(u, d, now + lag);
    case ActiveExpireOp(samples) => ActiveExpireLive(s, samples, now); ShowsAt(u, d, now);
  }

  lemma TtlRefines(s: Store, k: string, now: int)
    requires Valid(s)
    ensures Live(TtlSeconds(s, k, now).0, now) == Live(s, now)
    ensures Seconds(TtlSeconds(s, k, now).1) == ApplyTo(Live(s, now), TtlOp(k), now).1
  {
    hide OrderOk, Total, StampsOk;
    PurgeLive(s, k, now);
  }
}

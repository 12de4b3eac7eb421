/** Stores without TTLs and memory pressure behave by their contents alone: two stores that hold the same
    keys and values, whatever their policy, hash order, stamps and clocks, do the same. */
module Twins {
  import opened Wrappers
  import opened Decimal
  import opened Store
  import opened Eviction
  import opened StoreRuns
  import opened LiveMap
  import opened Transparency
  import opened Sharding

  ghost predicate NoTtls(m: View) {
    forall k :: k in m ==> m[k].expiresAt.None?
  }

  /** The same contents and budget, no TTL. */
  ghost predicate Twin(a: Store, b: Store) {
    && Valid(a) && Valid(b) && a.maxmemory == b.maxmemory
    && ViewOf(a) == ViewOf(b) && NoTtls(ViewOf(a))
  }

  lemma NothingExpires(s: Store, k: string, now: int)
    requires Valid(s) && NoTtls(ViewOf(s))
    ensures RemoveIfExpired(s, k, now) == s && Live(s, now) == ViewOf(s)
  {
    hide OrderOk, Total, StampsOk;
    if k in s.entries { assert ViewOf(s)[k].expiresAt.None?; }
  }

  lemma TwinUsage(a: Store, b: Store)
    requires Accounted(a) && Accounted(b) && ViewOf(a) == ViewOf(b)
    ensures a.usage == b.usage
    ensures forall k :: Weight(a.entries, k) == Weight(b.entries, k)
  {
    hide OrderOk, Total, Accounted;
    SameCells(a, b);
    SameCells(b, a);
    CoversUsage(a, b);
    CoversUsage(b, a);
  }

  lemma SameCells(a: Store, b: Store)
    requires ViewOf(a) == ViewOf(b)
    ensures Covers(a, b) && forall k :: Weight(a.entries, k) == Weight(b.entries, k)
  {
    forall k ensures k in b.entries ==> k in a.entries && CellOf(b.entries[k]) == CellOf(a.entries[k])
      ensures Weight(a.entries, k) == Weight(b.entries, k)
    {
      assert k in ViewOf(a) <==> k in a.entries;
      assert k in ViewOf(b) <==> k in b.entries;
      assert k in a.entries ==> ViewOf(a)[k] == ViewOf(b)[k];
    }
  }

  // ---------------------------------------------------------------- one key

  lemma SetExact(s: Store, request: SetRequest, now: int)
    requires Valid(s) && NoTtls(ViewOf(s)) && SetFits(s, request, now)
    ensures ViewOf(Set(s, request, now).0) == ApplyTo(ViewOf(s), SetOp(request), now).0
  {
    hide OrderOk, Total, StampsOk, Set, RemoveIfExpired;
    NothingExpires(s, request.key, now);
    FittingSet(s, request, now);
    var u, d := Set(s, request, now).0, ApplyTo(ViewOf(s), SetOp(request), now).0;
    assert forall k :: k in ViewOf(u) <==> k in d;
    assert forall k :: k in d ==> ViewOf(u)[k] == d[k];
  }

  lemma IncrementExact(s: Store, k: string, delta: int, now: int, lag: nat)
    requires Valid(s) && NoTtls(ViewOf(s)) && Fits(s, IncrementOp(k, delta, lag), now)
    ensures ViewOf(Increment(s, k, delta, now, now + lag).0) == IncrementIn(ViewOf(s), k, delta, now, now + lag).0
  {
    hide OrderOk, Total, StampsOk, Set, RemoveIfExpired, SetFits, FromChars, ToString, Prune, NoTtls;
    NothingExpires(s, k, now);
    NothingExpires(s, k, now + lag);
    LiveIs(s, now + lag);
    var w := IncrementWrite(s, k, delta, now);
    if w.Some? { SetExact(s, w.value, now + lag); }
  }

  lemma DeleteExact(s: Store, k: string, now: int)
    requires Valid(s) && NoTtls(ViewOf(s))
    ensures ViewOf(Delete(s, [k], now).0) == DeleteFrom(ViewOf(s), [k]).0
    ensures Exists(s, [k], now).0 == s
  {
    hide OrderOk, Total, StampsOk;
    NothingExpires(s, k, now);
    assert [k][..0] == [];
    if k in s.entries { assert ViewOf(Erase(s, k)) == ViewOf(s) - {k}; }
  }

  lemma ReadExact(s: Store, k: string, now: int)
    requires Valid(s) && NoTtls(ViewOf(s))
    ensures ViewOf(Get(s, k, now).0) == ViewOf(s) && TtlSeconds(s, k, now).0 == s
  {
    hide OrderOk, Total, StampsOk, RemoveIfExpired;
    NothingExpires(s, k, now);
    if k in s.entries { assert ViewOf(Touched(s, k)) == ViewOf(s); }
  }

  lemma ExpireExact(s: Store, k: string, ttl: int, now: int)
    requires Valid(s) && NoTtls(ViewOf(s))
    ensures ViewOf(Expire(s, k, ttl, now).0) == ApplyTo(ViewOf(s), ExpireOp(k, ttl), now).0
  {
    hide OrderOk, Total, StampsOk, RemoveIfExpired;
    NothingExpires(s, k, now);
    if k in s.entries {
      var at := Some(now + ttl * NANOS_PER_MILLI);
      assert ViewOf(Erase(s, k)) == ViewOf(s) - {k};
      assert ViewOf(Rescheduled(s, k, at)) == ViewOf(s)[k := ViewOf(s)[k].(expiresAt := at)];
    }
  }

  /** Without TTLs an operation that fits does to the stored contents exactly what it does to a map. */
  lemma KeyExact(s: Store, op: Op, k: string, now: int)
    requires Valid(s) && NoTtls(ViewOf(s)) && OnKey(op, k) && Fits(s, op, now)
    ensures var (u, r) := Apply(s, op, now);
            (ViewOf(u), r) == ApplyTo(ViewOf(s), op, now)
  {
    hide Valid, ViewOf, Set, Increment, Get, Delete, Exists, Expire, TtlSeconds, DeleteFrom, CountIn, IncrementIn,
        Live, Prune, SetFits, NoTtls, Shows;
    NothingExpires(s, k, now);
    Refines(s, op, now);
    match op
    case GetOp(_) => ReadExact(s, k, now);
    case SetOp(request) => SetExact(s, request, now);
    case DeleteOp(keys) => DeleteExact(s, k, now);
    case ExistsOp(keys) => DeleteExact(s, k, now);
    case ExpireOp(_, ttl) => ExpireExact(s, k, ttl, now);
    case TtlOp(_) => ReadExact(s, k, now);
    case IncrementOp(_, delta, lag) => IncrementExact(s, k, delta, now, lag);
  }

  /** The reply of an operation refused for lack of memory. */
  function RefusedReply(op: Op): Reply {
    if op.IncrementOp? then Number(IncrementNoMemory) else Written(NoMemory)
  }

  lemma SetRefusal(s: Store, request: SetRequest, now: int)
    requires Valid(s) && NoTtls(ViewOf(s)) && s.policy == NoEviction && !SetFits(s, request, now)
    ensures Set(s, request, now) == (s, NoMemory)
  {
    hide Valid, Set, NoTtls, ViewOf;
    NothingExpires(s, request.key, now);
    SetRefusedIff(s, request, now);
    RefusedSetEvictsNothing(s, request, now);
  }

  lemma KeyRefusal(s: Store, op: Op, k: string, now: int)
    requires Valid(s) && NoTtls(ViewOf(s)) && s.policy == NoEviction && OnKey(op, k) && !Fits(s, op, now)
    ensures Apply(s, op, now) == (s, RefusedReply(op))
  {
    hide Valid, Set, NoTtls, ViewOf, SetFits, FromChars, ToString, RemoveIfExpired;
    NothingExpires(s, k, now);
    if op.SetOp? {
      SetRefusal(s, op.request, now);
    } else {
      SetRefusal(s, IncrementWrite(s, k, op.delta, now).value, now + op.lag);
    }
  }

  /** The same operation again, perhaps with another delay between an increment's clock readings. */
  predicate Again(a: Op, b: Op) {
    a == b || (a.IncrementOp? && b.IncrementOp? && b == IncrementOp(a.key, a.delta, b.lag))
  }

  lemma TwinFits(a: Store, b: Store, p: Op, q: Op, k: string, now: int, then_: int)
    requires Twin(a, b) && OnKey(p, k) && Again(p, q)
    ensures Fits(a, p, now) <==> Fits(b, q, then_)
  {
    hide OrderOk, Total, StampsOk, FromChars, ToString, RemoveIfExpired;
    NothingExpires(a, k, now);
    NothingExpires(b, k, then_);
    TwinUsage(a, b);
    assert k in a.entries <==> k in ViewOf(a);
    assert k in b.entries <==> k in ViewOf(b);
    if p.IncrementOp? {
      NothingExpires(a, k, now + p.lag);
      NothingExpires(b, k, then_ + q.lag);
    }
  }

  /** On a map without TTLs the clock does not matter to an operation that sets none. */
  lemma ClockFree(m: View, p: Op, q: Op, k: string, now: int, then_: int)
    requires NoTtls(m) && OnKey(p, k) && Again(p, q) && NoTtls(ApplyTo(m, p, now).0)
    ensures ApplyTo(m, p, now) == ApplyTo(m, q, then_)
  {
    hide FromChars, ToString;
    if p.IncrementOp? {
      assert Prune(m, now + p.lag) == m && Prune(m, then_ + q.lag) == m;
      var d := ApplyTo(m, p, now).0;
      assert k in m ==> m[k].expiresAt.None?;
    } else if p.SetOp? {
      var d := ApplyTo(m, p, now).0;
      if ConditionHolds(p.request.condition, k in m) { assert d[k].expiresAt == Deadline(now, p.request.ttl); }
    } else if p.ExpireOp? {
      var d := ApplyTo(m, p, now).0;
      assert k in d ==> d[k].expiresAt.None?;
    }
  }

  /** Twins stay twins and give the same reply to an operation that sets no TTL, if it fits or neither
      evicts. */
  lemma TwinStep(a: Store, b: Store, p: Op, q: Op, k: string, now: int, then_: int)
    requires Twin(a, b) && OnKey(p, k) && Again(p, q) && NoTtls(ViewOf(Apply(a, p, now).0))
    requires Fits(a, p, now) || a.policy == b.policy == NoEviction
    ensures Apply(a, p, now).1 == Apply(b, q, then_).1 && Twin(Apply(a, p, now).0, Apply(b, q, then_).0)
  {
    hide Valid, Apply, ApplyTo, ViewOf, NoTtls, Fits;
    TwinFits(a, b, p, q, k, now, then_);
    ApplyConfig(a, p, now);
    ApplyConfig(b, q, then_);
    if Fits(a, p, now) {
      KeyExact(a, p, k, now);
      KeyExact(b, q, k, then_);
      ClockFree(ViewOf(a), p, q, k, now, then_);
    } else {
      KeyRefusal(a, p, k, now);
      KeyRefusal(b, q, k, then_);
    }
  }

  /** An operation that, by its kind or its reply, changed nothing stored. */
  predicate Ineffective(op: Op, r: Reply) {
    match op
    case SetOp(_) => r != Written(Ok)
    case MSetOp(_) => r != Written(Ok)
    case IncrementOp(_, _, _) => !(r.Number? && r.number.Incremented?)
    case DeleteOp(_) => false
    case ExpireOp(_, _) => false
    case _ => true
  }

  lemma RefusedSet(s: Store, request: SetRequest, now: int)
    requires Valid(s) && NoTtls(ViewOf(s)) && Set(s, request, now).1 != Ok
    ensures Set(s, request, now).0 == s
  {
    hide Valid, Set, NoTtls, ViewOf;
    NothingExpires(s, request.key, now);
    RefusedSetEvictsNothing(s, request, now);
  }

  lemma RefusedIncrement(s: Store, k: string, delta: int, now: int, later: int)
    requires Valid(s) && NoTtls(ViewOf(s)) && !Increment(s, k, delta, now, later).1.Incremented?
    ensures Increment(s, k, delta, now, later).0 == s
  {
    hide Valid, Set, NoTtls, ViewOf, FromChars, ToString, RemoveIfExpired;
    NothingExpires(s, k, now);
    var w := IncrementWrite(s, k, delta, now);
    if w.Some? {
      UnconditionalSet(s, w.value, later);
      RefusedSet(s, w.value, later);
    }
  }

  /** Under any policy an ineffective operation leaves the contents alone. */
  lemma KeyIneffective(s: Store, op: Op, k: string, now: int)
    requires Valid(s) && NoTtls(ViewOf(s)) && OnKey(op, k) && (op.ExistsOp? || Ineffective(op, Apply(s, op, now).1))
    ensures ViewOf(Apply(s, op, now).0) == ViewOf(s)
  {
    hide Valid, Set, Increment, Get, Delete, Exists, TtlSeconds, ViewOf, NoTtls;
    match op
    case GetOp(_) => ReadExact(s, k, now);
    case TtlOp(_) => ReadExact(s, k, now);
    case ExistsOp(_) => DeleteExact(s, k, now);
    case SetOp(request) => RefusedSet(s, request, now);
    case IncrementOp(_, delta, lag) => RefusedIncrement(s, k, delta, now, now + lag);
  }

  /** Without eviction an operation that is accepted fits. */
  lemma AcceptedOpFits(s: Store, op: Op, k: string, now: int)
    requires Valid(s) && NoTtls(ViewOf(s)) && s.policy == NoEviction && OnKey(op, k)
    requires Apply(s, op, now).1 != RefusedReply(op)
    ensures Fits(s, op, now)
  {
    hide Valid, Apply, Fits, NoTtls, ViewOf;
    if !Fits(s, op, now) { KeyRefusal(s, op, k, now); }
  }

  // ---------------------------------------------------------------- batches and sweeps

  lemma SameErased(s: Store, a: seq<string>, b: seq<string>)
    requires Valid(s) && forall k :: k in a <==> k in b
    ensures EraseAll(s, a).usage == EraseAll(s, b).usage
  {
    hide OrderOk, Total, StampsOk, EraseAll;
    SameEntriesSameUsage(EraseAll(s, a), EraseAll(s, b));
  }

  lemma TwinMSetFits(a: Store, b: Store, values: Pairs)
    requires Twin(a, b) && MSetFits(a, values)
    ensures MSetFits(b, values)
  {
    hide Valid, BatchOf, EraseAll, BatchBytes, LastValues, ViewOf;
    var x, y := BatchOf(a.layout, values), BatchOf(b.layout, values);
    BatchBytesPermutation(x.order, y.order, LastValues(values));
    TwinErase(a, b, x.order);
    SameErased(b, x.order, y.order);
  }

  lemma TwinErase(a: Store, b: Store, keys: seq<string>)
    requires Valid(a) && Valid(b) && ViewOf(a) == ViewOf(b)
    ensures EraseAll(a, keys).usage == EraseAll(b, keys).usage
  {
    hide OrderOk, Total, StampsOk, EraseAll;
    SameCells(a, b);
    SameCells(b, a);
    var x, y := EraseAll(a, keys), EraseAll(b, keys);
    assert ViewOf(x) == ViewOf(y);
    TwinUsage(x, y);
  }

  lemma MSetExact(s: Store, values: Pairs)
    requires Valid(s) && MSetFits(s, values)
    ensures MSet(s, values).1 == Ok && ViewOf(MSet(s, values).0) == ViewOf(s) + Fresh(LastValues(values))
  {
    hide Valid, MSet, LastValues, MSetFits;
    var u, d := MSet(s, values).0, ViewOf(s) + Fresh(LastValues(values));
    forall k ensures (k in ViewOf(u) <==> k in d) && (k in d ==> ViewOf(u)[k] == d[k]) { FittingMSet(s, values, k); }
    FittingMSet(s, values, "");
    assert ViewOf(u) == d;
  }

  lemma TwinMSetResult(a: Store, b: Store, values: Pairs)
    requires Twin(a, b) && a.policy == b.policy == NoEviction
    ensures MSet(a, values).1 == MSet(b, values).1
  {
    hide Valid, MSet, BatchOf, EraseAll, BatchBytes, LastValues;
    var order := BatchOf(a.layout, values).order;
    OrderFacts(order, LastValues(values));
    MSetRefusedIff(a, values, order);
    MSetRefusedIff(b, values, order);
    TwinErase(a, b, order);
  }

  lemma TwinMSet(a: Store, b: Store, values: Pairs)
    requires Twin(a, b) && (MSetFits(a, values) || a.policy == b.policy == NoEviction)
    ensures MSet(a, values).1 == MSet(b, values).1 && Twin(MSet(a, values).0, MSet(b, values).0)
    ensures MSetFits(a, values) ==> MSet(a, values).1 == Ok
  {
    hide Valid, MSet, LastValues, MSetFits;
    MSetConfig(a, values);
    MSetConfig(b, values);
    if !MSetFits(a, values) {
      TwinMSetResult(a, b, values);
      if MSet(a, values).1 == Ok { AcceptedFits(a, values); }
    }
    if MSetFits(a, values) {
      TwinMSetFits(a, b, values);
      MSetExact(a, values);
      MSetExact(b, values);
    }
  }

  lemma TwinSweep(s: Store, samples: nat, now: int)
    requires Twin(s, s)
    ensures Twin(s, ActiveExpire(s, samples, now).0)
  {
    hide OrderOk, Total, StampsOk, Sweep;
    ApplyConfig(s, ActiveExpireOp(samples), now);
    SweepNothingExpired(s, Window(s, samples), now);
  }

  lemma {:induction false} SweepNothingExpired(s: Store, keys: seq<string>, now: int)
    requires Valid(s) && NoTtls(ViewOf(s))
    ensures Sweep(s, keys, now).0 == s
  {
    hide OrderOk, Total, StampsOk, RemoveIfExpired, NoTtls;
    if keys != [] {
      SweepNothingExpired(s, keys[..|keys| - 1], now);
      NothingExpires(s, keys[|keys| - 1], now);
    }
  }
}

/** Expiry transparency: sweeps inserted anywhere in a run change no reply. */
module Transparency {
  import opened Decimal
  import opened Store
  import opened StoreRuns
  import opened LiveMap

  /** Everything stored in `b` is stored in `a` with the same value and deadline. */
  ghost predicate Covers(a: Store, b: Store) {
    forall k :: k in b.entries ==> k in a.entries && CellOf(b.entries[k]) == CellOf(a.entries[k])
  }

  /** `b` is `a` after some of its expired entries were dropped earlier. */
  ghost predicate Similar(a: Store, b: Store, now: int) {
    Valid(a) && Valid(b) && SameConfig(a, b) && Covers(a, b) && Live(a, now) == Live(b, now)
  }

  lemma SimilarLater(a: Store, b: Store, now: int, later: int)
    requires Similar(a, b, now) && now <= later
    ensures Similar(a, b, later)
  {
    PruneTwice(ViewOf(a), now, later);
    PruneTwice(ViewOf(b), now, later);
  }

  // ---------------------------------------------------------------- memory

  lemma {:induction false} SubTotal(a: seq<string>, b: seq<string>, entries: map<string, Entry>)
    requires multiset(a) <= multiset(b)
    ensures Total(a, entries) <= Total(b, entries)
    decreases |a|
  {
    if a != [] {
      assert a == [a[0]] + a[1..];
      assert a[0] in multiset(b);
      TotalRemove(b, entries, a[0]);
      RemoveMultiset(b, a[0]);
      SubTotal(a[1..], Remove(b, a[0]), entries);
    }
  }

  lemma CoversUsage(a: Store, b: Store)
    requires Accounted(a) && Accounted(b) && Covers(a, b)
    ensures b.usage <= a.usage
  {
    OrderFacts(b.order, b.entries);
    assert b.entries.Keys <= a.entries.Keys;
    assert multiset(b.order) <= multiset(a.order);
    SubTotal(b.order, a.order, a.entries);
    TotalFrame(b.order, a.entries, b.entries);
  }

  /** The bytes stored apart from key `k`. */
  lemma CoversRest(a: Store, b: Store, k: string)
    requires Valid(a) && Valid(b) && Covers(a, b)
    ensures b.usage - Weight(b.entries, k) <= a.usage - Weight(a.entries, k)
  {
    hide OrderOk, Total, StampsOk;
    var x := if k in a.entries then Erase(a, k) else a;
    var y := if k in b.entries then Erase(b, k) else b;
    CoversUsage(x, y);
  }

  // ---------------------------------------------------------------- one step

  lemma PurgeCovers(a: Store, b: Store, k: string, now: int)
    requires Valid(a) && Valid(b) && Covers(a, b)
    ensures Covers(RemoveIfExpired(a, k, now), RemoveIfExpired(b, k, now))
  {
    hide OrderOk, Total, StampsOk;
  }

  lemma PurgeSimilar(a: Store, b: Store, k: string, now: int)
    requires Similar(a, b, now)
    ensures Similar(RemoveIfExpired(a, k, now), RemoveIfExpired(b, k, now), now)
    ensures k in RemoveIfExpired(a, k, now).entries <==> k in RemoveIfExpired(b, k, now).entries
  {
    hide OrderOk, Total, StampsOk, Live;
    PurgeLive(a, k, now);
    PurgeLive(b, k, now);
    PurgeCovers(a, b, k, now);
  }

  lemma SetCovers(a: Store, b: Store, request: SetRequest, now: int)
    requires Similar(a, b, now) && SetFits(a, request, now)
    ensures SetFits(b, request, now)
    ensures Covers(Set(a, request, now).0, Set(b, request, now).0)
  {
    hide OrderOk, Total, StampsOk, Set, RemoveIfExpired, Live;
    PurgeSimilar(a, b, request.key, now);
    var x, y := RemoveIfExpired(a, request.key, now), RemoveIfExpired(b, request.key, now);
    CoversRest(x, y, request.key);
    FittingSet(a, request, now);
    FittingSet(b, request, now);
  }

  lemma MSetFitsToo(a: Store, b: Store, values: seq<(string, string)>)
    requires Valid(a) && Valid(b) && SameConfig(a, b) && Covers(a, b) && MSetFits(a, values)
    ensures MSetFits(b, values)
  {
    hide OrderOk, Total, StampsOk, BatchOf, EraseAll, BatchBytes;
    var batch := BatchOf(a.layout, values);
    CoversUsage(EraseAll(a, batch.order), EraseAll(b, batch.order));
  }

  lemma MSetCovers(a: Store, b: Store, values: seq<(string, string)>)
    requires Valid(a) && Valid(b) && SameConfig(a, b) && Covers(a, b) && MSetFits(a, values)
    ensures MSetFits(b, values) && Covers(MSet(a, values).0, MSet(b, values).0)
  {
    hide OrderOk, Total, StampsOk, MSet, MSetFits;
    MSetFitsToo(a, b, values);
    forall k | k in MSet(b, values).0.entries
      ensures k in MSet(a, values).0.entries && CellOf(MSet(b, values).0.entries[k]) ==
              CellOf(MSet(a, values).0.entries[k])
    {
      FittingMSet(a, values, k);
      FittingMSet(b, values, k);
    }
  }

  lemma {:induction false} DeleteCovers(a: Store, b: Store, keys: seq<string>, now: int)
    requires Similar(a, b, now)
    ensures Covers(Delete(a, keys, now).0, Delete(b, keys, now).0)
  {
    hide OrderOk, Total, StampsOk, Live;
    if keys != [] {
      var n := |keys| - 1;
      DeleteCovers(a, b, keys[..n], now);
      PurgeCovers(Delete(a, keys[..n], now).0, Delete(b, keys[..n], now).0, keys[n], now);
    }
  }

  lemma {:induction false} ExistsCovers(a: Store, b: Store, keys: seq<string>, now: int)
    requires Valid(a) && Valid(b) && Covers(a, b)
    ensures Covers(Exists(a, keys, now).0, Exists(b, keys, now).0)
  {
    hide OrderOk, Total, StampsOk;
    if keys != [] {
      var n := |keys| - 1;
      ExistsCovers(a, b, keys[..n], now);
      PurgeCovers(Exists(a, keys[..n], now).0, Exists(b, keys[..n], now).0, keys[n], now);
    }
  }

  lemma GetCovers(a: Store, b: Store, k: string, now: int)
    requires Similar(a, b, now)
    ensures Covers(Get(a, k, now).0, Get(b, k, now).0)
  {
    hide OrderOk, Total, StampsOk, Live, RemoveIfExpired;
    PurgeSimilar(a, b, k, now);
  }

  lemma ExpireCovers(a: Store, b: Store, k: string, ttl: int, now: int)
    requires Similar(a, b, now)
    ensures Covers(Expire(a, k, ttl, now).0, Expire(b, k, ttl, now).0)
  {
    hide OrderOk, Total, StampsOk, Live, RemoveIfExpired;
    PurgeSimilar(a, b, k, now);
  }

  lemma IncrementCovers(a: Store, b: Store, k: string, delta: int, now: int, lag: nat)
    requires Similar(a, b, now) && Fits(a, IncrementOp(k, delta, lag), now)
    ensures Fits(b, IncrementOp(k, delta, lag), now)
    ensures Covers(Increment(a, k, delta, now, now + lag).0, Increment(b, k, delta, now, now + lag).0)
  {
    hide OrderOk, Total, StampsOk, Live, RemoveIfExpired, Set, FromChars, ToString, SetFits;
    PurgeSimilar(a, b, k, now);
    var x, y := RemoveIfExpired(a, k, now), RemoveIfExpired(b, k, now);
    assert k in x.entries ==> CellOf(y.entries[k]) == CellOf(x.entries[k]);
    var w := IncrementWrite(a, k, delta, now);
    assert w == IncrementWrite(b, k, delta, now);
    if w.Some? {
      SimilarLater(x, y, now, now + lag);
      SetCovers(x, y, w.value, now + lag);
    }
  }

  lemma {:induction false} SweepCovers(s: Store, keys: seq<string>, now: int)
    requires Valid(s)
    ensures Covers(s, Sweep(s, keys, now).0)
  {
    hide OrderOk, Total, StampsOk;
    if keys != [] { SweepCovers(s, keys[..|keys| - 1], now); }
  }

  lemma ActiveExpireSimilar(a: Store, b: Store, samples: nat, now: int)
    requires Similar(a, b, now)
    ensures Similar(a, ActiveExpire(b, samples, now).0, now)
  {
    hide OrderOk, Total, StampsOk, Sweep, Live;
    ActiveExpireLive(b, samples, now);
    ApplyConfig(b, ActiveExpireOp(samples), now);
    SweepCovers(b, Window(b, samples), now);
  }

  lemma StepCovers(a: Store, b: Store, op: Op, now: int)
    requires Similar(a, b, now) && Fits(a, op, now) && !op.ActiveExpireOp?
    ensures Fits(b, op, now) && Covers(Apply(a, op, now).0, Apply(b, op, now).0)
  {
    hide OrderOk, Total, StampsOk, Live, Covers, Set, MSet, Increment, Get, Delete, Exists, Expire, SetFits, MSetFits,
        Similar;
    match op
    case GetOp(k) => GetCovers(a, b, k, now);
    case SetOp(request) => SetCovers(a, b, request, now);
    case MSetOp(values) => SimilarParts(a, b, now); MSetCovers(a, b, values);
    case DeleteOp(keys) => DeleteCovers(a, b, keys, now);
    case ExistsOp(keys) => SimilarParts(a, b, now); ExistsCovers(a, b, keys, now);
    case ExpireOp(k, ttl) => ExpireCovers(a, b, k, ttl, now);
    case TtlOp(k) => SimilarParts(a, b, now); PurgeCovers(a, b, k, now);
    case IncrementOp(k, delta, lag) => IncrementCovers(a, b, k, delta, now, lag);
  }

  lemma SimilarParts(a: Store, b: Store, now: int)
    requires Similar(a, b, now)
    ensures Valid(a) && Valid(b) && SameConfig(a, b) && Covers(a, b) && Live(a, now) == Live(b, now)
  {
  }

  /** An operation that fits in `a` fits in `b`, replies the same, and keeps them similar. */
  lemma StepSimilar(a: Store, b: Store, op: Op, now: int)
    requires Similar(a, b, now) && Fits(a, op, now) && !op.ActiveExpireOp?
    ensures Fits(b, op, now) && Apply(a, op, now).1 == Apply(b, op, now).1
    ensures Similar(Apply(a, op, now).0, Apply(b, op, now).0, After(op, now))
  {
    hide Valid, Live, Covers, Apply, ApplyTo, Fits, Prune;
    StepCovers(a, b, op, now);
    Refines(a, op, now);
    Refines(b, op, now);
    ApplyConfig(a, op, now);
    ApplyConfig(b, op, now);
  }

  // ---------------------------------------------------------------- runs

  function WithoutSweeps(run: seq<Timed>): seq<Timed> {
    if run == [] then []
    else
      var n := |run| - 1;
      WithoutSweeps(run[..n]) + if run[n].op.ActiveExpireOp? then [] else [run[n]]
  }

  /** The replies to the operations other than sweeps. */
  function Replies(s: Store, run: seq<Timed>): seq<Reply>
    requires Valid(s)
  {
    if run == [] then []
    else
      var n := |run| - 1;
      Replies(s, run[..n]) +
      if run[n].op.ActiveExpireOp? then [] else [Apply(Run(s, run[..n]), run[n].op, run[n].now).1]
  }

  /** The clock never goes back. */
  ghost predicate Ordered(run: seq<Timed>) {
    forall i, j :: 0 <= i < j < |run| ==> After(run[i].op, run[i].now) <= run[j].now
  }

  ghost predicate FitsAll(s: Store, run: seq<Timed>)
    requires Valid(s)
  {
    forall i :: 0 <= i < |run| ==> Fits(Run(s, run[..i]), run[i].op, run[i].now)
  }

  ghost predicate EndsBy(run: seq<Timed>, t: int) {
    forall i :: 0 <= i < |run| ==> After(run[i].op, run[i].now) <= t
  }

  lemma FitsPrefix(s: Store, base: seq<Timed>, x: Timed)
    requires Valid(s) && FitsAll(s, base + [x])
    ensures FitsAll(s, base) && Fits(Run(s, base), x.op, x.now)
  {
    hide Fits, Run;
    forall i | 0 <= i < |base| ensures Fits(Run(s, base[..i]), base[i].op, base[i].now) {
      assert (base + [x])[..i] == base[..i];
    }
    assert (base + [x])[..|base|] == base;
  }

  lemma RunSnoc(s: Store, base: seq<Timed>, x: Timed)
    requires Valid(s)
    ensures Run(s, base + [x]) == Apply(Run(s, base), x.op, x.now).0
    ensures !x.op.ActiveExpireOp? ==> Replies(s, base + [x]) == Replies(s, base) + [Apply(Run(s, base), x.op, x.now).1]
  {
    hide Apply;
    assert (base + [x])[..|base|] == base;
  }

  /** Expiry transparency: with a clock that never goes back and no memory pressure in the run without
      sweeps, sweeps of any budget inserted anywhere change no reply. */
  lemma {:induction false} SweepsAreInvisible(s: Store, run: seq<Timed>, t: int)
    requires Valid(s) && Ordered(run) && EndsBy(run, t) && FitsAll(s, WithoutSweeps(run))
    ensures Replies(s, run) == Replies(s, WithoutSweeps(run))
    ensures Similar(Run(s, WithoutSweeps(run)), Run(s, run), t)
  {
    hide Valid, Apply, Fits, FitsAll, Live, Covers, Similar;
    if run == [] {
      SimilarSelf(s, t);
    } else {
      var n := |run| - 1;
      var x, init := run[n], run[..n];
      var base := WithoutSweeps(init);
      if x.op.ActiveExpireOp? {
        assert WithoutSweeps(run) == base + [] == base;
        SweepsAreInvisible(s, init, x.now);
        ActiveExpireSimilar(Run(s, base), Run(s, init), x.op.samples, x.now);
        AppliedSweep(Run(s, init), x.op.samples, x.now);
        SimilarLater(Run(s, base), Run(s, run), x.now, t);
        assert Replies(s, init) + [] == Replies(s, init);
      } else {
        FitsPrefix(s, base, x);
        SweepsAreInvisible(s, init, x.now);
        StepSimilar(Run(s, base), Run(s, init), x.op, x.now);
        RunSnoc(s, base, x);
        SimilarLater(Run(s, base + [x]), Run(s, run), After(x.op, x.now), t);
      }
    }
  }

  lemma SimilarSelf(s: Store, t: int)
    requires Valid(s)
    ensures Similar(s, s, t)
  {
  }

  lemma AppliedSweep(s: Store, samples: nat, now: int)
    requires Valid(s)
    ensures Apply(s, ActiveExpireOp(samples), now).0 == ActiveExpire(s, samples, now).0
  {
  }
}

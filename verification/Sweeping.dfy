/** What active expiry removes, and that repeated bounded sweeps drain every expired entry. */
module Sweeping {
  import opened Store

  ghost predicate Expired(s: Store, k: string, now: int) {
    k in s.entries && IsExpired(s.entries[k], now)
  }

  // ---------------------------------------------------------------- one sweep

  /** A sweep of `keys` removes exactly the expired ones among them and counts them. */
  lemma {:induction false} SweepExact(s: Store, keys: seq<string>, now: int, k: string)
    requires Valid(s)
    ensures var t := Sweep(s, keys, now).0;
            && (k in t.entries <==> k in s.entries && !(k in keys && Expired(s, k, now)))
            && (k in t.entries ==> t.entries[k] == s.entries[k])
  {
    hide OrderOk, Total, StampsOk;
    if keys != [] {
      var n := |keys| - 1;
      assert keys == keys[..n] + [keys[n]];
      SweepExact(s, keys[..n], now, k);
      SweepExact(s, keys[..n], now, keys[n]);
    }
  }

  lemma {:induction false} SweepCount(s: Store, keys: seq<string>, now: int)
    requires Valid(s)
    ensures var (t, n) := Sweep(s, keys, now);
            |t.order| + n == |s.order| && (n == 0 ==> t == s)
  {
    hide OrderOk, Total, StampsOk;
    if keys != [] {
      var m := |keys| - 1;
      SweepCount(s, keys[..m], now);
      var t := Sweep(s, keys[..m], now).0;
      if Expired(t, keys[m], now) { EraseAccounting(t, keys[m]); }
    }
  }

  /** One call examines each key of its window once and removes exactly the expired ones there. */
  lemma ActiveExpireExact(s: Store, samples: nat, now: int, k: string)
    requires Valid(s)
    ensures var (t, n) := ActiveExpire(s, samples, now);
            && (k in t.entries <==> k in s.entries && !(k in Window(s, samples) && Expired(s, k, now)))
            && (k in t.entries ==> t.entries[k] == s.entries[k])
            && n == |s.order| - |t.order|
  {
    hide OrderOk, Total, StampsOk, Sweep;
    SweepExact(s, Window(s, samples), now, k);
    SweepCount(s, Window(s, samples), now);
  }

  lemma RotationOnce(order: seq<string>, start: nat)
    requires start <= |order| && forall i, j :: 0 <= i < j < |order| ==> order[i] != order[j]
    ensures var r := Rotation(order, start);
            (forall i, j :: 0 <= i < j < |r| ==> r[i] != r[j]) && multiset(r) == multiset(order)
  {
    assert order == order[..start] + order[start..];
  }

  /** The window never lists a key twice, and with a budget of at least the size it lists them all. */
  lemma WindowOnce(s: Store, samples: nat)
    requires Valid(s)
    ensures var w := Window(s, samples);
            && (forall i, j :: 0 <= i < j < |w| ==> w[i] != w[j])
            && (samples >= |s.order| ==> multiset(w) == multiset(s.order))
  {
    hide OrderOk, Total, StampsOk, Rotation;
    if s.order != [] {
      OrderFacts(s.order, s.entries);
      var skip := s.scan % |s.order|;
      RotationOnce(s.order, skip);
      var r := Rotation(s.order, skip);
      assert |r| == |multiset(r)|;
      assert r[..|r|] == r;
    }
  }

  /** A full sweep leaves nothing expired. */
  lemma FullSweep(s: Store, samples: nat, now: int, k: string)
    requires Valid(s) && samples >= |s.order|
    ensures !Expired(ActiveExpire(s, samples, now).0, k, now)
  {
    hide OrderOk, Total, StampsOk, Sweep;
    ActiveExpireExact(s, samples, now, k);
    WindowOnce(s, samples);
    OrderFacts(s.order, s.entries);
    if k in s.entries {
      assert k in multiset(s.order);
      assert k in multiset(Window(s, samples));
    }
  }

  // ---------------------------------------------------------------- repeated sweeps

  /** `calls` consecutive sweeps of budget `samples` at one clock reading. */
  function Sweeps(s: Store, samples: nat, calls: nat, now: int): (r: Store)
    requires Valid(s)
    ensures Valid(r)
    decreases calls
  {
    hide Valid, ActiveExpire;
    if calls == 0 then s else Sweeps(ActiveExpire(s, samples, now).0, samples, calls - 1, now)
  }

  lemma {:induction false} SweepsShrink(s: Store, samples: nat, calls: nat, now: int)
    requires Valid(s)
    ensures |Sweeps(s, samples, calls, now).order| <= |s.order|
    ensures forall k :: Expired(Sweeps(s, samples, calls, now), k, now) ==> Expired(s, k, now)
    decreases calls
  {
    hide OrderOk, Total, StampsOk, ActiveExpire;
    if calls > 0 {
      SweepsShrink(ActiveExpire(s, samples, now).0, samples, calls - 1, now);
      forall k ensures Expired(ActiveExpire(s, samples, now).0, k, now) ==> Expired(s, k, now) {
        ActiveExpireExact(s, samples, now, k);
      }
      ActiveExpireExact(s, samples, now, "");
    }
  }

  /** How far position `p` of `n` lies ahead of the scan offset, going around. */
  function Ahead(n: nat, scan: nat, p: nat): (r: nat)
    requires p < n
    ensures r < n
  {
    var skip := scan % n;
    if p >= skip then p - skip else p + n - skip
  }

  lemma WindowReaches(s: Store, samples: nat, p: nat)
    requires p < |s.order| && Ahead(|s.order|, s.scan, p) < samples
    ensures s.order[p] in Window(s, samples)
  {
    var skip, d := s.scan % |s.order|, Ahead(|s.order|, s.scan, p);
    assert Rotation(s.order, skip)[d] == s.order[p];
    assert Window(s, samples)[d] == s.order[p];
  }

  /** Reducing a number below twice the modulus. */
  lemma Reduced(a: nat, n: nat)
    requires a < 2 * n
    ensures a % n == if a < n then a else a - n
  {
  }

  lemma Advance(n: nat, scan: nat, samples: nat, p: nat)
    requires p < n && 0 < samples <= Ahead(n, scan, p)
    ensures Ahead(n, (scan % n + samples) % n, p) == Ahead(n, scan, p) - samples
  {
    var skip := scan % n;
    assert 0 <= skip < n;
    Reduced(skip + samples, n);
    var next := (skip + samples) % n;
    Reduced(next, n);
    assert next % n == next;
  }

  /** A sweep that removes nothing only moves the scan offset. */
  lemma FruitlessSweep(s: Store, samples: nat, now: int)
    requires Valid(s) && 0 < samples <= |s.order|
    requires |ActiveExpire(s, samples, now).0.order| == |s.order|
    ensures ActiveExpire(s, samples, now).0 == s.(scan := (s.scan % |s.order| + samples) % |s.order|)
  {
    hide OrderOk, Total, StampsOk, Sweep;
    var window := Window(s, samples);
    assert |window| == samples;
    SweepCount(s, window, now);
    assert Sweep(s, window, now).1 == 0;
  }

  /** If position `p` holds an expired entry less than `calls * samples` ahead of the scan offset, the
      calls remove at least one entry. */
  lemma {:induction false} SweepsReach(s: Store, samples: nat, calls: nat, now: int, p: nat)
    requires Valid(s) && p < |s.order| && Expired(s, s.order[p], now)
    requires samples > 0 && Ahead(|s.order|, s.scan, p) < calls * samples
    ensures |Sweeps(s, samples, calls, now).order| < |s.order|
    decreases calls
  {
    hide OrderOk, Total, StampsOk, ActiveExpire, Ahead;
    var t := ActiveExpire(s, samples, now).0;
    assert calls >= 1;
    ActiveExpireExact(s, samples, now, s.order[p]);
    SweepsShrink(t, samples, calls - 1, now);
    if Ahead(|s.order|, s.scan, p) < samples {
      WindowReaches(s, samples, p);
      forall j | j in t.entries ensures j in s.entries { ActiveExpireExact(s, samples, now, j); }
      GoneIsShorter(s, t, s.order[p]);
    } else if |t.order| == |s.order| {
      FruitlessSweep(s, samples, now);
      Advance(|s.order|, s.scan, samples, p);
      assert (calls - 1) * samples == calls * samples - samples;
      SweepsReach(t, samples, calls - 1, now, p);
    }
  }

  lemma GoneIsShorter(s: Store, t: Store, k: string)
    requires Valid(s) && Valid(t) && |t.order| <= |s.order|
    requires k in s.entries && k !in t.entries && forall j :: j in t.entries ==> j in s.entries
    ensures |t.order| < |s.order|
  {
    OrderFacts(s.order, s.entries);
    OrderFacts(t.order, t.entries);
    assert t.entries.Keys <= s.entries.Keys - {k};
    SubsetSize(t.entries.Keys, s.entries.Keys - {k});
  }

  lemma {:induction false} SubsetSize(a: set<string>, b: set<string>)
    requires a <= b
    ensures |a| <= |b|
  {
    if a != {} {
      var x :| x in a;
      SubsetSize(a - {x}, b - {x});
    }
  }

  /** Any `calls` consecutive sweeps whose budgets add up to the size remove at least one entry if any
      is expired. */
  lemma SweepsRemoveOne(s: Store, samples: nat, calls: nat, now: int, k: string)
    requires Valid(s) && samples > 0 && calls * samples >= |s.order| && Expired(s, k, now)
    ensures |Sweeps(s, samples, calls, now).order| < |s.order|
  {
    OrderFacts(s.order, s.entries);
    var p :| 0 <= p < |s.order| && s.order[p] == k;
    assert Ahead(|s.order|, s.scan, p) < |s.order|;
    SweepsReach(s, samples, calls, now, p);
  }

  lemma {:induction false} SweepsCompose(s: Store, samples: nat, a: nat, b: nat, now: int)
    requires Valid(s)
    ensures Sweeps(s, samples, a + b, now) == Sweeps(Sweeps(s, samples, a, now), samples, b, now)
    decreases a
  {
    hide Valid, ActiveExpire;
    if a > 0 { SweepsCompose(ActiveExpire(s, samples, now).0, samples, a - 1, b, now); }
  }

  /** Repeated sweeps drain: after as many rounds as there are entries, each round covering the size,
      nothing expired is left. */
  lemma {:induction false} SweepsDrain(s: Store, samples: nat, calls: nat, rounds: nat, now: int, k: string)
    requires Valid(s) && samples > 0 && calls * samples >= |s.order| && rounds >= |s.order|
    ensures !Expired(Sweeps(s, samples, calls * rounds, now), k, now)
    decreases rounds
  {
    hide OrderOk, Total, StampsOk, ActiveExpire, Sweeps;
    SweepsShrink(s, samples, calls * rounds, now);
    if Expired(s, k, now) {
      EntriesListed(s, k);
      var t := Sweeps(s, samples, calls, now);
      SweepsRemoveOne(s, samples, calls, now, k);
      assert calls * rounds == calls + calls * (rounds - 1);
      SweepsCompose(s, samples, calls, calls * (rounds - 1), now);
      SweepsDrain(t, samples, calls, rounds - 1, now, k);
    }
  }

  lemma EntriesListed(s: Store, k: string)
    requires Valid(s) && k in s.entries
    ensures |s.order| > 0
  {
    OrderFacts(s.order, s.entries);
  }
}

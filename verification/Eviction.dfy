/** What eviction removes, and when a write is refused for lack of memory. */
module Eviction {
  import opened Wrappers
  import opened Store

  /** The key an eviction pass must not remove. */
  predicate Protects(protected: Option<string>, k: string) {
    Some(k) == protected
  }

  ghost predicate CanEvict(s: Store, projected: nat, protected: Option<string>) {
    Valid(s) && projected >= s.usage - (if protected.Some? then Weight(s.entries, protected.value) else 0)
  }

  // ---------------------------------------------------------------- victim selection

  lemma {:induction false} ScanLru(entries: map<string, Entry>, order: seq<string>, protected: Option<string>)
    requires forall k :: k in order ==> k in entries
    ensures var r := Scan(Lru, entries, order, protected);
            r.Some? ==> forall k :: k in order && !Protects(protected, k) ==>
                entries[r.value].lastAccess <= entries[k].lastAccess
  {
    if order != [] {
      var n := |order| - 1;
      assert order == order[..n] + [order[n]];
      ScanLru(entries, order[..n], protected);
    }
  }

  lemma {:induction false} ScanLfu(entries: map<string, Entry>, order: seq<string>, protected: Option<string>)
    requires forall k :: k in order ==> k in entries
    ensures var r := Scan(Lfu, entries, order, protected);
            r.Some? ==> forall k :: k in order && !Protects(protected, k) ==>
                entries[r.value].frequency <= entries[k].frequency
  {
    if order != [] {
      var n := |order| - 1;
      assert order == order[..n] + [order[n]];
      ScanLfu(entries, order[..n], protected);
    }
  }

  /** Under LRU the victim is the least recently touched unprotected entry. */
  lemma LruVictim(s: Store, protected: Option<string>)
    requires Valid(s) && s.policy == Lru && SelectVictim(s, protected).1.Some?
    ensures var v := SelectVictim(s, protected).1.value;
            forall k :: k in s.entries && k != v && !Protects(protected, k) ==>
                s.entries[v].lastAccess < s.entries[k].lastAccess
  {
    OrderFacts(s.order, s.entries);
    ScanLru(s.entries, s.order, protected);
    hide Scan, OrderOk, Total;
  }

  lemma LfuVictim(s: Store, protected: Option<string>)
    requires Valid(s) && s.policy == Lfu && SelectVictim(s, protected).1.Some?
    ensures var v := SelectVictim(s, protected).1.value;
            forall k :: k in s.entries && !Protects(protected, k) ==> s.entries[v].frequency <= s.entries[k].frequency
  {
    OrderFacts(s.order, s.entries);
    ScanLfu(s.entries, s.order, protected);
    hide Scan, OrderOk, Total;
  }

  /** Under Random every entry that may be evicted can be the victim: some value of the generator draws it. */
  lemma RandomPicksAny(s: Store, protected: Option<string>, k: string) returns (drawn: nat)
    requires Valid(s) && s.policy == Random && k in s.entries && !Protects(protected, k)
    requires |s.order| > if protected.Some? then 1 else 0
    ensures var t := s.(generator := _ => drawn); Accounted(t) && SelectVictim(t, protected) == (drawn, Some(k))
  {
    OrderFacts(s.order, s.entries);
    drawn :| 0 <= drawn < |s.order| && s.order[drawn] == k;
    hide OrderOk, Total, StampsOk, Scan;
    Drawn(s.(generator := _ => drawn), protected, drawn);
  }

  lemma Drawn(s: Store, protected: Option<string>, drawn: nat)
    requires Accounted(s) && s.policy == Random && |s.order| > if protected.Some? then 1 else 0
    requires s.generator(s.random) == drawn < |s.order| && !Protects(protected, s.order[drawn])
    ensures SelectVictim(s, protected) == (drawn, Some(s.order[drawn]))
  {
    hide OrderOk, Total, Scan;
    assert drawn % |s.order| == drawn;
  }

  // ---------------------------------------------------------------- what a pass removes

  ghost predicate Evicted(s: Store, t: Store, k: string) {
    k in s.entries && k !in t.entries
  }

  /** The protected key survives. */
  lemma {:induction false} ProtectedSurvives(s: Store, projected: nat, protected: Option<string>, k: string)
    requires CanEvict(s, projected, protected) && Protects(protected, k) && k in s.entries
    ensures k in Evict(s, projected, protected).0.entries
    decreases |s.order|
  {
    hide OrderOk, Total, StampsOk, SelectVictim, Evict;
    if projected <= s.maxmemory {
      EvictDone(s, projected, protected);
    } else {
      EvictUnfold(s, projected, protected);
      var (random, victim) := SelectVictim(s, protected);
      if victim.Some? {
        ProtectedSurvives(Erase(Seeded(s, random), victim.value), projected - Weight(s.entries, victim.value),
            protected, k);
      }
    }
  }

  /** Under LRU an eviction pass removes the least recently touched unprotected entries. */
  lemma {:induction false} LruEvictsOldest(
      s: Store, projected: nat, protected: Option<string>, gone: string, kept: string)
    requires CanEvict(s, projected, protected) && s.policy == Lru
    requires var t := Evict(s, projected, protected).0;
             Evicted(s, t, gone) && kept in t.entries && kept in s.entries && !Protects(protected, kept)
    ensures s.entries[gone].lastAccess < s.entries[kept].lastAccess
    decreases |s.order|
  {
    hide OrderOk, Total, StampsOk, SelectVictim, Evict;
    if projected <= s.maxmemory {
      EvictDone(s, projected, protected);
    } else {
      EvictUnfold(s, projected, protected);
      var (random, victim) := SelectVictim(s, protected);
      if victim.Some? {
        var t := Erase(Seeded(s, random), victim.value);
        LruVictim(s, protected);
        EvictShrinks(t, projected - Weight(s.entries, victim.value), protected);
        if gone != victim.value {
          LruEvictsOldest(t, projected - Weight(s.entries, victim.value), protected, gone, kept);
        }
      }
    }
  }

  /** Under LFU no unprotected survivor was used less often than a victim. */
  lemma {:induction false} LfuEvictsLeastUsed(
      s: Store, projected: nat, protected: Option<string>, gone: string, kept: string)
    requires CanEvict(s, projected, protected) && s.policy == Lfu
    requires var t := Evict(s, projected, protected).0;
             Evicted(s, t, gone) && kept in t.entries && kept in s.entries && !Protects(protected, kept)
    ensures s.entries[gone].frequency <= s.entries[kept].frequency
    decreases |s.order|
  {
    hide OrderOk, Total, StampsOk, SelectVictim, Evict;
    if projected <= s.maxmemory {
      EvictDone(s, projected, protected);
    } else {
      EvictUnfold(s, projected, protected);
      var (random, victim) := SelectVictim(s, protected);
      if victim.Some? {
        var t := Erase(Seeded(s, random), victim.value);
        LfuVictim(s, protected);
        EvictShrinks(t, projected - Weight(s.entries, victim.value), protected);
        if gone != victim.value {
          LfuEvictsLeastUsed(t, projected - Weight(s.entries, victim.value), protected, gone, kept);
        }
      }
    }
  }

  /** A pass stops as soon as the bytes fit: putting back its last victim would exceed the ceiling.
      Under LRU that last victim is the most recently touched of those removed, so the number removed
      is the least that fits. */
  lemma {:induction false} EvictsNoMoreThanNeeded(s: Store, projected: nat, protected: Option<string>)
      returns (last: string)
    requires CanEvict(s, projected, protected) && Evict(s, projected, protected).1 && projected > s.maxmemory
    ensures var t := Evict(s, projected, protected).0;
            && Evicted(s, t, last)
            && projected - (s.usage - t.usage) + Weight(s.entries, last) > s.maxmemory
            && (s.policy == Lru ==>
                  forall k :: Evicted(s, t, k) ==> s.entries[k].lastAccess <= s.entries[last].lastAccess)
    decreases |s.order|
  {
    hide OrderOk, Total, StampsOk, SelectVictim, Evict;
    EvictUnfold(s, projected, protected);
    var (random, victim) := SelectVictim(s, protected);
    if victim.None? {
      last := "";
    } else {
      var t, left := Erase(Seeded(s, random), victim.value), projected - Weight(s.entries, victim.value);
      if left <= s.maxmemory {
        EvictDone(t, left, protected);
        last := victim.value;
      } else {
        last := EvictsNoMoreThanNeeded(t, left, protected);
        if Protects(protected, last) { ProtectedSurvives(t, left, protected, last); }
        if s.policy == Lru {
          LruVictim(s, protected);
          forall k | Evicted(s, Evict(s, projected, protected).0, k)
            ensures s.entries[k].lastAccess <= s.entries[last].lastAccess
          {
            assert k == victim.value || Evicted(t, Evict(t, left, protected).0, k);
          }
        }
      }
    }
  }

  /** Under LRU the survivors do not depend on the hash map's iteration order. */
  lemma {:induction false} LruOrderIndependent(a: Store, b: Store, projected: nat, protected: Option<string>)
    requires CanEvict(a, projected, protected) && CanEvict(b, projected, protected)
    requires a.policy == b.policy == Lru && a.entries == b.entries && a.maxmemory == b.maxmemory && a.usage == b.usage
    ensures Evict(a, projected, protected).0.entries == Evict(b, projected, protected).0.entries
    ensures Evict(a, projected, protected).1 == Evict(b, projected, protected).1
    decreases |a.order|
  {
    hide OrderOk, Total, StampsOk, SelectVictim, Evict;
    if projected <= a.maxmemory {
      EvictDone(a, projected, protected);
      EvictDone(b, projected, protected);
    } else {
      EvictUnfold(a, projected, protected);
      EvictUnfold(b, projected, protected);
      var (r, v) := SelectVictim(a, protected);
      var (q, w) := SelectVictim(b, protected);
      if v.Some? && w.Some? {
        LruVictim(a, protected);
        LruVictim(b, protected);
        assert v == w;
        LruOrderIndependent(Erase(Seeded(a, r), v.value), Erase(Seeded(b, q), w.value),
                            projected - Weight(a.entries, v.value), protected);
      }
    }
  }

  // ---------------------------------------------------------------- refused writes

  /** With nothing but the protected entry left, the usage is that entry's. */
  lemma OnlyProtectedLeft(s: Store, protected: Option<string>)
    requires Accounted(s) && forall k :: k in s.entries ==> Protects(protected, k)
    ensures s.usage == if protected.Some? then Weight(s.entries, protected.value) else 0
  {
    OrderFacts(s.order, s.entries);
    hide OrderOk;
    if s.order != [] {
      assert s.order[0] in s.order;
      assert s.order[|s.order| - 1] in s.order;
      assert s.order[|s.order| - 1] == s.order[0];
      assert |s.order| == 1 && s.order[1..] == [];
      assert Total([], s.entries) == 0;
    }
  }

  /** A pass succeeds whenever evicting everything evictable would make room. */
  lemma {:induction false} EvictSucceeds(s: Store, projected: nat, protected: Option<string>)
    requires CanEvict(s, projected, protected)
    requires projected - (s.usage - (if protected.Some? then Weight(s.entries, protected.value) else 0)) <= s.maxmemory
    ensures Evict(s, projected, protected).1
    decreases |s.order|
  {
    hide OrderOk, Total, StampsOk, SelectVictim, Evict;
    if projected <= s.maxmemory {
      EvictDone(s, projected, protected);
    } else {
      EvictUnfold(s, projected, protected);
      var (random, victim) := SelectVictim(s, protected);
      if victim.None? {
        OnlyProtectedLeft(s, protected);
      } else {
        EvictSucceeds(Erase(Seeded(s, random), victim.value), projected - Weight(s.entries, victim.value), protected);
      }
    }
  }

  /** A write whose condition holds is refused exactly when it cannot fit: under an evicting policy
      when its entry alone exceeds the ceiling, under no-eviction when the store would exceed it. */
  lemma SetRefusedIff(s: Store, request: SetRequest, now: int)
    requires Valid(s)
    requires ConditionHolds(request.condition, request.key in RemoveIfExpired(s, request.key, now).entries)
    ensures var t := RemoveIfExpired(s, request.key, now);
            var bytes := EntryBytes(request.key, request.value);
            Set(s, request, now).1 == NoMemory <==>
              if s.policy == NoEviction then t.usage - Weight(t.entries, request.key) + bytes > s.maxmemory
              else bytes > s.maxmemory
  {
    hide OrderOk, Total, StampsOk, Evict;
    var t := RemoveIfExpired(s, request.key, now);
    var bytes := EntryBytes(request.key, request.value);
    AtLeastOwn(t, request.key);
    if bytes <= s.maxmemory && s.policy != NoEviction {
      EvictSucceeds(t, t.usage - Weight(t.entries, request.key) + bytes, Some(request.key));
    }
  }

  /** A refused write evicts nothing: at most the written key's own expired entry is dropped. */
  lemma RefusedSetEvictsNothing(s: Store, request: SetRequest, now: int)
    requires Valid(s) && Set(s, request, now).1 != Ok
    ensures Set(s, request, now).0 == RemoveIfExpired(s, request.key, now)
  {
    hide OrderOk, Total, StampsOk, Evict;
    var t := RemoveIfExpired(s, request.key, now);
    var bytes := EntryBytes(request.key, request.value);
    AtLeastOwn(t, request.key);
    if bytes <= s.maxmemory && s.policy != NoEviction {
      EvictSucceeds(t, t.usage - Weight(t.entries, request.key) + bytes, Some(request.key));
    }
  }

  /** The entries a batch would write, as a store's map. */
  function AsEntries(values: map<string, string>): map<string, Entry> {
    map k | k in values :: Entry(values[k], None, 0, 1)
  }

  lemma {:induction false} BatchBytesIsTotal(order: seq<string>, values: map<string, string>)
    requires forall k :: k in order ==> k in values
    ensures BatchBytes(order, values) == Total(order, AsEntries(values))
  {
    if order != [] {
      var n := |order| - 1;
      BatchBytesIsTotal(order[..n], values);
      assert order == order[..n] + [order[n]];
      TotalSnoc(order[..n], order[n], AsEntries(values));
    }
  }

  lemma {:induction false} TotalSnoc(order: seq<string>, k: string, entries: map<string, Entry>)
    ensures Total(order + [k], entries) == Total(order, entries) + Weight(entries, k)
  {
    if order == [] {
      assert [k][1..] == [];
    } else {
      assert (order + [k])[1..] == order[1..] + [k];
      TotalSnoc(order[1..], k, entries);
    }
  }

  lemma BatchBytesPermutation(a: seq<string>, b: seq<string>, values: map<string, string>)
    requires OrderOk(a, values) && OrderOk(b, values)
    ensures (forall k :: k in a <==> k in values) && (forall k :: k in b <==> k in values)
    ensures BatchBytes(a, values) == BatchBytes(b, values)
  {
    OrderFacts(a, values);
    OrderFacts(b, values);
    BatchBytesIsTotal(a, values);
    BatchBytesIsTotal(b, values);
    TotalPermutation(a, b, AsEntries(values));
  }

  lemma MSetRefused(s: Store, values: seq<(string, string)>)
    requires Valid(s)
    ensures var b := BatchOf(s.layout, values);
            && (forall k :: k in b.order <==> k in b.values)
            && var bytes := BatchBytes(b.order, b.values);
               MSet(s, values).1 == NoMemory <==>
                 if s.policy == NoEviction then EraseAll(s, b.order).usage + bytes > s.maxmemory
                     else bytes > s.maxmemory
  {
    hide OrderOk, Total, StampsOk, Evict, BatchOf, InsertAll, EraseAll, BatchBytes;
    var b := BatchOf(s.layout, values);
    OrderFacts(b.order, b.values);
    var t := EraseAll(s, b.order);
    if BatchBytes(b.order, b.values) <= s.maxmemory {
      EvictSucceeds(t, t.usage + BatchBytes(b.order, b.values), None);
    }
  }

  /** A batch is refused exactly when it cannot fit, counting each key once with its last value; the
      count does not depend on the order in which the batch is listed. */
  lemma MSetRefusedIff(s: Store, values: seq<(string, string)>, order: seq<string>)
    requires Valid(s) && OrderOk(order, LastValues(values)) && forall k :: k in order ==> k in LastValues(values)
    ensures var bytes := BatchBytes(order, LastValues(values));
            var rest := EraseAll(s, order).usage;
            MSet(s, values).1 == NoMemory <==>
              if s.policy == NoEviction then rest + bytes > s.maxmemory else bytes > s.maxmemory
  {
    hide OrderOk, Total, StampsOk, MSet, BatchOf, EraseAll, BatchBytes;
    var b := BatchOf(s.layout, values);
    MSetRefused(s, values);
    BatchBytesPermutation(order, b.order, b.values);
    SameEntriesSameUsage(EraseAll(s, order), EraseAll(s, b.order));
  }

  lemma SameEntriesSameUsage(a: Store, b: Store)
    requires Accounted(a) && Accounted(b)
    requires forall k :: k in a.entries <==> k in b.entries
    requires forall k :: k in a.entries ==> a.entries[k] == b.entries[k]
    ensures a.usage == b.usage
  {
    assert a.entries == b.entries;
    TotalPermutation(a.order, b.order, a.entries);
  }

  // ---------------------------------------------------------------- accepted batches

  lemma {:induction false} InsertAllContents(s: Store, order: seq<string>, values: map<string, string>, k: string)
    requires Valid(s) && (forall k :: k in order ==> k in values && k !in s.entries)
    requires forall i, j :: 0 <= i < j < |order| ==> order[i] != order[j]
    requires s.usage + BatchBytes(order, values) <= s.maxmemory
    ensures var t := InsertAll(s, order, values);
            && (k in order ==> k in t.entries && t.entries[k].value == values[k] && t.entries[k].expiresAt == None)
            && (k !in order ==>
                   (k in t.entries <==> k in s.entries) && (k in s.entries ==> t.entries[k] == s.entries[k]))
  {
    hide OrderOk, Total, StampsOk;
    if order != [] {
      var n := |order| - 1;
      assert order == order[..n] + [order[n]];
      InsertAllContents(s, order[..n], values, k);
    }
  }

  /** An accepted batch leaves every listed key with its last listed value and no TTL, so it never
      evicts a key of its own; every other key still present is untouched. */
  lemma MSetContents(s: Store, values: seq<(string, string)>, k: string)
    requires Valid(s) && MSet(s, values).1 == Ok
    ensures var t := MSet(s, values).0;
            && (k in LastValues(values) ==>
                  k in t.entries && t.entries[k].value == LastValues(values)[k] && t.entries[k].expiresAt == None)
            && (k !in LastValues(values) && k in t.entries ==> k in s.entries && t.entries[k] == s.entries[k])
  {
    hide OrderOk, Total, StampsOk, Evict, BatchOf, InsertAll, EraseAll, BatchBytes;
    var b := BatchOf(s.layout, values);
    OrderFacts(b.order, b.values);
    var t, required := EraseAll(s, b.order), BatchBytes(b.order, b.values);
    EvictShrinks(t, t.usage + required, None);
    InsertAllContents(Evict(t, t.usage + required, None).0, b.order, b.values, k);
  }

  /** The last value listed for a key is what LastValues holds. */
  lemma {:induction false} LastValuesMeaning(values: seq<(string, string)>, i: nat)
    requires i < |values| && forall j :: i < j < |values| ==> values[j].0 != values[i].0
    ensures values[i].0 in LastValues(values) && LastValues(values)[values[i].0] == values[i].1
  {
    var n := |values| - 1;
    if i < n {
      assert values[..n][i] == values[i];
      LastValuesMeaning(values[..n], i);
    }
  }

  /** Under LRU an accepted write evicts only entries touched longer ago than every survivor other
      than the written key. */
  lemma SetEvictsOldest(s: Store, request: SetRequest, now: int, gone: string, kept: string)
    requires Valid(s) && s.policy == Lru && Set(s, request, now).1 == Ok
    requires var t, u := RemoveIfExpired(s, request.key, now), Set(s, request, now).0;
             Evicted(t, u, gone) && kept in t.entries && kept in u.entries && kept != request.key
    ensures s.entries[gone].lastAccess < s.entries[kept].lastAccess
  {
    hide OrderOk, Total, StampsOk, Evict;
    var t := RemoveIfExpired(s, request.key, now);
    AtLeastOwn(t, request.key);
    var projected := t.usage - Weight(t.entries, request.key) + EntryBytes(request.key, request.value);
    LruEvictsOldest(t, projected, Some(request.key), gone, kept);
  }

  /** An accepted batch is an eviction pass over the other entries, then the insertion. */
  lemma MSetPass(s: Store, values: seq<(string, string)>) returns (t: Store, projected: nat)
    requires Valid(s) && MSet(s, values).1 == Ok
    ensures CanEvict(t, projected, None) && t.policy == s.policy
    ensures forall j :: j in t.entries ==> j in s.entries && t.entries[j] == s.entries[j]
    ensures forall j :: j in s.entries && j !in LastValues(values) ==> j in t.entries
    ensures forall j :: j in MSet(s, values).0.entries <==>
              j in Evict(t, projected, None).0.entries || j in LastValues(values)
  {
    hide OrderOk, Total, StampsOk, Evict, BatchOf, InsertAll, EraseAll, BatchBytes;
    var b := BatchOf(s.layout, values);
    OrderFacts(b.order, b.values);
    t := EraseAll(s, b.order);
    projected := t.usage + BatchBytes(b.order, b.values);
    EvictShrinks(t, projected, None);
  }

  /** The same for an accepted batch and the entries it does not write. */
  lemma MSetEvictsOldest(s: Store, values: seq<(string, string)>, gone: string, kept: string)
    requires Valid(s) && s.policy == Lru && MSet(s, values).1 == Ok
    requires var u := MSet(s, values).0;
             Evicted(s, u, gone) && kept in s.entries && kept in u.entries && kept !in LastValues(values)
    ensures s.entries[gone].lastAccess < s.entries[kept].lastAccess
  {
    hide Valid, Evict, MSet, LastValues;
    var t, projected := MSetPass(s, values);
    LruEvictsOldest(t, projected, None, gone, kept);
  }
}

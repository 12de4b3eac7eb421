/** One shard's key-value store as a value: a hash map with byte accounting, a memory ceiling,
    eviction and expiry. Each operation of the store is a function here.

    `order` is the iteration order of the hash map. Erasing keeps it; inserting a new key may rehash
    and yields whatever permutation `layout` says. `generator` is the step of the pseudo-random
    generator. Both are arbitrary functions. Clock readings are nanoseconds. */
module Store {
  import opened Wrappers
  import opened Decimal

  datatype Policy = Lru | Lfu | Random | NoEviction

  datatype Entry = Entry(value: string, expiresAt: Option<int>, lastAccess: nat, frequency: nat)

  /** `layout(stamp, order, key)` proposes the iteration order after inserting `key` at access `stamp`. */
  type Layout = (nat, seq<string>, string) -> seq<string>

  datatype Store = Store(
    maxmemory: nat, policy: Policy, layout: Layout, generator: nat -> nat,
    entries: map<string, Entry>, order: seq<string>,
    usage: nat, clock: nat, random: nat, scan: nat)

  datatype SetCondition = Always | IfAbsent | IfPresent
  datatype WriteResult = Ok | ConditionFailed | NoMemory
  datatype IncrementResult = Incremented(value: int) | NotInteger | Overflow | IncrementNoMemory

  datatype SetRequest = SetRequest(key: string, value: string, ttl: Option<int>, condition: SetCondition)

  /** `sizeof(Entry)`: a string, an optional time point and two counters on a 64-bit target. */
  const ENTRY_SIZE: nat := 64
  const SEED: nat := 0x9e37_79b9_7f4a_7c15
  const FREQUENCY_MAX: nat := 0xffff_ffff_ffff_ffff
  const NANOS_PER_MILLI := 1_000_000
  const NANOS_PER_SECOND := 1_000_000_000

  function EntryBytes(key: string, value: string): nat {
    ENTRY_SIZE + |key| + |value|
  }

  // ---------------------------------------------------------------- iteration order and accounting

  function Remove(order: seq<string>, k: string): seq<string> {
    if order == [] then []
    else if order[0] == k then order[1..]
    else [order[0]] + Remove(order[1..], k)
  }

  lemma {:induction false} RemoveMultiset(order: seq<string>, k: string)
    ensures multiset(Remove(order, k)) == multiset(order) - multiset{k}
  {
    if order != [] {
      var rest := order[1..];
      assert order == [order[0]] + rest;
      assert multiset(order) == multiset{order[0]} + multiset(rest);
      if order[0] != k {
        RemoveMultiset(rest, k);
        assert multiset(Remove(order, k)) == multiset{order[0]} + multiset(Remove(rest, k));
      }
    }
  }

  function Place(layout: Layout, stamp: nat, order: seq<string>, k: string): (r: seq<string>)
    ensures multiset(r) == multiset(order) + multiset{k}
  {
    var r := layout(stamp, order, k);
    if multiset(r) == multiset(order) + multiset{k} then r else order + [k]
  }

  function Weight(entries: map<string, Entry>, k: string): nat {
    if k in entries then EntryBytes(k, entries[k].value) else 0
  }

  /** The bytes of the entries listed in `order`. */
  function Total(order: seq<string>, entries: map<string, Entry>): nat {
    if order == [] then 0 else Weight(entries, order[0]) + Total(order[1..], entries)
  }

  /** The order lists every key once. */
  ghost predicate OrderOk<V>(order: seq<string>, entries: map<string, V>) {
    multiset(order) == multiset(entries.Keys)
  }

  lemma OrderFacts<V>(order: seq<string>, entries: map<string, V>)
    requires OrderOk(order, entries)
    ensures forall k :: k in order <==> k in entries
    ensures forall i, j :: 0 <= i < j < |order| ==> order[i] != order[j]
    ensures |order| == |entries|
  {
    forall k ensures k in order <==> k in entries {
      assert k in order <==> k in multiset(order);
      assert k in entries.Keys <==> k in multiset(entries.Keys);
    }
    forall i, j | 0 <= i < j < |order| ensures order[i] != order[j] {
      var front := order[..j];
      assert order == front + [order[j]] + order[j + 1..];
      assert front[i] in multiset(front);
      assert multiset(order)[order[j]] <= 1;
    }
    assert |order| == |multiset(order)| == |multiset(entries.Keys)| == |entries.Keys|;
  }

  lemma EraseOrder<V>(order: seq<string>, entries: map<string, V>, k: string)
    requires OrderOk(order, entries) && k in entries
    ensures OrderOk(Remove(order, k), entries - {k})
    ensures |Remove(order, k)| == |order| - 1
  {
    var r := Remove(order, k);
    RemoveMultiset(order, k);
    assert (entries - {k}).Keys == entries.Keys - {k};
    assert multiset(entries.Keys - {k}) == multiset(entries.Keys) - multiset{k};
    assert k in multiset(order);
    assert |multiset(r)| == |multiset(order)| - 1;
  }

  lemma {:induction false} TotalRemove(order: seq<string>, entries: map<string, Entry>, k: string)
    requires k in order
    ensures Total(order, entries) == Weight(entries, k) + Total(Remove(order, k), entries)
  {
    if order[0] != k {
      TotalRemove(order[1..], entries, k);
      assert ([order[0]] + Remove(order[1..], k))[1..] == Remove(order[1..], k);
    }
  }

  lemma {:induction false} TotalFrame(order: seq<string>, a: map<string, Entry>, b: map<string, Entry>)
    requires forall k :: k in order ==> Weight(a, k) == Weight(b, k)
    ensures Total(order, a) == Total(order, b)
  {
    if order != [] {
      assert order[0] in order;
      TotalFrame(order[1..], a, b);
    }
  }

  /** The total does not depend on the iteration order. */
  lemma {:induction false} TotalPermutation(a: seq<string>, b: seq<string>, entries: map<string, Entry>)
    requires multiset(a) == multiset(b)
    ensures Total(a, entries) == Total(b, entries)
    decreases |a|
  {
    if a == [] {
      assert |multiset(b)| == 0;
    } else {
      assert a == [a[0]] + a[1..];
      assert a[0] in multiset(b);
      TotalRemove(b, entries, a[0]);
      RemoveMultiset(b, a[0]);
      TotalPermutation(a[1..], Remove(b, a[0]), entries);
    }
  }

  /** The recorded usage is the bytes of the entries. */
  ghost predicate Accounted(s: Store) {
    OrderOk(s.order, s.entries) && s.usage == Total(s.order, s.entries)
  }

  ghost predicate StampsOk(s: Store) {
    && (forall k :: k in s.entries ==> s.entries[k].lastAccess <= s.clock)
    && (forall j, k :: j in s.entries && k in s.entries && j != k ==>
          s.entries[j].lastAccess != s.entries[k].lastAccess)
  }

  /** The class invariant of the store. */
  ghost predicate Valid(s: Store) {
    Accounted(s) && s.usage <= s.maxmemory && StampsOk(s)
  }

  lemma Accounts(s: Store)
    requires Valid(s)
    ensures Accounted(s)
  {
  }

  lemma OrderOfValid(s: Store)
    requires Valid(s)
    ensures Known(s.order, s.entries)
  {
    hide Total, StampsOk, OrderOk;
    OrderFacts(s.order, s.entries);
  }

  function Empty(maxmemory: nat, policy: Policy, layout: Layout, generator: nat -> nat): (s: Store)
    ensures Valid(s)
  {
    Store(maxmemory, policy, layout, generator, map[], [], 0, 0, SEED, 0)
  }

  lemma EraseAccounting(s: Store, k: string)
    requires Accounted(s) && k in s.entries
    ensures OrderOk(Remove(s.order, k), s.entries - {k})
    ensures s.usage == Weight(s.entries, k) + Total(Remove(s.order, k), s.entries - {k})
    ensures |Remove(s.order, k)| == |s.order| - 1
  {
    hide OrderOk, Remove;
    OrderFacts(s.order, s.entries);
    TotalRemove(s.order, s.entries, k);
    EraseOrder(s.order, s.entries, k);
    OrderFacts(Remove(s.order, k), s.entries - {k});
    TotalFrame(Remove(s.order, k), s.entries, s.entries - {k});
  }

  lemma InsertAccounting(s: Store, k: string, e: Entry)
    requires Accounted(s) && k !in s.entries
    ensures OrderOk(Place(s.layout, s.clock, s.order, k), s.entries[k := e])
    ensures Total(Place(s.layout, s.clock, s.order, k), s.entries[k := e]) == s.usage + EntryBytes(k, e.value)
  {
    var r, m := Place(s.layout, s.clock, s.order, k), s.entries[k := e];
    assert m.Keys == s.entries.Keys + {k};
    OrderFacts(s.order, s.entries);
    assert multiset(r) == multiset([k] + s.order);
    TotalPermutation(r, [k] + s.order, m);
    assert ([k] + s.order)[1..] == s.order;
    TotalFrame(s.order, s.entries, m);
  }

  lemma AssignAccounting(s: Store, k: string, e: Entry)
    requires Accounted(s) && k in s.entries
    ensures OrderOk(s.order, s.entries[k := e])
    ensures Total(s.order, s.entries[k := e]) + Weight(s.entries, k) == s.usage + EntryBytes(k, e.value)
    ensures Weight(s.entries, k) <= s.usage
  {
    var m := s.entries[k := e];
    assert m.Keys == s.entries.Keys;
    OrderFacts(s.order, s.entries);
    TotalRemove(s.order, s.entries, k);
    TotalRemove(s.order, m, k);
    EraseAccounting(s, k);
    var r := Remove(s.order, k);
    EraseOrder(s.order, s.entries, k);
    OrderFacts(r, s.entries - {k});
    TotalFrame(r, s.entries, m);
  }

  // ---------------------------------------------------------------- elementary updates

  function Erase(s: Store, k: string): (r: Store)
    requires Accounted(s) && k in s.entries
    ensures Accounted(r) && (Valid(s) ==> Valid(r)) && |r.order| < |s.order|
    ensures s.usage == r.usage + Weight(s.entries, k)
  {
    EraseAccounting(s, k);
    s.(entries := s.entries - {k}, order := Remove(s.order, k), usage := s.usage - EntryBytes(k, s.entries[k].value))
  }

  /** `insert_or_assign` of a value with a new access stamp and frequency one. */
  function Put(s: Store, k: string, value: string, expiresAt: Option<int>): (r: Store)
    requires Valid(s) && s.usage - Weight(s.entries, k) + EntryBytes(k, value) <= s.maxmemory
    ensures Valid(r) && r.usage == s.usage - Weight(s.entries, k) + EntryBytes(k, value)
  {
    var e := Entry(value, expiresAt, s.clock + 1, 1);
    if k in s.entries then
      AssignAccounting(s, k, e);
      s.(entries := s.entries[k := e], usage := s.usage - Weight(s.entries, k) + EntryBytes(k, value),
          clock := s.clock + 1)
    else
      InsertAccounting(s, k, e);
      s.(entries := s.entries[k := e], order := Place(s.layout, s.clock, s.order, k),
         usage := s.usage + EntryBytes(k, value), clock := s.clock + 1)
  }

  predicate IsExpired(e: Entry, now: int) {
    e.expiresAt.Some? && e.expiresAt.value <= now
  }

  /** Lazy expiry: drops the key if its entry has expired. */
  function RemoveIfExpired(s: Store, k: string, now: int): (r: Store)
    requires Valid(s)
    ensures Valid(r) && (k in r.entries ==> !IsExpired(r.entries[k], now))
  {
    if k in s.entries && IsExpired(s.entries[k], now) then Erase(s, k) else s
  }

  // ---------------------------------------------------------------- reads

  function Touched(s: Store, k: string): (r: Store)
    requires Valid(s) && k in s.entries
    ensures Valid(r)
  {
    var e := s.entries[k];
    var f := e.(lastAccess := s.clock + 1, frequency := if e.frequency < FREQUENCY_MAX then e.frequency + 1
        else e.frequency);
    AssignAccounting(s, k, f);
    s.(entries := s.entries[k := f], clock := s.clock + 1)
  }

  function Get(s: Store, k: string, now: int): (r: (Store, Option<string>))
    requires Valid(s)
    ensures Valid(r.0)
  {
    hide OrderOk, Total, StampsOk;
    var t := RemoveIfExpired(s, k, now);
    if k in t.entries then (Touched(t, k), Some(t.entries[k].value)) else (t, None)
  }

  function Exists(s: Store, keys: seq<string>, now: int): (r: (Store, nat))
    requires Valid(s)
    ensures Valid(r.0)
    decreases |keys|
  {
    hide OrderOk, Total, StampsOk;
    if keys == [] then (s, 0)
    else
      var (t, n) := Exists(s, keys[..|keys| - 1], now);
      var u := RemoveIfExpired(t, keys[|keys| - 1], now);
      (u, n + if keys[|keys| - 1] in u.entries then 1 else 0)
  }

  /** Whole seconds left, -1 without a TTL, -2 for a missing key. */
  function TtlSeconds(s: Store, k: string, now: int): (r: (Store, int))
    requires Valid(s)
    ensures Valid(r.0)
  {
    hide OrderOk, Total, StampsOk;
    var t := RemoveIfExpired(s, k, now);
    if k !in t.entries then (t, -2)
    else if t.entries[k].expiresAt.None? then (t, -1)
    else (t, (t.entries[k].expiresAt.value - now) / NANOS_PER_SECOND)
  }

  function Delete(s: Store, keys: seq<string>, now: int): (r: (Store, nat))
    requires Valid(s)
    ensures Valid(r.0)
    decreases |keys|
  {
    hide OrderOk, Total, StampsOk;
    if keys == [] then (s, 0)
    else
      var (t, n) := Delete(s, keys[..|keys| - 1], now);
      var k := keys[|keys| - 1];
      var u := RemoveIfExpired(t, k, now);
      if k in u.entries then (Erase(u, k), n + 1) else (u, n)
  }

  function Rescheduled(s: Store, k: string, expiresAt: Option<int>): (r: Store)
    requires Valid(s) && k in s.entries
    ensures Valid(r)
  {
    var e := s.entries[k].(expiresAt := expiresAt);
    AssignAccounting(s, k, e);
    s.(entries := s.entries[k := e])
  }

  /** `ttl` is in milliseconds. */
  function Expire(s: Store, k: string, ttl: int, now: int): (r: (Store, bool))
    requires Valid(s)
    ensures Valid(r.0)
  {
    hide OrderOk, Total, StampsOk;
    var t := RemoveIfExpired(s, k, now);
    if k !in t.entries then (t, false)
    else if ttl <= 0 then (Erase(t, k), true)
    else
      (Rescheduled(t, k, Some(now + ttl * NANOS_PER_MILLI)), true)
  }

  // ---------------------------------------------------------------- eviction

  /** Whether the scan prefers `x` to the best key so far. */
  predicate Better(policy: Policy, entries: map<string, Entry>, x: string, best: string)
    requires x in entries && best in entries
  {
    || policy == Random
    || (policy == Lru && entries[x].lastAccess < entries[best].lastAccess)
    || (policy == Lfu && entries[x].frequency < entries[best].frequency)
  }

  /** The victim scan over `order`, skipping the protected key. */
  function Scan(
      policy: Policy, entries: map<string, Entry>, order: seq<string>, protected: Option<string>): (r: Option<string>)
    requires forall k :: k in order ==> k in entries
    ensures r.Some? ==> r.value in order && r.value in entries && Some(r.value) != protected
    ensures r.None? <==> forall k :: k in order ==> Some(k) == protected
  {
    if order == [] then None
    else
      var x, best := order[|order| - 1], Scan(policy, entries, order[..|order| - 1], protected);
      assert order == order[..|order| - 1] + [x];
      if Some(x) == protected then best
      else if best.None? || Better(policy, entries, x, best.value) then Some(x)
      else best
  }

  lemma ScanSnoc(policy: Policy, entries: map<string, Entry>, order: seq<string>, x: string, protected: Option<string>)
    requires x in entries && forall k :: k in order ==> k in entries
    ensures var best := Scan(policy, entries, order, protected);
            Scan(policy, entries, order + [x], protected) ==
            if Some(x) == protected then best
            else if best.None? || Better(policy, entries, x, best.value) then Some(x)
            else best
  {
    assert (order + [x])[..|order|] == order;
  }

  ghost predicate Known(order: seq<string>, entries: map<string, Entry>) {
    forall k :: k in order ==> k in entries
  }

  /** The scan of the first `i` keys. */
  ghost function ScanTo(
      policy: Policy, entries: map<string, Entry>, order: seq<string>, i: nat,
          protected: Option<string>): (r: Option<string>)
    requires Known(order, entries) && i <= |order|
    ensures r.Some? ==> r.value in entries
  {
    Scan(policy, entries, order[..i], protected)
  }

  lemma ScanToEnds(policy: Policy, entries: map<string, Entry>, order: seq<string>, protected: Option<string>)
    requires Known(order, entries)
    ensures ScanTo(policy, entries, order, 0, protected) == None
    ensures ScanTo(policy, entries, order, |order|, protected) == Scan(policy, entries, order, protected)
  {
    assert order[..|order|] == order;
  }

  lemma ScanToNext(policy: Policy, entries: map<string, Entry>, order: seq<string>, i: nat, protected: Option<string>)
    requires Known(order, entries) && i < |order|
    ensures order[i] in entries
    ensures var x, best := order[i], ScanTo(policy, entries, order, i, protected);
            ScanTo(policy, entries, order, i + 1, protected) ==
            if Some(x) == protected then best
            else if best.None? || Better(policy, entries, x, best.value) then Some(x)
            else best
  {
    hide Scan;
    assert order[i] in order;
    ScanSnoc(policy, entries, order[..i], order[i], protected);
    assert order[..i + 1] == order[..i] + [order[i]];
  }

  /** Victim selection: a random key first under Random (unless it is the protected one), then the
      scan. Returns the advanced generator too. */
  function SelectVictim(s: Store, protected: Option<string>): (r: (nat, Option<string>))
    requires Accounted(s)
    ensures r.1.Some? ==> r.1.value in s.entries && Some(r.1.value) != protected
    ensures r.1.None? ==> forall k :: k in s.entries ==> Some(k) == protected
  {
    OrderFacts(s.order, s.entries);
    var draws := s.policy == Random && |s.order| > if protected.Some? then 1 else 0;
    var random := if draws then s.generator(s.random) else s.random;
    if draws && Some(s.order[random % |s.order|]) != protected then
      var k := s.order[random % |s.order|];
      assert k in s.order;
      (random, Some(k))
    else (random, Scan(s.policy, s.entries, s.order, protected))
  }

  function Seeded(s: Store, random: nat): (r: Store)
    requires Valid(s)
    ensures Valid(r)
  {
    s.(random := random)
  }

  /** Evicts victims until `projected` bytes fit; false if there is no victim left. */
  function Evict(s: Store, projected: nat, protected: Option<string>): (r: (Store, bool))
    requires Valid(s) && projected >= s.usage - (if protected.Some? then Weight(s.entries, protected.value) else 0)
    ensures Valid(r.0) && r.0.usage <= s.usage
    ensures r.1 ==> projected - (s.usage - r.0.usage) <= s.maxmemory
    ensures r.0.maxmemory == s.maxmemory && r.0.policy == s.policy && r.0.layout == s.layout
    ensures protected.Some? ==> Weight(r.0.entries, protected.value) == Weight(s.entries, protected.value)
    decreases |s.order|
  {
    hide OrderOk, Total, StampsOk, SelectVictim;
    if projected <= s.maxmemory then (s, true)
    else
      var (random, victim) := SelectVictim(s, protected);
      if victim.None? then (Seeded(s, random), false)
      else
        var t := Erase(Seeded(s, random), victim.value);
        Evict(t, projected - Weight(s.entries, victim.value), protected)
  }

  lemma EvictUnfold(s: Store, projected: nat, protected: Option<string>)
    requires Valid(s) && projected >= s.usage - (if protected.Some? then Weight(s.entries, protected.value) else 0)
    requires projected > s.maxmemory
    ensures var (random, victim) := SelectVictim(s, protected);
            if victim.None? then Evict(s, projected, protected) == (Seeded(s, random), false)
            else
              var t, left := Erase(Seeded(s, random), victim.value), projected - Weight(s.entries, victim.value);
              && left >= t.usage - (if protected.Some? then Weight(t.entries, protected.value) else 0)
              && left >= 0 && Evict(s, projected, protected) == Evict(t, left, protected)
  {
    hide OrderOk, Total, StampsOk, SelectVictim;
  }

  lemma EvictDone(s: Store, projected: nat, protected: Option<string>)
    requires Valid(s) && projected >= s.usage - (if protected.Some? then Weight(s.entries, protected.value) else 0)
    requires projected <= s.maxmemory
    ensures Evict(s, projected, protected) == (s, true)
  {
  }

  // ---------------------------------------------------------------- writes

  predicate ConditionHolds(condition: SetCondition, exists_: bool) {
    match condition
    case Always => true
    case IfAbsent => !exists_
    case IfPresent => exists_
  }

  /** `MakeRoom`: no eviction is tried when the bytes fit or the policy forbids it. */
  function MakeRoom(s: Store, projected: nat, key: string): (r: (Store, bool))
    requires Valid(s) && projected >= s.usage - Weight(s.entries, key)
    ensures Valid(r.0) && r.0.maxmemory == s.maxmemory && r.0.usage <= s.usage
    ensures r.1 ==> projected - (s.usage - r.0.usage) <= s.maxmemory
    ensures Weight(r.0.entries, key) == Weight(s.entries, key)
  {
    hide OrderOk, Total, StampsOk, Evict;
    if projected <= s.maxmemory then (s, true)
    else if s.policy == NoEviction then (s, false)
    else Evict(s, projected, Some(key))
  }

  function Deadline(now: int, ttl: Option<int>): Option<int> {
    if ttl.Some? then Some(now + ttl.value * NANOS_PER_MILLI) else None
  }

  function Set(s: Store, request: SetRequest, now: int): (r: (Store, WriteResult))
    requires Valid(s)
    ensures Valid(r.0)
  {
    hide OrderOk, Total, StampsOk;
    var t := RemoveIfExpired(s, request.key, now);
    if !ConditionHolds(request.condition, request.key in t.entries) then (t, ConditionFailed)
    else
      var bytes := EntryBytes(request.key, request.value);
      if bytes > t.maxmemory then (t, NoMemory)
      else
        AtLeastOwn(t, request.key);
        var (u, ok) := MakeRoom(t, t.usage - Weight(t.entries, request.key) + bytes, request.key);
        if !ok then (u, NoMemory)
        else
          AtLeastOwn(u, request.key);
          (Put(u, request.key, request.value, Deadline(now, request.ttl)), Ok)
  }

  lemma AtLeastOwn(s: Store, k: string)
    requires Accounted(s)
    ensures Weight(s.entries, k) <= s.usage
  {
    if k in s.entries { EraseAccounting(s, k); }
  }

  /** The increment of a counter stored as text. The write reads the clock a second time, at `later`,
      and the remaining TTL is carried over in whole milliseconds. */
  function Increment(s: Store, k: string, delta: int, now: int, later: int): (r: (Store, IncrementResult))
    requires Valid(s)
    ensures Valid(r.0)
  {
    hide OrderOk, Total, StampsOk;
    var t := RemoveIfExpired(s, k, now);
    var current := if k in t.entries then FromChars(t.entries[k].value) else Some(0);
    if current.None? then (t, NotInteger)
    else if !IsInt64(current.value + delta) then (t, Overflow)
    else
      var ttl := if k in t.entries && t.entries[k].expiresAt.Some?
                 then Some((t.entries[k].expiresAt.value - now) / NANOS_PER_MILLI) else None;
      var (u, result) := Set(t, SetRequest(k, ToString(current.value + delta), ttl, Always), later);
      (u, if result == NoMemory then IncrementNoMemory else Incremented(current.value + delta))
  }

  // ---------------------------------------------------------------- batches

  /** A hash map of updates: its iteration order and its contents. */
  datatype Batch = Batch(order: seq<string>, values: map<string, string>)

  /** The last value listed for each key. */
  function LastValues(values: seq<(string, string)>): map<string, string> {
    if values == [] then map[]
    else LastValues(values[..|values| - 1])[values[|values| - 1].0 := values[|values| - 1].1]
  }

  /** The deduplicated batch: the last value listed for a key wins. */
  function BatchOf(layout: Layout, values: seq<(string, string)>): (b: Batch)
    ensures OrderOk(b.order, b.values) && b.values == LastValues(values)
  {
    if values == [] then Batch([], map[])
    else
      var b, (k, v) := BatchOf(layout, values[..|values| - 1]), values[|values| - 1];
      if k in b.values then
        assert b.values[k := v].Keys == b.values.Keys;
        Batch(b.order, b.values[k := v])
      else
        assert b.values[k := v].Keys == b.values.Keys + {k};
        Batch(Place(layout, 0, b.order, k), b.values[k := v])
  }

  function BatchBytes(order: seq<string>, values: map<string, string>): nat
    requires forall k :: k in order ==> k in values
  {
    if order == [] then 0
    else BatchBytes(order[..|order| - 1], values) + EntryBytes(order[|order| - 1], values[order[|order| - 1]])
  }

  lemma {:induction false} BatchBytesGrow(order: seq<string>, values: map<string, string>, i: nat)
    requires (forall k :: k in order ==> k in values) && i <= |order|
    ensures BatchBytes(order[..i], values) <= BatchBytes(order, values)
  {
    if i < |order| {
      BatchBytesGrow(order[..|order| - 1], values, i);
      assert order[..|order| - 1][..i] == order[..i];
    } else {
      assert order[..i] == order;
    }
  }

  /** Drops the keys that are present. */
  function EraseAll(s: Store, keys: seq<string>): (r: Store)
    requires Valid(s)
    ensures Valid(r) && r.usage <= s.usage
    ensures r.maxmemory == s.maxmemory && r.policy == s.policy && r.layout == s.layout
    ensures forall k :: k in r.entries <==> k in s.entries && k !in keys
    ensures forall k :: k in r.entries ==> r.entries[k] == s.entries[k]
  {
    hide OrderOk, Total, StampsOk;
    if keys == [] then s
    else
      var t, k := EraseAll(s, keys[..|keys| - 1]), keys[|keys| - 1];
      assert keys == keys[..|keys| - 1] + [k];
      if k in t.entries then Erase(t, k) else t
  }

  /** Inserts the batch without TTLs, in its iteration order. */
  function InsertAll(s: Store, order: seq<string>, values: map<string, string>): (r: Store)
    requires Valid(s) && (forall k :: k in order ==> k in values && k !in s.entries)
    requires forall i, j :: 0 <= i < j < |order| ==> order[i] != order[j]
    requires s.usage + BatchBytes(order, values) <= s.maxmemory
    ensures Valid(r) && r.usage == s.usage + BatchBytes(order, values) && r.maxmemory == s.maxmemory
    ensures forall k :: k in r.entries <==> k in s.entries || k in order
  {
    hide OrderOk, Total, StampsOk;
    if order == [] then s
    else
      var n := |order| - 1;
      assert order == order[..n] + [order[n]];
      var t := InsertAll(s, order[..n], values);
      Put(t, order[n], values[order[n]], None)
  }

  /** The batch is new to the store and fits. */
  ghost predicate Insertable(s: Store, order: seq<string>, values: map<string, string>) {
    && Valid(s) && (forall k :: k in order ==> k in values && k !in s.entries)
    && (forall i, j :: 0 <= i < j < |order| ==> order[i] != order[j])
    && s.usage + BatchBytes(order, values) <= s.maxmemory
  }

  lemma InsertablePrefix(s: Store, order: seq<string>, values: map<string, string>, i: nat)
    requires Insertable(s, order, values) && i <= |order|
    ensures Insertable(s, order[..i], values)
  {
    hide Valid, BatchBytes;
    BatchBytesGrow(order, values, i);
  }

  /** The store after the first `i` insertions. */
  ghost function InsertTo(s: Store, order: seq<string>, values: map<string, string>, i: nat): (r: Store)
    requires Insertable(s, order, values) && i <= |order|
    ensures Valid(r)
  {
    hide Valid, InsertAll, BatchBytes;
    InsertablePrefix(s, order, values, i);
    InsertAll(s, order[..i], values)
  }

  lemma InsertToEnds(s: Store, order: seq<string>, values: map<string, string>)
    requires Insertable(s, order, values)
    ensures InsertTo(s, order, values, 0) == s
    ensures InsertTo(s, order, values, |order|) == InsertAll(s, order, values)
  {
    assert order[..|order|] == order;
  }

  lemma InsertAllLast(s: Store, order: seq<string>, values: map<string, string>)
    requires order != [] && Insertable(s, order, values)
    ensures var n := |order| - 1;
            && Insertable(s, order[..n], values) && order[n] in values
            && var t, k := InsertAll(s, order[..n], values), order[n];
               && Valid(t) && k !in t.entries && t.usage + EntryBytes(k, values[k]) <= t.maxmemory
               && InsertAll(s, order, values) == Put(t, k, values[k], None)
  {
    hide OrderOk, Total, StampsOk, Put;
    var n := |order| - 1;
    InsertablePrefix(s, order, values, n);
    assert order[n] in order && order[n] !in order[..n];
  }

  lemma InsertToNext(s: Store, order: seq<string>, values: map<string, string>, i: nat)
    requires Insertable(s, order, values) && i < |order|
    ensures order[i] in values
    ensures var t, k := InsertTo(s, order, values, i), order[i];
            && t.usage - Weight(t.entries, k) + EntryBytes(k, values[k]) <= t.maxmemory
            && InsertTo(s, order, values, i + 1) == Put(t, k, values[k], None)
  {
    hide Insertable, InsertAll, Put, Valid;
    InsertablePrefix(s, order, values, i + 1);
    assert order[..i + 1][..i] == order[..i];
    InsertAllLast(s, order[..i + 1], values);
  }

  /** The batch write: tried on a copy, which replaces the store only on success. */
  function MSet(s: Store, values: seq<(string, string)>): (r: (Store, WriteResult))
    requires Valid(s)
    ensures Valid(r.0)
    ensures r.1 != Ok ==> r.1 == NoMemory && r.0 == s
  {
    hide OrderOk, Total, StampsOk, BatchOf, EraseAll, BatchBytes, InsertAll, Evict;
    var b := BatchOf(s.layout, values);
    OrderFacts(b.order, b.values);
    var t, required := EraseAll(s, b.order), BatchBytes(b.order, b.values);
    if required > s.maxmemory then (s, NoMemory)
    else if s.policy == NoEviction && t.usage + required > s.maxmemory then (s, NoMemory)
    else
      var (u, ok) := Evict(t, t.usage + required, None);
      if !ok then (s, NoMemory)
      else
        EvictShrinks(t, t.usage + required, None);
        (InsertAll(u, b.order, b.values), Ok)
  }

  /** Eviction only removes entries. */
  lemma {:induction false} EvictShrinks(s: Store, projected: nat, protected: Option<string>)
    requires Valid(s) && projected >= s.usage - (if protected.Some? then Weight(s.entries, protected.value) else 0)
    ensures var t := Evict(s, projected, protected).0;
            forall k :: k in t.entries ==> k in s.entries && t.entries[k] == s.entries[k]
    decreases |s.order|
  {
    hide OrderOk, Total, StampsOk, SelectVictim;
    if projected > s.maxmemory {
      var (random, victim) := SelectVictim(s, protected);
      if victim.Some? {
        EvictShrinks(Erase(Seeded(s, random), victim.value), projected - Weight(s.entries, victim.value), protected);
      }
    }
  }

  // ---------------------------------------------------------------- active expiry and snapshots

  /** The iteration order started at index `start` and continued from the front. */
  function Rotation(order: seq<string>, start: nat): seq<string>
    requires start <= |order|
  {
    order[start..] + order[..start]
  }

  function Sweep(s: Store, keys: seq<string>, now: int): (r: (Store, nat))
    requires Valid(s)
    ensures Valid(r.0)
  {
    hide OrderOk, Total, StampsOk;
    if keys == [] then (s, 0)
    else
      var (t, n) := Sweep(s, keys[..|keys| - 1], now);
      var u := RemoveIfExpired(t, keys[|keys| - 1], now);
      (u, n + if |u.order| < |t.order| then 1 else 0)
  }

  lemma SweepSnoc(s: Store, keys: seq<string>, k: string, now: int)
    requires Valid(s)
    ensures var (t, n) := Sweep(s, keys, now);
            var u := RemoveIfExpired(t, k, now);
            Sweep(s, keys + [k], now) == (u, n + if |u.order| < |t.order| then 1 else 0)
  {
    hide OrderOk, Total, StampsOk, RemoveIfExpired;
    assert (keys + [k])[..|keys|] == keys;
  }

  lemma {:induction false} RemoveAt(order: seq<string>, i: nat)
    requires i < |order| && forall p, q :: 0 <= p < q < |order| ==> order[p] != order[q]
    ensures Remove(order, order[i]) == order[..i] + order[i + 1..]
  {
    if i > 0 {
      RemoveAt(order[1..], i - 1);
      assert order[1..][..i - 1] == order[1..i];
      assert order[..i] == [order[0]] + order[1..i];
    }
  }

  function Smaller(a: nat, b: nat): nat {
    if a <= b then a else b
  }

  /** The keys one sweep examines: the next `samples` of the rotation from the remembered offset. */
  function Window(s: Store, samples: nat): seq<string> {
    if s.order == [] then [] else Rotation(s.order, s.scan % |s.order|)[..Smaller(samples, |s.order|)]
  }

  /** Examines the next `samples` keys, at most each key once, from the remembered scan offset. */
  function ActiveExpire(s: Store, samples: nat, now: int): (r: (Store, nat))
    requires Valid(s)
    ensures Valid(r.0)
  {
    if s.order == [] || samples == 0 then (s, 0)
    else
      var window := Window(s, samples);
      var (t, removed) := Sweep(s, window, now);
      (t.(scan := if t.order == [] then 0 else (s.scan % |s.order| + |window|) % |t.order|), removed)
  }

  datatype SnapshotEntry = SnapshotEntry(key: string, value: string, ttl: Option<int>)

  function SnapshotEntryOf(k: string, e: Entry, now: int): SnapshotEntry {
    var remaining := if e.expiresAt.Some? then e.expiresAt.value - now else 0;
    SnapshotEntry(k, e.value,
                  if e.expiresAt.None? then None
                  else Some(if remaining <= 0 then 0 else remaining / NANOS_PER_MILLI))
  }

  /** Drops everything expired at `now`, then lists the rest with its remaining TTL at `later`. */
  function Snapshot(s: Store, now: int, later: int): (r: (Store, seq<SnapshotEntry>))
    requires Valid(s)
    ensures Valid(r.0) && |r.1| == |r.0.order|
  {
    var t := ActiveExpire(s, |s.order|, now).0;
    OrderFacts(t.order, t.entries);
    (t, seq(|t.order|, i requires 0 <= i < |t.order| =>
       assert t.order[i] in t.order; SnapshotEntryOf(t.order[i], t.entries[t.order[i]], later)))
  }
}

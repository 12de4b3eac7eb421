/** The store as the program runs it: an object whose methods update its fields in loops. Every method
    computes the function of the same name in module Store. */
module KvStores {
  import opened Wrappers
  import opened Decimal
  import S = Store

  class KvStore {
    const maxmemory: nat
    const policy: S.Policy
    const layout: S.Layout
    const generator: nat -> nat
    var entries: map<string, S.Entry>
    var order: seq<string>
    var usage: nat
    var accessClock: nat
    var random: nat
    var scanOffset: nat

    ghost function State(): S.Store
      reads this
    {
      S.Store(maxmemory, policy, layout, generator, entries, order, usage, accessClock, random, scanOffset)
    }

    ghost predicate Valid()
      reads this
    {
      S.Valid(State())
    }

    constructor (maxmemory: nat, policy: S.Policy, layout: S.Layout, generator: nat -> nat)
      ensures Valid() && State() == S.Empty(maxmemory, policy, layout, generator)
    {
      this.maxmemory, this.policy, this.layout, this.generator := maxmemory, policy, layout, generator;
      entries, order, usage, accessClock, random, scanOffset := map[], [], 0, 0, S.SEED, 0;
    }

    constructor CopyOf(other: KvStore)
      ensures State() == other.State()
    {
      maxmemory, policy, layout, generator := other.maxmemory, other.policy, other.layout, other.generator;
      entries, order, usage := other.entries, other.order, other.usage;
      accessClock, random, scanOffset := other.accessClock, other.random, other.scanOffset;
    }

    /** Assignment of a store with the same configuration. */
    method Assign(other: KvStore)
      requires maxmemory == other.maxmemory && policy == other.policy && layout == other.layout &&
               generator == other.generator
      modifies this
      ensures State() == old(other.State())
    {
      entries, order, usage := other.entries, other.order, other.usage;
      accessClock, random, scanOffset := other.accessClock, other.random, other.scanOffset;
    }

    // -------------------------------------------------------------- expiry of one key

    method Erase(k: string)
      requires Valid() && k in entries
      modifies this
      ensures Valid() && State() == S.Erase(old(State()), k)
    {
      hide S.OrderOk, S.Total, S.StampsOk, S.Remove, S.Place;
      ghost var r := S.Erase(State(), k);
      usage := usage - S.EntryBytes(k, entries[k].value);
      entries := entries - {k};
      order := S.Remove(order, k);
    }

    method RemoveIfExpired(k: string, now: int) returns (removed: bool)
      requires Valid() && k in entries
      modifies this
      ensures Valid() && State() == S.RemoveIfExpired(old(State()), k, now)
      ensures removed <==> k !in entries
    {
      if !S.IsExpired(entries[k], now) { return false; }
      Erase(k);
      removed := true;
    }

    // -------------------------------------------------------------- single-key operations

    method Get(key: string, now: int) returns (value: Option<string>)
      requires Valid()
      modifies this
      ensures Valid() && State() == S.Get(old(State()), key, now).0
      ensures value == S.Get(old(State()), key, now).1
    {
      hide S.OrderOk, S.Total, S.StampsOk, S.Remove, S.Place;
      if key !in entries { return None; }
      var removed := RemoveIfExpired(key, now);
      if removed { return None; }
      ghost var t := S.Touched(State(), key);
      accessClock := accessClock + 1;
      var e := entries[key];
      entries := entries[key := e.(lastAccess := accessClock,
                                   frequency := if e.frequency < S.FREQUENCY_MAX then e.frequency + 1
                                       else e.frequency)];
      value := Some(e.value);
    }

    method TtlSeconds(key: string, now: int) returns (seconds: int)
      requires Valid()
      modifies this
      ensures Valid() && State() == S.TtlSeconds(old(State()), key, now).0
      ensures seconds == S.TtlSeconds(old(State()), key, now).1
    {
      hide S.OrderOk, S.Total, S.StampsOk, S.Remove, S.Place;
      if key !in entries { return -2; }
      var removed := RemoveIfExpired(key, now);
      if removed { return -2; }
      if entries[key].expiresAt.None? { return -1; }
      var remaining := (entries[key].expiresAt.value - now) / S.NANOS_PER_SECOND;
      seconds := if remaining > 0 then remaining else 0;
    }

    method Expire(key: string, ttl: int, now: int) returns (found: bool)
      requires Valid()
      modifies this
      ensures Valid() && State() == S.Expire(old(State()), key, ttl, now).0
      ensures found == S.Expire(old(State()), key, ttl, now).1
    {
      hide S.OrderOk, S.Total, S.StampsOk, S.Remove, S.Place;
      if key !in entries { return false; }
      ghost var spec := S.Expire(State(), key, ttl, now);
      var removed := RemoveIfExpired(key, now);
      if removed { return false; }
      if ttl <= 0 {
        Erase(key);
      } else {
        entries := entries[key := entries[key].(expiresAt := Some(now + ttl * S.NANOS_PER_MILLI))];
      }
      found := true;
    }

    // -------------------------------------------------------------- multi-key loops

    method Delete(keys: seq<string>, now: int) returns (removed: nat)
      requires Valid()
      modifies this
      ensures Valid() && State() == S.Delete(old(State()), keys, now).0
      ensures removed == S.Delete(old(State()), keys, now).1
    {
      hide S.OrderOk, S.Total, S.StampsOk;
      removed := 0;
      for i := 0 to |keys|
        invariant Valid()
        invariant (State(), removed) == S.Delete(old(State()), keys[..i], now)
      {
        var key := keys[i];
        assert keys[..i + 1][..i] == keys[..i];
        if key in entries {
          var expired := RemoveIfExpired(key, now);
          if !expired {
            Erase(key);
            removed := removed + 1;
          }
        }
      }
      assert keys[..|keys|] == keys;
    }

    method Exists(keys: seq<string>, now: int) returns (count: nat)
      requires Valid()
      modifies this
      ensures Valid() && State() == S.Exists(old(State()), keys, now).0
      ensures count == S.Exists(old(State()), keys, now).1
    {
      hide S.OrderOk, S.Total, S.StampsOk;
      count := 0;
      for i := 0 to |keys|
        invariant Valid()
        invariant (State(), count) == S.Exists(old(State()), keys[..i], now)
      {
        var key := keys[i];
        assert keys[..i + 1][..i] == keys[..i];
        if key in entries {
          var expired := RemoveIfExpired(key, now);
          if !expired { count := count + 1; }
        }
      }
      assert keys[..|keys|] == keys;
    }

    // -------------------------------------------------------------- eviction

    /** The victim scan over the whole map. */
    method ScanVictim(protected: Option<string>) returns (best: Option<string>)
      requires Valid()
      ensures S.Known(order, entries) && best == S.Scan(policy, entries, order, protected)
    {
      hide S.Valid, S.Scan, S.ScanTo, S.Better, S.Known;
      S.OrderOfValid(State());
      S.ScanToEnds(policy, entries, order, protected);
      best := None;
      for i := 0 to |order|
        invariant best == S.ScanTo(policy, entries, order, i, protected)
      {
        S.ScanToNext(policy, entries, order, i, protected);
        var key := order[i];
        if Some(key) == protected { continue; }
        if best.None? || S.Better(policy, entries, key, best.value) { best := Some(key); }
      }
    }

    method SelectVictim(protected: Option<string>) returns (victim: Option<string>)
      requires Valid()
      modifies this`random
      ensures State() == old(State()).(random := S.SelectVictim(old(State()), protected).0)
      ensures victim == S.SelectVictim(old(State()), protected).1
    {
      hide S.Valid, S.Scan;
      S.Accounts(State());
      if policy == S.Random && |order| > if protected.Some? then 1 else 0 {
        ghost var drawn := S.Seeded(State(), generator(random));
        random := generator(random);
        var candidate := order[random % |order|];
        if Some(candidate) != protected { return Some(candidate); }
      }
      victim := ScanVictim(protected);
    }

    /** Evicts until `projected` bytes fit. */
    method EvictUntilFits(projected: nat, protected: Option<string>) returns (ok: bool)
      requires Valid()
      requires projected >= usage - (if protected.Some? then S.Weight(entries, protected.value) else 0)
      modifies this
      ensures Valid() && State() == S.Evict(old(State()), projected, protected).0
      ensures ok == S.Evict(old(State()), projected, protected).1
    {
      hide S.OrderOk, S.Total, S.StampsOk, S.SelectVictim, S.Evict;
      var left: nat := projected;
      while left > maxmemory
        invariant Valid()
        invariant left >= usage - (if protected.Some? then S.Weight(entries, protected.value) else 0)
        invariant S.Evict(old(State()), projected, protected) == S.Evict(State(), left, protected)
        decreases |order|
      {
        ghost var before := State();
        S.EvictUnfold(before, left, protected);
        var victim := SelectVictim(protected);
        assert State() == S.Seeded(before, random);
        if victim.None? { return false; }
        var bytes := S.EntryBytes(victim.value, entries[victim.value].value);
        Erase(victim.value);
        left := left - bytes;
      }
      S.EvictDone(State(), left, protected);
      ok := true;
    }

    method MakeRoom(projected: nat, key: string) returns (ok: bool)
      requires Valid() && projected >= usage - S.Weight(entries, key)
      modifies this
      ensures Valid() && State() == S.MakeRoom(old(State()), projected, key).0
      ensures ok == S.MakeRoom(old(State()), projected, key).1
    {
      hide S.OrderOk, S.Total, S.StampsOk, S.Evict;
      if projected <= maxmemory { return true; }
      if policy == S.NoEviction { return false; }
      ok := EvictUntilFits(projected, Some(key));
    }

    // -------------------------------------------------------------- writes

    /** `insert_or_assign` with a new stamp. */
    method Put(key: string, value: string, expiresAt: Option<int>)
      requires Valid() && usage - S.Weight(entries, key) + S.EntryBytes(key, value) <= maxmemory
      modifies this
      ensures Valid() && State() == S.Put(old(State()), key, value, expiresAt)
    {
      hide S.OrderOk, S.Total, S.StampsOk, S.Remove, S.Place;
      S.AtLeastOwn(State(), key);
      ghost var r := S.Put(State(), key, value, expiresAt);
      if key in entries {
        usage := usage - S.EntryBytes(key, entries[key].value);
      } else {
        order := S.Place(layout, accessClock, order, key);
      }
      accessClock := accessClock + 1;
      entries := entries[key := S.Entry(value, expiresAt, accessClock, 1)];
      usage := usage + S.EntryBytes(key, value);
    }

    method Set(request: S.SetRequest, now: int) returns (result: S.WriteResult)
      requires Valid()
      modifies this
      ensures Valid() && State() == S.Set(old(State()), request, now).0
      ensures result == S.Set(old(State()), request, now).1
    {
      hide S.OrderOk, S.Total, S.StampsOk, S.MakeRoom;
      if request.key in entries {
        var removed := RemoveIfExpired(request.key, now);
      }
      var exists_ := request.key in entries;
      if request.condition == S.IfAbsent && exists_ { return S.ConditionFailed; }
      if request.condition == S.IfPresent && !exists_ { return S.ConditionFailed; }
      var oldBytes := if exists_ then S.EntryBytes(request.key, entries[request.key].value) else 0;
      var newBytes := S.EntryBytes(request.key, request.value);
      if newBytes > maxmemory { return S.NoMemory; }
      S.AtLeastOwn(State(), request.key);
      var room := MakeRoom(usage - oldBytes + newBytes, request.key);
      if !room { return S.NoMemory; }
      S.AtLeastOwn(State(), request.key);
      Put(request.key, request.value, S.Deadline(now, request.ttl));
      result := S.Ok;
    }

    method Increment(key: string, delta: int, now: int, later: int) returns (result: S.IncrementResult)
      requires Valid() && IsInt64(delta)
      modifies this
      ensures Valid() && State() == S.Increment(old(State()), key, delta, now, later).0
      ensures result == S.Increment(old(State()), key, delta, now, later).1
    {
      hide S.OrderOk, S.Total, S.StampsOk, S.Set, FromChars, ToString;
      if key in entries {
        var removed := RemoveIfExpired(key, now);
      }
      var current := 0;
      if key in entries {
        var parsed := FromChars(entries[key].value);
        if parsed.None? { return S.NotInteger; }
        current := parsed.value;
      }
      if (delta > 0 && current > INT64_MAX - delta) || (delta < 0 && current < INT64_MIN - delta) {
        return S.Overflow;
      }
      var sum := current + delta;
      var ttl := None;
      if key in entries && entries[key].expiresAt.Some? {
        ttl := Some((entries[key].expiresAt.value - now) / S.NANOS_PER_MILLI);
      }
      var written := Set(S.SetRequest(key, ToString(sum), ttl, S.Always), later);
      if written == S.NoMemory { return S.IncrementNoMemory; }
      result := S.Incremented(sum);
    }
  
    // -------------------------------------------------------------- batches

    method MSet(values: seq<(string, string)>) returns (result: S.WriteResult)
      requires Valid()
      modifies this
      ensures Valid() && State() == S.MSet(old(State()), values).0
      ensures result == S.MSet(old(State()), values).1
    {
      hide S.OrderOk, S.Total, S.StampsOk, S.Evict, S.BatchOf, S.EraseAll, S.InsertAll, S.BatchBytes;
      ghost var spec := S.MSet(State(), values);
      var trial := new KvStore.CopyOf(this);
      var updates := Deduplicate(values);
      S.OrderFacts(updates.order, updates.values);
      trial.EraseKeys(updates.order);
      var required, fits := BytesIfFit(updates);
      if !fits { return S.NoMemory; }
      var projected := trial.usage + required;
      if trial.policy == S.NoEviction && projected > trial.maxmemory { return S.NoMemory; }
      var ok := trial.EvictUntilFits(projected, None);
      if !ok { return S.NoMemory; }
      S.EvictShrinks(S.EraseAll(old(State()), updates.order), projected, None);
      trial.InsertBatch(updates);
      entries, order, usage := trial.entries, trial.order, trial.usage;
      accessClock, random, scanOffset := trial.accessClock, trial.random, trial.scanOffset;
      result := S.Ok;
    }

    method Deduplicate(values: seq<(string, string)>) returns (updates: S.Batch)
      ensures updates == S.BatchOf(layout, values)
    {
      hide S.OrderOk, S.Place;
      updates := S.Batch([], map[]);
      for i := 0 to |values|
        invariant updates == S.BatchOf(layout, values[..i])
      {
        assert values[..i + 1][..i] == values[..i];
        var (k, v) := values[i];
        if k in updates.values {
          updates := S.Batch(updates.order, updates.values[k := v]);
        } else {
          updates := S.Batch(S.Place(layout, 0, updates.order, k), updates.values[k := v]);
        }
      }
      assert values[..|values|] == values;
    }

    method EraseKeys(keys: seq<string>)
      requires Valid()
      modifies this
      ensures Valid() && State() == S.EraseAll(old(State()), keys)
    {
      hide S.OrderOk, S.Total, S.StampsOk;
      for i := 0 to |keys|
        invariant Valid() && State() == S.EraseAll(old(State()), keys[..i])
      {
        assert keys[..i + 1][..i] == keys[..i];
        if keys[i] in entries { Erase(keys[i]); }
      }
      assert keys[..|keys|] == keys;
    }

    /** Sums the batch, giving up as soon as it exceeds the ceiling. */
    method BytesIfFit(updates: S.Batch) returns (required: nat, fits: bool)
      requires forall k :: k in updates.order ==> k in updates.values
      ensures fits == (S.BatchBytes(updates.order, updates.values) <= maxmemory)
      ensures fits ==> required == S.BatchBytes(updates.order, updates.values)
    {
      required := 0;
      var keys := updates.order;
      for i := 0 to |keys|
        invariant required == S.BatchBytes(keys[..i], updates.values) <= maxmemory
      {
        assert keys[..i + 1][..i] == keys[..i];
        var bytes := S.EntryBytes(keys[i], updates.values[keys[i]]);
        if bytes > maxmemory - required {
          S.BatchBytesGrow(keys, updates.values, i + 1);
          return required, false;
        }
        required := required + bytes;
      }
      assert keys[..|keys|] == keys;
      fits := true;
    }

    method InsertBatch(updates: S.Batch)
      requires Valid() && S.Insertable(State(), updates.order, updates.values)
      modifies this
      ensures Valid() && State() == S.InsertAll(old(State()), updates.order, updates.values)
    {
      hide S.Valid, S.Put, S.Insertable, S.InsertTo, S.InsertAll;
      ghost var start := State();
      S.InsertToEnds(start, updates.order, updates.values);
      for i := 0 to |updates.order|
        invariant Valid() && State() == S.InsertTo(start, updates.order, updates.values, i)
      {
        S.InsertToNext(start, updates.order, updates.values, i);
        Put(updates.order[i], updates.values[updates.order[i]], None);
      }
    }

    // -------------------------------------------------------------- active expiry and snapshots

    /** The iterating sweep: erasing leaves the iteration at the next key, and the end wraps around. */
    method ActiveExpire(samples: nat, now: int) returns (removed: nat)
      requires Valid()
      modifies this
      ensures Valid() && State() == S.ActiveExpire(old(State()), samples, now).0
      ensures removed == S.ActiveExpire(old(State()), samples, now).1
    {
      hide S.OrderOk, S.Total, S.Sweep;
      removed := 0;
      if order == [] || samples == 0 { return; }
      var skip := scanOffset % |order|;
      var examined: nat;
      examined, removed := SweepFrom(skip, samples, now);
      scanOffset := if order == [] then 0 else (skip + examined) % |order|;
    }

    method SweepFrom(skip: nat, samples: nat, now: int) returns (examined: nat, removed: nat)
      requires Valid() && skip < |order|
      modifies this
      ensures Valid() && examined == S.Smaller(samples, |old(order)|)
      ensures (State(), removed) == Swept(old(State()), skip, examined, now)
    {
      hide S.Valid, S.RemoveIfExpired, S.Sweep, S.Rotation, Cursor, Swept;
      ghost var start := State();
      examined, removed := 0, 0;
      var initialSize := |order|;
      var next: nat, wrapped := skip, false;
      CursorStart(order, skip);
      SweepStart(start, skip, now);
      while order != [] && examined < samples && examined < initialSize
        invariant Valid() && examined <= initialSize && examined <= samples
        invariant Cursor(start.order, skip, examined, order, next, wrapped)
        invariant (State(), removed) == Swept(start, skip, examined, now)
        decreases initialSize - examined
      {
        if next == |order| {
          CursorWraps(start.order, skip, examined, order, wrapped);
          next, wrapped := 0, true;
        }
        SweepTurn(start, skip, examined, order, next, wrapped, now);
        var erased := ExamineAt(next, now);
        examined := examined + 1;
        if erased { removed := removed + 1; } else { next := next + 1; }
      }
      CursorEnd(start.order, skip, examined, order, next, wrapped);
    }

    /** Examines the key at one position of the iteration order. */
    method ExamineAt(position: nat, now: int) returns (erased: bool)
      requires Valid() && position < |order|
      modifies this
      ensures Valid() && State() == S.RemoveIfExpired(old(State()), old(order[position]), now)
      ensures erased <==> |order| < |old(order)|
      ensures order == if erased then old(order)[..position] + old(order)[position + 1..] else old(order)
    {
      hide S.OrderOk, S.Total, S.StampsOk, S.Remove;
      S.OrderFacts(order, entries);
      var key := order[position];
      assert key in order;
      erased := S.IsExpired(entries[key], now);
      if erased {
        S.RemoveAt(order, position);
        Erase(key);
      }
    }

    method Snapshot(now: int, later: int) returns (snapshot: seq<S.SnapshotEntry>)
      requires Valid()
      modifies this
      ensures Valid() && State() == S.Snapshot(old(State()), now, later).0
      ensures snapshot == S.Snapshot(old(State()), now, later).1
    {
      hide S.OrderOk, S.Total, S.StampsOk, S.ActiveExpire;
      var removed := ActiveExpire(|order|, now);
      S.OrderFacts(order, entries);
      snapshot := [];
      for i := 0 to |order|
        invariant |snapshot| == i
        invariant forall j :: 0 <= j < i ==>
          order[j] in entries && snapshot[j] == S.SnapshotEntryOf(order[j], entries[order[j]], later)
      {
        assert order[i] in order;
        snapshot := snapshot + [S.SnapshotEntryOf(order[i], entries[order[i]], later)];
      }
    }

    method Clear()
      requires Valid()
      modifies this
      ensures Valid() && entries == map[] && usage == 0 && scanOffset == 0
      ensures accessClock == old(accessClock) && random == old(random)
    {
      entries, order, usage, scanOffset := map[], [], 0, 0;
    }
  }

  /** After `examined` steps of a sweep of `initial` from index `skip`, the next index of the shrunken
      `order` stands before exactly the keys not yet examined. */
  ghost predicate Cursor(initial: seq<string>, skip: nat, examined: nat, order: seq<string>, next: nat, wrapped: bool) {
    var n := |initial|;
    && skip <= n && examined <= n
    && (!wrapped ==>
          && skip + examined <= n && skip <= next <= |order|
          && order[next..] == initial[skip + examined..] && order[..skip] == initial[..skip])
    && (wrapped ==>
          && n - skip <= examined && next + (n - examined) <= |order|
          && order[next..next + (n - examined)] == initial[skip - (n - examined)..skip])
  }

  /** The specified state after examining `examined` keys from index `skip` on. */
  ghost function Swept(start: S.Store, skip: nat, examined: nat, now: int): (S.Store, nat)
    requires S.Valid(start) && skip <= |start.order| && examined <= |start.order|
  {
    S.Sweep(start, S.Rotation(start.order, skip)[..examined], now)
  }

  lemma SweepStart(start: S.Store, skip: nat, now: int)
    requires S.Valid(start) && skip <= |start.order|
    ensures Swept(start, skip, 0, now) == (start, 0)
  {
    assert S.Rotation(start.order, skip)[..0] == [];
  }

  /** One turn of the sweep examines the next key of the rotation. */
  lemma SweepTurn(start: S.Store, skip: nat, examined: nat, order: seq<string>, next: nat, wrapped: bool, now: int)
    requires S.Valid(start) && examined < |start.order| && Cursor(start.order, skip, examined, order, next, wrapped)
    requires next != |order| || wrapped
    ensures next < |order|
    ensures var (t, n) := Swept(start, skip, examined, now);
            var u := S.RemoveIfExpired(t, order[next], now);
            Swept(start, skip, examined + 1, now) == (u, n + if |u.order| < |t.order| then 1 else 0)
    ensures Cursor(start.order, skip, examined + 1, order, next + 1, wrapped)
    ensures Cursor(start.order, skip, examined + 1, order[..next] + order[next + 1..], next, wrapped)
  {
    hide S.Valid, S.Sweep, S.RemoveIfExpired, Cursor;
    CursorKey(start.order, skip, examined, order, next, wrapped);
    CursorMoves(start.order, skip, examined, order, next, wrapped);
    var rotation := S.Rotation(start.order, skip);
    S.SweepSnoc(start, rotation[..examined], order[next], now);
    assert rotation[..examined + 1] == rotation[..examined] + [order[next]];
  }

  lemma CursorStart(initial: seq<string>, skip: nat)
    requires skip <= |initial|
    ensures Cursor(initial, skip, 0, initial, skip, false)
  {
  }

  lemma CursorEnd(initial: seq<string>, skip: nat, examined: nat, order: seq<string>, next: nat, wrapped: bool)
    requires Cursor(initial, skip, examined, order, next, wrapped)
    ensures order == [] ==> examined == |initial|
  {
    if !wrapped {
      assert |order[..skip]| == |initial[..skip]|;
      assert |order[next..]| == |initial[skip + examined..]|;
    }
  }

  lemma CursorWraps(initial: seq<string>, skip: nat, examined: nat, order: seq<string>, wrapped: bool)
    requires Cursor(initial, skip, examined, order, |order|, wrapped) && examined < |initial|
    ensures Cursor(initial, skip, examined, order, 0, true)
  {
    assert |order[|order|..]| == 0;
    assert !wrapped ==> |initial[skip + examined..]| == 0;
  }

  lemma CursorKey(initial: seq<string>, skip: nat, examined: nat, order: seq<string>, next: nat, wrapped: bool)
    requires examined < |initial|
    requires Cursor(initial, skip, examined, order, next, wrapped) && (next != |order| || wrapped)
    ensures next < |order| && order[next] == S.Rotation(initial, skip)[examined]
  {
    if wrapped {
      var k := |initial| - examined;
      assert order[next..next + k][0] == initial[skip - k..skip][0];
    } else {
      assert order[next..][0] == initial[skip + examined..][0];
    }
  }

  lemma CursorMoves(initial: seq<string>, skip: nat, examined: nat, order: seq<string>, next: nat, wrapped: bool)
    requires Cursor(initial, skip, examined, order, next, wrapped) && examined < |initial| && next < |order|
    ensures Cursor(initial, skip, examined + 1, order, next + 1, wrapped)
    ensures Cursor(initial, skip, examined + 1, order[..next] + order[next + 1..], next, wrapped)
  {
    var shorter := order[..next] + order[next + 1..];
    if wrapped {
      var k := |initial| - examined;
      assert order[next + 1..next + k] == order[next..next + k][1..] == initial[skip - k + 1..skip];
      assert shorter[next..next + k - 1] == order[next + 1..next + k];
    } else {
      assert order[next + 1..] == order[next..][1..] == initial[skip + examined + 1..];
      assert shorter[next..] == order[next + 1..];
      assert shorter[..skip] == order[..skip];
    }
  }
}

/** The sharded database as a value: keys routed to shards by hash, a split memory budget, and each
    operation run on the shards its keys select. */
module Sharding {
  import opened Wrappers
  import opened Decimal
  import opened Store
  import opened Eviction
  import opened StoreRuns

  type Hash = string -> nat

  function ShardFor(hash: Hash, n: nat, k: string): (i: nat)
    requires n > 0
    ensures i < n
  {
    hash(k) % n
  }

  /** A key's shard is what its hash leaves over whole rounds of the shards, so every shard can be reached. */
  lemma ShardIs(hash: Hash, n: nat, k: string, rounds: nat, i: nat)
    requires i < n && hash(k) == rounds * n + i
    ensures ShardFor(hash, n, k) == i
  {
    LeftOver(n, rounds, i);
  }

  lemma LeftOver(n: nat, rounds: nat, i: nat)
    requires i < n
    ensures (rounds * n + i) % n == i
  {
    var m := rounds * n + i;
    assert m == n * (m / n) + m % n;
    if m / n > rounds { Further(n, m / n, rounds); }
    if rounds > m / n { Further(n, rounds, m / n); }
  }

  lemma {:induction false} Further(n: nat, a: nat, b: nat)
    requires a > b
    ensures n * a >= n * b + n
  {
    if a > b + 1 { Further(n, a - 1, b); }
    assert n * a == n * (a - 1) + n;
  }

  // ---------------------------------------------------------------- the memory budget

  function Budget(maxmemory: nat, n: nat, i: nat): nat
    requires n > 0
  {
    maxmemory / n + if i < maxmemory % n then 1 else 0
  }

  function Sum(xs: seq<nat>): nat {
    if xs == [] then 0 else Sum(xs[..|xs| - 1]) + xs[|xs| - 1]
  }

  lemma {:induction false} BudgetPrefix(maxmemory: nat, n: nat, xs: seq<nat>)
    requires n > 0 && |xs| <= n && forall i :: 0 <= i < |xs| ==> xs[i] == Budget(maxmemory, n, i)
    ensures Sum(xs) == |xs| * (maxmemory / n) + Smaller(|xs|, maxmemory % n)
  {
    if xs != [] {
      var m := |xs| - 1;
      BudgetPrefix(maxmemory, n, xs[..m]);
      assert |xs| * (maxmemory / n) == m * (maxmemory / n) + maxmemory / n;
    }
  }

  lemma BudgetsUseAll(maxmemory: nat, n: nat, xs: seq<nat>)
    requires n > 0 && |xs| == n && forall i :: 0 <= i < n ==> xs[i] == Budget(maxmemory, n, i)
    ensures Sum(xs) == maxmemory
  {
    BudgetPrefix(maxmemory, n, xs);
    assert maxmemory == n * (maxmemory / n) + maxmemory % n;
  }

  /** The constructor's split: the budgets differ by at most one and use up the ceiling exactly. It
      refuses zero shards. */
  method SplitBudget(maxmemory: nat, n: nat) returns (budgets: Option<seq<nat>>)
    ensures budgets.None? <==> n == 0
    ensures budgets.Some? ==> |budgets.value| == n && Sum(budgets.value) == maxmemory
    ensures budgets.Some? ==> forall i :: 0 <= i < n ==> budgets.value[i] == Budget(maxmemory, n, i)
    ensures budgets.Some? ==> forall i, j :: 0 <= i < j < n ==>
            budgets.value[j] <= budgets.value[i] <= budgets.value[j] + 1
  {
    if n == 0 { return None; }
    var shares: seq<nat> := [];
    for index := 0 to n
      invariant |shares| == index && forall i :: 0 <= i < index ==> shares[i] == Budget(maxmemory, n, i)
    {
      shares := shares + [maxmemory / n + if index < maxmemory % n then 1 else 0];
    }
    BudgetsUseAll(maxmemory, n, shares);
    return Some(shares);
  }

  lemma {:induction false} SumMonotone(xs: seq<nat>, ys: seq<nat>)
    requires |xs| == |ys| && forall i :: 0 <= i < |xs| ==> xs[i] <= ys[i]
    ensures Sum(xs) <= Sum(ys)
  {
    if xs != [] { SumMonotone(xs[..|xs| - 1], ys[..|ys| - 1]); }
  }

  // ---------------------------------------------------------------- the database

  datatype Db = Db(hash: Hash, maxmemory: nat, policy: Policy, shards: seq<Store>)

  /** A store that may be shard `i` of a database like `db`. */
  ghost predicate ShardOk(hash: Hash, maxmemory: nat, policy: Policy, n: nat, i: nat, s: Store)
    requires n > 0
  {
    && Valid(s) && s.maxmemory == Budget(maxmemory, n, i) && s.policy == policy
    && forall k :: k in s.entries ==> ShardFor(hash, n, k) == i
  }

  /** Every shard keeps its own accounting and budget, and holds only keys routed to it. */
  ghost predicate DbValid(db: Db) {
    && |db.shards| > 0
    && forall i :: 0 <= i < |db.shards| ==>
         ShardOk(db.hash, db.maxmemory, db.policy, |db.shards|, i, db.shards[i])
  }

  function Home(db: Db, k: string): (i: nat)
    requires |db.shards| > 0
    ensures i < |db.shards|
  {
    ShardFor(db.hash, |db.shards|, k)
  }

  lemma ShardIsOk(db: Db, i: nat)
    requires DbValid(db) && i < |db.shards|
    ensures ShardOk(db.hash, db.maxmemory, db.policy, |db.shards|, i, db.shards[i]) && Valid(db.shards[i])
  {
  }

  lemma HomeValid(db: Db, k: string)
    requires DbValid(db)
    ensures |db.shards| > 0 && Valid(db.shards[Home(db, k)])
  {
  }

  /** The database with one shard's store replaced. */
  function Replaced(db: Db, i: nat, s: Store): (r: Db)
    requires DbValid(db) && i < |db.shards|
    requires ShardOk(db.hash, db.maxmemory, db.policy, |db.shards|, i, s)
    ensures DbValid(r) && |r.shards| == |db.shards|
    ensures r.hash == db.hash && r.maxmemory == db.maxmemory && r.policy == db.policy
  {
    hide ShardOk;
    db.(shards := db.shards[i := s])
  }

  function EmptyDb(hash: Hash, maxmemory: nat, policy: Policy, layout: Layout, generator: nat -> nat, n: nat): (db: Db)
    requires n > 0
    ensures DbValid(db)
  {
    Db(hash, maxmemory, policy, seq(n, i requires 0 <= i < n => Empty(Budget(maxmemory, n, i), policy, layout,
        generator)))
  }

  /** A readout of the shards' memory, one shard at a time in any states they pass through, never sums
      to more than the configured ceiling. */
  lemma StatsBounded(hash: Hash, maxmemory: nat, policy: Policy, stores: seq<Store>, bytes: seq<nat>)
    requires |stores| > 0 && |bytes| == |stores|
    requires forall i :: 0 <= i < |stores| ==> ShardOk(hash, maxmemory, policy, |stores|, i, stores[i])
    requires forall i :: 0 <= i < |stores| ==> bytes[i] == stores[i].usage
    ensures Sum(bytes) <= maxmemory
  {
    hide OrderOk, Total, StampsOk, Budget;
    var n := |stores|;
    var budgets: seq<nat> := seq(n, i requires 0 <= i < n => Budget(maxmemory, n, i));
    forall i | 0 <= i < n ensures bytes[i] <= budgets[i] {
      assert ShardOk(hash, maxmemory, policy, n, i, stores[i]);
    }
    SumMonotone(bytes, budgets);
    BudgetsUseAll(maxmemory, n, budgets);
  }

  // ---------------------------------------------------------------- operations on one shard

  /** The operation touches only key `k`. */
  predicate OnKey(op: Op, k: string) {
    match op
    case GetOp(key) => key == k
    case SetOp(request) => request.key == k
    case DeleteOp(keys) => keys == [k]
    case ExistsOp(keys) => keys == [k]
    case ExpireOp(key, _) => key == k
    case TtlOp(key) => key == k
    case IncrementOp(key, _, _) => key == k
    case MSetOp(_) => false
    case ActiveExpireOp(_) => false
  }

  lemma SetKeys(s: Store, request: SetRequest, now: int)
    requires Valid(s)
    ensures forall j :: j in Set(s, request, now).0.entries ==> j in s.entries || j == request.key
  {
    hide OrderOk, Total, StampsOk, Evict;
    var t := RemoveIfExpired(s, request.key, now);
    AtLeastOwn(t, request.key);
    EvictShrinks(t, t.usage - Weight(t.entries, request.key) + EntryBytes(request.key, request.value),
        Some(request.key));
  }

  lemma IncrementKeys(s: Store, k: string, delta: int, now: int, later: int)
    requires Valid(s)
    ensures forall j :: j in Increment(s, k, delta, now, later).0.entries ==> j in s.entries || j == k
  {
    hide OrderOk, Total, StampsOk, Set, FromChars, ToString;
    forall request: SetRequest, j | request.key == k && j in Set(RemoveIfExpired(s, k, now), request, later).0.entries
      ensures j in s.entries || j == k
    {
      SetKeys(RemoveIfExpired(s, k, now), request, later);
    }
  }

  /** An operation adds no key but its own. */
  lemma KeyOpKeys(s: Store, op: Op, k: string, now: int)
    requires Valid(s) && OnKey(op, k)
    ensures forall j :: j in Apply(s, op, now).0.entries ==> j in s.entries || j == k
  {
    hide OrderOk, Total, StampsOk, Set, Increment, Delete, Exists;
    match op
    case SetOp(request) => SetKeys(s, request, now);
    case DeleteOp(keys) => DeleteStamps(s, keys, now);
    case ExistsOp(keys) => ExistsStamps(s, keys, now);
    case IncrementOp(_, delta, lag) => IncrementKeys(s, k, delta, now, now + lag);
    case _ =>
  }

  /** An operation on its key's home shard. */
  function AtHome(db: Db, k: string, op: Op, now: int): (r: (Db, Reply))
    requires DbValid(db) && OnKey(op, k)
    ensures DbValid(r.0) && |r.0.shards| == |db.shards|
    ensures r.0.hash == db.hash && r.0.maxmemory == db.maxmemory && r.0.policy == db.policy
  {
    hide Valid, Apply;
    var i := Home(db, k);
    var (s, reply) := Apply(db.shards[i], op, now);
    KeyOpKeys(db.shards[i], op, k, now);
    ApplyConfig(db.shards[i], op, now);
    (Replaced(db, i, s), reply)
  }

  // ---------------------------------------------------------------- operations on several keys

  function DeleteKeys(db: Db, keys: seq<string>, now: int): (r: (Db, nat))
    requires DbValid(db)
    ensures DbValid(r.0) && |r.0.shards| == |db.shards|
    ensures r.0.hash == db.hash && r.0.maxmemory == db.maxmemory && r.0.policy == db.policy
  {
    hide DbValid, AtHome;
    if keys == [] then (db, 0)
    else
      var (d, n) := DeleteKeys(db, keys[..|keys| - 1], now);
      var k := keys[|keys| - 1];
      var (e, reply) := AtHome(d, k, DeleteOp([k]), now);
      (e, n + if reply.Count? then reply.count else 0)
  }

  function ExistsKeys(db: Db, keys: seq<string>, now: int): (r: (Db, nat))
    requires DbValid(db)
    ensures DbValid(r.0) && |r.0.shards| == |db.shards|
    ensures r.0.hash == db.hash && r.0.maxmemory == db.maxmemory && r.0.policy == db.policy
  {
    hide DbValid, AtHome;
    if keys == [] then (db, 0)
    else
      var (d, n) := ExistsKeys(db, keys[..|keys| - 1], now);
      var k := keys[|keys| - 1];
      var (e, reply) := AtHome(d, k, ExistsOp([k]), now);
      (e, n + if reply.Count? then reply.count else 0)
  }

  type Pairs = seq<(string, string)>

  /** The updates routed to shard `i`, in their listed order. */
  function Group(hash: Hash, n: nat, values: Pairs, i: nat): Pairs
    requires n > 0
  {
    if values == [] then []
    else
      var last := values[|values| - 1];
      Group(hash, n, values[..|values| - 1], i) + if ShardFor(hash, n, last.0) == i then [last] else []
  }

  /** Grouping keeps, for every key, its last listed value, in the group of its home shard alone. */
  lemma {:induction false} GroupValues(hash: Hash, n: nat, values: Pairs, i: nat, k: string)
    requires n > 0
    ensures var all, own := LastValues(values), LastValues(Group(hash, n, values, i));
            && (k in own <==> k in all && ShardFor(hash, n, k) == i)
            && (k in own ==> own[k] == all[k])
  {
    if values != [] {
      var m := |values| - 1;
      GroupValues(hash, n, values[..m], i, k);
      var g := Group(hash, n, values[..m], i);
      assert (g + [values[m]])[..|g|] == g;
      assert g + [] == g;
    }
  }

  function Groups(hash: Hash, n: nat, values: Pairs): (r: seq<Pairs>)
    requires n > 0
    ensures |r| == n && forall i :: 0 <= i < n ==> r[i] == Group(hash, n, values, i)
  {
    seq(n, i requires 0 <= i < n => Group(hash, n, values, i))
  }

  method GroupByShard(hash: Hash, n: nat, values: Pairs) returns (groups: seq<Pairs>)
    requires n > 0
    ensures groups == Groups(hash, n, values)
  {
    groups := seq(n, _ => []);
    for j := 0 to |values|
      invariant |groups| == n && forall i :: 0 <= i < n ==> groups[i] == Group(hash, n, values[..j], i)
    {
      var home := ShardFor(hash, n, values[j].0);
      groups := groups[home := groups[home] + [values[j]]];
      assert values[..j + 1][..j] == values[..j];
    }
    assert values[..|values|] == values;
  }

  lemma GroupKeys(s: Store, values: Pairs)
    requires Valid(s)
    ensures forall j :: j in MSet(s, values).0.entries ==> j in s.entries || j in LastValues(values)
  {
    hide Valid, MSet;
    if MSet(s, values).1 == Ok {
      forall j | j in MSet(s, values).0.entries ensures j in s.entries || j in LastValues(values) {
        MSetContents(s, values, j);
      }
    }
  }

  lemma GroupShardOk(db: Db, values: Pairs, i: nat, s: Store)
    requires |db.shards| > 0 && i < |db.shards| && ShardOk(db.hash, db.maxmemory, db.policy, |db.shards|, i, s)
    ensures ShardOk(db.hash, db.maxmemory, db.policy, |db.shards|, i, MSet(s, Group(db.hash, |db.shards|, values, i)).0)
  {
    hide Valid, MSet, Group;
    var g := Group(db.hash, |db.shards|, values, i);
    MSetConfig(s, g);
    GroupKeys(s, g);
    forall j | j in LastValues(g) ensures Home(db, j) == i { GroupValues(db.hash, |db.shards|, values, i, j); }
  }

  /** Applies the group of shard `i`, if it has one. */
  function ApplyGroup(db: Db, values: Pairs, i: nat): (r: (Db, WriteResult))
    requires DbValid(db) && i < |db.shards|
    ensures DbValid(r.0) && |r.0.shards| == |db.shards|
    ensures r.0.hash == db.hash && r.0.maxmemory == db.maxmemory && r.0.policy == db.policy
    ensures r.0.shards == db.shards[i := r.0.shards[i]]
  {
    hide Valid, MSet, Group, ShardOk, DbValid;
    ShardIsOk(db, i);
    GroupShardOk(db, values, i, db.shards[i]);
    var g := Group(db.hash, |db.shards|, values, i);
    if g == [] then (db, Ok)
    else var (s, w) := MSet(db.shards[i], g); (Replaced(db, i, s), w)
  }

  /** Applies the first `i` groups, stopping at the first refusal. */
  function ApplyGroups(db: Db, values: Pairs, i: nat): (r: (Db, WriteResult))
    requires DbValid(db) && i <= |db.shards|
    ensures DbValid(r.0) && |r.0.shards| == |db.shards|
    ensures r.0.hash == db.hash && r.0.maxmemory == db.maxmemory && r.0.policy == db.policy
    ensures forall j :: i <= j < |db.shards| ==> r.0.shards[j] == db.shards[j]
  {
    hide DbValid, ApplyGroup;
    if i == 0 then (db, Ok)
    else
      var (d, w) := ApplyGroups(db, values, i - 1);
      if w != Ok then (d, w) else ApplyGroup(d, values, i - 1)
  }

  /** The batch write of an undisturbed database: all groups or none. */
  function MSetDb(db: Db, values: Pairs): (r: (Db, WriteResult))
    requires DbValid(db)
    ensures DbValid(r.0) && |r.0.shards| == |db.shards|
    ensures r.0.hash == db.hash && r.0.maxmemory == db.maxmemory && r.0.policy == db.policy
  {
    hide DbValid;
    var (d, w) := ApplyGroups(db, values, |db.shards|);
    (if w == Ok then d else db, w)
  }

  // ---------------------------------------------------------------- which groups are applied

  /** `touched` lists, in order, the indices below `next` whose group is not empty. */
  ghost predicate Listed(touched: seq<nat>, groups: seq<Pairs>, next: nat) {
    && next <= |groups|
    && (forall p :: 0 <= p < |touched| ==> touched[p] < next && groups[touched[p]] != [])
    && (forall p, q :: 0 <= p < q < |touched| ==> touched[p] < touched[q])
    && (forall i :: 0 <= i < next && groups[i] != [] ==> i in touched)
  }

  lemma ListedAt(touched: seq<nat>, groups: seq<Pairs>, p: nat)
    requires Listed(touched, groups, |groups|) && p < |touched|
    ensures touched[p] < |groups| && groups[touched[p]] != []
  {
  }

  ghost function Upto(touched: seq<nat>, p: nat, n: nat): nat {
    if p < |touched| then touched[p] else n
  }

  /** Shards without a group are passed over. */
  lemma {:induction false} Skip(db: Db, values: Pairs, a: nat, b: nat)
    requires DbValid(db) && a <= b <= |db.shards| && ApplyGroups(db, values, a).1 == Ok
    requires forall i :: a <= i < b ==> Group(db.hash, |db.shards|, values, i) == []
    ensures ApplyGroups(db, values, b) == ApplyGroups(db, values, a)
    decreases b
  {
    hide DbValid, Group, Valid, MSet, ShardOk;
    if a < b {
      Skip(db, values, a, b - 1);
      NoGroup(ApplyGroups(db, values, b - 1).0, values, b - 1);
    }
  }

  lemma NoGroup(db: Db, values: Pairs, i: nat)
    requires DbValid(db) && i < |db.shards| && Group(db.hash, |db.shards|, values, i) == []
    ensures ApplyGroup(db, values, i) == (db, Ok)
  {
  }

  lemma SkipFrom(db: Db, values: Pairs, groups: seq<Pairs>, touched: seq<nat>, p: nat)
    requires DbValid(db) && |groups| == |db.shards| && Listed(touched, groups, |groups|) && p <= |touched|
    requires forall i :: 0 <= i < |groups| ==> groups[i] == Group(db.hash, |groups|, values, i)
    requires var from := if p == 0 then 0 else touched[p - 1] + 1; ApplyGroups(db, values, from).1 == Ok
    ensures var from := if p == 0 then 0 else touched[p - 1] + 1;
            Upto(touched, p, |groups|) <= |groups| &&
            ApplyGroups(db, values, Upto(touched, p, |groups|)) == ApplyGroups(db, values, from)
  {
    hide DbValid, Group, ApplyGroups;
    var from, to := if p == 0 then 0 else touched[p - 1] + 1, Upto(touched, p, |groups|);
    forall i | from <= i < to ensures groups[i] == [] { assert groups[i] != [] ==> i in touched; }
    Skip(db, values, from, to);
  }

  lemma Nothing(db: Db, values: Pairs)
    requires DbValid(db)
    ensures ApplyGroups(db, values, 0) == (db, Ok)
  {
  }

  lemma AllApplied(db: Db, values: Pairs)
    requires DbValid(db) && ApplyGroups(db, values, |db.shards|).1 == Ok
    ensures MSetDb(db, values) == ApplyGroups(db, values, |db.shards|)
  {
    hide DbValid, ApplyGroups;
  }

  /** A shard without a group keeps its store. */
  lemma {:induction false} Untouched(db: Db, values: Pairs, groups: seq<Pairs>, i: nat)
    requires DbValid(db) && i <= |db.shards| && groups == Groups(db.hash, |db.shards|, values)
    ensures forall j :: 0 <= j < |groups| && groups[j] == [] ==> ApplyGroups(db, values, i).0.shards[j] == db.shards[j]
  {
    hide DbValid, Group, MSet, ShardOk;
    if i > 0 { Untouched(db, values, groups, i - 1); }
  }

  /** A refusal ends the batch. */
  lemma {:induction false} RefusedAt(db: Db, values: Pairs, i: nat)
    requires DbValid(db) && i < |db.shards| && ApplyGroups(db, values, i + 1).1 != Ok
    ensures MSetDb(db, values) == (db, ApplyGroups(db, values, i + 1).1)
  {
    hide DbValid, ApplyGroups;
    Stuck(db, values, i + 1, |db.shards|);
  }

  lemma {:induction false} Stuck(db: Db, values: Pairs, a: nat, b: nat)
    requires DbValid(db) && a <= b <= |db.shards| && ApplyGroups(db, values, a).1 != Ok
    ensures ApplyGroups(db, values, b).1 == ApplyGroups(db, values, a).1
    decreases b
  {
    hide DbValid, ApplyGroup;
    if a < b { Stuck(db, values, a, b - 1); }
  }

  // ---------------------------------------------------------------- all operations

  /** Every operation of the database. A sweep is not one of them: workers sweep their own shards. */
  function Perform(db: Db, op: Op, now: int): (r: (Db, Reply))
    requires DbValid(db)
    ensures DbValid(r.0) && |r.0.shards| == |db.shards|
    ensures r.0.hash == db.hash && r.0.maxmemory == db.maxmemory && r.0.policy == db.policy
  {
    hide DbValid, AtHome, MSetDb, DeleteKeys, ExistsKeys;
    match op
    case DeleteOp(keys) => var (d, n) := DeleteKeys(db, keys, now); (d, Count(n))
    case ExistsOp(keys) => var (d, n) := ExistsKeys(db, keys, now); (d, Count(n))
    case MSetOp(values) => var (d, w) := MSetDb(db, values); (d, Written(w))
    case SetOp(request) => AtHome(db, request.key, op, now)
    case ActiveExpireOp(_) => (db, Swept)
    case _ => AtHome(db, op.key, op, now)
  }

  function SweepShard(db: Db, i: nat, samples: nat, now: int): (r: Db)
    requires DbValid(db) && i < |db.shards|
    ensures DbValid(r) && |r.shards| == |db.shards|
    ensures r.hash == db.hash && r.maxmemory == db.maxmemory && r.policy == db.policy
  {
    hide Valid, ActiveExpire;
    SweepShardOk(db.hash, db.maxmemory, db.policy, |db.shards|, i, db.shards[i], samples, now);
    Replaced(db, i, ActiveExpire(db.shards[i], samples, now).0)
  }

  lemma SweepShardOk(hash: Hash, maxmemory: nat, policy: Policy, n: nat, i: nat, s: Store, samples: nat, now: int)
    requires n > 0 && ShardOk(hash, maxmemory, policy, n, i, s)
    ensures ShardOk(hash, maxmemory, policy, n, i, ActiveExpire(s, samples, now).0)
  {
    hide OrderOk, Total, StampsOk, Sweep;
    ApplyConfig(s, ActiveExpireOp(samples), now);
    SweepStamps(s, Window(s, samples), now);
  }
}

/** The commands as clients know them: what each one answers and what it leaves to be found, in terms of the
    keys' live cells before it. A law names the command by the text that invokes it and its arguments by
    position, and holds under every eviction policy and with or without room. */
module CommandLaws {
  import opened Wrappers
  import opened Decimal
  import opened Resp
  import S = Store
  import opened Eviction
  import opened StoreRuns
  import opened LiveMap
  import opened Sharding
  import opened OneStore
  import opened ClientView
  import opened Executor

  /** The command is invoked by `name`, in any case. */
  predicate Named(arguments: Command, name: string) {
    arguments != [] && Uppercase(arguments[0]) == name
  }

  function BulkOf(cell: Option<Cell>): Value {
    if cell.Some? then Bulk(cell.value.value) else Null
  }

  // ---------------------------------------------------------------- from the name to the handler

  lemma NamesDiffer(v: Verb, w: Verb)
    requires NameOf(v) == NameOf(w)
    ensures v == w
  {
    assert |NameOf(v)| == |NameOf(w)|;
    assert NameOf(v)[0] == NameOf(w)[0] && NameOf(v)[1] == NameOf(w)[1] && NameOf(v)[2] == NameOf(w)[2];
  }

  lemma FindName(v: Verb)
    ensures Find(NameOf(v)) == Some(v)
  {
    hide Find, NameOf;
    if Find(NameOf(v)).Some? { NamesDiffer(v, Find(NameOf(v)).value); }
  }

  /** A command with its name, arity and guard in order is carried out by its handler. */
  lemma Runs(db: Db, v: Verb, arguments: Command, healthy: bool, now: int, lag: nat)
    requires DbValid(db) && Named(arguments, NameOf(v))
    ensures var r := Execute(db, arguments, healthy, now, lag);
            if !ArityOk(v, |arguments|) then r == Result(db, ArityError(NameOf(v)), false)
            else if Mutates(v) && !healthy then r == Result(db, PERSISTENCE_ERROR, false)
            else
              var (d, reply) := Carry(db, v, PlanOf(v, arguments, lag), now);
              r == Result(d, reply, Mutates(v) && !reply.Error? && !reply.Null?)
  {
    hide DbValid, Carry, PlanOf, Find, NameOf, Uppercase;
    FindName(v);
  }

  /** Commands that never reach a handler leave the database alone: no name, an unknown name. */
  lemma NotACommand(db: Db, arguments: Command, healthy: bool, now: int, lag: nat)
    requires DbValid(db)
    requires forall name :: name in COMMANDS ==> !Named(arguments, name)
    ensures var r := Execute(db, arguments, healthy, now, lag);
            && r.db == db && !r.logged
            && r.reply == if arguments == [] then Error("ERR empty command")
                          else Error("ERR unknown command '" + arguments[0] + "'")
  {
    hide DbValid, Carry, PlanOf, Find, Uppercase;
    forall v ensures NameOf(v) in COMMANDS {
      IsCommand(v);
    }
    hide NameOf;
  }

  lemma IsCommand(v: Verb)
    ensures NameOf(v) in COMMANDS
  {
  }

  const COMMANDS := {"PING", "ECHO", "GET", "SET", "DEL", "EXISTS", "EXPIRE", "TTL", "MGET", "MSET", "INCR", "DECR"}

  // ---------------------------------------------------------------- reads

  lemma PingLaw(db: Db, arguments: Command, healthy: bool, now: int, lag: nat)
    requires DbValid(db) && Named(arguments, "PING")
    ensures Execute(db, arguments, healthy, now, lag) ==
            Result(db, if |arguments| == 1 then Simple("PONG") else if |arguments| == 2 then Bulk(arguments[1])
                       else ArityError("PING"), false)
  {
    hide DbValid, Perform;
    Runs(db, PING, arguments, healthy, now, lag);
  }

  lemma EchoLaw(db: Db, arguments: Command, healthy: bool, now: int, lag: nat)
    requires DbValid(db) && Named(arguments, "ECHO")
    ensures Execute(db, arguments, healthy, now, lag) ==
            Result(db, if |arguments| == 2 then Bulk(arguments[1]) else ArityError("ECHO"), false)
  {
    hide DbValid, Perform;
    Runs(db, ECHO, arguments, healthy, now, lag);
  }

  /** An operation that cannot meet memory pressure, as a client sees it. */
  lemma Asked(db: Db, v: Verb, op: Op, now: int) returns (m: View)
    requires DbValid(db) && !op.SetOp? && !op.MSetOp? && !op.IncrementOp?
    ensures Showing(db, m, now)
    ensures var (e, reply) := Carry(db, v, Ask(op), now);
            var (d, q) := ApplyTo(m, op, now);
            && reply == ReplyTo(v, q) && |e.shards| > 0
            && forall k, t :: now <= t ==> Look(e, k, t) == LookIn(d, k, t)
  {
    hide DbValid, Perform, ApplyTo, Look, LookIn, ReplyTo, Showing;
    m := LiveMapOf(db, now);
    Performs(db, m, op, now);
  }

  /** GET answers the value a client finds, or null. */
  lemma GetLaw(db: Db, arguments: Command, healthy: bool, now: int, lag: nat)
    requires DbValid(db) && |db.shards| > 0 && Named(arguments, "GET")
    ensures var r := Execute(db, arguments, healthy, now, lag);
            && !r.logged && Unchanged(db, r.db, now)
            && r.reply == if |arguments| == 2 then BulkOf(Look(db, arguments[1], now)) else ArityError("GET")
  {
    hide DbValid, Execute, Perform, Look, Showing;
    Runs(db, GET, arguments, healthy, now, lag);
    if |arguments| == 2 {
      var m := Asked(db, GET, GetOp(arguments[1]), now);
      ShownAt(db, m, now, arguments[1]);
    }
  }

  lemma ShownAt(db: Db, m: View, now: int, k: string)
    requires Showing(db, m, now)
    ensures Look(db, k, now) == if k in m then Some(m[k]) else None
    ensures forall j, t :: now <= t ==> Look(db, j, t) == LookIn(m, j, t)
  {
    hide Look, Mirrors;
    assert k in m ==> k in Prune(m, now);
  }

  /** MGET answers position by position what a client finds. */
  lemma MGetLaw(db: Db, arguments: Command, healthy: bool, now: int, lag: nat)
    requires DbValid(db) && |db.shards| > 0 && Named(arguments, "MGET")
    ensures var r := Execute(db, arguments, healthy, now, lag);
            && !r.logged && Unchanged(db, r.db, now)
            && if |arguments| < 2 then r.reply == ArityError("MGET")
               else
                 && r.reply.Array? && |r.reply.elements| == |arguments| - 1
                 && forall i :: 1 <= i < |arguments| ==> r.reply.elements[i - 1] == BulkOf(Look(db, arguments[i], now))
  {
    hide DbValid, Execute, ReadKeys, Look;
    Runs(db, MGET, arguments, healthy, now, lag);
    if |arguments| >= 2 {
      var keys := arguments[1..];
      var m := LiveMapOf(db, now);
      ReadKeysLaw(db, m, keys, now);
      hide Showing;
      ShownAt(db, m, now, "");
      forall i | 1 <= i < |arguments|
        ensures ReadKeys(db, keys, now).1[i - 1] == BulkOf(Look(db, arguments[i], now))
      {
        assert keys[i - 1] == arguments[i];
        ShownAt(db, m, now, arguments[i]);
      }
    }
  }

  lemma {:induction false} ReadKeysLaw(db: Db, m: View, keys: seq<string>, now: int)
    requires DbValid(db) && Showing(db, m, now)
    ensures var (e, values) := ReadKeys(db, keys, now);
            && Showing(e, m, now)
            && forall i :: 0 <= i < |keys| ==> values[i] == if keys[i] in m then Bulk(m[keys[i]].value) else Null
  {
    hide DbValid, AtHome, Look, LookIn, Mirrors, Prune;
    if keys != [] {
      var init, k := keys[..|keys| - 1], keys[|keys| - 1];
      ReadKeysLaw(db, m, init, now);
      var d := ReadKeys(db, init, now).0;
      HomeValid(d, k);
      AtHomeRefines(d, m, k, GetOp(k), now);
      MirrorLook(AtHome(d, k, GetOp(k), now).0, m, now);
    }
  }

  /** EXISTS counts the positions whose key a client finds. */
  lemma ExistsLaw(db: Db, arguments: Command, healthy: bool, now: int, lag: nat)
    requires DbValid(db) && |db.shards| > 0 && Named(arguments, "EXISTS")
    ensures var r := Execute(db, arguments, healthy, now, lag);
            && !r.logged && Unchanged(db, r.db, now)
            && if |arguments| < 2 then r.reply == ArityError("EXISTS")
               else var keys := arguments[1..];
                    r.reply == Integer(|set i | 0 <= i < |keys| && Look(db, keys[i], now).Some?|)
  {
    hide DbValid, Execute, Perform, Look, Showing, CountIn;
    Runs(db, EXISTS, arguments, healthy, now, lag);
    if |arguments| >= 2 {
      var keys := arguments[1..];
      var m := Asked(db, EXISTS, ExistsOp(keys), now);
      ShownAt(db, m, now, "");
      CountLaw(m, keys);
      forall i | 0 <= i < |keys| ensures Look(db, keys[i], now).Some? <==> keys[i] in m {
        ShownAt(db, m, now, keys[i]);
      }
      assert (set i | 0 <= i < |keys| && keys[i] in m) == set i | 0 <= i < |keys| && Look(db, keys[i], now).Some?;
    }
  }

  lemma {:induction false} CountLaw(m: View, keys: seq<string>)
    ensures CountIn(m, keys) == |set i | 0 <= i < |keys| && keys[i] in m|
  {
    var all := set i | 0 <= i < |keys| && keys[i] in m;
    if keys == [] {
      assert all == {};
    } else {
      var n := |keys| - 1;
      CountLaw(m, keys[..n]);
      var init := set i | 0 <= i < n && keys[..n][i] in m;
      assert all == init + if keys[n] in m then {n} else {};
    }
  }

  /** TTL answers the whole seconds left, -1 without a deadline, -2 for a key not found. */
  lemma TtlLaw(db: Db, arguments: Command, healthy: bool, now: int, lag: nat)
    requires DbValid(db) && |db.shards| > 0 && Named(arguments, "TTL")
    ensures var r := Execute(db, arguments, healthy, now, lag);
            && !r.logged && Unchanged(db, r.db, now)
            && if |arguments| != 2 then r.reply == ArityError("TTL")
               else
                 var was := Look(db, arguments[1], now);
                 if was.None? then r.reply == Integer(-2)
                 else if was.value.expiresAt.None? then r.reply == Integer(-1)
                 else
                   && r.reply.Integer? && r.reply.number >= 0
                   && now + r.reply.number * S.NANOS_PER_SECOND <= was.value.expiresAt.value
                   && was.value.expiresAt.value < now + (r.reply.number + 1) * S.NANOS_PER_SECOND
  {
    hide DbValid, Execute, Perform, Look, Showing;
    Runs(db, TTL, arguments, healthy, now, lag);
    if |arguments| == 2 {
      var m := Asked(db, TTL, TtlOp(arguments[1]), now);
      ShownAt(db, m, now, arguments[1]);
      ShownAlive(db, m, now, arguments[1]);
    }
  }

  lemma ShownAlive(db: Db, m: View, now: int, k: string)
    requires Showing(db, m, now)
    ensures k in m ==> Alive(m[k], now)
  {
    assert k in m ==> k in Prune(m, now);
  }

  // ---------------------------------------------------------------- writes

  /** A writing command is refused while persistence is unavailable. */
  lemma GuardLaw(db: Db, arguments: Command, now: int, lag: nat)
    requires DbValid(db)
    requires exists name :: name in {"SET", "DEL", "EXPIRE", "MSET", "INCR", "DECR"} && Named(arguments, name)
    ensures var r := Execute(db, arguments, false, now, lag);
            && r.db == db && !r.logged
            && (r.reply == PERSISTENCE_ERROR || r.reply == ArityError(Uppercase(arguments[0])))
  {
    hide DbValid, Execute, Carry, PlanOf, Uppercase;
    var v := if Named(arguments, "SET") then SET else if Named(arguments, "DEL") then DEL
             else if Named(arguments, "EXPIRE") then EXPIRE else if Named(arguments, "MSET") then MSET
             else if Named(arguments, "INCR") then INCR else DECR;
    Runs(db, v, arguments, false, now, lag);
  }

  /** DEL removes every key it lists and answers how many of them a client would have found. */
  lemma DelLaw(db: Db, arguments: Command, now: int, lag: nat)
    requires DbValid(db) && |db.shards| > 0 && Named(arguments, "DEL")
    ensures var r := Execute(db, arguments, true, now, lag);
            && |r.db.shards| > 0
            && if |arguments| < 2 then r == Result(db, ArityError("DEL"), false)
               else
                 var keys := arguments[1..];
                 && r.logged && r.reply == Integer(|set k | k in keys && Look(db, k, now).Some?|)
                 && forall k, t :: now <= t ==> Look(r.db, k, t) == if k in keys then None else Look(db, k, t)
  {
    hide DbValid, Execute, Perform, Look, Showing, DeleteFrom;
    Runs(db, DEL, arguments, true, now, lag);
    if |arguments| >= 2 {
      var keys := arguments[1..];
      var m := Asked(db, DEL, DeleteOp(keys), now);
      DeleteLaw(m, keys);
      ShownAt(db, m, now, "");
      forall k | k in keys ensures Look(db, k, now).Some? <==> k in m { ShownAt(db, m, now, k); }
      assert (set k | k in keys && k in m) == set k | k in keys && Look(db, k, now).Some?;
    }
  }

  lemma {:induction false} DeleteLaw(m: View, keys: seq<string>)
    ensures var (d, n) := DeleteFrom(m, keys);
            && n == |set k | k in keys && k in m|
            && (forall k :: k in d <==> k in m && k !in keys) && (forall k :: k in d ==> d[k] == m[k])
  {
    var all := set k | k in keys && k in m;
    if keys == [] {
      assert all == {};
    } else {
      var n := |keys| - 1;
      var last, before := keys[n], set k | k in keys[..n] && k in m;
      DeleteLaw(m, keys[..n]);
      assert keys == keys[..n] + [last];
      assert all == before + if last in m && last !in keys[..n] then {last} else {};
    }
  }

  /** What a key shows that was written with a deadline, or none. */
  function Written(value: string, deadline: Option<int>, t: int): Option<Cell> {
    if deadline.Some? && deadline.value <= t then None else Some(Cell(value, deadline))
  }

  /** EXPIRE sets a deadline in seconds from now, or removes the key when the seconds are not positive, and
      answers whether a client would have found the key. */
  lemma ExpireLaw(db: Db, arguments: Command, now: int, lag: nat)
    requires DbValid(db) && |db.shards| > 0 && Named(arguments, "EXPIRE")
    ensures var r := Execute(db, arguments, true, now, lag);
            && |r.db.shards| > 0
            && if |arguments| != 3 then r == Result(db, ArityError("EXPIRE"), false)
               else
                 var k, seconds, was := arguments[1], FromChars(arguments[2]), Look(db, arguments[1], now);
                 if seconds.None? || seconds.value > INT64_MAX / 1000 then r == Result(db, INTEGER_ERROR, false)
                 else
                   && r.logged && r.reply == Integer(if was.Some? then 1 else 0)
                   && (forall j, t :: now <= t && j != k ==> Look(r.db, j, t) == Look(db, j, t))
                   && var deadline := now + seconds.value * S.NANOS_PER_SECOND;
                      forall t :: now <= t ==>
                        Look(r.db, k, t) == if was.None? then None else Written(was.value.value, Some(deadline), t)
  {
    hide DbValid, Execute, Perform, Look, Showing, FromChars;
    Runs(db, EXPIRE, arguments, true, now, lag);
    if |arguments| == 3 {
      var seconds := FromChars(arguments[2]);
      if seconds.Some? && seconds.value <= INT64_MAX / 1000 {
        var op := ExpireOp(arguments[1], if seconds.value <= 0 then 0 else seconds.value * 1000);
        var m := Asked(db, EXPIRE, op, now);
        ShownAt(db, m, now, arguments[1]);
        var k, e := arguments[1], Carry(db, EXPIRE, Ask(op), now).0;
        hide Carry;
        forall j, t | now <= t && j != k ensures Look(e, j, t) == Look(db, j, t) {
          assert LookIn(ApplyTo(m, op, now).0, j, t) == LookIn(m, j, t);
        }
      }
    }
  }

  /** SET with an option list of the grammar. With NX on a key that is found, or XX on one that is not, it
      answers null and changes nothing; without room it answers an error and changes nothing; otherwise the
      key shows the value until `ttl` milliseconds from now. */
  lemma SetLaw(db: Db, arguments: Command, now: int, lag: nat, ttl: Option<int>, condition: S.SetCondition)
    requires DbValid(db) && |db.shards| > 0 && Named(arguments, "SET")
    requires |arguments| >= 3 && OptionGrammar(arguments[3..], ttl, condition)
    ensures var r := Execute(db, arguments, true, now, lag);
            var k, was := arguments[1], Look(db, arguments[1], now);
            && |r.db.shards| > 0
            && if (condition == S.IfAbsent && was.Some?) || (condition == S.IfPresent && was.None?)
               then r.reply == Null && !r.logged && Unchanged(db, r.db, now)
               else
                 || (r.reply == OUT_OF_MEMORY && !r.logged && Unchanged(db, r.db, now))
                 || (&& r.reply == Simple("OK") && r.logged
                     && (forall j :: j != k ==> Spared(db, r.db, j, now))
                     && var deadline := if ttl.Some? then Some(now + ttl.value * S.NANOS_PER_MILLI) else None;
                        forall t :: Look(r.db, k, t) == Written(arguments[2], deadline, t))
  {
    hide DbValid, Execute, OptionGrammar, ParseSet, S.Set, Look;
    var request := S.SetRequest(arguments[1], arguments[2], ttl, condition);
    SetAcceptsGrammar(arguments, request);
    Runs(db, SET, arguments, true, now, lag);
    SetAtHome(db, request, now);
    hide Perform, AtHome;
  }

  /** A write on the home shard of its key. */
  lemma SetAtHome(db: Db, request: S.SetRequest, now: int)
    requires DbValid(db) && |db.shards| > 0
    ensures var k := request.key;
            var (e, reply) := AtHome(db, k, SetOp(request), now);
            && reply.Written? && |e.shards| > 0
            && (reply.result == S.ConditionFailed <==> !S.ConditionHolds(request.condition, Look(db, k, now).Some?))
            && (reply.result != S.Ok ==> Unchanged(db, e, now))
            && (reply.result == S.Ok ==>
                  && (forall j :: j != k ==> Spared(db, e, j, now))
                  && forall t :: Look(e, k, t) == Written(request.value, S.Deadline(now, request.ttl), t))
  {
    var k, op := request.key, SetOp(request);
    HomeIs(db, k, op, now);
    var s := db.shards[Home(db, k)];
    SetFails(s, request, now);
    hide DbValid, S.Valid, AtHome, S.Set, Wrote, Live;
    if S.Set(s, request, now).1 == S.Ok {
      SetWrites(s, request, now);
      HomeWrote(db, k, op, now, Cell(request.value, S.Deadline(now, request.ttl)), now);
    } else {
      HomeSame(db, k, op, now, now);
    }
  }

  /** SET rejects every other option list, and changes nothing. */
  lemma SetRejectedLaw(db: Db, arguments: Command, now: int, lag: nat)
    requires DbValid(db) && Named(arguments, "SET")
    requires |arguments| >= 3 ==> forall ttl, condition :: !OptionGrammar(arguments[3..], ttl, condition)
    ensures var r := Execute(db, arguments, true, now, lag);
            && r.db == db && !r.logged
            && if |arguments| < 3 then r.reply == ArityError("SET")
               else r.reply == SYNTAX_ERROR || r.reply == INTEGER_ERROR
  {
    hide DbValid, Execute, OptionGrammar, Perform, SetOptions;
    Runs(db, SET, arguments, true, now, lag);
    if |arguments| >= 3 {
      var p := ParseSet(arguments);
      if p.Parsed? {
        SetAcceptsGrammar(arguments, p.request);
      } else {
        RejectedReply(arguments, 3, S.SetRequest(arguments[1], arguments[2], None, S.Always));
      }
    }
  }

  lemma {:induction false} RejectedReply(arguments: Command, index: nat, request: S.SetRequest)
    ensures var p := SetOptions(arguments, index, request);
            p.Rejected? ==> p.reply == SYNTAX_ERROR || p.reply == INTEGER_ERROR
    decreases |arguments| - index
  {
    hide Uppercase, TtlAmount;
    if index < |arguments| {
      var option := Uppercase(arguments[index]);
      if (option == "EX" || option == "PX") && index + 1 < |arguments| && request.ttl.None? {
        RejectedReply(arguments, index + 2, request.(ttl := TtlAmount(option, arguments[index + 1])));
      } else {
        RejectedReply(arguments, index + 1, request.(condition := S.IfAbsent));
        RejectedReply(arguments, index + 1, request.(condition := S.IfPresent));
      }
    }
  }

  /** INCR and DECR count up and down by one from the number a client finds, zero if there is none. A text
      that is no 64-bit number, or a result that is none, is an error and changes nothing; so is a lack of
      room. The remaining lifetime is carried over in whole milliseconds from the second clock reading. */
  lemma CounterLaw(db: Db, arguments: Command, up: bool, now: int, lag: nat)
    requires DbValid(db) && |db.shards| > 0 && Named(arguments, if up then "INCR" else "DECR")
    ensures var r := Execute(db, arguments, true, now, lag);
            && |r.db.shards| > 0
            && if |arguments| != 2 then r == Result(db, ArityError(if up then "INCR" else "DECR"), false)
               else
                 && Counted(db, r.db, r.reply, arguments[1], if up then 1 else -1, now, now + lag,
                            Error(if up then "OOM increment failed" else "OOM decrement failed"))
                 && r.logged == r.reply.Integer?
  {
    hide DbValid, Execute, Carry, Counted;
    var v := if up then INCR else DECR;
    assert NameOf(v) == if up then "INCR" else "DECR";
    Runs(db, v, arguments, true, now, lag);
    if |arguments| == 2 {
      var k, delta := arguments[1], if up then 1 else -1;
      CountCarried(db, v, k, delta, now, lag);
      CountedReply(db, Carry(db, v, PlanOf(v, arguments, lag), now).0, k, delta, now, now + lag,
                   Carry(db, v, PlanOf(v, arguments, lag), now).1, NoMemoryFor(v));
    }
  }

  /** What a count on key `k` by `delta` answers and leaves. */
  ghost predicate Counted(
      db: Db, e: Db, reply: Value, k: string, delta: int, now: int, later: int, full: Value)
    requires |db.shards| > 0 && |e.shards| > 0
  {
    var was, number := Look(db, k, now), NumberAt(db, k, now);
    if number.None? || !IsInt64(number.value + delta) then reply == INTEGER_ERROR && Unchanged(db, e, later)
    else
      || (reply == full && Unchanged(db, e, later))
      || (&& reply == Integer(number.value + delta)
          && Rewritten(db, e, k, ToString(number.value + delta), Carried(was, now, later), later))
  }

  lemma CountedReply(db: Db, e: Db, k: string, delta: int, now: int, later: int, reply: Value, full: Value)
    requires |db.shards| > 0 && |e.shards| > 0 && Counted(db, e, reply, k, delta, now, later, full) && full.Error?
    ensures reply.Integer? || reply.Error?
  {
    hide FromChars, Look, Unchanged, Rewritten;
  }

  /** Key `k` shows the value until its deadline; from `from` on the other keys are spared. */
  ghost predicate Rewritten(db: Db, e: Db, k: string, value: string, deadline: Option<int>, from: int)
    requires |db.shards| > 0 && |e.shards| > 0
  {
    && (forall j :: j != k ==> Spared(db, e, j, from))
    && (forall t :: Look(e, k, t) == Written(value, deadline, t))
  }

  /** The deadline after a count: the milliseconds left at `now`, from `later` on. */
  function Carried(was: Option<Cell>, now: int, later: int): Option<int> {
    if was.Some? && was.value.expiresAt.Some?
    then Some(later + (was.value.expiresAt.value - now) / S.NANOS_PER_MILLI * S.NANOS_PER_MILLI)
    else None
  }

  lemma CountCarried(db: Db, v: Verb, k: string, delta: int, now: int, lag: nat)
    requires DbValid(db) && |db.shards| > 0
    ensures var (e, reply) := Carry(db, v, Ask(IncrementOp(k, delta, lag)), now);
            |e.shards| > 0 && Counted(db, e, reply, k, delta, now, now + lag, NoMemoryFor(v))
  {
    hide DbValid, S.Valid, S.Increment, AtHome, Unchanged, Rewritten, Look, FromChars, ToString, NoMemoryFor, Carry;
    HomeValid(db, k);
    CarriedAtHome(db, v, k, delta, now, lag);
    var n := S.Increment(db.shards[Home(db, k)], k, delta, now, now + lag).1;
    if n.Incremented? { CountUp(db, k, delta, now, lag); } else { CountRefused(db, k, delta, now, lag); }
  }

  lemma CarriedAtHome(db: Db, v: Verb, k: string, delta: int, now: int, lag: nat)
    requires DbValid(db) && |db.shards| > 0 && S.Valid(db.shards[Home(db, k)])
    ensures var op := IncrementOp(k, delta, lag);
            Carry(db, v, Ask(op), now) ==
            (AtHome(db, k, op, now).0,
             ReplyTo(v, Number(S.Increment(db.shards[Home(db, k)], k, delta, now, now + lag).1)))
  {
    hide DbValid, S.Valid, S.Increment, AtHome, ReplyTo;
    HomeReply(db, k, delta, now, lag);
  }

  lemma HomeReply(db: Db, k: string, delta: int, now: int, lag: nat)
    requires DbValid(db) && |db.shards| > 0 && S.Valid(db.shards[Home(db, k)])
    ensures AtHome(db, k, IncrementOp(k, delta, lag), now).1 ==
            Number(S.Increment(db.shards[Home(db, k)], k, delta, now, now + lag).1)
  {
    hide DbValid, S.Valid, S.Increment, AtHome;
    HomeIs(db, k, IncrementOp(k, delta, lag), now);
  }

  /** The number a client finds in key `k`, zero if there is none. */
  function NumberAt(db: Db, k: string, now: int): Option<int>
    requires |db.shards| > 0
  {
    var was := Look(db, k, now);
    if was.Some? then FromChars(was.value.value) else Some(0)
  }

  lemma CountUp(db: Db, k: string, delta: int, now: int, lag: nat)
    requires DbValid(db) && |db.shards| > 0 && S.Valid(db.shards[Home(db, k)])
    requires S.Increment(db.shards[Home(db, k)], k, delta, now, now + lag).1.Incremented?
    ensures var e, number := AtHome(db, k, IncrementOp(k, delta, lag), now).0, NumberAt(db, k, now);
            && |e.shards| > 0 && number.Some? && IsInt64(number.value + delta)
            && S.Increment(db.shards[Home(db, k)], k, delta, now, now + lag).1 == S.Incremented(number.value + delta)
            && Rewritten(db, e, k, ToString(number.value + delta), Carried(Look(db, k, now), now, now + lag), now + lag)
  {
    hide DbValid, S.Valid, AtHome, S.Increment, Wrote, FromChars, ToString, Look, LookIn, ViewOf, Spared, Home;
    var op, later := IncrementOp(k, delta, lag), now + lag;
    var s, was := db.shards[Home(db, k)], Look(db, k, now);
    LookIs(db, k, now);
    IncrementWrites(s, k, delta, now, later);
    var n := S.Increment(s, k, delta, now, later).1.value;
    assert Apply(s, op, now).0 == S.Increment(s, k, delta, now, later).0;
    hide Apply;
    HomeWrote(db, k, op, now, Cell(ToString(n), Carried(was, now, later)), later);
  }

  lemma LookIs(db: Db, k: string, t: int)
    requires |db.shards| > 0
    ensures Look(db, k, t) == LookIn(ViewOf(db.shards[Home(db, k)]), k, t)
  {
  }

  lemma CountRefused(db: Db, k: string, delta: int, now: int, lag: nat)
    requires DbValid(db) && |db.shards| > 0 && S.Valid(db.shards[Home(db, k)])
    requires !S.Increment(db.shards[Home(db, k)], k, delta, now, now + lag).1.Incremented?
    ensures var e, number := AtHome(db, k, IncrementOp(k, delta, lag), now).0, NumberAt(db, k, now);
            && |e.shards| > 0 && Unchanged(db, e, now + lag)
            && (S.Increment(db.shards[Home(db, k)], k, delta, now, now + lag).1 == S.IncrementNoMemory <==>
                  number.Some? && IsInt64(number.value + delta))
  {
    hide DbValid, S.Valid, AtHome, S.Increment, Live, FromChars, Unchanged;
    IncrementFails(db.shards[Home(db, k)], k, delta, now, now + lag);
    HomeSame(db, k, IncrementOp(k, delta, lag), now, now + lag);
  }

  // ---------------------------------------------------------------- MSET

  /** Position `p` of an MSET names a key, and no later one names it again. */
  predicate LastNamed(arguments: Command, p: nat) {
    && p % 2 == 1 && p + 1 < |arguments|
    && forall q :: p < q < |arguments| && q % 2 == 1 ==> arguments[q] != arguments[p]
  }

  predicate IsNamed(arguments: Command, k: string) {
    exists p :: 1 <= p < |arguments| && p % 2 == 1 && arguments[p] == k
  }

  /** MSET writes all its pairs or none. Accepted, it leaves every key it names with the argument after its
      last occurrence and without a TTL, and spares the others. */
  lemma MSetLaw(db: Db, arguments: Command, now: int, lag: nat)
    requires DbValid(db) && |db.shards| > 0 && Named(arguments, "MSET")
    ensures var r := Execute(db, arguments, true, now, lag);
            && |r.db.shards| > 0
            && if |arguments| < 3 then r == Result(db, ArityError("MSET"), false)
               else if |arguments| % 2 == 0 then r == Result(db, ArityError("mset"), false)
               else
                 || r == Result(db, OUT_OF_MEMORY, false)
                 || (&& r.reply == Simple("OK") && r.logged
                     && (forall p: nat :: LastNamed(arguments, p) ==>
                           forall t :: Look(r.db, arguments[p], t) == Some(Cell(arguments[p + 1], None)))
                     && (forall k :: !IsNamed(arguments, k) ==> Spared(db, r.db, k, now)))
  {
    hide DbValid, Execute, MSetDb, PairUp, Look, S.LastValues;
    Runs(db, MSET, arguments, true, now, lag);
    if |arguments| >= 3 && |arguments| % 2 == 1 {
      var values := PairUp(arguments[1..]);
      BatchCases(db, values);
      if MSetDb(db, values).1 == S.Ok {
        var e := MSetDb(db, values).0;
        forall p: nat | LastNamed(arguments, p)
          ensures forall t :: Look(e, arguments[p], t) == Some(Cell(arguments[p + 1], None))
        {
          LastPair(arguments, p);
          BatchWrote(db, values, arguments[p], now);
        }
        forall k | !IsNamed(arguments, k) ensures Spared(db, e, k, now) {
          NoPair(arguments, k);
          BatchWrote(db, values, k, now);
        }
      }
    }
  }

  lemma BatchCases(db: Db, values: Pairs)
    requires DbValid(db)
    ensures MSetDb(db, values).1 == S.Ok || MSetDb(db, values) == (db, S.NoMemory)
  {
    hide DbValid, ApplyGroups;
    BatchResult(db, values, |db.shards|);
  }

  lemma LastPair(arguments: Command, p: nat)
    requires |arguments| % 2 == 1 && LastNamed(arguments, p)
    ensures var last := S.LastValues(PairUp(arguments[1..]));
            arguments[p] in last && last[arguments[p]] == arguments[p + 1]
  {
    hide PairUp;
    var values, i := PairUp(arguments[1..]), p / 2;
    PairOf(arguments, i);
    forall j | i < j < |values| ensures values[j].0 != values[i].0 {
      PairOf(arguments, j);
    }
    LastValuesMeaning(values, i);
  }

  lemma NoPair(arguments: Command, k: string)
    requires |arguments| % 2 == 1 && |arguments| >= 3 && !IsNamed(arguments, k)
    ensures k !in S.LastValues(PairUp(arguments[1..]))
  {
    hide PairUp;
    var values := PairUp(arguments[1..]);
    PairOf(arguments, 0);
    forall i | 0 <= i < |values| ensures values[i].0 != k {
      PairOf(arguments, i);
    }
    NotListed(values, k);
  }

  lemma {:induction false} NotListed(values: Pairs, k: string)
    requires forall i :: 0 <= i < |values| ==> values[i].0 != k
    ensures k !in S.LastValues(values)
  {
    if values != [] { NotListed(values[..|values| - 1], k); }
  }
}

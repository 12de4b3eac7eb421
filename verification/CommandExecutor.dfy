/** The command executor as an object over the database: table lookup, arity, the mutation guard, the
    handlers with their loops, and the log callback. */
module CommandExecutors {
  import opened Wrappers
  import opened Decimal
  import opened Resp
  import opened StoreRuns
  import opened Sharding
  import opened ShardedDatabases
  import E = Executor

  class CommandExecutor {
    const database: ShardedDatabase
    /** What the mutation callback was given. */
    var log: seq<Command>

    constructor (database: ShardedDatabase)
      ensures this.database == database && log == []
    {
      this.database, log := database, [];
    }

    // -------------------------------------------------------------- handlers

    method Set(arguments: Command, now: int) returns (reply: Value)
      requires database.Valid() && |arguments| >= 3
      modifies database.shards
      ensures database.Valid() && (database.State(), reply) == E.Carry(old(database.State()), E.SET,
              E.PlanOf(E.SET, arguments, 0), now)
    {
      hide DbValid, AtHome, E.ParseSet;
      var parsed := E.ParseSetLoop(arguments);
      match parsed
      case Rejected(error) => return error;
      case Parsed(request) =>
        var result := database.Set(request, now);
        return E.WriteReply(result);
    }

    method MGet(arguments: Command, now: int) returns (reply: Value)
      requires database.Valid() && |arguments| >= 2
      modifies database.shards
      ensures database.Valid() && (database.State(), reply) == E.Carry(old(database.State()), E.MGET,
              E.Read(arguments[1..]), now)
    {
      hide DbValid, AtHome;
      ghost var keys := arguments[1..];
      var values: seq<Value> := [];
      for index := 1 to |arguments|
        invariant database.Valid() && (database.State(), values) ==
                  E.ReadKeys(old(database.State()), keys[..index - 1], now)
      {
        assert keys[..index][..index - 1] == keys[..index - 1] && keys[index - 1] == arguments[index];
        var value := database.Get(arguments[index], now);
        values := values + [E.BulkOrNull(value)];
      }
      assert keys[..|arguments| - 1] == keys;
      return Array(values);
    }

    method MSet(arguments: Command, now: int) returns (reply: Value)
      requires database.Valid() && |arguments| >= 3
      modifies database.shards
      ensures database.Valid() && (database.State(), reply) == E.Carry(old(database.State()), E.MSET,
              E.PlanOf(E.MSET, arguments, 0), now)
    {
      hide DbValid, MSetDb, E.PairUp;
      if |arguments| % 2 == 0 { return E.ArityError("mset"); }
      var values := E.PairUpLoop(arguments);
      var result := database.MSet(values);
      return E.WriteReply(result);
    }

    method Expire(arguments: Command, now: int) returns (reply: Value)
      requires database.Valid() && |arguments| == 3
      modifies database.shards
      ensures database.Valid() && (database.State(), reply) == E.Carry(old(database.State()), E.EXPIRE,
              E.PlanOf(E.EXPIRE, arguments, 0), now)
    {
      hide DbValid, AtHome, FromChars;
      var seconds := FromChars(arguments[2]);
      if seconds.None? || seconds.value > INT64_MAX / 1000 { return E.INTEGER_ERROR; }
      var found := database.Expire(arguments[1], if seconds.value <= 0 then 0 else seconds.value * 1000, now);
      return Integer(if found then 1 else 0);
    }

    method Count(v: E.Verb, arguments: Command, now: int, lag: nat) returns (reply: Value)
      requires database.Valid() && |arguments| == 2 && (v.INCR? || v.DECR?)
      modifies database.shards
      ensures database.Valid() && (database.State(), reply) == E.Carry(old(database.State()), v,
              E.PlanOf(v, arguments, lag), now)
    {
      hide DbValid, AtHome, E.NoMemoryFor, E.Carry, E.PlanOf;
      PlanCount(v, arguments, lag);
      CarryIncrement(database.State(), v, arguments[1], if v.INCR? then 1 else -1, now, lag);
      var result := database.Increment(arguments[1], if v.INCR? then 1 else -1, now, lag);
      match result
      case Incremented(n) => return Integer(n);
      case IncrementNoMemory => return E.NoMemoryFor(v);
      case _ => return E.INTEGER_ERROR;
    }

    /** The handler of a command with an acceptable argument count. */
    method Handle(v: E.Verb, arguments: Command, now: int, lag: nat) returns (reply: Value)
      requires database.Valid() && E.ArityOk(v, |arguments|)
      modifies database.shards
      ensures database.Valid() && (database.State(), reply) == E.Carry(old(database.State()), v,
              E.PlanOf(v, arguments, lag), now)
    {
      hide DbValid, AtHome, MSetDb, DeleteKeys, ExistsKeys, E.ReadKeys, E.ParseSet, E.PairUp, FromChars;
      match v
      case PING => reply := if |arguments| == 1 then Simple("PONG") else Bulk(arguments[1]);
      case ECHO => reply := Bulk(arguments[1]);
      case GET =>
        var value := database.Get(arguments[1], now);
        reply := E.BulkOrNull(value);
      case SET => reply := Set(arguments, now);
      case DEL =>
        var n := database.Delete(arguments[1..], now);
        reply := Integer(n);
      case EXISTS =>
        var n := database.Exists(arguments[1..], now);
        reply := Integer(n);
      case EXPIRE => reply := Expire(arguments, now);
      case TTL =>
        var n := database.TtlSeconds(arguments[1], now);
        reply := Integer(n);
      case MGET => reply := MGet(arguments, now);
      case MSET => reply := MSet(arguments, now);
      case INCR => reply := Count(v, arguments, now, lag);
      case DECR => reply := Count(v, arguments, now, lag);
    }

    /** One command: looked up, checked, guarded, handled, and logged when it changed something.
        `writable`: the log callback does not throw. When it does, the command has taken effect but is
        neither logged nor answered. */
    method Execute(arguments: Command, healthy: bool, writable: bool, now: int, lag: nat) returns (reply: Option<Value>)
      requires database.Valid()
      modifies this`log, database.shards
      ensures var r := E.Execute(old(database.State()), arguments, healthy, now, lag);
              && database.Valid() && database.State() == r.db
              && reply == (if r.logged && !writable then None else Some(r.reply))
              && log == old(log) + if r.logged && writable then [arguments] else []
    {
      hide DbValid, E.Carry, E.PlanOf, E.Find;
      if arguments == [] { return Some(Error("ERR empty command")); }
      var name := E.UppercaseInPlace(arguments[0]);
      var command := E.Find(name);
      if command.None? { return Some(Error("ERR unknown command '" + arguments[0] + "'")); }
      if !E.ArityOk(command.value, |arguments|) { return Some(E.ArityError(E.NameOf(command.value))); }
      if E.Mutates(command.value) && !healthy { return Some(E.PERSISTENCE_ERROR); }
      var response := Handle(command.value, arguments, now, lag);
      if E.Mutates(command.value) && !response.Error? && !response.Null? {
        if !writable { return None; }
        log := log + [arguments];
      }
      return Some(response);
    }
  }

  lemma PlanCount(v: E.Verb, arguments: Command, lag: nat)
    requires |arguments| == 2 && (v.INCR? || v.DECR?)
    ensures E.PlanOf(v, arguments, lag) == E.Ask(IncrementOp(arguments[1], if v.INCR? then 1 else -1, lag))
  {
  }

  /** An increment is carried out on the key's home shard. */
  lemma CarryIncrement(db: Db, v: E.Verb, k: string, delta: int, now: int, lag: nat)
    requires DbValid(db)
    ensures var (d, r) := AtHome(db, k, IncrementOp(k, delta, lag), now);
            E.Carry(db, v, E.Ask(IncrementOp(k, delta, lag)), now) == (d, E.ReplyTo(v, r))
  {
    hide DbValid, AtHome, E.ReplyTo;
  }
}

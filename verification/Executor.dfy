/** Command execution: the command table, argument checks, option parsing, the call on the database, the
    reply, and whether the command goes to the log. */
module Executor {
  import opened Wrappers
  import opened Decimal
  import opened Resp
  import S = Store
  import opened StoreRuns
  import opened Sharding

  // ---------------------------------------------------------------- the command table

  datatype Verb = PING | ECHO | GET | SET | DEL | EXISTS | EXPIRE | TTL | MGET | MSET | INCR | DECR

  function UpperChar(c: char): char {
    if 'a' <= c <= 'z' then (c as int - 'a' as int + 'A' as int) as char else c
  }

  function Uppercase(text: string): (r: string)
    ensures |r| == |text|
  {
    seq(|text|, i requires 0 <= i < |text| => UpperChar(text[i]))
  }

  method UppercaseInPlace(text: string) returns (r: string)
    ensures r == Uppercase(text)
  {
    r := text;
    for i := 0 to |text|
      invariant |r| == |text|
      invariant forall j :: 0 <= j < i ==> r[j] == UpperChar(text[j])
      invariant forall j :: i <= j < |text| ==> r[j] == text[j]
    {
      if 'a' <= r[i] <= 'z' { r := r[i := (r[i] as int - 'a' as int + 'A' as int) as char]; }
    }
  }

  /** `text` is `name` with some of its capital letters written small. */
  predicate SameLetters(text: string, name: string) {
    && |text| == |name|
    && forall i :: 0 <= i < |text| ==>
         text[i] == name[i] || ('A' <= name[i] <= 'Z' && text[i] as int == name[i] as int + 32)
  }

  /** Names and options are matched whatever the case of their letters. */
  lemma UppercaseIs(text: string, name: string)
    requires forall c :: c in name ==> !('a' <= c <= 'z')
    ensures Uppercase(text) == name <==> SameLetters(text, name)
  {
    forall i | 0 <= i < |text| && i < |name|
      ensures UpperChar(text[i]) == name[i] <==>
                text[i] == name[i] || ('A' <= name[i] <= 'Z' && text[i] as int == name[i] as int + 32)
    {
      assert name[i] in name;
    }
  }

  function NameOf(v: Verb): string {
    match v
    case PING => "PING" case ECHO => "ECHO" case GET => "GET" case SET => "SET" case DEL => "DEL"
    case EXISTS => "EXISTS" case EXPIRE => "EXPIRE" case TTL => "TTL" case MGET => "MGET"
    case MSET => "MSET" case INCR => "INCR" case DECR => "DECR"
  }

  function Find(name: string): (r: Option<Verb>)
    ensures r.Some? ==> NameOf(r.value) == name
    ensures r.None? ==> forall v :: NameOf(v) != name
  {
    if name == "PING" then Some(PING) else if name == "ECHO" then Some(ECHO)
    else if name == "GET" then Some(GET) else if name == "SET" then Some(SET)
    else if name == "DEL" then Some(DEL) else if name == "EXISTS" then Some(EXISTS)
    else if name == "EXPIRE" then Some(EXPIRE) else if name == "TTL" then Some(TTL)
    else if name == "MGET" then Some(MGET) else if name == "MSET" then Some(MSET)
    else if name == "INCR" then Some(INCR) else if name == "DECR" then Some(DECR)
    else None
  }

  /** Argument counts include the command name. */
  function Minimum(v: Verb): nat {
    match v
    case PING => 1
    case SET => 3
    case EXPIRE => 3
    case MSET => 3
    case _ => 2
  }

  function Maximum(v: Verb): Option<nat> {
    match v
    case SET => None
    case DEL => None
    case EXISTS => None
    case MGET => None
    case MSET => None
    case EXPIRE => Some(3)
    case _ => Some(2)
  }

  predicate Mutates(v: Verb) {
    v.SET? || v.DEL? || v.EXPIRE? || v.MSET? || v.INCR? || v.DECR?
  }

  predicate ArityOk(v: Verb, count: nat) {
    Minimum(v) <= count && (Maximum(v).Some? ==> count <= Maximum(v).value)
  }

  // ---------------------------------------------------------------- replies

  function ArityError(name: string): Value {
    Error("ERR wrong number of arguments for '" + name + "' command")
  }

  const INTEGER_ERROR := Error("ERR value is not an integer or out of range")
  const SYNTAX_ERROR := Error("ERR syntax error")
  const OUT_OF_MEMORY := Error("OOM command not allowed when used memory > maxmemory")
  const PERSISTENCE_ERROR := Error("MISCONF persistence is unavailable")

  function WriteReply(w: S.WriteResult): Value {
    match w
    case Ok => Simple("OK")
    case ConditionFailed => Null
    case NoMemory => OUT_OF_MEMORY
  }

  function BulkOrNull(v: Option<string>): Value {
    if v.Some? then Bulk(v.value) else Null
  }

  function NoMemoryFor(v: Verb): Value {
    Error(if v.DECR? then "OOM decrement failed" else "OOM increment failed")
  }

  /** The reply to a database call made for `v`. */
  function ReplyTo(v: Verb, r: Reply): Value {
    match r
    case Value(value) => BulkOrNull(value)
    case Written(w) => WriteReply(w)
    case Count(n) => Integer(n)
    case Flag(b) => Integer(if b then 1 else 0)
    case Seconds(n) => Integer(n)
    case Number(Incremented(n)) => Integer(n)
    case Number(IncrementNoMemory) => NoMemoryFor(v)
    case Number(_) => INTEGER_ERROR
    case Swept => Null
  }

  // ---------------------------------------------------------------- SET options

  datatype SetParse = Parsed(request: S.SetRequest) | Rejected(reply: Value)

  const INT64_MAX_SECONDS := INT64_MAX / 1000

  /** The milliseconds a TTL option asks for, if its amount is acceptable. */
  function TtlAmount(option: string, amount: string): (r: Option<int>)
    ensures r.Some? ==> 0 < r.value <= INT64_MAX
  {
    var n := FromChars(amount);
    if n.None? || n.value <= 0 || (option == "EX" && n.value > INT64_MAX_SECONDS) then None
    else Some(if option == "EX" then n.value * 1000 else n.value)
  }

  /** The option loop from `index` on. */
  function SetOptions(arguments: Command, index: nat, request: S.SetRequest): SetParse
    decreases |arguments| - index
  {
    if index >= |arguments| then Parsed(request)
    else
      var option := Uppercase(arguments[index]);
      if (option == "EX" || option == "PX") && index + 1 < |arguments| && request.ttl.None? then
        var amount := TtlAmount(option, arguments[index + 1]);
        if amount.None? then Rejected(INTEGER_ERROR)
        else SetOptions(arguments, index + 2, request.(ttl := amount))
      else if option == "NX" && request.condition == S.Always then
        SetOptions(arguments, index + 1, request.(condition := S.IfAbsent))
      else if option == "XX" && request.condition == S.Always then
        SetOptions(arguments, index + 1, request.(condition := S.IfPresent))
      else Rejected(SYNTAX_ERROR)
  }

  function ParseSet(arguments: Command): SetParse
    requires |arguments| >= 3
  {
    SetOptions(arguments, 3, S.SetRequest(arguments[1], arguments[2], None, S.Always))
  }

  method ParseSetLoop(arguments: Command) returns (r: SetParse)
    requires |arguments| >= 3
    ensures r == ParseSet(arguments)
  {
    var request := S.SetRequest(arguments[1], arguments[2], None, S.Always);
    var index := 3;
    while index < |arguments|
      invariant 3 <= index <= |arguments|
      invariant SetOptions(arguments, index, request) == ParseSet(arguments)
      decreases |arguments| - index
    {
      var option := UppercaseInPlace(arguments[index]);
      if (option == "EX" || option == "PX") && index + 1 < |arguments| && request.ttl.None? {
        var amount := FromChars(arguments[index + 1]);
        if amount.None? || amount.value <= 0 || (option == "EX" && amount.value > INT64_MAX / 1000) {
          return Rejected(INTEGER_ERROR);
        }
        request := request.(ttl := Some(if option == "EX" then amount.value * 1000 else amount.value));
        index := index + 2;
      } else if option == "NX" && request.condition == S.Always {
        request := request.(condition := S.IfAbsent);
        index := index + 1;
      } else if option == "XX" && request.condition == S.Always {
        request := request.(condition := S.IfPresent);
        index := index + 1;
      } else {
        return Rejected(SYNTAX_ERROR);
      }
    }
    return Parsed(request);
  }

  predicate IsCondition(word: string, c: S.SetCondition) {
    || (Uppercase(word) == "NX" && c == S.IfAbsent)
    || (Uppercase(word) == "XX" && c == S.IfPresent)
  }

  /** A TTL option of `ttl` milliseconds: a positive count of seconds or of milliseconds, within 64 bits. */
  predicate IsTtl(word: string, amount: string, ttl: int) {
    && 0 < ttl <= INT64_MAX
    && (|| (Uppercase(word) == "PX" && FromChars(amount) == Some(ttl))
        || (Uppercase(word) == "EX" && ttl % 1000 == 0 && FromChars(amount) == Some(ttl / 1000)))
  }

  lemma TtlAmountIs(word: string, amount: string, ttl: int)
    ensures IsTtl(word, amount, ttl) <==>
              (Uppercase(word) == "EX" || Uppercase(word) == "PX") && TtlAmount(Uppercase(word), amount) == Some(ttl)
  {
    hide FromChars, Uppercase;
    assert "EX"[0] != "PX"[0];
  }

  /** The grammar of SET's options: at most one condition and at most one TTL, in either order. */
  predicate OptionGrammar(options: seq<string>, ttl: Option<int>, condition: S.SetCondition) {
    match |options|
    case 0 => ttl == None && condition == S.Always
    case 1 => ttl == None && IsCondition(options[0], condition)
    case 2 => ttl.Some? && IsTtl(options[0], options[1], ttl.value) && condition == S.Always
    case 3 => ttl.Some? &&
              (|| (IsCondition(options[0], condition) && IsTtl(options[1], options[2], ttl.value))
               || (IsTtl(options[0], options[1], ttl.value) && IsCondition(options[2], condition)))
    case _ => false
  }

  /** With one TTL and one condition already given nothing more is accepted. */
  lemma NothingMore(arguments: Command, index: nat, request: S.SetRequest)
    requires index < |arguments| && request.ttl.Some? && request.condition != S.Always
    ensures SetOptions(arguments, index, request).Rejected?
  {
  }

  lemma OnlyTtlMore(arguments: Command, index: nat, request: S.SetRequest, result: S.SetRequest)
    requires index < |arguments| && request.ttl.None? && request.condition != S.Always
    ensures SetOptions(arguments, index, request) == Parsed(result) <==>
              |arguments| == index + 2 && result.ttl.Some? && IsTtl(arguments[index], arguments[index + 1],
                  result.ttl.value)
              && result == request.(ttl := result.ttl)
  {
    hide TtlAmount, IsTtl, Uppercase;
    var option := Uppercase(arguments[index]);
    if index + 1 < |arguments| && result.ttl.Some? {
      TtlAmountIs(arguments[index], arguments[index + 1], result.ttl.value);
    }
    if (option == "EX" || option == "PX") && index + 1 < |arguments| && TtlAmount(option, arguments[index + 1]).Some? {
      TtlAmountIs(arguments[index], arguments[index + 1], TtlAmount(option, arguments[index + 1]).value);
      var next := request.(ttl := TtlAmount(option, arguments[index + 1]));
      if index + 2 < |arguments| { NothingMore(arguments, index + 2, next); }
    }
  }

  lemma OnlyConditionMore(arguments: Command, index: nat, request: S.SetRequest, result: S.SetRequest)
    requires index < |arguments| && request.ttl.Some? && request.condition == S.Always
    ensures SetOptions(arguments, index, request) == Parsed(result) <==>
              |arguments| == index + 1 && IsCondition(arguments[index], result.condition)
              && result == request.(condition := result.condition)
  {
    var option := Uppercase(arguments[index]);
    if (option == "NX" || option == "XX") && index + 1 < |arguments| {
      NothingMore(arguments, index + 1, request.(condition := if option == "NX" then S.IfAbsent else S.IfPresent));
    }
  }

  /** SET accepts exactly the option grammar and reads it as meant. */
  lemma SetAcceptsGrammar(arguments: Command, result: S.SetRequest)
    requires |arguments| >= 3
    ensures ParseSet(arguments) == Parsed(result) <==>
              result.key == arguments[1] && result.value == arguments[2] &&
              OptionGrammar(arguments[3..], result.ttl, result.condition)
  {
    hide TtlAmount, IsTtl, Uppercase;
    var base := S.SetRequest(arguments[1], arguments[2], None, S.Always);
    var options := arguments[3..];
    if |arguments| > 3 {
      var option := Uppercase(arguments[3]);
      if |arguments| > 4 && result.ttl.Some? { TtlAmountIs(arguments[3], arguments[4], result.ttl.value); }
      if option == "NX" || option == "XX" {
        var next := base.(condition := if option == "NX" then S.IfAbsent else S.IfPresent);
        assert ParseSet(arguments) == SetOptions(arguments, 4, next);
        assert options[0] == arguments[3] && (|options| > 1 ==> options[1] == arguments[4]) &&
               (|options| > 2 ==> options[2] == arguments[5]);
        if |arguments| > 4 { OnlyTtlMore(arguments, 4, next, result); }
      } else if (option == "EX" || option == "PX") && |arguments| > 4 && TtlAmount(option, arguments[4]).Some? {
        var next := base.(ttl := TtlAmount(option, arguments[4]));
        assert ParseSet(arguments) == SetOptions(arguments, 5, next);
        assert options[0] == arguments[3] && options[1] == arguments[4] &&
               (|options| > 2 ==> options[2] == arguments[5]);
        if |arguments| > 5 { OnlyConditionMore(arguments, 5, next, result); }
      }
    }
  }

  // ---------------------------------------------------------------- what a command asks of the database

  function PairUp(arguments: seq<string>): Pairs {
    if |arguments| < 2 then [] else [(arguments[0], arguments[1])] + PairUp(arguments[2..])
  }

  lemma {:induction false} PairAt(arguments: seq<string>, i: nat)
    requires |arguments| % 2 == 0 && 2 * i + 1 < |arguments|
    ensures |PairUp(arguments)| == |arguments| / 2 && PairUp(arguments)[i] == (arguments[2 * i], arguments[2 * i + 1])
  {
    if i > 0 {
      PairAt(arguments[2..], i - 1);
    } else if |arguments| > 2 {
      PairAt(arguments[2..], 0);
    } else {
      assert arguments[2..] == [];
    }
  }

  /** The `i`th pair of an MSET. */
  lemma PairOf(arguments: Command, i: nat)
    requires |arguments| % 2 == 1 && 2 * i + 2 < |arguments|
    ensures var values := PairUp(arguments[1..]);
            |values| == (|arguments| - 1) / 2 && values[i] == (arguments[2 * i + 1], arguments[2 * i + 2])
  {
    PairAt(arguments[1..], i);
  }

  lemma PairsOf(arguments: Command)
    requires |arguments| % 2 == 1
    ensures var values := PairUp(arguments[1..]);
            && |values| == |arguments| / 2
            && forall i :: 0 <= i < |values| ==> values[i] == (arguments[2 * i + 1], arguments[2 * i + 2])
  {
    var values := PairUp(arguments[1..]);
    if |arguments| > 1 {
      PairOf(arguments, 0);
      hide PairUp;
      forall i | 0 <= i < |values| ensures values[i] == (arguments[2 * i + 1], arguments[2 * i + 2]) {
        PairOf(arguments, i);
      }
    }
  }

  method PairUpLoop(arguments: Command) returns (values: Pairs)
    requires |arguments| % 2 == 1
    ensures values == PairUp(arguments[1..]) && |values| == |arguments| / 2
    ensures forall i :: 0 <= i < |values| ==> values[i] == (arguments[2 * i + 1], arguments[2 * i + 2])
  {
    values := [];
    var index := 1;
    while index < |arguments|
      invariant 1 <= index <= |arguments| && index % 2 == 1
      invariant values + PairUp(arguments[index..]) == PairUp(arguments[1..])
    {
      assert arguments[index..][2..] == arguments[index + 2..];
      values := values + [(arguments[index], arguments[index + 1])];
      index := index + 2;
    }
    PairsOf(arguments);
  }

  /** `Refuse`: a reply without touching the database. `Ask`: one database call. `Read`: a Get for each
      key. */
  datatype Plan = Refuse(reply: Value) | Ask(op: Op) | Read(keys: seq<string>)

  /** What the handler of a command with an acceptable argument count does; `lag` is the time between
      an increment's two clock readings. */
  function PlanOf(v: Verb, arguments: Command, lag: nat): Plan
    requires ArityOk(v, |arguments|)
  {
    match v
    case PING => Refuse(if |arguments| == 1 then Simple("PONG") else Bulk(arguments[1]))
    case ECHO => Refuse(Bulk(arguments[1]))
    case GET => Ask(GetOp(arguments[1]))
    case SET => var p := ParseSet(arguments); if p.Parsed? then Ask(SetOp(p.request)) else Refuse(p.reply)
    case DEL => Ask(DeleteOp(arguments[1..]))
    case EXISTS => Ask(ExistsOp(arguments[1..]))
    case EXPIRE =>
      var seconds := FromChars(arguments[2]);
      if seconds.None? || seconds.value > INT64_MAX_SECONDS then Refuse(INTEGER_ERROR)
      else Ask(ExpireOp(arguments[1], if seconds.value <= 0 then 0 else seconds.value * 1000))
    case TTL => Ask(TtlOp(arguments[1]))
    case MGET => Read(arguments[1..])
    case MSET => if |arguments| % 2 == 0 then Refuse(ArityError("mset")) else Ask(MSetOp(PairUp(arguments[1..])))
    case INCR => Ask(IncrementOp(arguments[1], 1, lag))
    case DECR => Ask(IncrementOp(arguments[1], -1, lag))
  }

  // ---------------------------------------------------------------- execution

  function ReadKeys(db: Db, keys: seq<string>, now: int): (r: (Db, seq<Value>))
    requires DbValid(db)
    ensures DbValid(r.0) && SameShape(db, r.0) && |r.1| == |keys|
  {
    hide DbValid, AtHome;
    if keys == [] then (db, [])
    else
      var (d, values) := ReadKeys(db, keys[..|keys| - 1], now);
      var k := keys[|keys| - 1];
      var (e, reply) := AtHome(d, k, GetOp(k), now);
      (e, values + [ReplyTo(MGET, reply)])
  }

  ghost predicate SameShape(a: Db, b: Db) {
    |b.shards| == |a.shards| && b.hash == a.hash && b.maxmemory == a.maxmemory && b.policy == a.policy
  }

  function Carry(db: Db, v: Verb, plan: Plan, now: int): (r: (Db, Value))
    requires DbValid(db)
    ensures DbValid(r.0) && SameShape(db, r.0)
  {
    hide DbValid, Perform, ReadKeys;
    match plan
    case Refuse(reply) => (db, reply)
    case Ask(op) => var (d, reply) := Perform(db, op, now); (d, ReplyTo(v, reply))
    case Read(keys) => var (d, values) := ReadKeys(db, keys, now); (d, Array(values))
  }

  /** The result of a command: the new database, the reply, and whether the command is handed to the
      log. */
  datatype Result = Result(db: Db, reply: Value, logged: bool)

  /** `healthy`: the mutation guard does not throw. */
  function Execute(db: Db, arguments: Command, healthy: bool, now: int, lag: nat): (r: Result)
    requires DbValid(db)
    ensures DbValid(r.db) && SameShape(db, r.db)
  {
    hide DbValid, Carry, PlanOf;
    if arguments == [] then Result(db, Error("ERR empty command"), false)
    else
      var found := Find(Uppercase(arguments[0]));
      if found.None? then Result(db, Error("ERR unknown command '" + arguments[0] + "'"), false)
      else if !ArityOk(found.value, |arguments|) then Result(db, ArityError(NameOf(found.value)), false)
      else if Mutates(found.value) && !healthy then Result(db, PERSISTENCE_ERROR, false)
      else
        var (d, reply) := Carry(db, found.value, PlanOf(found.value, arguments, lag), now);
        Result(d, reply, Mutates(found.value) && !reply.Error? && !reply.Null?)
  }
}

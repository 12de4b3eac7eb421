/** The RESP2 value tree, its printer and its incremental parser.

    Bytes are `char`s: nothing here looks at a byte other than to compare it with a constant, so
    byte strings are the strings whose characters are below 256. */
module Resp {
  import opened Wrappers
  import opened Decimal

  datatype Value =
    | Simple(text: string)
    | Error(text: string)
    | Integer(number: int)
    | Bulk(text: string)
    | Array(elements: seq<Value>)
    | Null

  type Command = seq<string>

  const CRLF := "\r\n"

  // ---------------------------------------------------------------- printing

  function SanitizeChar(c: char): char {
    if c == '\r' || c == '\n' then ' ' else c
  }

  function Sanitized(message: string): string {
    seq(|message|, i requires 0 <= i < |message| => SanitizeChar(message[i]))
  }

  function Encode(v: Value): string
    decreases v, 1
  {
    match v
    case Simple(s) => "+" + s + CRLF
    case Error(s) => "-" + Sanitized(s) + CRLF
    case Integer(i) => ":" + ToString(i) + CRLF
    case Bulk(s) => "$" + ToString(|s|) + CRLF + s + CRLF
    case Array(elements) => "*" + ToString(|elements|) + CRLF + EncodeAll(elements)
    case Null => "$-1\r\n"
  }

  function EncodeAll(vs: seq<Value>): string
    decreases vs, 0
  {
    if vs == [] then "" else Encode(vs[0]) + EncodeAll(vs[1..])
  }

  function Bulks(arguments: Command): (vs: seq<Value>)
    ensures |vs| == |arguments|
    ensures forall i :: 0 <= i < |vs| ==> vs[i] == Bulk(arguments[i])
  {
    seq(|arguments|, i requires 0 <= i < |arguments| => Bulk(arguments[i]))
  }

  function EncodeCommand(arguments: Command): string {
    Encode(Array(Bulks(arguments)))
  }

  // ---------------------------------------------------------------- parsing

  datatype Outcome<+T> = Complete(value: T, consumed: nat) | Incomplete | Malformed(error: string)

  /** Index of the first CRLF. */
  function FindCrlf(s: string): (r: Option<nat>)
    ensures r.Some? ==> r.value + 2 <= |s| && s[r.value] == '\r' && s[r.value + 1] == '\n'
  {
    if |s| < 2 then None
    else if s[0] == '\r' && s[1] == '\n' then Some(0)
    else
      match FindCrlf(s[1..])
      case None => None
      case Some(i) => Some(i + 1)
  }

  function ReadLine(s: string): (r: Outcome<string>)
    ensures r.Complete? ==> r.consumed == |r.value| + 2 <= |s| && '\r' !in r.value && '\n' !in r.value
  {
    match FindCrlf(s)
    case None => Incomplete
    case Some(end) =>
      if '\r' in s[..end] || '\n' in s[..end] then Malformed("invalid line terminator")
      else Complete(s[..end], end + 2)
  }

  /** The outcome of an element sequence whose first elements `done` took `n` bytes. */
  function Joined(done: seq<Value>, n: nat, tail: Outcome<seq<Value>>): Outcome<seq<Value>> {
    match tail
    case Incomplete => Incomplete
    case Malformed(e) => Malformed(e)
    case Complete(vs, m) => Complete(done + vs, n + m)
  }

  predicate IsTypeByte(c: char) {
    c == '+' || c == '-' || c == ':' || c == '$' || c == '*'
  }

  datatype Parser = Parser(maxBulk: nat, maxArray: nat, maxDepth: nat) {

    function ParseBulk(line: string, rest: string): (r: Outcome<Value>)
      ensures r.Complete? ==> r.consumed <= |rest|
    {
      match FromChars(line)
      case None => Malformed("invalid bulk string length")
      case Some(length) =>
        if length < -1 then Malformed("invalid bulk string length")
        else if length == -1 then Complete(Null, 0)
        else if length > maxBulk then Malformed("bulk string exceeds limit")
        else if |rest| < length + 2 then Incomplete
        else if rest[length] != '\r' || rest[length + 1] != '\n' then
          Malformed("bulk string is missing CRLF")
        else Complete(Bulk(rest[..length]), length + 2)
    }

    /** One value from the front of `s`, at nesting depth `depth`. */
    function ParseValue(s: string, depth: nat): (r: Outcome<Value>)
      ensures r.Complete? ==> 0 < r.consumed <= |s|
      decreases if depth <= maxDepth then maxDepth + 1 - depth else 0, 0
    {
      if depth > maxDepth then Malformed("RESP nesting depth exceeded")
      else if s == "" then Incomplete
      else if !IsTypeByte(s[0]) then Malformed("unknown RESP type byte")
      else
        match ReadLine(s[1..])
        case Incomplete => Incomplete
        case Malformed(e) => Malformed(e)
        case Complete(line, n) =>
          var body := ParseBody(s[0], line, s[1 + n..], depth);
          if body.Complete? then Complete(body.value, 1 + n + body.consumed) else body
    }

    /** What follows the type byte and the first line. */
    function ParseBody(prefix: char, line: string, rest: string, depth: nat): (r: Outcome<Value>)
      requires depth <= maxDepth
      ensures r.Complete? ==> r.consumed <= |rest|
      decreases maxDepth - depth, 2, 0
    {
      if prefix == '+' then Complete(Simple(line), 0)
      else if prefix == '-' then Complete(Error(line), 0)
      else if prefix == ':' then
        match FromChars(line)
        case None => Malformed("invalid RESP integer")
        case Some(i) => Complete(Integer(i), 0)
      else if prefix == '$' then ParseBulk(line, rest)
      else
        match FromChars(line)
        case None => Malformed("invalid array length")
        case Some(length) =>
          if length < -1 then Malformed("invalid array length")
          else if length == -1 then Complete(Null, 0)
          else if length > maxArray then Malformed("array length exceeds limit")
          else
            match ParseElements(rest, depth + 1, length)
            case Incomplete => Incomplete
            case Malformed(e) => Malformed(e)
            case Complete(vs, n) => Complete(Array(vs), n)
    }

    function ParseElements(s: string, depth: nat, count: nat): (r: Outcome<seq<Value>>)
      ensures r.Complete? ==> r.consumed <= |s| && |r.value| == count
      decreases if depth <= maxDepth then maxDepth + 1 - depth else 0, 1, count
    {
      if count == 0 then Complete([], 0)
      else
        match ParseValue(s, depth)
        case Incomplete => Incomplete
        case Malformed(e) => Malformed(e)
        case Complete(v, n) => Joined([v], n, ParseElements(s[n..], depth, count - 1))
    }

    function Parse(input: string): Outcome<Value> {
      ParseValue(input, 0)
    }

    function ParseCommand(input: string): (r: Outcome<Command>)
      ensures r.Complete? ==> 0 < r.consumed <= |input|
    {
      match Parse(input)
      case Incomplete => Incomplete
      case Malformed(e) => Malformed(e)
      case Complete(v, n) =>
        if !v.Array? || v.elements == [] then Malformed("command must be a non-empty array")
        else if exists i :: 0 <= i < |v.elements| && !v.elements[i].Bulk? && !v.elements[i].Simple? then
          Malformed("command arguments must be strings")
        else Complete(Texts(v.elements), n)
    }
  }

  const DEFAULT_PARSER := Parser(512 * 1024 * 1024, 1024 * 1024, 128)

  function Texts(vs: seq<Value>): (r: Command)
    requires forall i :: 0 <= i < |vs| ==> vs[i].Bulk? || vs[i].Simple?
  {
    seq(|vs|, i requires 0 <= i < |vs| => vs[i].text)
  }
}

/** The parser and printer as the program runs them: recursion that advances a cursor over one
    input, with loops over elements and characters. */
module RespParser {
  import opened Decimal
  import opened Resp

  datatype ParseResult = Done | NeedMore | Failed

  /** What a cursor-advancing call must return for the outcome the specification gives on the rest
      of the input. */
  ghost predicate Matches<T>(spec: Outcome<T>, start: nat, result: ParseResult, cursor: nat, value: T, error: string) {
    match spec
    case Complete(v, n) => result == Done && value == v && cursor == start + n
    case Incomplete => result == NeedMore
    case Malformed(e) => result == Failed && error == e
  }

  method ReadLineAt(input: string, start: nat)
    returns (result: ParseResult, cursor: nat, line: string, error: string)
    requires start <= |input|
    ensures Matches(ReadLine(input[start..]), start, result, cursor, line, error)
  {
    result, cursor, line, error := NeedMore, start, "", "";
    var found := FindCrlf(input[start..]);
    if found.None? { return; }
    line := input[start..start + found.value];
    cursor := start + found.value + 2;
    assert input[start..][..found.value] == line;
    if '\r' in line || '\n' in line {
      result, error := Failed, "invalid line terminator";
    } else {
      result := Done;
    }
  }

  method ParseValueAt(p: Parser, input: string, start: nat, depth: nat)
    returns (result: ParseResult, cursor: nat, value: Value, error: string)
    requires start <= |input|
    ensures Matches(p.ParseValue(input[start..], depth), start, result, cursor, value, error)
    decreases if depth <= p.maxDepth then p.maxDepth + 1 - depth else 0, 0
  {
    result, cursor, value, error := NeedMore, start, Null, "";
    ghost var rest := input[start..];
    if depth > p.maxDepth {
      return Failed, cursor, value, "RESP nesting depth exceeded";
    }
    if cursor >= |input| { return; }
    var prefix := input[cursor];
    cursor := cursor + 1;
    if !IsTypeByte(prefix) {
      return Failed, cursor, value, "unknown RESP type byte";
    }
    assert rest[1..] == input[cursor..];
    var line: string;
    result, cursor, line, error := ReadLineAt(input, cursor);
    if result != Done { return; }
    ghost var n := cursor - start;
    assert rest[n..] == input[cursor..];
    result, cursor, value, error := ParseBodyAt(p, prefix, line, input, cursor, depth);
  }

  method ParseBodyAt(p: Parser, prefix: char, line: string, input: string, start: nat, depth: nat)
    returns (result: ParseResult, cursor: nat, value: Value, error: string)
    requires start <= |input| && depth <= p.maxDepth
    ensures Matches(p.ParseBody(prefix, line, input[start..], depth), start, result, cursor, value, error)
    decreases p.maxDepth - depth, 2
  {
    result, cursor, value, error := Done, start, Null, "";
    if prefix == '+' { value := Simple(line); return; }
    if prefix == '-' { value := Error(line); return; }
    var number := FromChars(line);
    if prefix == ':' {
      if number.None? { return Failed, cursor, value, "invalid RESP integer"; }
      value := Integer(number.value);
    } else if prefix == '$' {
      if number.None? || number.value < -1 { return Failed, cursor, value, "invalid bulk string length"; }
      if number.value == -1 { return; }
      if number.value > p.maxBulk { return Failed, cursor, value, "bulk string exceeds limit"; }
      var size := number.value;
      if |input| - cursor < size || |input| - cursor - size < 2 { return NeedMore, cursor, value, error; }
      if input[cursor + size] != '\r' || input[cursor + size + 1] != '\n' {
        return Failed, cursor, value, "bulk string is missing CRLF";
      }
      assert input[start..][..size] == input[cursor..cursor + size];
      value := Bulk(input[cursor..cursor + size]);
      cursor := cursor + size + 2;
    } else {
      if number.None? || number.value < -1 { return Failed, cursor, value, "invalid array length"; }
      if number.value == -1 { return; }
      if number.value > p.maxArray { return Failed, cursor, value, "array length exceeds limit"; }
      var elements: seq<Value>;
      result, cursor, elements, error := ParseElementsAt(p, input, cursor, depth + 1, number.value);
      if result == Done { value := Array(elements); }
    }
  }

  /** The element loop of an array. */
  method ParseElementsAt(p: Parser, input: string, start: nat, depth: nat, count: nat)
    returns (result: ParseResult, cursor: nat, elements: seq<Value>, error: string)
    requires start <= |input|
    ensures Matches(p.ParseElements(input[start..], depth, count), start, result, cursor, elements, error)
    decreases if depth <= p.maxDepth then p.maxDepth + 1 - depth else 0, 1
  {
    hide Parser.ParseValue;
    result, cursor, elements, error := Done, start, [], "";
    ghost var whole := p.ParseElements(input[start..], depth, count);
    ghost var tail := whole;
    JoinedEnds([], 0, whole);
    var index := 0;
    while index < count
      invariant index <= count && start <= cursor <= |input| && result == Done
      invariant tail == p.ParseElements(input[cursor..], depth, count - index)
      invariant whole == Joined(elements, cursor - start, tail)
    {
      var child: Value;
      ghost var before := cursor;
      result, cursor, child, error := ParseValueAt(p, input, cursor, depth);
      if result != Done { return; }
      assert input[before..][cursor - before..] == input[cursor..];
      tail := p.ParseElements(input[cursor..], depth, count - index - 1);
      JoinedTwice(elements, before - start, child, cursor - before, tail);
      elements := elements + [child];
      index := index + 1;
    }
    JoinedEnds(elements, cursor - start, tail);
  }

  lemma JoinedTwice(done: seq<Value>, n: nat, v: Value, m: nat, tail: Outcome<seq<Value>>)
    ensures Joined(done, n, Joined([v], m, tail)) == Joined(done + [v], n + m, tail)
  {
    assert tail.Complete? ==> done + ([v] + tail.value) == done + [v] + tail.value;
  }

  lemma JoinedEnds(done: seq<Value>, n: nat, tail: Outcome<seq<Value>>)
    ensures Joined([], 0, tail) == tail
    ensures Joined(done, n, Complete([], 0)) == Complete(done, n)
  {
    assert tail.Complete? ==> [] + tail.value == tail.value;
    assert done + [] == done;
  }

  method ParseCommandAt(p: Parser, input: string)
    returns (result: ParseResult, consumed: nat, arguments: Command, error: string)
    ensures Matches(p.ParseCommand(input), 0, result, consumed, arguments, error)
    ensures result != Done ==> consumed == 0
  {
    var cursor: nat, value: Value;
    consumed, arguments := 0, [];
    assert input[0..] == input;
    result, cursor, value, error := ParseValueAt(p, input, 0, 0);
    if result != Done { return; }
    if !value.Array? || value.elements == [] {
      return Failed, 0, [], "command must be a non-empty array";
    }
    for i := 0 to |value.elements|
      invariant |arguments| == i
      invariant forall j :: 0 <= j < i ==>
        (value.elements[j].Bulk? || value.elements[j].Simple?) && arguments[j] == value.elements[j].text
    {
      if !value.elements[i].Bulk? && !value.elements[i].Simple? {
        return Failed, 0, [], "command arguments must be strings";
      }
      arguments := arguments + [value.elements[i].text];
    }
    consumed := cursor;
    assert arguments == Texts(value.elements);
  }

  // ---------------------------------------------------------------- printing

  method SanitizeError(message: string) returns (result: string)
    ensures result == Sanitized(message)
  {
    result := message;
    for i := 0 to |message|
      invariant |result| == |message|
      invariant forall j :: 0 <= j < i ==> result[j] == SanitizeChar(message[j])
      invariant forall j :: i <= j < |message| ==> result[j] == message[j]
    {
      if result[i] == '\r' || result[i] == '\n' { result := result[i := ' ']; }
    }
  }

  method EncodeValue(v: Value) returns (encoded: string)
    ensures encoded == Encode(v)
    decreases v, 1
  {
    match v
    case Simple(s) => encoded := "+" + s + CRLF;
    case Error(s) => var clean := SanitizeError(s); encoded := "-" + clean + CRLF;
    case Integer(i) => encoded := ":" + ToString(i) + CRLF;
    case Bulk(s) => encoded := "$" + ToString(|s|) + CRLF + s + CRLF;
    case Null => encoded := "$-1\r\n";
    case Array(elements) =>
      encoded := "*" + ToString(|elements|) + CRLF;
      encoded := EncodeElements(encoded, elements);
  }

  /** The loop that appends the children of an array. */
  method EncodeElements(head: string, elements: seq<Value>) returns (encoded: string)
    ensures encoded == head + EncodeAll(elements)
    decreases elements, 0
  {
    assert EncodeAll([]) == "";
    hide Encode, EncodeAll;
    encoded := head;
    for i := 0 to |elements|
      invariant encoded == head + EncodeAll(elements[..i])
    {
      var child := EncodeValue(elements[i]);
      EncodeAllSnoc(elements[..i], elements[i]);
      assert elements[..i + 1] == elements[..i] + [elements[i]];
      encoded := encoded + child;
    }
    assert elements[..|elements|] == elements;
  }

  lemma {:induction false} EncodeAllSnoc(vs: seq<Value>, v: Value)
    ensures EncodeAll(vs + [v]) == EncodeAll(vs) + Encode(v)
  {
    hide Encode;
    if vs == [] {
      assert vs + [v] == [v] && [v][1..] == [];
      assert EncodeAll([v]) == Encode(v) + EncodeAll([]);
    } else {
      EncodeAllSnoc(vs[1..], v);
      assert (vs + [v])[1..] == vs[1..] + [v];
      assert EncodeAll(vs + [v]) == Encode(vs[0]) + EncodeAll(vs[1..] + [v]);
    }
  }

  method EncodeCommandLine(arguments: Command) returns (encoded: string)
    ensures encoded == EncodeCommand(arguments)
  {
    var values: seq<Value> := [];
    for i := 0 to |arguments|
      invariant |values| == i
      invariant forall j :: 0 <= j < i ==> values[j] == Bulk(arguments[j])
    {
      values := values + [Bulk(arguments[i])];
    }
    assert values == Bulks(arguments);
    encoded := EncodeValue(Array(values));
  }
}

/** Laws of the RESP2 codec: results are stable under more input, parsed values are exactly the
    well-formed ones, and printing then parsing is the identity exactly on them. */
module RespLaws {
  import opened Wrappers
  import opened Decimal
  import opened Resp

  // ---------------------------------------------------------------- stability

  lemma {:induction false} FindCrlfStable(s: string, t: string)
    requires FindCrlf(s).Some?
    ensures FindCrlf(s + t) == FindCrlf(s)
  {
    if !(s[0] == '\r' && s[1] == '\n') {
      assert (s + t)[1..] == s[1..] + t;
      FindCrlfStable(s[1..], t);
    }
  }

  lemma ReadLineStable(s: string, t: string)
    requires !ReadLine(s).Incomplete?
    ensures ReadLine(s + t) == ReadLine(s)
  {
    FindCrlfStable(s, t);
    var end := FindCrlf(s).value;
    assert (s + t)[..end] == s[..end];
  }

  lemma ParseBulkStable(p: Parser, line: string, rest: string, t: string)
    requires !p.ParseBulk(line, rest).Incomplete?
    ensures p.ParseBulk(line, rest + t) == p.ParseBulk(line, rest)
  {
    match FromChars(line)
    case None =>
    case Some(length) =>
      if 0 <= length <= p.maxBulk {
        assert (rest + t)[..length] == rest[..length];
      }
  }

  lemma {:induction false} ParseBodyStable(p: Parser, prefix: char, line: string, rest: string, t: string, depth: nat)
    requires depth <= p.maxDepth && !p.ParseBody(prefix, line, rest, depth).Incomplete?
    ensures p.ParseBody(prefix, line, rest + t, depth) == p.ParseBody(prefix, line, rest, depth)
    decreases p.maxDepth - depth, 2, 0
  {
    hide Parser.ParseElements;
    hide Parser.ParseBulk;
    hide FromChars;
    if prefix == '$' {
      ParseBulkStable(p, line, rest, t);
    } else if prefix != '+' && prefix != '-' && prefix != ':' {
      var length := FromChars(line);
      if length.Some? && 0 <= length.value <= p.maxArray {
        ParseElementsStable(p, rest, t, depth + 1, length.value);
      }
    }
  }

  /** A complete or malformed value stays so, unchanged, whatever bytes follow. */
  lemma {:induction false} ParseValueStable(p: Parser, s: string, t: string, depth: nat)
    requires !p.ParseValue(s, depth).Incomplete?
    ensures p.ParseValue(s + t, depth) == p.ParseValue(s, depth)
    decreases if depth <= p.maxDepth then p.maxDepth + 1 - depth else 0, 0
  {
    hide Parser.ParseBody;
    hide ReadLine;
    if depth <= p.maxDepth && IsTypeByte(s[0]) {
      assert (s + t)[1..] == s[1..] + t;
      ReadLineStable(s[1..], t);
      var line := ReadLine(s[1..]);
      if line.Complete? {
        assert (s + t)[1 + line.consumed..] == s[1 + line.consumed..] + t;
        ParseBodyStable(p, s[0], line.value, s[1 + line.consumed..], t, depth);
      }
    }
  }

  lemma ElementsUnfold(p: Parser, s: string, depth: nat, count: nat)
    requires count > 0
    ensures var h := p.ParseValue(s, depth);
            p.ParseElements(s, depth, count) ==
            if h.Complete? then Joined([h.value], h.consumed, p.ParseElements(s[h.consumed..], depth, count - 1))
            else if h.Malformed? then Malformed(h.error) else Incomplete
  {
    hide Parser.ParseValue;
  }

  lemma ElementsNone(p: Parser, s: string, depth: nat)
    ensures p.ParseElements(s, depth, 0) == Complete([], 0)
  {
  }

  lemma {:induction false} ParseElementsStable(p: Parser, s: string, t: string, depth: nat, count: nat)
    requires !p.ParseElements(s, depth, count).Incomplete?
    ensures p.ParseElements(s + t, depth, count) == p.ParseElements(s, depth, count)
    decreases if depth <= p.maxDepth then p.maxDepth + 1 - depth else 0, 1, count
  {
    hide Parser.ParseElements;
    hide Parser.ParseValue;
    if count == 0 {
      ElementsNone(p, s, depth);
      ElementsNone(p, s + t, depth);
    } else {
      ElementsUnfold(p, s, depth, count);
      ElementsUnfold(p, s + t, depth, count);
      ParseValueStable(p, s, t, depth);
      var head := p.ParseValue(s, depth);
      if head.Complete? {
        assert (s + t)[head.consumed..] == s[head.consumed..] + t;
        ParseElementsStable(p, s[head.consumed..], t, depth, count - 1);
      }
    }
  }

  lemma ParseCommandStable(p: Parser, s: string, t: string)
    requires !p.ParseCommand(s).Incomplete?
    ensures p.ParseCommand(s + t) == p.ParseCommand(s)
  {
    ParseValueStable(p, s, t, 0);
  }

  /** Every proper prefix of a complete command frame is incomplete. */
  lemma ProperPrefixIncomplete(p: Parser, s: string, k: nat)
    requires p.ParseCommand(s).Complete? && k < p.ParseCommand(s).consumed
    ensures p.ParseCommand(s[..k]).Incomplete?
  {
    if !p.ParseCommand(s[..k]).Incomplete? {
      assert s[..k] + s[k..] == s;
      ParseCommandStable(p, s[..k], s[k..]);
    }
  }

  // ---------------------------------------------------------------- well-formed values

  ghost predicate OneLine(s: string) {
    '\r' !in s && '\n' !in s
  }

  /** The values the wire format can carry to parser `p` at nesting depth `depth`. */
  ghost predicate Printable(p: Parser, v: Value, depth: nat)
    decreases v
  {
    depth <= p.maxDepth &&
    match v
    case Simple(s) => OneLine(s)
    case Error(s) => OneLine(s)
    case Integer(i) => IsInt64(i)
    case Bulk(s) => |s| <= p.maxBulk && |s| <= INT64_MAX
    case Array(vs) =>
      && |vs| <= p.maxArray && |vs| <= INT64_MAX
      && forall i :: 0 <= i < |vs| ==> Printable(p, vs[i], depth + 1)
    case Null => true
  }

  lemma {:induction false} ParsedIsPrintable(p: Parser, s: string, depth: nat)
    requires p.ParseValue(s, depth).Complete?
    ensures Printable(p, p.ParseValue(s, depth).value, depth)
    decreases if depth <= p.maxDepth then p.maxDepth + 1 - depth else 0, 0
  {
    hide FromChars, Parser.ParseElements;
    var line := ReadLine(s[1..]);
    if s[0] == '*' && FromChars(line.value).value >= 0 {
      ParsedArePrintable(p, s[1 + line.consumed..], depth + 1, FromChars(line.value).value);
    }
  }

  lemma {:induction false} ParsedArePrintable(p: Parser, s: string, depth: nat, count: nat)
    requires p.ParseElements(s, depth, count).Complete?
    ensures forall v :: v in p.ParseElements(s, depth, count).value ==> Printable(p, v, depth)
    decreases if depth <= p.maxDepth then p.maxDepth + 1 - depth else 0, 1, count
  {
    hide Parser.ParseElements;
    hide Parser.ParseValue;
    hide Printable;
    if count == 0 {
      ElementsNone(p, s, depth);
    } else {
      ElementsUnfold(p, s, depth, count);
      ParsedIsPrintable(p, s, depth);
      ParsedArePrintable(p, s[p.ParseValue(s, depth).consumed..], depth, count - 1);
    }
  }

  // ---------------------------------------------------------------- round trip

  lemma {:induction false} FindCrlfAfter(a: string, t: string)
    requires '\r' !in a
    ensures FindCrlf(a + CRLF + t) == Some(|a|)
  {
    if a != "" {
      assert (a + CRLF + t)[1..] == a[1..] + CRLF + t;
      FindCrlfAfter(a[1..], t);
      assert (a + CRLF + t)[0] == a[0];
    }
  }

  lemma ReadLineAfter(a: string, t: string)
    requires OneLine(a)
    ensures ReadLine(a + CRLF + t) == Complete(a, |a| + 2)
    ensures (a + CRLF + t)[|a| + 2..] == t
  {
    FindCrlfAfter(a, t);
    assert (a + CRLF + t)[..|a|] == a;
  }

  /** Parsing reduces to the body once the type byte and a clean first line are in place. */
  lemma HeadLine(p: Parser, c: char, line: string, t: string, depth: nat)
    requires IsTypeByte(c) && OneLine(line) && depth <= p.maxDepth
    ensures p.ParseValue([c] + line + CRLF + t, depth) ==
              var body := p.ParseBody(c, line, t, depth);
              if body.Complete? then Complete(body.value, 3 + |line| + body.consumed) else body
  {
    var s := [c] + line + CRLF + t;
    assert s[1..] == line + CRLF + t;
    ReadLineAfter(line, t);
    assert s[1 + (|line| + 2)..] == (line + CRLF + t)[|line| + 2..];
  }

  lemma SanitizedOneLine(s: string)
    requires OneLine(s)
    ensures Sanitized(s) == s
  {
    forall i | 0 <= i < |s| ensures Sanitized(s)[i] == s[i] {
      assert s[i] in s;
    }
  }

  /** Printing then parsing returns the value and consumes exactly its text, whatever follows. */
  lemma {:induction false} EncodeThenParse(p: Parser, v: Value, rest: string, depth: nat)
    requires Printable(p, v, depth)
    ensures p.ParseValue(Encode(v) + rest, depth) == Complete(v, |Encode(v)|)
    decreases v, 1
  {
    match v
    case Bulk(s) => BulkThenParse(p, s, rest, depth);
    case Array(vs) =>
      ArrayHead(p, |vs|, EncodeAll(vs) + rest, depth);
      EncodeAllThenParse(p, vs, rest, depth + 1);
      assert Encode(v) + rest == ['*'] + ToString(|vs|) + CRLF + (EncodeAll(vs) + rest);
    case _ => LineThenParse(p, v, rest, depth);
  }

  /** A value whose body is its first line. */
  lemma LineValue(p: Parser, c: char, line: string, v: Value, rest: string, depth: nat)
    requires IsTypeByte(c) && OneLine(line) && depth <= p.maxDepth &&
             p.ParseBody(c, line, rest, depth) == Complete(v, 0)
    requires Encode(v) == [c] + line + CRLF
    ensures p.ParseValue(Encode(v) + rest, depth) == Complete(v, |Encode(v)|)
  {
    hide Parser.ParseValue;
    hide Parser.ParseBody;
    hide Encode;
    HeadLine(p, c, line, rest, depth);
    assert Encode(v) + rest == [c] + line + CRLF + rest;
  }

  lemma LineThenParse(p: Parser, v: Value, rest: string, depth: nat)
    requires Printable(p, v, depth) && !v.Bulk? && !v.Array?
    ensures p.ParseValue(Encode(v) + rest, depth) == Complete(v, |Encode(v)|)
  {
    hide Parser.ParseValue;
    hide Parser.ParseElements;
    match v
    case Simple(s) => LineValue(p, '+', s, v, rest, depth);
    case Error(s) => SanitizedOneLine(s); LineValue(p, '-', s, v, rest, depth);
    case Integer(i) => RoundTrip(i); NoLineBreak(i); LineValue(p, ':', ToString(i), v, rest, depth);
    case Null => NullThenParse(p, rest, depth);
  }

  lemma NullThenParse(p: Parser, rest: string, depth: nat)
    requires depth <= p.maxDepth
    ensures p.ParseValue(Encode(Null) + rest, depth) == Complete(Null, |Encode(Null)|)
  {
    hide Parser.ParseValue;
    hide Parser.ParseElements;
    RoundTrip(-1);
    assert Digits(1) == "1" && ToString(-1) == "-1";
    assert Encode(Null) == ['$'] + "-1" + CRLF;
    LineValue(p, '$', "-1", Null, rest, depth);
  }

  lemma BulkBody(p: Parser, s: string, rest: string)
    requires |s| <= p.maxBulk && |s| <= INT64_MAX
    ensures p.ParseBulk(ToString(|s|), s + CRLF + rest) == Complete(Bulk(s), |s| + 2)
  {
    RoundTrip(|s|);
    var t := s + CRLF + rest;
    assert t[..|s|] == s && t[|s|] == '\r' && t[|s| + 1] == '\n';
  }

  lemma Regroup(c: char, line: string, body: string, rest: string)
    ensures [c] + line + CRLF + body + CRLF + rest == [c] + line + CRLF + (body + CRLF + rest)
  {
  }

  lemma BulkThenParse(p: Parser, s: string, rest: string, depth: nat)
    requires |s| <= p.maxBulk && |s| <= INT64_MAX && depth <= p.maxDepth
    ensures p.ParseValue(Encode(Bulk(s)) + rest, depth) == Complete(Bulk(s), |Encode(Bulk(s))|)
  {
    var line := ToString(|s|);
    BulkBody(p, s, rest);
    NoLineBreak(|s|);
    HeadLine(p, '$', line, s + CRLF + rest, depth);
    Regroup('$', line, s, rest);
    assert Encode(Bulk(s)) == ['$'] + line + CRLF + s + CRLF;
  }

  lemma ArrayHead(p: Parser, n: nat, t: string, depth: nat)
    requires n <= p.maxArray && n <= INT64_MAX && depth <= p.maxDepth
    ensures p.ParseValue(['*'] + ToString(n) + CRLF + t, depth) ==
              match p.ParseElements(t, depth + 1, n)
              case Incomplete => Incomplete
              case Malformed(e) => Malformed(e)
              case Complete(vs, m) => Complete(Array(vs), 3 + |ToString(n)| + m)
  {
    RoundTrip(n);
    NoLineBreak(n);
    HeadLine(p, '*', ToString(n), t, depth);
  }

  lemma {:induction false} EncodeAllThenParse(p: Parser, vs: seq<Value>, rest: string, depth: nat)
    requires forall i :: 0 <= i < |vs| ==> Printable(p, vs[i], depth)
    ensures p.ParseElements(EncodeAll(vs) + rest, depth, |vs|) == Complete(vs, |EncodeAll(vs)|)
    decreases vs, 0
  {
    hide Parser.ParseValue;
    if vs != [] {
      var t := EncodeAll(vs[1..]) + rest;
      assert EncodeAll(vs) + rest == Encode(vs[0]) + t;
      EncodeThenParse(p, vs[0], t, depth);
      EncodeAllThenParse(p, vs[1..], rest, depth);
      assert (Encode(vs[0]) + t)[|Encode(vs[0])|..] == t;
      assert [vs[0]] + vs[1..] == vs;
    }
  }

  /** The round trip holds for a value exactly when it is printable. */
  lemma RoundTripIff(p: Parser, v: Value, rest: string)
    ensures p.Parse(Encode(v) + rest) == Complete(v, |Encode(v)|) <==> Printable(p, v, 0)
  {
    if Printable(p, v, 0) {
      EncodeThenParse(p, v, rest, 0);
    } else if p.Parse(Encode(v) + rest) == Complete(v, |Encode(v)|) {
      ParsedIsPrintable(p, Encode(v) + rest, 0);
    }
  }

  /** A simple string with a CRLF in it is read back as what precedes the first one. */
  lemma BrokenSimpleString(p: Parser, a: string, b: string, rest: string)
    requires OneLine(a)
    ensures p.Parse(Encode(Simple(a + CRLF + b)) + rest) == Complete(Simple(a), |a| + 3)
  {
    hide Parser.ParseValue;
    HeadLine(p, '+', a, b + CRLF + rest, 0);
    assert Encode(Simple(a + CRLF + b)) + rest == ['+'] + a + CRLF + (b + CRLF + rest);
  }

  // ---------------------------------------------------------------- commands

  /** The commands a log written with `EncodeCommand` can hold for parser `p`. */
  ghost predicate Loggable(p: Parser, c: Command) {
    && 0 < |c| <= p.maxArray && |c| <= INT64_MAX && p.maxDepth >= 1
    && forall i :: 0 <= i < |c| ==> TextOk(p, c[i])
  }

  lemma CommandRoundTrip(p: Parser, c: Command, rest: string)
    requires Loggable(p, c)
    ensures p.ParseCommand(EncodeCommand(c) + rest) == Complete(c, |EncodeCommand(c)|)
  {
    EncodeThenParse(p, Array(Bulks(c)), rest, 0);
    assert Texts(Bulks(c)) == c;
  }

  predicate TextOk(p: Parser, s: string) {
    |s| <= p.maxBulk && |s| <= INT64_MAX
  }

  /** A bulk string is refused by its length line alone, before its bytes are looked at. */
  lemma OversizedBulk(p: Parser, s: string, rest: string, depth: nat)
    requires !TextOk(p, s) || depth > p.maxDepth
    ensures p.ParseValue(Encode(Bulk(s)) + rest, depth).Malformed?
  {
    var line := ToString(|s|);
    if depth <= p.maxDepth {
      RoundTrip(|s|);
      NoLineBreak(|s|);
      HeadLine(p, '$', line, s + CRLF + rest, depth);
      Regroup('$', line, s, rest);
      assert Encode(Bulk(s)) == ['$'] + line + CRLF + s + CRLF;
    }
  }

  lemma {:induction false} OversizedAmong(p: Parser, c: Command, rest: string, depth: nat)
    requires c != [] && (depth > p.maxDepth || exists i :: 0 <= i < |c| && !TextOk(p, c[i]))
    ensures p.ParseElements(EncodeAll(Bulks(c)) + rest, depth, |c|).Malformed?
  {
    hide Parser.ParseValue;
    hide Parser.ParseElements;
    hide Encode;
    var t := EncodeAll(Bulks(c[1..])) + rest;
    assert Bulks(c)[1..] == Bulks(c[1..]);
    assert EncodeAll(Bulks(c)) + rest == Encode(Bulk(c[0])) + t;
    ElementsUnfold(p, EncodeAll(Bulks(c)) + rest, depth, |c|);
    if depth > p.maxDepth || !TextOk(p, c[0]) {
      OversizedBulk(p, c[0], t, depth);
    } else {
      BulkThenParse(p, c[0], t, depth);
      assert (Encode(Bulk(c[0])) + t)[|Encode(Bulk(c[0]))|..] == t;
      var i :| 0 <= i < |c| && !TextOk(p, c[i]);
      assert c[1..][i - 1] == c[i];
      OversizedAmong(p, c[1..], rest, depth);
    }
  }

  lemma OversizedArray(p: Parser, n: nat, t: string, depth: nat)
    requires (n > p.maxArray || n > INT64_MAX) && depth <= p.maxDepth
    ensures p.ParseValue(['*'] + ToString(n) + CRLF + t, depth).Malformed?
  {
    RoundTrip(n);
    NoLineBreak(n);
    HeadLine(p, '*', ToString(n), t, depth);
  }

  /** A command that is not loggable is read back from a log as a corrupt frame. */
  lemma UnloggableIsCorrupt(p: Parser, c: Command, rest: string)
    requires !Loggable(p, c)
    ensures p.ParseCommand(EncodeCommand(c) + rest).Malformed?
  {
    hide Parser.ParseElements;
    hide Parser.ParseValue;
    var body := EncodeAll(Bulks(c)) + rest;
    assert EncodeCommand(c) + rest == ['*'] + ToString(|c|) + CRLF + body;
    if |c| > p.maxArray || |c| > INT64_MAX {
      OversizedArray(p, |c|, body, 0);
    } else {
      ArrayHead(p, |c|, body, 0);
      if c == [] {
        ElementsNone(p, body, 1);
      } else {
        OversizedAmong(p, c, rest, 1);
      }
    }
  }

  /** A command survives the log exactly if it is loggable. */
  lemma CommandRoundTripIff(p: Parser, c: Command, rest: string)
    ensures p.ParseCommand(EncodeCommand(c) + rest) == Complete(c, |EncodeCommand(c)|) <==> Loggable(p, c)
    ensures p.ParseCommand(EncodeCommand(c) + rest).Malformed? <==> !Loggable(p, c)
  {
    hide Loggable, EncodeCommand;
    hide Parser.ParseCommand;
    if Loggable(p, c) { CommandRoundTrip(p, c, rest); } else { UnloggableIsCorrupt(p, c, rest); }
  }

  /** A request argument that came as a simple string has no length limit of its own. */
  predicate SimpleOk(p: Parser, v: Value) {
    v.Simple? ==> TextOk(p, v.text)
  }

  /** An accepted request can be logged exactly if each of its simple-string arguments is within the
      limits that the parser enforces on bulk strings only. */
  lemma ParsedLoggableIff(p: Parser, input: string)
    requires p.ParseCommand(input).Complete?
    ensures p.Parse(input).Complete? && p.Parse(input).value.Array?
    ensures var elements := p.Parse(input).value.elements;
            Loggable(p, p.ParseCommand(input).value) <==> forall i :: 0 <= i < |elements| ==> SimpleOk(p, elements[i])
  {
    hide Parser.ParseValue;
    ParsedIsPrintable(p, input, 0);
    var v, c := p.Parse(input).value, p.ParseCommand(input).value;
    assert Printable(p, v.elements[0], 1);
    forall i | 0 <= i < |c| ensures TextOk(p, c[i]) <==> SimpleOk(p, v.elements[i]) {
      assert Printable(p, v.elements[i], 1);
      assert c[i] == v.elements[i].text;
    }
  }

  /** The exception is real: a request with one simple-string argument beyond the bulk limit is accepted
      and its log record is corrupt. */
  lemma LongSimpleStringCorruptsLog(p: Parser, s: string, rest: string)
    requires OneLine(s) && !TextOk(p, s) && p.maxArray >= 1 && p.maxDepth >= 1
    ensures var request := Encode(Array([Simple(s)]));
            && p.ParseCommand(request + rest) == Complete([s], |request|)
            && p.ParseCommand(EncodeCommand([s]) + rest).Malformed?
  {
    hide Encode, EncodeCommand, Loggable;
    hide Parser.ParseValue;
    EncodeThenParse(p, Array([Simple(s)]), rest, 0);
    assert Texts([Simple(s)]) == [s];
    NotLoggable(p, s);
    UnloggableIsCorrupt(p, [s], rest);
  }

  lemma NotLoggable(p: Parser, s: string)
    requires !TextOk(p, s)
    ensures !Loggable(p, [s])
  {
    assert [s][0] == s;
  }

  lemma TextFits(p: Parser, s: string, depth: nat)
    requires p.ParseValue(s, depth).Complete?
    ensures var v := p.ParseValue(s, depth).value; v.Simple? || v.Bulk? ==> |v.text| <= |s|
  {
  }

  lemma {:induction false} TextsFit(p: Parser, s: string, depth: nat, count: nat)
    requires p.ParseElements(s, depth, count).Complete?
    ensures forall v :: v in p.ParseElements(s, depth, count).value && (v.Simple? || v.Bulk?) ==> |v.text| <= |s|
    decreases count
  {
    if count > 0 {
      TextFits(p, s, depth);
      TextsFit(p, s[p.ParseValue(s, depth).consumed..], depth, count - 1);
    }
  }

  /** The elements of an array are what follows its first line. */
  lemma ArrayElements(p: Parser, input: string)
    requires p.ParseValue(input, 0).Complete? && p.ParseValue(input, 0).value.Array?
    ensures input != "" && ReadLine(input[1..]).Complete?
    ensures var elements, line := p.ParseValue(input, 0).value.elements, ReadLine(input[1..]);
            var rest := p.ParseElements(input[1 + line.consumed..], 1, |elements|);
            rest.Complete? && rest.value == elements
  {
    hide Parser.ParseElements;
    hide ReadLine;
    hide FromChars;
    var line := ReadLine(input[1..]);
    var length := FromChars(line.value).value;
    var rest := p.ParseElements(input[1 + line.consumed..], 1, length);
    assert |rest.value| == length;
  }

  /** In particular a request no longer than the bulk limit can be logged and read back. */
  lemma ParsedCommandLoggable(p: Parser, input: string)
    requires p.ParseCommand(input).Complete?
    requires |input| <= p.maxBulk && |input| <= INT64_MAX
    ensures Loggable(p, p.ParseCommand(input).value)
  {
    hide Parser.ParseValue;
    hide Parser.ParseElements;
    hide ReadLine;
    ParsedIsPrintable(p, input, 0);
    var v := p.Parse(input).value;
    assert Printable(p, v.elements[0], 1);
    ArrayElements(p, input);
    var line := ReadLine(input[1..]);
    TextsFit(p, input[1 + line.consumed..], 1, |v.elements|);
  }

  const DEFAULT_REQUEST_LIMIT := 16 * 1024 * 1024

  /** With the default limits every request that is let through can be logged and read back. */
  lemma DefaultRequestsLoggable(input: string)
    requires DEFAULT_PARSER.ParseCommand(input).Complete? && |input| <= DEFAULT_REQUEST_LIMIT
    ensures Loggable(DEFAULT_PARSER, DEFAULT_PARSER.ParseCommand(input).value)
  {
    hide Parser.ParseCommand;
    hide Loggable;
    ParsedCommandLoggable(DEFAULT_PARSER, input);
  }
}

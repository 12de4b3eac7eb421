/** The wire grammar, stated apart from the parser, and the parser's exactness: it accepts just the
    spellings of values within its limits, and asks for more input only where more input can settle it. */
module RespGrammar {
  import opened Wrappers
  import opened Decimal
  import opened Resp
  import opened RespLaws

  /** `line` is the text of `c`-typed header `s`. */
  ghost predicate Header(s: string, c: char, line: string) {
    OneLine(line) && s == [c] + line + CRLF
  }

  /** A header that carries the number `i`. */
  ghost predicate Counts(s: string, c: char, i: int) {
    exists line :: Header(s, c, line) && IsInt64(i) && Numeral(line, i)
  }

  /** `s` spells the value `v`. */
  ghost predicate Spells(v: Value, s: string)
    decreases v, 1
  {
    match v
    case Simple(t) => Header(s, '+', t)
    case Error(t) => Header(s, '-', t)
    case Integer(i) => Counts(s, ':', i)
    case Bulk(t) => exists head :: Counts(head, '$', |t|) && s == head + (t + CRLF)
    case Null => Counts(s, '$', -1) || Counts(s, '*', -1)
    case Array(vs) => exists head, body :: Counts(head, '*', |vs|) && s == head + body && SpellsAll(vs, body)
  }

  /** `s` spells the values one after the other. */
  ghost predicate SpellsAll(vs: seq<Value>, s: string)
    decreases vs, 0
  {
    if vs == [] then s == ""
    else exists k :: 0 <= k <= |s| && Spells(vs[0], s[..k]) && SpellsAll(vs[1..], s[k..])
  }

  // ---------------------------------------------------------------- what parses is spelled

  lemma ReadLineIsHeader(s: string)
    requires s != "" && ReadLine(s[1..]).Complete?
    ensures var line := ReadLine(s[1..]);
            1 + line.consumed <= |s| && Header(s[..1 + line.consumed], s[0], line.value)
  {
    var line := ReadLine(s[1..]);
    var end := FindCrlf(s[1..]).value;
    assert line.value == s[1..][..end];
    assert s[..1 + line.consumed] == [s[0]] + line.value + CRLF;
  }

  lemma CountsIs(s: string, c: char, line: string, i: int)
    requires Header(s, c, line) && FromChars(line) == Some(i)
    ensures Counts(s, c, i)
  {
    hide FromChars, Numeral;
    ReadsNumerals(line, i);
  }

  lemma BulkIsSpelled(p: Parser, head: string, line: string, rest: string)
    requires Header(head, '$', line) && p.ParseBulk(line, rest).Complete?
    ensures var r := p.ParseBulk(line, rest); Spells(r.value, head + rest[..r.consumed])
  {
    hide FromChars, Counts;
    var r := p.ParseBulk(line, rest);
    CountsIs(head, '$', line, FromChars(line).value);
    if r.value.Bulk? {
      assert rest[..r.consumed] == r.value.text + CRLF;
    } else {
      assert head + rest[..0] == head;
    }
  }

  lemma {:induction false} ParsedIsSpelled(p: Parser, s: string, depth: nat)
    requires p.ParseValue(s, depth).Complete?
    ensures var r := p.ParseValue(s, depth); Spells(r.value, s[..r.consumed])
    decreases if depth <= p.maxDepth then p.maxDepth + 1 - depth else 0, 0
  {
    hide ReadLine, Spells, Parser.ParseBody;
    ReadLineIsHeader(s);
    var line := ReadLine(s[1..]);
    var head, rest := s[..1 + line.consumed], s[1 + line.consumed..];
    BodyIsSpelled(p, s[0], head, line.value, rest, depth);
    var r := p.ParseValue(s, depth);
    assert s[..r.consumed] == head + rest[..r.consumed - |head|];
  }

  lemma {:induction false} BodyIsSpelled(
      p: Parser, c: char, head: string, line: string, rest: string, depth: nat)
    requires depth <= p.maxDepth && IsTypeByte(c) && Header(head, c, line)
    requires p.ParseBody(c, line, rest, depth).Complete?
    ensures var r := p.ParseBody(c, line, rest, depth); Spells(r.value, head + rest[..r.consumed])
    decreases p.maxDepth - depth, 2, 0
  {
    hide FromChars, Header, Counts, Numeral, SpellsAll, Parser.ParseElements, Parser.ParseBulk;
    var r := p.ParseBody(c, line, rest, depth);
    assert head + rest[..0] == head;
    if c == '$' {
      BulkIsSpelled(p, head, line, rest);
    } else if c == ':' || c == '*' {
      var i := FromChars(line).value;
      CountsIs(head, c, line, i);
      if c == '*' && i >= 0 {
        ElementsAreSpelled(p, rest, depth + 1, i);
      }
    }
  }

  lemma {:induction false} ElementsAreSpelled(p: Parser, s: string, depth: nat, count: nat)
    requires p.ParseElements(s, depth, count).Complete?
    ensures var r := p.ParseElements(s, depth, count); SpellsAll(r.value, s[..r.consumed])
    decreases if depth <= p.maxDepth then p.maxDepth + 1 - depth else 0, 1, count
  {
    hide Parser.ParseElements;
    hide Parser.ParseValue;
    hide Spells;
    if count == 0 {
      ElementsNone(p, s, depth);
    } else {
      ElementsUnfold(p, s, depth, count);
      ParsedIsSpelled(p, s, depth);
      var v := p.ParseValue(s, depth);
      ElementsAreSpelled(p, s[v.consumed..], depth, count - 1);
      var r := p.ParseElements(s, depth, count);
      var tail := p.ParseElements(s[v.consumed..], depth, count - 1);
      var text := s[..r.consumed];
      assert text[..v.consumed] == s[..v.consumed];
      assert text[v.consumed..] == s[v.consumed..][..tail.consumed];
      assert r.value[0] == v.value && r.value[1..] == tail.value;
    }
  }

  // ---------------------------------------------------------------- what is spelled parses

  /** A header, then whatever the body makes of the rest. */
  lemma HeaderParses(p: Parser, head: string, c: char, line: string, rest: string, depth: nat)
    requires Header(head, c, line) && IsTypeByte(c) && depth <= p.maxDepth
    ensures p.ParseValue(head + rest, depth) ==
              var body := p.ParseBody(c, line, rest, depth);
              if body.Complete? then Complete(body.value, |head| + body.consumed) else body
  {
    hide Parser.ParseValue;
    hide Parser.ParseBody;
    HeadLine(p, c, line, rest, depth);
    assert head + rest == [c] + line + CRLF + rest;
  }

  lemma CountRead(s: string, c: char, i: int) returns (line: string)
    requires Counts(s, c, i)
    ensures Header(s, c, line) && FromChars(line) == Some(i)
  {
    hide FromChars, Numeral, Header;
    line :| Header(s, c, line) && IsInt64(i) && Numeral(line, i);
    ReadsNumerals(line, i);
  }

  lemma {:induction false} SpelledParses(p: Parser, v: Value, s: string, rest: string, depth: nat)
    requires Spells(v, s) && Printable(p, v, depth)
    ensures p.ParseValue(s + rest, depth) == Complete(v, |s|)
    decreases v, 1
  {
    hide FromChars, Header, Counts, SpellsAll, Parser.ParseValue, Parser.ParseElements, Parser.ParseBulk;
    match v
    case Simple(t) => HeaderParses(p, s, '+', t, rest, depth);
    case Error(t) => HeaderParses(p, s, '-', t, rest, depth);
    case Integer(i) =>
      var line := CountRead(s, ':', i);
      HeaderParses(p, s, ':', line, rest, depth);
    case Bulk(t) => BulkParses(p, t, s, rest, depth);
    case Null =>
      var c := if Counts(s, '$', -1) then '$' else '*';
      var line := CountRead(s, c, -1);
      NullBody(p, line, rest);
      HeaderParses(p, s, c, line, rest, depth);
    case Array(vs) =>
      var head, body :| Counts(head, '*', |vs|) && s == head + body && SpellsAll(vs, body);
      var line := CountRead(head, '*', |vs|);
      HeaderParses(p, head, '*', line, body + rest, depth);
      SpelledAllParse(p, vs, body, rest, depth + 1);
      assert s + rest == head + (body + rest);
  }

  lemma NullBody(p: Parser, line: string, rest: string)
    requires FromChars(line) == Some(-1)
    ensures p.ParseBulk(line, rest) == Complete(Null, 0)
  {
  }

  lemma BulkParses(p: Parser, t: string, s: string, rest: string, depth: nat)
    requires Spells(Bulk(t), s) && Printable(p, Bulk(t), depth)
    ensures p.ParseValue(s + rest, depth) == Complete(Bulk(t), |s|)
  {
    hide FromChars, Header, Counts, Parser.ParseValue, Parser.ParseElements;
    var head :| Counts(head, '$', |t|) && s == head + (t + CRLF);
    var line := CountRead(head, '$', |t|);
    var body := t + CRLF + rest;
    assert body[..|t|] == t && body[|t|] == '\r' && body[|t| + 1] == '\n';
    HeaderParses(p, head, '$', line, body, depth);
    assert s + rest == head + body;
  }

  lemma {:induction false} SpelledAllParse(p: Parser, vs: seq<Value>, s: string, rest: string, depth: nat)
    requires SpellsAll(vs, s) && forall i :: 0 <= i < |vs| ==> Printable(p, vs[i], depth)
    ensures p.ParseElements(s + rest, depth, |vs|) == Complete(vs, |s|)
    decreases vs, 0
  {
    hide Parser.ParseElements;
    hide Parser.ParseValue;
    hide Spells, Printable;
    if vs == [] {
      ElementsNone(p, s + rest, depth);
    } else {
      var k :| 0 <= k <= |s| && Spells(vs[0], s[..k]) && SpellsAll(vs[1..], s[k..]);
      SpelledParses(p, vs[0], s[..k], s[k..] + rest, depth);
      assert s + rest == s[..k] + (s[k..] + rest);
      SpelledAllParse(p, vs[1..], s[k..], rest, depth);
      ElementsUnfold(p, s + rest, depth, |vs|);
      assert (s + rest)[k..] == s[k..] + rest;
      assert [vs[0]] + vs[1..] == vs;
    }
  }

  // ---------------------------------------------------------------- theorems

  /** The parser accepts exactly the grammar: it reads `v` from the first `n` bytes if and only if they spell
      `v` and `v` is within the limits. */
  lemma ParsesExactly(p: Parser, s: string, depth: nat, v: Value, n: nat)
    ensures p.ParseValue(s, depth) == Complete(v, n) <==> n <= |s| && Spells(v, s[..n]) && Printable(p, v, depth)
  {
    hide Parser.ParseValue;
    hide Spells, Printable;
    if p.ParseValue(s, depth) == Complete(v, n) {
      ParsedIsSpelled(p, s, depth);
      ParsedIsPrintable(p, s, depth);
    }
    if n <= |s| && Spells(v, s[..n]) && Printable(p, v, depth) {
      SpelledParses(p, v, s[..n], s[n..], depth);
      assert s[..n] + s[n..] == s;
    }
  }

  ghost predicate Strings(vs: seq<Value>) {
    forall i :: 0 <= i < |vs| ==> vs[i].Bulk? || vs[i].Simple?
  }

  /** `s` spells the command `c` as the array of strings `vs`. */
  ghost predicate SpellsCommand(p: Parser, vs: seq<Value>, s: string, c: Command) {
    Spells(Array(vs), s) && Printable(p, Array(vs), 0) && vs != [] && Strings(vs) && Texts(vs) == c
  }

  /** A command is read from the first `n` bytes if and only if they spell it, as a non-empty array of
      strings within the limits. */
  lemma CommandsExactly(p: Parser, s: string, c: Command, n: nat)
    ensures p.ParseCommand(s) == Complete(c, n) <==> n <= |s| && exists vs :: SpellsCommand(p, vs, s[..n], c)
  {
    hide Parser.ParseValue;
    hide Spells, Printable;
    if p.ParseCommand(s) == Complete(c, n) {
      var v := p.Parse(s).value;
      ParsesExactly(p, s, 0, v, n);
      assert SpellsCommand(p, v.elements, s[..n], c);
    }
    if n <= |s| && exists vs :: SpellsCommand(p, vs, s[..n], c) {
      var vs :| SpellsCommand(p, vs, s[..n], c);
      ParsesExactly(p, s, 0, Array(vs), n);
    }
  }

  /** Input is called malformed only when nothing that follows can make a value of it. */
  lemma MalformedIsFinal(p: Parser, s: string, more: string)
    requires p.Parse(s).Malformed?
    ensures p.Parse(s + more) == p.Parse(s)
    ensures forall v, n :: 0 <= n <= |s + more| && Spells(v, (s + more)[..n]) ==> !Printable(p, v, 0)
  {
    hide Parser.ParseValue;
    hide Spells, Printable;
    ParseValueStable(p, s, more, 0);
    forall v, n | 0 <= n <= |s + more| && Spells(v, (s + more)[..n]) ensures !Printable(p, v, 0) {
      ParsesExactly(p, s + more, 0, v, n);
    }
  }

  // ---------------------------------------------------------------- incomplete input

  lemma {:induction false} FindsCrlf(a: string)
    ensures FindCrlf(a + CRLF).Some?
  {
    if a != "" {
      assert (a + CRLF)[1..] == a[1..] + CRLF;
      FindsCrlf(a[1..]);
    }
  }

  lemma LineEnds(a: string)
    ensures !ReadLine(a + CRLF).Incomplete?
  {
    FindsCrlf(a);
  }

  lemma EmptySimple(p: Parser, depth: nat)
    requires depth <= p.maxDepth
    ensures p.ParseValue("+" + CRLF, depth).Complete?
  {
    hide Parser.ParseValue;
    HeaderParses(p, "+" + CRLF, '+', "", "", depth);
    assert "+" + CRLF + "" == "+" + CRLF;
  }

  /** Where the parser waits for more: before the type byte, in the first line, or in the body. */
  lemma Waits(p: Parser, s: string, depth: nat)
    requires p.ParseValue(s, depth).Incomplete?
    ensures depth <= p.maxDepth && (s != "" ==> IsTypeByte(s[0]) && !ReadLine(s[1..]).Malformed?)
  {
    hide Parser.ParseBody;
    hide ReadLine;
  }

  /** A value whose first line is there can be settled by more input. */
  lemma {:induction false} BodySettles(p: Parser, s: string, depth: nat) returns (more: string)
    requires depth <= p.maxDepth && s != "" && IsTypeByte(s[0]) && ReadLine(s[1..]).Complete?
    requires p.ParseValue(s, depth).Incomplete?
    ensures !p.ParseValue(s + more, depth).Incomplete?
    decreases p.maxDepth - depth, 2, 0
  {
    hide ReadLine, FromChars, Parser.ParseElements;
    var line := ReadLine(s[1..]);
    var rest := s[1 + line.consumed..];
    var length := FromChars(line.value).value;
    if s[0] == '$' {
      more := seq(length + 2, _ => ' ');
    } else {
      more := ElementsSettle(p, rest, depth + 1, length);
    }
    ReadLineStable(s[1..], more);
    assert (s + more)[1..] == s[1..] + more;
    assert (s + more)[1 + line.consumed..] == rest + more;
  }

  /** Ending the first line gives a value whose first line is there, or one that is settled. */
  lemma LineSettles(p: Parser, s: string, depth: nat)
    requires depth <= p.maxDepth && s != "" && IsTypeByte(s[0]) && p.ParseValue(s + CRLF, depth).Incomplete?
    ensures (s + CRLF)[0] == s[0] && ReadLine((s + CRLF)[1..]).Complete?
  {
    hide Parser.ParseValue;
    hide ReadLine;
    LineEnds(s[1..]);
    assert (s + CRLF)[1..] == s[1..] + CRLF;
    Waits(p, s + CRLF, depth);
  }

  /** The value of `s` is settled, or its first line is there. */
  ghost predicate HasLine(p: Parser, s: string, depth: nat) {
    p.ParseValue(s, depth).Incomplete? ==>
      depth <= p.maxDepth && s != "" && IsTypeByte(s[0]) && ReadLine(s[1..]).Complete?
  }

  lemma LineComes(p: Parser, s: string, depth: nat) returns (more: string)
    requires p.ParseValue(s, depth).Incomplete?
    ensures HasLine(p, s + more, depth)
  {
    Waits(p, s, depth);
    hide Parser.ParseValue;
    hide ReadLine;
    if s == "" {
      more := "+" + CRLF;
      EmptySimple(p, depth);
      assert s + more == more;
    } else if ReadLine(s[1..]).Complete? {
      more := "";
      assert s + more == s;
    } else {
      more := CRLF;
      if p.ParseValue(s + CRLF, depth).Incomplete? { LineSettles(p, s, depth); }
    }
  }

  /** Input is called incomplete only when something that follows settles it. */
  lemma {:induction false} IncompleteCanBeSettled(p: Parser, s: string, depth: nat) returns (more: string)
    requires p.ParseValue(s, depth).Incomplete?
    ensures !p.ParseValue(s + more, depth).Incomplete?
    decreases if depth <= p.maxDepth then p.maxDepth + 1 - depth else 0, 0
  {
    hide Parser.ParseValue;
    hide ReadLine;
    more := LineComes(p, s, depth);
    var t := s + more;
    if p.ParseValue(t, depth).Incomplete? {
      var rest := BodySettles(p, t, depth);
      assert s + (more + rest) == t + rest;
      more := more + rest;
    }
  }

  lemma {:induction false} ElementsSettle(p: Parser, s: string, depth: nat, count: nat) returns (more: string)
    requires p.ParseElements(s, depth, count).Incomplete?
    ensures !p.ParseElements(s + more, depth, count).Incomplete?
    decreases if depth <= p.maxDepth then p.maxDepth + 1 - depth else 0, 1, count
  {
    hide Parser.ParseElements;
    hide Parser.ParseValue;
    if count == 0 { ElementsNone(p, s, depth); }
    ElementsUnfold(p, s, depth, count);
    var first := "";
    assert s + first == s;
    if p.ParseValue(s, depth).Incomplete? { first := IncompleteCanBeSettled(p, s, depth); }
    var t := s + first;
    ElementsUnfold(p, t, depth, count);
    more := first;
    var v := p.ParseValue(t, depth);
    if v.Complete? && p.ParseElements(t[v.consumed..], depth, count - 1).Incomplete? {
      var rest := ElementsSettle(p, t[v.consumed..], depth, count - 1);
      ParseValueStable(p, t, rest, depth);
      ElementsUnfold(p, t + rest, depth, count);
      assert (t + rest)[v.consumed..] == t[v.consumed..] + rest;
      more := first + rest;
      assert s + more == t + rest;
    }
  }
}

/** Splitting a byte stream into command frames: the common meaning of the connection's drain loop
    and of log replay, and its behaviour under chunking, cuts and appends. */
module Frames {
  import opened Resp
  import opened RespLaws

  datatype Ending = Exhausted | Partial | Corrupt(error: string)

  /** The whole commands at the front of a stream, the bytes they take, and what stopped the scan. */
  datatype Split = Split(commands: seq<Command>, consumed: nat, ending: Ending)

  function ReadFrames(p: Parser, data: string): (r: Split)
    ensures r.consumed <= |data|
    ensures r.ending.Exhausted? <==> r.consumed == |data|
    decreases |data|
  {
    if data == "" then Split([], 0, Exhausted)
    else
      match p.ParseCommand(data)
      case Incomplete => Split([], 0, Partial)
      case Malformed(e) => Split([], 0, Corrupt(e))
      case Complete(c, n) => Chain(Split([c], n, Partial), ReadFrames(p, data[n..]))
  }

  /** One scan continued by another. */
  function Chain(a: Split, b: Split): Split {
    Split(a.commands + b.commands, a.consumed + b.consumed, b.ending)
  }

  lemma ChainAssociative(a: Split, b: Split, c: Split)
    ensures Chain(Chain(a, b), c) == Chain(a, Chain(b, c))
  {
    assert a.commands + b.commands + c.commands == a.commands + (b.commands + c.commands);
  }

  /** Scanning is incremental: the bytes a scan left over are all it needs to remember. */
  lemma {:induction false} ReadFramesAppend(p: Parser, a: string, b: string)
    ensures var fa := ReadFrames(p, a);
            ReadFrames(p, a + b) ==
            if fa.ending.Corrupt? then fa else Chain(fa, ReadFrames(p, a[fa.consumed..] + b))
    decreases |a|
  {
    hide Parser.ParseCommand;
    var fa := ReadFrames(p, a);
    if a == "" || p.ParseCommand(a).Incomplete? {
      assert a[0..] == a;
      var fb := ReadFrames(p, a + b);
      assert [] + fb.commands == fb.commands;
    } else {
      ParseCommandStable(p, a, b);
      if p.ParseCommand(a).Complete? {
        var n := p.ParseCommand(a).consumed;
        assert (a + b)[n..] == a[n..] + b;
        ReadFramesAppend(p, a[n..], b);
        var rest := ReadFrames(p, a[n..]);
        assert a[n..][rest.consumed..] == a[n + rest.consumed..];
        ChainAssociative(Split([p.ParseCommand(a).value], n, Partial), rest,
                         ReadFrames(p, a[n + rest.consumed..] + b));
      }
    }
  }

  /** The first `n` bytes of `data` are the frames of `cs`, one after the other. */
  ghost predicate Cuts(p: Parser, data: string, cs: seq<Command>, n: nat)
    decreases |cs|
  {
    if cs == [] then n == 0
    else
      var r := p.ParseCommand(data);
      r.Complete? && r.value == cs[0] && r.consumed <= n && Cuts(p, data[r.consumed..], cs[1..], n - r.consumed)
  }

  /** What stopped a scan, judged by what it left: nothing, the beginning of a frame, or a malformed one. */
  ghost predicate StoppedBy(p: Parser, rest: string, ending: Ending) {
    match ending
    case Exhausted => rest == ""
    case Partial => rest != "" && p.ParseCommand(rest).Incomplete?
    case Corrupt(e) => rest != "" && p.ParseCommand(rest) == Malformed(e)
  }

  /** A scan takes every whole frame and stops for the right reason; so it stops short of the end only at a
      frame that is incomplete or malformed, and tells the two apart. */
  lemma {:induction false} ScanIs(p: Parser, data: string)
    ensures var f := ReadFrames(p, data);
            Cuts(p, data, f.commands, f.consumed) && StoppedBy(p, data[f.consumed..], f.ending)
    decreases |data|
  {
    hide Parser.ParseCommand;
    var f := ReadFrames(p, data);
    if data != "" && p.ParseCommand(data).Complete? {
      var r := p.ParseCommand(data);
      ScanIs(p, data[r.consumed..]);
      var g := ReadFrames(p, data[r.consumed..]);
      assert f.commands[1..] == g.commands && f.commands[0] == r.value;
      assert data[r.consumed..][g.consumed..] == data[f.consumed..];
    } else {
      assert data[0..] == data;
    }
  }

  // ---------------------------------------------------------------- logs

  function EncodeLog(cs: seq<Command>): string {
    if cs == [] then "" else EncodeCommand(cs[0]) + EncodeLog(cs[1..])
  }

  ghost predicate AllLoggable(p: Parser, cs: seq<Command>) {
    forall c :: c in cs ==> Loggable(p, c)
  }

  lemma {:induction false} EncodeLogAppend(a: seq<Command>, b: seq<Command>)
    ensures EncodeLog(a + b) == EncodeLog(a) + EncodeLog(b)
  {
    if a == [] {
      assert a + b == b;
    } else {
      assert (a + b)[1..] == a[1..] + b;
      EncodeLogAppend(a[1..], b);
    }
  }

  lemma EncodeLogSnoc(a: seq<Command>, c: Command)
    ensures EncodeLog(a + [c]) == EncodeLog(a) + EncodeCommand(c)
  {
    EncodeLogAppend(a, [c]);
    assert [c][1..] == [];
    assert EncodeLog([c]) == EncodeCommand(c);
  }

  lemma NothingToRead(p: Parser)
    ensures ReadFrames(p, "") == Split([], 0, Exhausted)
  {
  }

  /** A whole frame at the front is read first. */
  lemma FrameFirst(p: Parser, c: Command, head: string, rest: string)
    requires p.ParseCommand(head + rest) == Complete(c, |head|)
    ensures ReadFrames(p, head + rest) == Chain(Split([c], |head|, Partial), ReadFrames(p, rest))
  {
    hide Parser.ParseCommand;
    assert (head + rest)[|head|..] == rest;
    assert |head + rest| > 0;
  }

  /** A log followed by anything reads back as its commands, then whatever follows. */
  lemma {:induction false} ReadLog(p: Parser, cs: seq<Command>, tail: string)
    requires AllLoggable(p, cs)
    ensures ReadFrames(p, EncodeLog(cs) + tail) ==
            Chain(Split(cs, |EncodeLog(cs)|, Partial), ReadFrames(p, tail))
  {
    hide Parser.ParseCommand;
    hide EncodeCommand, ReadFrames, Loggable;
    var ft := ReadFrames(p, tail);
    if cs == [] {
      assert EncodeLog(cs) + tail == tail;
      assert [] + ft.commands == ft.commands;
    } else {
      var head, rest := EncodeCommand(cs[0]), EncodeLog(cs[1..]) + tail;
      CommandRoundTrip(p, cs[0], rest);
      assert EncodeLog(cs) + tail == head + rest;
      FrameFirst(p, cs[0], head, rest);
      ReadLog(p, cs[1..], tail);
      assert [cs[0]] + cs[1..] == cs;
      ChainAssociative(Split([cs[0]], |head|, Partial), Split(cs[1..], |EncodeLog(cs[1..])|, Partial), ft);
    }
  }

  /** A proper non-empty prefix of one encoded command is a partial frame. */
  lemma PartialCommand(p: Parser, c: Command, k: nat)
    requires Loggable(p, c) && 0 < k < |EncodeCommand(c)|
    ensures ReadFrames(p, EncodeCommand(c)[..k]) == Split([], 0, Partial)
  {
    CommandRoundTrip(p, c, "");
    assert EncodeCommand(c) + "" == EncodeCommand(c);
    ProperPrefixIncomplete(p, EncodeCommand(c), k);
  }

  /** `j` is the number of commands wholly before byte `k` of the log of `cs`. */
  ghost predicate WholeBefore(cs: seq<Command>, k: nat, j: nat) {
    && j <= |cs|
    && |EncodeLog(cs[..j])| <= k
    && (j < |cs| ==> k < |EncodeLog(cs[..j + 1])|)
  }

  lemma {:induction false} CountWholeBefore(cs: seq<Command>, k: nat) returns (j: nat)
    ensures WholeBefore(cs, k, j)
  {
    hide EncodeCommand;
    if cs == [] || k < |EncodeLog(cs[..1])| {
      j := 0;
      assert cs[..0] == [];
    } else {
      var e := |EncodeCommand(cs[0])|;
      EncodeLogSplit(cs, 1);
      var i := CountWholeBefore(cs[1..], k - e);
      j := i + 1;
      assert cs[..j][1..] == cs[1..][..i];
      if j < |cs| {
        assert cs[..j + 1][1..] == cs[1..][..i + 1];
      }
    }
  }

  lemma EncodeLogSplit(cs: seq<Command>, j: nat)
    requires j <= |cs|
    ensures EncodeLog(cs) == EncodeLog(cs[..j]) + EncodeLog(cs[j..])
    ensures |cs| >= 1 ==> EncodeLog(cs[..1]) == EncodeCommand(cs[0])
  {
    hide EncodeCommand;
    EncodeLogAppend(cs[..j], cs[j..]);
    assert cs[..j] + cs[j..] == cs;
    if |cs| >= 1 {
      assert cs[..1][1..] == [];
    }
  }

  /** Cut-anywhere recovery: a log cut at any byte reads back as exactly the commands wholly before
      the cut, consuming exactly their bytes. */
  lemma CutAnywhere(p: Parser, cs: seq<Command>, k: nat, j: nat)
    requires AllLoggable(p, cs) && k <= |EncodeLog(cs)| && WholeBefore(cs, k, j)
    ensures var n := |EncodeLog(cs[..j])|;
            ReadFrames(p, EncodeLog(cs)[..k]) == Split(cs[..j], n, if k == n then Exhausted else Partial)
  {
    hide EncodeCommand, EncodeLog, ReadFrames, Loggable;
    hide Parser.ParseCommand;
    var n := |EncodeLog(cs[..j])|;
    EncodeLogSplit(cs, j);
    NothingToRead(p);
    var tail := EncodeLog(cs[j..])[..k - n];
    assert EncodeLog(cs)[..k] == EncodeLog(cs[..j]) + tail;
    ReadLog(p, cs[..j], tail);
    assert j == |cs| ==> cs[..j] == cs;
    if k > n {
      assert cs[..j + 1] == cs[..j] + [cs[j]];
      EncodeLogSnoc(cs[..j], cs[j]);
      EncodeLogSplit(cs[j..], 1);
      assert tail == EncodeCommand(cs[j])[..k - n];
      PartialCommand(p, cs[j], k - n);
    }
    assert cs[..j] + [] == cs[..j];
  }

  /** Truncating at the cut and appending new commands replays as the survivors then the new ones. */
  lemma AppendAfterCut(p: Parser, cs: seq<Command>, k: nat, j: nat, added: seq<Command>)
    requires AllLoggable(p, cs) && AllLoggable(p, added) && k <= |EncodeLog(cs)| && WholeBefore(cs, k, j)
    ensures var kept := EncodeLog(cs)[..ReadFrames(p, EncodeLog(cs)[..k]).consumed];
            ReadFrames(p, kept + EncodeLog(added)) ==
            Split(cs[..j] + added, |kept| + |EncodeLog(added)|, Exhausted)
  {
    hide EncodeCommand, EncodeLog, ReadFrames, Loggable;
    hide Parser.ParseCommand;
    NothingToRead(p);
    CutAnywhere(p, cs, k, j);
    EncodeLogSplit(cs, j);
    var kept := EncodeLog(cs)[..ReadFrames(p, EncodeLog(cs)[..k]).consumed];
    assert kept == EncodeLog(cs[..j]);
    EncodeLogAppend(cs[..j], added);
    ReadLog(p, cs[..j] + added, "");
    assert EncodeLog(cs[..j] + added) + "" == kept + EncodeLog(added);
    assert cs[..j] + added + [] == cs[..j] + added;
  }
}

/** The two loops that consume command frames: the drain loop of a connection's message callback,
    over the input buffer, and log replay with truncation of an incomplete tail; and the theorem
    that a connection's commands do not depend on how its bytes arrive. */
module Stream {
  import opened Wrappers
  import opened Decimal
  import opened Resp
  import opened RespLaws
  import opened RespParser
  import opened Frames
  import opened Buffers

  /** The message callback: submits every whole command in the buffer, in order. On a protocol error
      the rest of the buffer is dropped. */
  method Drain(p: Parser, input: Buffer) returns (submitted: seq<Command>, error: Option<string>)
    requires input.Valid()
    modifies input
    ensures input.Valid() && input.storage == old(input.storage)
    ensures var f := ReadFrames(p, old(input.Contents()));
            && submitted == f.commands
            && match f.ending
               case Corrupt(e) => error == Some(e) && input.Contents() == ""
               case _ => error == None && input.Contents() == old(input.Contents())[f.consumed..]
  {
    hide Parser.ParseCommand;
    hide ReadFrames;
    submitted, error := [], None;
    ghost var before := input.Contents();
    ghost var done: nat := 0;
    ChainStart(ReadFrames(p, before));
    while input.ReadableBytes() > 0
      invariant input.Valid() && input.storage == old(input.storage)
      invariant done <= |before| && input.Contents() == before[done..]
      invariant ReadFrames(p, before) == Chain(Split(submitted, done, Partial), ReadFrames(p, input.Contents()))
      decreases |input.Contents()|
    {
      var view := input.View();
      NextFrame(p, view, submitted, done);
      var result, consumed, arguments, message := ParseCommandAt(p, view);
      if result == NeedMore { return; }
      if result == Failed {
        input.RetrieveAll();
        error := Some(message);
        return;
      }
      var ok := input.Retrieve(consumed);
      submitted := submitted + [arguments];
      done := done + consumed;
    }
    NextFrame(p, input.Contents(), submitted, done);
  }

  /** One turn of a frame loop that has collected `done` from `n` bytes and looks at `data` next. */
  lemma NextFrame(p: Parser, data: string, done: seq<Command>, n: nat)
    ensures var r, all := p.ParseCommand(data), Chain(Split(done, n, Partial), ReadFrames(p, data));
            all == if data == "" then Split(done, n, Exhausted)
                   else if r.Incomplete? then Split(done, n, Partial)
                   else if r.Malformed? then Split(done, n, Corrupt(r.error))
                   else Chain(Split(done + [r.value], n + r.consumed, Partial), ReadFrames(p, data[r.consumed..]))
  {
    hide Parser.ParseCommand;
    assert done + [] == done;
    if data != "" {
      var r := p.ParseCommand(data);
      if r.Complete? {
        ChainAssociative(Split(done, n, Partial), Split([r.value], r.consumed, Partial),
            ReadFrames(p, data[r.consumed..]));
      }
    }
  }

  lemma ChainStart(f: Split)
    ensures Chain(Split([], 0, Partial), f) == f
  {
    assert [] + f.commands == f.commands;
  }

  // ---------------------------------------------------------------- replay

  datatype Replayed = Replayed(commands: seq<Command>, count: nat, corrupt: Option<string>)

  function CorruptAt(offset: nat, error: string): string {
    "corrupt AOF at byte " + ToString(offset) + ": " + error
  }

  /** Log replay. `file` is the log file, `None` when it cannot be opened. Calls back every whole
      command in order; an incomplete tail ends the scan and is cut off if `truncate` is set; a
      malformed frame throws (`corrupt`). */
  method Replay(p: Parser, file: Option<string>, truncate: bool)
    returns (result: Replayed, file': Option<string>)
    ensures file.None? ==> result == Replayed([], 0, None) && file' == None
    ensures file.Some? ==>
      var f := ReadFrames(p, file.value);
      && result.commands == f.commands && result.count == |f.commands|
      && result.corrupt == (if f.ending.Corrupt? then Some(CorruptAt(f.consumed, f.ending.error)) else None)
      && file' == Some(if truncate && f.ending == Partial then file.value[..f.consumed] else file.value)
  {
    hide Parser.ParseCommand;
    hide ReadFrames;
    file' := file;
    result := Replayed([], 0, None);
    if file.None? { return; }
    var data := file.value;
    var offset, calls, count := 0, [], 0;
    assert data[0..] == data;
    ChainStart(ReadFrames(p, data));
    while offset < |data|
      invariant offset <= |data| && count == |calls|
      invariant ReadFrames(p, data) == Chain(Split(calls, offset, Partial), ReadFrames(p, data[offset..]))
    {
      NextFrame(p, data[offset..], calls, offset);
      var r, consumed, command, error := ParseCommandAt(p, data[offset..]);
      if r == NeedMore {
        if truncate { file' := Some(data[..offset]); }
        return Replayed(calls, count, None), file';
      }
      if r == Failed {
        return Replayed(calls, count, Some("corrupt AOF at byte " + ToString(offset) + ": " + error)), file';
      }
      assert data[offset..][consumed..] == data[offset + consumed..];
      calls := calls + [command];
      offset := offset + consumed;
      count := count + 1;
    }
    NextFrame(p, data[offset..], calls, offset);
    result := Replayed(calls, count, None);
  }

  // ---------------------------------------------------------------- chunking

  /** The input side of one connection. `firstError` is how many commands had been submitted when the
      first protocol error was met; reading goes on after it. */
  datatype Reader = Reader(buffer: string, submitted: seq<Command>, firstError: Option<nat>, closed: bool)

  const FRESH := Reader("", [], None, false)

  /** One read event delivering `chunk`; an empty read is the end of the stream, and a buffer grown
      beyond the request limit closes the connection before it is drained. */
  function Receive(p: Parser, limit: nat, r: Reader, chunk: string): Reader {
    var data := r.buffer + chunk;
    if r.closed then r
    else if chunk == "" || |data| > limit then r.(buffer := "", closed := true)
    else
      var f := ReadFrames(p, data);
      var all := r.submitted + f.commands;
      if f.ending.Corrupt? then
        r.(buffer := "", submitted := all,
           firstError := if r.firstError.Some? then r.firstError else Some(|all|))
      else r.(buffer := data[f.consumed..], submitted := all)
  }

  /** The input side of a connection as the event loop drives it, over the compacting buffer. */
  class Input {
    const parser: Parser
    const limit: nat
    const buffer: Buffer
    var submitted: seq<Command>
    var firstError: Option<nat>
    var closed: bool

    ghost function AsReader(): Reader
      requires buffer.Valid()
      reads this, buffer, buffer.storage
    {
      Reader(buffer.Contents(), submitted, firstError, closed)
    }

    constructor (parser: Parser, limit: nat, buffer: Buffer)
      requires buffer.Valid()
      ensures this.parser == parser && this.limit == limit && this.buffer == buffer
      ensures AsReader() == Reader(buffer.Contents(), [], None, false)
    {
      this.parser, this.limit, this.buffer := parser, limit, buffer;
      submitted, firstError, closed := [], None, false;
    }

    method Close()
      requires buffer.Valid()
      modifies this, buffer
      ensures buffer.Valid() && buffer.storage == old(buffer.storage)
      ensures AsReader() == old(AsReader()).(buffer := "", closed := true)
    {
      closed := true;
      buffer.RetrieveAll();
    }

    /** One readable event. `delivered` is what the read returned, `None` a failed call, which `again`
        says was only premature. */
    method HandleRead(delivered: Option<string>, again: bool)
      requires buffer.Valid() && (delivered.Some? ==> |delivered.value| <= buffer.ReadCapacity())
      modifies this, buffer, buffer.storage
      ensures buffer.Valid() && (buffer.storage == old(buffer.storage) || fresh(buffer.storage))
      ensures AsReader() ==
              if delivered.None? && again then old(AsReader())
              else Receive(parser, limit, old(AsReader()), if delivered.Some? then delivered.value else "")
    {
      hide ReadFrames;
      if closed { return; }
      var count := buffer.ReadFd(delivered);
      if count > 0 {
        if buffer.ReadableBytes() > limit {
          Close();
        } else {
          var commands, error := Drain(parser, buffer);
          submitted := submitted + commands;
          if error.Some? && firstError.None? { firstError := Some(|submitted|); }
        }
      } else if count == 0 || !again {
        Close();
      }
    }
  }

  function ReceiveAll(p: Parser, limit: nat, r: Reader, chunks: seq<string>): Reader {
    if chunks == [] then r
    else Receive(p, limit, ReceiveAll(p, limit, r, chunks[..|chunks| - 1]), chunks[|chunks| - 1])
  }

  function Flatten(chunks: seq<string>): string {
    if chunks == [] then "" else Flatten(chunks[..|chunks| - 1]) + chunks[|chunks| - 1]
  }

  /** The commands submitted before the first protocol error. */
  function BeforeError(r: Reader): seq<Command> {
    if r.firstError.Some? && r.firstError.value <= |r.submitted| then r.submitted[..r.firstError.value] else r.submitted
  }

  /** What a reader knows about the stream `data` it has received. */
  ghost predicate Tracks(p: Parser, r: Reader, data: string) {
    var f := ReadFrames(p, data);
    if r.closed then BeforeError(r) <= f.commands
    else match r.firstError
         case None => !f.ending.Corrupt? && r.submitted == f.commands && r.buffer == data[f.consumed..]
         case Some(k) => f.ending.Corrupt? && k <= |r.submitted| && r.submitted[..k] == f.commands
  }

  lemma ReceiveTracks(p: Parser, limit: nat, r: Reader, data: string, chunk: string)
    requires Tracks(p, r, data) && (r.closed ==> r.firstError.Some? ==> r.firstError.value <= |r.submitted|)
    ensures Tracks(p, Receive(p, limit, r, chunk), data + chunk)
  {
    hide ReadFrames;
    ReadFramesAppend(p, data, chunk);
    var f, g := ReadFrames(p, data), ReadFrames(p, data + chunk);
    assert f.commands <= g.commands;
    var r' := Receive(p, limit, r, chunk);
    if !r.closed && r.firstError.None? {
      var h := ReadFrames(p, data[f.consumed..] + chunk);
      assert (data + chunk)[f.consumed..] == data[f.consumed..] + chunk;
      assert (data + chunk)[f.consumed..][h.consumed..] == (data + chunk)[f.consumed + h.consumed..];
      if !r'.closed && h.ending.Corrupt? {
        assert r'.submitted[..|r'.submitted|] == r'.submitted;
      }
    } else if !r.closed && !r'.closed {
      assert r'.submitted[..r.firstError.value] == r.submitted[..r.firstError.value];
    }
  }

  lemma {:induction false} ReceiveAllTracks(p: Parser, limit: nat, chunks: seq<string>)
    ensures var r := ReceiveAll(p, limit, FRESH, chunks);
            && Tracks(p, r, Flatten(chunks))
            && (r.firstError.Some? ==> r.firstError.value <= |r.submitted|)
  {
    if chunks != [] {
      var n := |chunks| - 1;
      ReceiveAllTracks(p, limit, chunks[..n]);
      ReceiveTracks(p, limit, ReceiveAll(p, limit, FRESH, chunks[..n]), Flatten(chunks[..n]), chunks[n]);
    }
  }

  /** Chunking independence: however a stream is split into reads, a connection that stays open
      submits the same commands up to the first protocol error, meets an error in the same cases,
      and otherwise holds the same unread bytes. */
  lemma ChunkingIndependence(p: Parser, limit: nat, a: seq<string>, b: seq<string>)
    requires Flatten(a) == Flatten(b)
    requires !ReceiveAll(p, limit, FRESH, a).closed && !ReceiveAll(p, limit, FRESH, b).closed
    ensures var r, q := ReceiveAll(p, limit, FRESH, a), ReceiveAll(p, limit, FRESH, b);
            && BeforeError(r) == BeforeError(q) == ReadFrames(p, Flatten(a)).commands
            && (r.firstError.Some? <==> q.firstError.Some?)
            && (r.firstError.None? ==> r.buffer == q.buffer)
  {
    ReceiveAllTracks(p, limit, a);
    ReceiveAllTracks(p, limit, b);
  }

  /** Even a connection that was closed submitted, before its first error, only commands of its
      stream, in order and without a gap. */
  lemma SubmittedIsPrefix(p: Parser, limit: nat, chunks: seq<string>)
    ensures BeforeError(ReceiveAll(p, limit, FRESH, chunks)) <= ReadFrames(p, Flatten(chunks)).commands
  {
    ReceiveAllTracks(p, limit, chunks);
  }

  /** `a` has read on from `before` as `b` has from the beginning. */
  ghost predicate ReadsOn(before: seq<Command>, a: Reader, b: Reader) {
    a.buffer == b.buffer && a.closed == b.closed && a.submitted == before + b.submitted
  }

  lemma {:induction false} ReadsOnAlong(p: Parser, limit: nat, r: Reader, more: seq<string>)
    requires r.buffer == "" && !r.closed
    ensures ReadsOn(r.submitted, ReceiveAll(p, limit, r, more), ReceiveAll(p, limit, FRESH, more))
  {
    hide ReadFrames;
    if more == [] {
      assert r.submitted + [] == r.submitted;
    } else {
      var n := |more| - 1;
      ReadsOnAlong(p, limit, r, more[..n]);
      var b := ReceiveAll(p, limit, FRESH, more[..n]);
      var f := ReadFrames(p, b.buffer + more[n]);
      assert r.submitted + b.submitted + f.commands == r.submitted + (b.submitted + f.commands);
    }
  }

  /** A protocol error drops what is buffered: the commands before it are submitted, and the connection then
      reads on as if the stream began there. */
  lemma ErrorStartsAfresh(p: Parser, limit: nat, r: Reader, chunk: string, more: seq<string>)
    requires !r.closed && chunk != "" && |r.buffer + chunk| <= limit
    requires ReadFrames(p, r.buffer + chunk).ending.Corrupt?
    ensures var f, s := ReadFrames(p, r.buffer + chunk), Receive(p, limit, r, chunk);
            && s.submitted == r.submitted + f.commands && s.firstError.Some?
            && ReadsOn(s.submitted, ReceiveAll(p, limit, s, more), ReceiveAll(p, limit, FRESH, more))
  {
    hide ReadFrames;
    ReadsOnAlong(p, limit, Receive(p, limit, r, chunk), more);
  }

  /** The end of the stream closes the connection for good: nothing that is read after it is submitted. */
  lemma EndOfStreamCloses(p: Parser, limit: nat, chunks: seq<string>, more: seq<string>)
    ensures var r := ReceiveAll(p, limit, FRESH, chunks + [""] + more);
            r.closed && r.submitted == ReceiveAll(p, limit, FRESH, chunks).submitted
  {
    hide ReadFrames;
    assert (chunks + [""])[..|chunks|] == chunks;
    var ended := ReceiveAll(p, limit, FRESH, chunks + [""]);
    ReceiveAppend(p, limit, FRESH, chunks + [""], more);
    ClosedStays(p, limit, ended, more);
  }

  /** A stream of non-empty reads that fits the request limit is never closed. */
  lemma {:induction false} SmallStreamStaysOpen(p: Parser, limit: nat, chunks: seq<string>)
    requires "" !in chunks && |Flatten(chunks)| <= limit
    ensures !ReceiveAll(p, limit, FRESH, chunks).closed
    ensures |ReceiveAll(p, limit, FRESH, chunks).buffer| <= |Flatten(chunks)|
  {
    if chunks != [] {
      var n := |chunks| - 1;
      SmallStreamStaysOpen(p, limit, chunks[..n]);
      assert chunks[n] in chunks;
    }
  }

  // ---------------------------------------------------------------- the request limit

  /** Every read delivers something, and at most `cap` bytes of it. */
  ghost predicate Capped(chunks: seq<string>, cap: nat) {
    forall i :: 0 <= i < |chunks| ==> 0 < |chunks[i]| <= cap
  }

  function Least(a: nat, b: nat): nat {
    if a <= b then a else b
  }

  /** Wherever a read may begin, what is still unread there and the longest read from there fit the limit
      together. */
  ghost predicate Roomy(p: Parser, limit: nat, cap: nat, data: string) {
    forall r :: 0 <= r < |data| ==> Unread(p, data, r) + Least(cap, |data| - r) <= limit
  }

  /** The bytes of an incomplete frame at the end of the first `r` bytes. */
  function Unread(p: Parser, data: string, r: nat): nat
    requires r <= |data|
  {
    r - ReadFrames(p, data[..r]).consumed
  }

  lemma {:induction false} ReceiveAppend(p: Parser, limit: nat, r: Reader, a: seq<string>, b: seq<string>)
    ensures ReceiveAll(p, limit, r, a + b) == ReceiveAll(p, limit, ReceiveAll(p, limit, r, a), b)
  {
    hide Receive;
    if b == [] {
      assert a + b == a;
    } else {
      assert (a + b)[..|a + b| - 1] == a + b[..|b| - 1];
      ReceiveAppend(p, limit, r, a, b[..|b| - 1]);
    }
  }

  lemma {:induction false} FlattenAppend(a: seq<string>, b: seq<string>)
    ensures Flatten(a + b) == Flatten(a) + Flatten(b)
  {
    if b == [] {
      assert a + b == a;
    } else {
      assert (a + b)[..|a + b| - 1] == a + b[..|b| - 1];
      FlattenAppend(a, b[..|b| - 1]);
    }
  }

  lemma {:induction false} ClosedStays(p: Parser, limit: nat, r: Reader, chunks: seq<string>)
    requires r.closed
    ensures ReceiveAll(p, limit, r, chunks) == r
  {
    if chunks != [] { ClosedStays(p, limit, r, chunks[..|chunks| - 1]); }
  }

  /** A reader that is open after the first `r` bytes of a stream without errors buffers exactly the
      unread ones. */
  lemma OpenBuffer(p: Parser, limit: nat, chunks: seq<string>, data: string)
    requires Flatten(chunks) <= data && !ReadFrames(p, data).ending.Corrupt?
    requires !ReceiveAll(p, limit, FRESH, chunks).closed
    ensures |ReceiveAll(p, limit, FRESH, chunks).buffer| == Unread(p, data, |Flatten(chunks)|)
  {
    hide ReadFrames, ReceiveAll;
    var read := Flatten(chunks);
    ReceiveAllTracks(p, limit, chunks);
    assert data[..|read|] == read && data == read + data[|read|..];
    ReadFramesAppend(p, read, data[|read|..]);
  }

  /** Reads within the bound never exceed a roomy limit. */
  lemma {:induction false} RoomyStaysOpen(p: Parser, limit: nat, cap: nat, data: string, chunks: seq<string>)
    requires Roomy(p, limit, cap, data) && !ReadFrames(p, data).ending.Corrupt?
    requires Capped(chunks, cap) && Flatten(chunks) <= data
    ensures !ReceiveAll(p, limit, FRESH, chunks).closed
  {
    hide ReadFrames, Unread;
    if chunks != [] {
      var n := |chunks| - 1;
      var init, r := chunks[..n], |Flatten(chunks[..n])|;
      RoomyStaysOpen(p, limit, cap, data, init);
      OpenBuffer(p, limit, init, data);
      assert r < |data| && |chunks[n]| <= Least(cap, |data| - r);
      assert Unread(p, data, r) + Least(cap, |data| - r) <= limit;
    }
  }

  /** The stream byte by byte. */
  function Bytes(data: string): (r: seq<string>)
    ensures |r| == |data| && forall i :: 0 <= i < |r| ==> r[i] == [data[i]]
  {
    seq(|data|, i requires 0 <= i < |data| => [data[i]])
  }

  lemma {:induction false} FlattenBytes(data: string)
    ensures Flatten(Bytes(data)) == data
  {
    if data != "" {
      var n := |data| - 1;
      FlattenBytes(data[..n]);
      assert Bytes(data)[..n] == Bytes(data[..n]);
      assert data == data[..n] + [data[n]];
    }
  }

  /** Byte by byte up to position `r`, then the longest read, then byte by byte. */
  function Burst(data: string, r: nat, cap: nat): seq<string>
    requires r < |data|
  {
    var m := r + Least(cap, |data| - r);
    Bytes(data[..r]) + [data[r..m]] + Bytes(data[m..])
  }

  lemma CappedAppend(a: seq<string>, b: seq<string>, cap: nat)
    requires Capped(a, cap) && Capped(b, cap)
    ensures Capped(a + b, cap)
  {
  }

  lemma FlattenOne(chunk: string)
    ensures Flatten([chunk]) == chunk
  {
    var one: seq<string> := [chunk];
    assert one[..|one| - 1] == [] && "" + chunk == chunk;
  }

  lemma BurstSplits(data: string, r: nat, cap: nat)
    requires r < |data| && cap > 0
    ensures Capped(Burst(data, r, cap), cap) && Flatten(Burst(data, r, cap)) == data
  {
    hide Flatten;
    var m := r + Least(cap, |data| - r);
    var a, b, c := Bytes(data[..r]), [data[r..m]], Bytes(data[m..]);
    FlattenBytes(data[..r]);
    FlattenBytes(data[m..]);
    FlattenOne(data[r..m]);
    FlattenAppend(a + b, c);
    FlattenAppend(a, b);
    CappedAppend(a, b, cap);
    CappedAppend(a + b, c, cap);
    assert data == data[..r] + data[r..m] + data[m..];
  }

  /** A read that exceeds the limit together with what is buffered closes the connection. */
  lemma TooLongCloses(p: Parser, limit: nat, chunks: seq<string>, chunk: string)
    requires |ReceiveAll(p, limit, FRESH, chunks).buffer| + |chunk| > limit
    ensures ReceiveAll(p, limit, FRESH, chunks + [chunk]).closed
  {
    hide ReadFrames;
    assert (chunks + [chunk])[..|chunks|] == chunks;
  }

  lemma ClosedOnce(p: Parser, limit: nat, chunks: seq<string>, more: seq<string>)
    requires ReceiveAll(p, limit, FRESH, chunks).closed
    ensures ReceiveAll(p, limit, FRESH, chunks + more).closed
  {
    hide ReceiveAll;
    ReceiveAppend(p, limit, FRESH, chunks, more);
    ClosedStays(p, limit, ReceiveAll(p, limit, FRESH, chunks), more);
  }

  /** A long read at a place without room for it closes the connection. */
  lemma BurstCloses(p: Parser, limit: nat, cap: nat, data: string, r: nat)
    requires r < |data| && cap > 0 && !ReadFrames(p, data).ending.Corrupt?
    requires Unread(p, data, r) + Least(cap, |data| - r) > limit
    ensures ReceiveAll(p, limit, FRESH, Burst(data, r, cap)).closed
  {
    hide ReadFrames, Unread, ReceiveAll, Bytes, Flatten;
    var m := r + Least(cap, |data| - r);
    var a, b, c := Bytes(data[..r]), data[r..m], Bytes(data[m..]);
    if ReceiveAll(p, limit, FRESH, a).closed {
      ClosedOnce(p, limit, a, [b]);
    } else {
      FlattenBytes(data[..r]);
      OpenBuffer(p, limit, a, data);
      TooLongCloses(p, limit, a, b);
    }
    ClosedOnce(p, limit, a + [b], c);
  }

  /** The exact condition, for reads of at most `cap` bytes: a stream without protocol errors survives every
      way of splitting it into such reads if and only if, wherever a read may begin, the unread bytes and
      the longest read from there fit the limit together. What one read can deliver changes with the
      buffer, but is never below `EXTRA`: that such a splitting can occur is certain for `cap <= EXTRA`,
      and that no splitting closes the connection is certain for a `cap` no smaller than any
      `ReadCapacity()`. */
  lemma StaysOpenIff(p: Parser, limit: nat, cap: nat, data: string)
    requires cap > 0 && !ReadFrames(p, data).ending.Corrupt?
    ensures (forall chunks :: Capped(chunks, cap) && Flatten(chunks) == data ==>
               !ReceiveAll(p, limit, FRESH, chunks).closed)
            <==> Roomy(p, limit, cap, data)
  {
    hide ReadFrames, ReceiveAll, Unread, Burst;
    if Roomy(p, limit, cap, data) {
      forall chunks | Capped(chunks, cap) && Flatten(chunks) == data
        ensures !ReceiveAll(p, limit, FRESH, chunks).closed
      {
        RoomyStaysOpen(p, limit, cap, data, chunks);
      }
    } else {
      var r :| 0 <= r < |data| && Unread(p, data, r) + Least(cap, |data| - r) > limit;
      BurstSplits(data, r, cap);
      BurstCloses(p, limit, cap, data, r);
    }
  }

  /** So a stream of commands of at most `size` bytes each, of any length, is never closed as long as the
      limit has room for one command and one read. */
  lemma ShortCommandsStayOpen(p: Parser, limit: nat, cap: nat, cs: seq<Command>, size: nat, chunks: seq<string>)
    requires AllLoggable(p, cs) && (forall c :: c in cs ==> |EncodeCommand(c)| <= size) && size + cap <= limit
    requires Capped(chunks, cap) && Flatten(chunks) == EncodeLog(cs)
    ensures !ReceiveAll(p, limit, FRESH, chunks).closed
  {
    hide EncodeCommand, EncodeLog, ReadFrames, ReceiveAll;
    var data := EncodeLog(cs);
    assert data[..|data|] == data;
    forall r | 0 <= r <= |data| ensures Unread(p, data, r) <= size && !ReadFrames(p, data[..r]).ending.Corrupt? {
      var j := CountWholeBefore(cs, r);
      CutAnywhere(p, cs, r, j);
      if j < |cs| {
        assert cs[..j + 1] == cs[..j] + [cs[j]];
        EncodeLogSnoc(cs[..j], cs[j]);
      } else {
        assert cs[..j] == cs;
      }
    }
    assert !ReadFrames(p, data[..|data|]).ending.Corrupt?;
    RoomyStaysOpen(p, limit, cap, data, chunks);
  }

  /** The request limit does depend on chunking: two commands arriving in one read can exceed it when each
      alone does not. */
  lemma LimitDependsOnChunking(p: Parser, c: Command, cap: nat)
    requires Loggable(p, c) && 2 * |EncodeCommand(c)| <= cap
    ensures var e, limit := EncodeCommand(c), |EncodeCommand(c)|;
            && Capped([e, e], cap) && Capped([e + e], cap) && Flatten([e, e]) == Flatten([e + e])
            && !ReceiveAll(p, limit, FRESH, [e, e]).closed && ReceiveAll(p, limit, FRESH, [e, e]).submitted == [c, c]
            && ReceiveAll(p, limit, FRESH, [e + e]).closed && ReceiveAll(p, limit, FRESH, [e + e]).submitted == []
  {
    hide EncodeCommand;
    hide ReadFrames;
    var e := EncodeCommand(c);
    OneFrame(p, c);
    var one, both: seq<string> := [e], [e + e];
    assert one[..|one| - 1] == [] && both[..|both| - 1] == [];
    var r1 := ReceiveAll(p, |e|, FRESH, one);
    assert "" + e == e;
    assert ReceiveAll(p, |e|, FRESH, []) == FRESH;
    assert r1 == Receive(p, |e|, FRESH, e);
    assert e[|e|..] == "";
    assert r1 == Reader("", [c], None, false);
    assert [e, e][..1] == [e];
    assert "" + (e + e) == e + e;
    assert Flatten([e, e]) == Flatten([e]) + e && Flatten([e]) == "" + e;
  }

  lemma OneFrame(p: Parser, c: Command)
    requires Loggable(p, c)
    ensures ReadFrames(p, EncodeCommand(c)) == Split([c], |EncodeCommand(c)|, Exhausted)
    ensures EncodeCommand(c) != ""
  {
    ReadLog(p, [c], "");
    assert [c][1..] == [] && EncodeLog([c]) == EncodeCommand(c) + "";
    assert EncodeCommand(c) + "" == EncodeCommand(c);
    assert [c] + [] == [c];
  }
}

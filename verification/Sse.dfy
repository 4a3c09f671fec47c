/** The event stream: the frame printer of internal/server/sse.go, the incremental reader of
    web/ui/src/lib/chat.js, and the round trip between the two over a network that cuts the
    bytes anywhere and may stop taking them at any byte. */
module Sse {
  import opened Text

  /** One call of the printer. The body is the JSON text, or None where encoding it failed. */
  datatype Message = Message(event: string, body: Option<string>)

  /** One event as the client sees it; the payload is kept as its JSON text. */
  datatype Frame = Frame(event: string, data: string)

  function Block(event: string, data: string): string {
    "event: " + event + "\ndata: " + data
  }

  /** The bytes of one whole frame; a message that does not encode has none. */
  function FrameText(m: Message): string {
    if m.body.None? then "" else Block(m.event, m.body.value) + BREAK
  }

  /* ---- the printer ---- */

  /** The printer's state: bytes taken so far, bytes the connection will still take, and the
      sticky error. */
  datatype Wire = Wire(bytes: string, room: nat, broken: bool)

  function Written(w: Wire, part: string): Wire {
    if w.broken then w
    else if |part| <= w.room then Wire(w.bytes + part, w.room - |part|, false)
    else Wire(w.bytes + part[..w.room], 0, true)
  }

  function Sent(w: Wire, m: Message): Wire {
    if m.body.None? then w.(broken := true)
    else Written(w, FrameText(m))
  }

  function SentAll(w: Wire, ms: seq<Message>): Wire
    decreases ms
  {
    if ms == [] then w else SentAll(Sent(w, ms[0]), ms[1..])
  }

  /** A response writer that takes `room` more bytes. A write that does not fit keeps the part
      that does and reports an error. */
  class Sink {
    var bytes: string
    var room: nat

    constructor (room: nat)
      ensures bytes == "" && this.room == room
    {
      bytes, this.room := "", room;
    }

    method Write(part: string) returns (ok: bool)
      modifies this
      ensures Wire(bytes, room, !ok) == Written(Wire(old(bytes), old(room), false), part)
    {
      ok := |part| <= room;
      if ok {
        bytes, room := bytes + part, room - |part|;
      } else {
        bytes, room := bytes + part[..room], 0;
      }
    }
  }

  class Stream {
    const sink: Sink
    var writeErr: bool

    function State(): Wire
      reads this, sink
    {
      Wire(sink.bytes, sink.room, writeErr)
    }

    constructor (sink: Sink)
      ensures this.sink == sink && !writeErr
    {
      this.sink, writeErr := sink, false;
    }

    /** Three writes for one frame; the first one that fails silences everything after it. */
    method Send(event: string, body: Option<string>)
      modifies this, sink
      ensures State() == Sent(old(State()), Message(event, body))
    {
      if writeErr {
        return;
      }
      if body.None? {
        writeErr := true;
        return;
      }
      var parts := ["event: " + event + "\ndata: ", body.value, BREAK];
      ghost var start := State();
      FlatThree("event: " + event + "\ndata: ", body.value, BREAK);
      for i := 0 to |parts|
        invariant !writeErr && State() == Written(start, Flat(parts[..i]))
      {
        var before := State();
        var ok := sink.Write(parts[i]);
        assert Flat(parts[..i + 1]) == Flat(parts[..i]) + parts[i] by { FlatAppend(parts, i); }
        WrittenTwice(start, Flat(parts[..i]), parts[i]);
        if !ok {
          writeErr := true;
          WrittenStuck(start, Flat(parts[..i + 1]), Flat(parts[i + 1..]));
          FlatSplit(parts, i + 1);
          return;
        }
      }
      assert parts[..|parts|] == parts;
    }
  }

  function Flat(parts: seq<string>): string {
    if parts == [] then "" else parts[0] + Flat(parts[1..])
  }

  lemma FlatThree(a: string, b: string, c: string)
    ensures Flat([a, b, c]) == a + b + c
  {
    assert [a, b, c][1..] == [b, c] && [b, c][1..] == [c] && [c][1..] == [];
    assert Flat([c]) == c && Flat([b, c]) == b + c;
  }

  lemma {:induction false} FlatSplit(parts: seq<string>, n: nat)
    requires n <= |parts|
    ensures Flat(parts) == Flat(parts[..n]) + Flat(parts[n..])
  {
    if n > 0 {
      FlatSplit(parts[1..], n - 1);
      assert parts[..n][1..] == parts[1..][..n - 1];
    }
  }

  lemma FlatAppend(parts: seq<string>, i: nat)
    requires i < |parts|
    ensures Flat(parts[..i + 1]) == Flat(parts[..i]) + parts[i]
  {
    FlatSplit(parts[..i + 1], i);
    assert parts[..i + 1][..i] == parts[..i];
    assert parts[..i + 1][i..] == [parts[i]];
  }

  lemma WrittenTwice(w: Wire, a: string, b: string)
    ensures Written(Written(w, a), b) == Written(w, a + b)
  {
    if !w.broken && |a| <= w.room {
      if |a + b| > w.room {
        assert (a + b)[..w.room] == a + b[..w.room - |a|];
      }
      assert w.bytes + (a + b) == w.bytes + a + b;
    } else if !w.broken {
      assert (a + b)[..w.room] == a[..w.room];
    }
  }

  lemma WrittenStuck(w: Wire, a: string, b: string)
    requires Written(w, a).broken
    ensures Written(w, a + b) == Written(w, a)
  {
    WrittenTwice(w, a, b);
  }

  /** What one event puts on the wire, byte by byte, as far as the connection takes it. */
  lemma FrameOnTheWire(w: Wire, event: string, body: string)
    ensures var frame := "event: " + event + "\ndata: " + body + "\n\n";
      Sent(w, Message(event, Some(body))) ==
        if w.broken then w
        else if |frame| <= w.room then Wire(w.bytes + frame, w.room - |frame|, false)
        else Wire(w.bytes + frame[..w.room], 0, true)
    ensures Sent(w, Message(event, None)) == w.(broken := true)
  {
  }

  /* ---- the reader ---- */

  /** What one pass over a block's lines leaves in `event` and `data`. */
  function Scanned(lines: seq<string>, f: Frame): Frame {
    if lines == [] then f
    else
      Scanned(lines[1..],
              if "event:" <= lines[0] then f.(event := Trim(lines[0][6..]))
              else if "data:" <= lines[0] then f.(data := f.data + Trim(lines[0][5..]))
              else f)
  }

  function Parsed(block: string, valid: string -> bool): Option<Frame> {
    var f := Scanned(Split(block, "\n"), Frame("message", ""));
    if f.data == "" || !valid(f.data) then None else Some(f)
  }

  function ParsedAll(blocks: seq<string>, valid: string -> bool): (r: seq<Option<Frame>>)
    ensures |r| == |blocks|
  {
    if blocks == [] then [] else [Parsed(blocks[0], valid)] + ParsedAll(blocks[1..], valid)
  }

  /** What the data lines say, each without the blanks around it. */
  function DataOf(lines: seq<string>): string {
    if lines == [] then "" else (if "data:" <= lines[0] then Trim(lines[0][5..]) else "") + DataOf(lines[1..])
  }

  /** A block is nothing without data, or with data that is not valid. Its data is that of all its data
      lines, one after the other; its event is what the last event line says, and "message" if none does. */
  lemma BlockIsRead(block: string, valid: string -> bool)
    ensures var lines, f := Split(block, "\n"), Parsed(block, valid);
      && (f.Some? <==> DataOf(lines) != "" && valid(DataOf(lines)))
      && (f.Some? ==> f.value.data == DataOf(lines))
      && (f.Some? && (forall i | 0 <= i < |lines| :: !("event:" <= lines[i])) ==> f.value.event == "message")
      && (forall i | 0 <= i < |lines| && f.Some? && IsLastEvent(lines, i) :: f.value.event == Trim(lines[i][6..]))
  {
    var lines := Split(block, "\n");
    hide Split, Trim;
    DataIsScanned(lines, Frame("message", ""));
    EventIsScanned(lines, Frame("message", ""));
    assert "" + DataOf(lines) == DataOf(lines);
  }

  predicate IsLastEvent(lines: seq<string>, i: nat) {
    i < |lines| && "event:" <= lines[i] && forall j | i < j < |lines| :: !("event:" <= lines[j])
  }

  lemma {:induction false} DataIsScanned(lines: seq<string>, f: Frame)
    ensures Scanned(lines, f).data == f.data + DataOf(lines)
  {
    hide Trim;
    if lines == [] {
      assert f.data + "" == f.data;
    } else {
      var line, rest := lines[0], lines[1..];
      var own := if "data:" <= line then Trim(line[5..]) else "";
      var g := if "event:" <= line then f.(event := Trim(line[6..])) else f.(data := f.data + own);
      assert "event:" <= line ==> line[0] == 'e';
      assert f.data + "" == f.data && (!("data:" <= line) ==> f.(data := f.data + own) == f);
      DataIsScanned(rest, g);
      Assoc(f.data, own, DataOf(rest));
    }
  }

  lemma {:induction false} EventIsScanned(lines: seq<string>, f: Frame)
    ensures (forall i | 0 <= i < |lines| :: !("event:" <= lines[i])) ==> Scanned(lines, f).event == f.event
    ensures forall i | 0 <= i < |lines| && IsLastEvent(lines, i) :: Scanned(lines, f).event == Trim(lines[i][6..])
  {
    hide Trim;
    if lines != [] {
      var line, rest := lines[0], lines[1..];
      var g := if "event:" <= line then f.(event := Trim(line[6..]))
               else if "data:" <= line then f.(data := f.data + Trim(line[5..])) else f;
      EventIsScanned(rest, g);
      assert forall i | 0 <= i < |rest| :: rest[i] == lines[i + 1];
      forall i | 0 <= i < |lines| && IsLastEvent(lines, i) ensures Scanned(lines, f).event == Trim(lines[i][6..]) {
        if i > 0 {
          assert IsLastEvent(rest, i - 1);
        } else {
          assert forall j | 0 <= j < |rest| :: !("event:" <= rest[j]);
        }
      }
    }
  }

  method Parse(block: string, valid: string -> bool) returns (f: Option<Frame>)
    ensures f == Parsed(block, valid)
  {
    var event, data := "message", "";
    var lines := Split(block, "\n");
    for i := 0 to |lines|
      invariant Scanned(lines[i..], Frame(event, data)) == Scanned(lines, Frame("message", ""))
    {
      var line := lines[i];
      if "event:" <= line {
        event := Trim(line[6..]);
      } else if "data:" <= line {
        data := data + Trim(line[5..]);
      }
    }
    return if data == "" || !valid(data) then None else Some(Frame(event, data));
  }

  method ParseEach(blocks: seq<string>, valid: string -> bool) returns (fs: seq<Option<Frame>>)
    ensures fs == ParsedAll(blocks, valid)
  {
    fs := [];
    for j := 0 to |blocks|
      invariant fs == ParsedAll(blocks[..j], valid)
    {
      var f := Parse(blocks[j], valid);
      fs := fs + [f];
      ParsedAllConcat(blocks[..j], [blocks[j]], valid);
      assert blocks[..j + 1] == blocks[..j] + [blocks[j]];
    }
    assert blocks[..|blocks|] == blocks;
  }

  /** The client's read loop: `buf` holds the tail back until its blank line arrives, and what is
      still in it when the stream ends is dropped. */
  method Frames(chunks: seq<string>, valid: string -> bool) returns (yielded: seq<Option<Frame>>)
    ensures yielded == ParsedAll(DropLast(Split(Flat(chunks), BREAK)), valid)
  {
    hide Split;
    yielded := [];
    var buf := "";
    assert Split("", BREAK) == [""] by { SplitShort("", BREAK); }
    ghost var done := [];  // the blocks cut off so far
    for i := 0 to |chunks|
      invariant Split(Flat(chunks[..i]), BREAK) == done + [buf]
      invariant yielded == ParsedAll(done, valid)
    {
      ReadStep(chunks, i, done, buf);
      buf := buf + chunks[i];
      var blocks := Split(buf, BREAK);
      buf := Last(blocks);
      blocks := DropLast(blocks);
      var fs := ParseEach(blocks, valid);
      yielded := yielded + fs;
      ParsedAllConcat(done, blocks, valid);
      done := done + blocks;
    }
    assert chunks[..|chunks|] == chunks;
  }

  /** Splitting the held-back tail with the next chunk goes on where the stream so far stopped. */
  lemma ReadStep(chunks: seq<string>, i: nat, done: seq<string>, buf: string)
    requires i < |chunks| && Split(Flat(chunks[..i]), BREAK) == done + [buf]
    ensures Split(Flat(chunks[..i + 1]), BREAK) == done + Split(buf + chunks[i], BREAK)
  {
    FlatAppend(chunks, i);
    SplitAppend(Flat(chunks[..i]), chunks[i], BREAK);
    assert DropLast(done + [buf]) == done;
  }

  lemma {:induction false} ParsedAllConcat(done: seq<string>, more: seq<string>, valid: string -> bool)
    ensures ParsedAll(done + more, valid) == ParsedAll(done, valid) + ParsedAll(more, valid)
  {
    hide Parsed;
    if done == [] {
      assert done + more == more;
    } else {
      ParsedAllConcat(done[1..], more, valid);
      assert (done + more)[1..] == done[1..] + more;
      assert ParsedAll(done + more, valid) == [Parsed(done[0], valid)] + ParsedAll(done[1..] + more, valid);
      assert ParsedAll(done, valid) == [Parsed(done[0], valid)] + ParsedAll(done[1..], valid);
      hide ParsedAll;
      Assoc([Parsed(done[0], valid)], ParsedAll(done[1..], valid), ParsedAll(more, valid));
    }
  }

  /* ---- the round trip ---- */

  /** What the printer is given: names and JSON texts without a line feed or outer whitespace. */
  predicate Sendable(m: Message, valid: string -> bool) {
    && '\n' !in m.event && Trimmed(m.event)
    && (m.body.Some? ==> m.body.value != "" && '\n' !in m.body.value && Trimmed(m.body.value) && valid(m.body.value))
  }

  function Bytes(ms: seq<Message>): string {
    if ms == [] then "" else FrameText(ms[0]) + Bytes(ms[1..])
  }

  /** The first `n` messages encode and their frames go through a connection that takes `room`
      bytes. */
  predicate Arrive(ms: seq<Message>, n: nat, room: nat) {
    n <= |ms| && (forall i | 0 <= i < n :: ms[i].body.Some?) && |Bytes(ms[..n])| <= room
  }

  /** How many messages that is at most. */
  function Fit(ms: seq<Message>, room: nat): (n: nat)
    ensures n <= |ms|
  {
    if ms == [] || ms[0].body.None? || |FrameText(ms[0])| > room then 0
    else 1 + Fit(ms[1..], room - |FrameText(ms[0])|)
  }

  lemma {:induction false} ArriveIffFit(ms: seq<Message>, n: nat, room: nat)
    ensures Arrive(ms, n, room) <==> n <= Fit(ms, room)
  {
    if 0 < n <= |ms| {
      ArriveStep(ms, n, room);
      hide Arrive, FrameText;
      if ms[0].body.Some? && |FrameText(ms[0])| <= room { ArriveIffFit(ms[1..], n - 1, room - |FrameText(ms[0])|); }
    }
  }

  lemma ArriveStep(ms: seq<Message>, n: nat, room: nat)
    requires 0 < n <= |ms|
    ensures Arrive(ms, n, room)
       <==> ms[0].body.Some? && |FrameText(ms[0])| <= room && Arrive(ms[1..], n - 1, room - |FrameText(ms[0])|)
  {
    hide FrameText;
    var rest := ms[1..];
    assert ms[..n] == [ms[0]] + rest[..n - 1];
    BytesCons(ms[0], rest[..n - 1]);
    hide Bytes;
    assert forall i | 0 <= i < n - 1 :: rest[i] == ms[i + 1];
    assert forall i | 0 < i < n :: ms[i] == rest[i - 1];
  }

  function Delivered(ms: seq<Message>): seq<Option<Frame>> {
    if ms == [] then []
    else [if ms[0].body.None? then None else Some(Frame(ms[0].event, ms[0].body.value))] + Delivered(ms[1..])
  }

  lemma BlockHasNoBreak(m: Message, valid: string -> bool)
    requires Sendable(m, valid) && m.body.Some?
    ensures NoBreak(Block(m.event, m.body.value)) && Last(Block(m.event, m.body.value)) != '\n'
    ensures NoBreak(Block(m.event, m.body.value) + "\n")
  {
    var b := Block(m.event, m.body.value);
    assert Last(b) == Last(m.body.value);
    var k := |"event: "| + |m.event|;
    assert b[k] == '\n' && b[k + 1] == 'd';
    forall i | 0 <= i < |b| && i != k ensures b[i] != '\n' {
      if i < |"event: "| {
      } else if i < k {
        assert b[i] == m.event[i - |"event: "|];
      } else if i >= k + |"\ndata: "| {
        assert b[i] == m.body.value[i - k - |"\ndata: "|];
      }
    }
  }

  /** One frame is read back as the event that was sent. */
  lemma ParseBlock(m: Message, valid: string -> bool)
    requires Sendable(m, valid) && m.body.Some?
    ensures Parsed(Block(m.event, m.body.value), valid) == Some(Frame(m.event, m.body.value))
  {
    var l1, l2 := "event: " + m.event, "data: " + m.body.value;
    assert Block(m.event, m.body.value) == l1 + ['\n'] + l2;
    assert "\n" == ['\n'];
    SplitPiece(l1, '\n', l2);
    SplitPiece(l2, '\n', "");
    var start := Frame("message", "");
    assert Split(Block(m.event, m.body.value), "\n") == [l1] + [l2];
    ScanEvent(m.event, [l2], start);
    ScanData(m.body.value, [], start.(event := m.event));
    assert [l2] + [] == [l2];
    assert "" + m.body.value == m.body.value;
    assert Scanned([l1] + [l2], start) == Frame(m.event, m.body.value);
  }

  lemma ScanEvent(event: string, rest: seq<string>, f: Frame)
    requires Trimmed(event)
    ensures Scanned(["event: " + event] + rest, f) == Scanned(rest, f.(event := event))
  {
    var line := "event: " + event;
    assert line[6..] == " " + event;
    TrimAfterSpace(event);
    assert ([line] + rest)[1..] == rest;
  }

  lemma ScanData(data: string, rest: seq<string>, f: Frame)
    requires Trimmed(data)
    ensures Scanned(["data: " + data] + rest, f) == Scanned(rest, f.(data := f.data + data))
  {
    var line := "data: " + data;
    assert line[5..] == " " + data && line[0] == 'd';
    TrimAfterSpace(data);
    assert ([line] + rest)[1..] == rest;
  }

  lemma TrimAfterSpace(s: string)
    requires Trimmed(s)
    ensures Trim(" " + s) == s
  {
    assert (" " + s)[1..] == s;
    TrimOfTrimmed(s);
  }

  /** Everything the reader cuts off the first part of the stream. */
  lemma {:induction false} SplitBytes(ms: seq<Message>, tail: string, valid: string -> bool)
    requires forall m | m in ms :: m.body.Some? && Sendable(m, valid)
    requires NoBreak(tail)
    ensures ParsedAll(DropLast(Split(Bytes(ms) + tail, BREAK)), valid) == Delivered(ms)
  {
    if ms == [] {
      SplitOpen(tail);
      assert Bytes(ms) + tail == tail;
    } else {
      var b := Block(ms[0].event, ms[0].body.value);
      var rest := Bytes(ms[1..]) + tail;
      assert Bytes(ms) + tail == b + BREAK + rest;
      BlockHasNoBreak(ms[0], valid);
      SplitBlock(b, rest);
      SplitBytes(ms[1..], tail, valid);
      ParseBlock(ms[0], valid);
      assert DropLast([b] + Split(rest, BREAK)) == [b] + DropLast(Split(rest, BREAK));
    }
  }

  /** What goes over the wire is the whole frames of the messages that fit, then at most a piece
      of one more frame that never closes. */
  lemma {:induction false} WireBytes(w: Wire, ms: seq<Message>, valid: string -> bool) returns (tail: string)
    requires !w.broken && forall m | m in ms :: Sendable(m, valid)
    ensures NoBreak(tail)
    ensures SentAll(w, ms).bytes == w.bytes + Bytes(ms[..Fit(ms, w.room)]) + tail
    decreases |ms|
  {
    if ms == [] {
      tail := "";
    } else if ms[0].body.None? || |FrameText(ms[0])| > w.room {
      tail := WireCut(w, ms[0], valid);
      SentBroken(Sent(w, ms[0]), ms[1..]);
      assert Bytes(ms[..0]) == "";
    } else {
      var m, rest := ms[0], ms[1..];
      assert ms == [m] + rest;
      var w' := Sent(w, m);
      tail := WireBytes(w', rest, valid);
      WireMore(w, m, rest, Fit(rest, w'.room), tail);
    }
  }

  lemma WireMore(w: Wire, m: Message, rest: seq<Message>, n: nat, tail: string)
    requires !w.broken && m.body.Some? && |FrameText(m)| <= w.room && n <= |rest|
    requires SentAll(Sent(w, m), rest).bytes == (Sent(w, m).bytes + Bytes(rest[..n])) + tail
    ensures SentAll(w, [m] + rest).bytes == w.bytes + Bytes(([m] + rest)[..n + 1]) + tail
  {
    var f := FrameText(m);
    hide FrameText;
    SentAllCons(w, m, rest);
    BytesCons(m, rest[..n]);
    hide *;
    assert ([m] + rest)[..n + 1] == [m] + rest[..n];
    Assoc(w.bytes, f, Bytes(rest[..n]));
  }

  lemma SentAllCons(w: Wire, m: Message, rest: seq<Message>)
    ensures SentAll(w, [m] + rest) == SentAll(Sent(w, m), rest)
  {
    assert ([m] + rest)[1..] == rest;
  }

  lemma BytesCons(m: Message, rest: seq<Message>)
    ensures Bytes([m] + rest) == FrameText(m) + Bytes(rest)
  {
    assert ([m] + rest)[1..] == rest;
  }

  /** A first message that does not go through whole leaves a piece that never closes. */
  lemma WireCut(w: Wire, m: Message, valid: string -> bool) returns (tail: string)
    requires Sendable(m, valid) && !w.broken
    requires m.body.None? || |FrameText(m)| > w.room
    ensures NoBreak(tail) && Sent(w, m).broken
    ensures Sent(w, m).bytes == w.bytes + tail
  {
    if m.body.None? {
      return "";
    }
    BlockHasNoBreak(m, valid);
    var open := Block(m.event, m.body.value) + "\n";
    assert FrameText(m) == open + "\n";
    tail := open[..w.room];
  }

  lemma SentBroken(w: Wire, ms: seq<Message>)
    requires w.broken
    ensures SentAll(w, ms) == w
  {
  }

  lemma FitIs(ms: seq<Message>, n: nat, room: nat)
    requires Arrive(ms, n, room) && !Arrive(ms, n + 1, room)
    ensures n == Fit(ms, room)
    ensures forall m | m in ms[..n] :: m in ms && m.body.Some?
  {
    ArriveIffFit(ms, n, room);
    ArriveIffFit(ms, n + 1, room);
  }

  /** The round trip. For every list of messages, every byte at which the connection stops taking
      data and every way the network divides what it took, the reader yields the first `n`
      messages and nothing else, where `n` is the longest run of leading messages whose frames
      went through whole. */
  lemma RoundTrip(ms: seq<Message>, room: nat, chunks: seq<string>, n: nat, valid: string -> bool)
    requires forall m | m in ms :: Sendable(m, valid)
    requires Flat(chunks) == SentAll(Wire("", room, false), ms).bytes
    requires n <= |ms| && Arrive(ms, n, room) && !Arrive(ms, n + 1, room)
    ensures ParsedAll(DropLast(Split(Flat(chunks), BREAK)), valid) == Delivered(ms[..n])
  {
    hide *;
    FitIs(ms, n, room);
    var tail := WireBytes(Wire("", room, false), ms, valid);
    var sent := Bytes(ms[..n]);
    assert "" + sent == sent;
    assert Flat(chunks) == sent + tail;
    SplitBytes(ms[..n], tail, valid);
  }
}

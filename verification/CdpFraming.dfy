/**
 The NUL-framed byte stream from Chrome. The bridge keeps an unfinished frame in
 a buffer and drains it chunk by chunk; the reference splits the whole stream at
 its NUL bytes.
 */
module CdpFraming {
  import opened Basics
  import opened CdpBridgeModel

  /** The bridge's transition state together with the bytes of an unfinished frame. */
  datatype Pipe = Pipe(core: Core, buffer: seq<Byte>)

  /** Buffer.indexOf(0), with the length standing for "not found". */
  function FirstNul(b: seq<Byte>): (i: nat)
    ensures i <= |b| && (i < |b| ==> b[i] == 0)
    ensures forall j :: 0 <= j < i ==> b[j] != 0
  {
    if b == [] || b[0] == 0 then 0 else 1 + FirstNul(b[1..])
  }

  /** parseMessage and #route; a frame that does not parse ends the bridge. */
  function Consume(k: Codec, s: Core, frame: seq<Byte>): (r: Core)
    ensures s.views.Keys <= r.views.Keys
  {
    var m := k.decode(frame);
    if m.None? then Close(s) else Route(k, s, m.value)
  }

  /** The loop of #read. Ending the bridge empties the buffer. */
  function Drain(k: Codec, s: Core, buffer: seq<Byte>): (r: Pipe)
    ensures s.views.Keys <= r.core.views.Keys
    ensures r.core.closed ==> r.buffer == []
    decreases |buffer|
  {
    if s.closed then Pipe(s, []) else
      var i := FirstNul(buffer);
      if i > MAX_MESSAGE_BYTES then Pipe(Close(s), [])
      else if i == |buffer| then Pipe(s, buffer)
      else Drain(k, if i == 0 then s else Consume(k, s, buffer[..i]), buffer[i + 1..])
  }

  /** #read. */
  function Read(k: Codec, p: Pipe, chunk: seq<Byte>): (r: Pipe)
    ensures p.core.views.Keys <= r.core.views.Keys
  {
    if p.core.closed then p else Drain(k, p.core, p.buffer + chunk)
  }

  function ReadAll(k: Codec, p: Pipe, chunks: seq<seq<Byte>>): (r: Pipe)
    decreases |chunks|
  {
    if chunks == [] then p else ReadAll(k, Read(k, p, chunks[0]), chunks[1..])
  }

  function Concat(chunks: seq<seq<Byte>>): seq<Byte> {
    if chunks == [] then [] else chunks[0] + Concat(chunks[1..])
  }

  // ---- Chunk independence ----

  lemma FirstNulAppend(x: seq<Byte>, y: seq<Byte>)
    ensures FirstNul(x) < |x| ==> FirstNul(x + y) == FirstNul(x)
    ensures FirstNul(x) == |x| ==> FirstNul(x + y) == |x| + FirstNul(y)
  {
    var i := FirstNul(x);
    assert forall t :: 0 <= t < |x| ==> (x + y)[t] == x[t];
    assert forall t :: |x| <= t < |x + y| ==> (x + y)[t] == y[t - |x|];
    if i == |x| && FirstNul(y) < |y| {
      assert (x + y)[|x| + FirstNul(y)] == 0;
    }
  }

  /** Draining a longer buffer is draining its front and then the rest. */
  lemma {:induction false} DrainAppend(k: Codec, s: Core, x: seq<Byte>, y: seq<Byte>)
    ensures Drain(k, s, x + y) == Read(k, Drain(k, s, x), y)
    decreases |x|
  {
    hide Consume;
    if !s.closed {
      FirstNulAppend(x, y);
      var i := FirstNul(x);
      if i < |x| && i <= MAX_MESSAGE_BYTES {
        assert (x + y)[..i] == x[..i];
        assert (x + y)[i + 1..] == x[i + 1..] + y;
        DrainAppend(k, if i == 0 then s else Consume(k, s, x[..i]), x[i + 1..], y);
      }
    }
  }

  lemma ReadAppend(k: Codec, p: Pipe, x: seq<Byte>, y: seq<Byte>)
    ensures Read(k, p, x + y) == Read(k, Read(k, p, x), y)
  {
    if !p.core.closed {
      assert p.buffer + (x + y) == (p.buffer + x) + y;
      DrainAppend(k, p.core, p.buffer + x, y);
    }
  }

  /**
   However a stream is cut into chunks, the bridge ends in the same state: the same
   messages delivered in the same order, the same failure, the same unfinished frame.
   */
  lemma {:induction false} ChunkIndependence(k: Codec, p: Pipe, chunks: seq<seq<Byte>>)
    requires chunks != []
    ensures ReadAll(k, p, chunks) == Read(k, p, Concat(chunks))
    decreases |chunks|
  {
    var rest := Concat(chunks[1..]);
    ReadAppend(k, p, chunks[0], rest);
    if |chunks| == 1 {
      assert rest == [];
      assert chunks[0] + rest == chunks[0];
    } else {
      ChunkIndependence(k, Read(k, p, chunks[0]), chunks[1..]);
    }
  }

  // ---- The reference: split the whole stream ----

  /** The stream between its NUL bytes; the last part is not terminated. */
  function Split(b: seq<Byte>): (parts: seq<seq<Byte>>)
    ensures |parts| > 0
    decreases |b|
  {
    var i := FirstNul(b);
    if i == |b| then [b] else [b[..i]] + Split(b[i + 1..])
  }

  /** The inverse: parts with a NUL between each two. */
  function Join(parts: seq<seq<Byte>>): seq<Byte>
    requires |parts| > 0
  {
    if |parts| == 1 then parts[0] else parts[0] + [0] + Join(parts[1..])
  }

  predicate NulFree(b: seq<Byte>) {
    0 !in b
  }

  lemma {:induction false} SplitJoin(b: seq<Byte>)
    ensures Join(Split(b)) == b
    ensures forall p :: p in Split(b) ==> NulFree(p)
    decreases |b|
  {
    var i := FirstNul(b);
    if i < |b| {
      SplitJoin(b[i + 1..]);
      assert Split(b)[1..] == Split(b[i + 1..]);
      assert b == b[..i] + [0] + b[i + 1..];
    }
  }

  lemma FirstNulOf(x: seq<Byte>, y: seq<Byte>)
    requires NulFree(x)
    ensures FirstNul(x) == |x|
    ensures FirstNul(x + [0] + y) == |x|
  {
    forall t | 0 <= t < |x|
      ensures x[t] != 0
    {
      assert x[t] in x;
    }
    FirstNulAppend(x, [0] + y);
    assert x + [0] + y == x + ([0] + y);
  }

  lemma SplitFirst(x: seq<Byte>, rest: seq<Byte>)
    requires NulFree(x)
    ensures Split(x + [0] + rest) == [x] + Split(rest)
  {
    FirstNulOf(x, rest);
    var b := x + [0] + rest;
    assert b[..|x|] == x && b[|x| + 1..] == rest;
  }

  lemma {:induction false} JoinSplit(parts: seq<seq<Byte>>)
    requires |parts| > 0 && forall p :: p in parts ==> NulFree(p)
    ensures Split(Join(parts)) == parts
    decreases |parts|
  {
    if |parts| == 1 {
      FirstNulOf(parts[0], []);
    } else {
      SplitFirst(parts[0], Join(parts[1..]));
      JoinSplit(parts[1..]);
      assert parts == [parts[0]] + parts[1..];
    }
  }

  /** Process the parts of a whole stream one after the other; the last one stays in the buffer. */
  function Process(k: Codec, s: Core, parts: seq<seq<Byte>>): (r: Pipe)
    requires |parts| > 0
    decreases |parts|
  {
    if s.closed then Pipe(s, [])
    else if |parts[0]| > MAX_MESSAGE_BYTES then Pipe(Close(s), [])
    else if |parts| == 1 then Pipe(s, parts[0])
    else Process(k, if parts[0] == [] then s else Consume(k, s, parts[0]), parts[1..])
  }

  lemma {:induction false} DrainIsProcess(k: Codec, s: Core, b: seq<Byte>)
    ensures Drain(k, s, b) == Process(k, s, Split(b))
    decreases |b|
  {
    hide Consume, Close;
    var i := FirstNul(b);
    if i < |b| {
      var parts, rest := Split(b), Split(b[i + 1..]);
      assert parts == [b[..i]] + rest && parts[1..] == rest;
      DrainIsProcess(k, if i == 0 then s else Consume(k, s, b[..i]), b[i + 1..]);
    }
  }

  /**
   Reading a stream in any chunks consumes exactly its nonempty NUL-terminated
   parts in order, and stops at the first part that is oversized or invalid.
   */
  lemma FramesOfStream(k: Codec, s: Core, chunks: seq<seq<Byte>>)
    requires !s.closed && chunks != []
    ensures ReadAll(k, Pipe(s, []), chunks) == Process(k, s, Split(Concat(chunks)))
  {
    ChunkIndependence(k, Pipe(s, []), chunks);
    assert [] + Concat(chunks) == Concat(chunks);
    DrainIsProcess(k, s, Concat(chunks));
  }

  // ---- Round trip ----

  /** The bytes #write puts on a pipe for one message. */
  function Framed(k: Codec, m: Message): seq<Byte> {
    k.encode(m) + [0]
  }

  function FramedAll(k: Codec, ms: seq<Message>): seq<Byte> {
    if ms == [] then [] else Framed(k, ms[0]) + FramedAll(k, ms[1..])
  }

  /** JSON text has no NUL byte, is never empty and parses back to its message; #write accepts it. */
  ghost predicate Writable(k: Codec, m: Message) {
    var text := k.encode(m);
    NulFree(text) && text != [] && k.decode(text) == Some(m) && |text| <= MAX_MESSAGE_BYTES
  }

  function RouteAll(k: Codec, s: Core, ms: seq<Message>): (r: Core)
    decreases |ms|
  {
    if ms == [] || s.closed then s else RouteAll(k, Route(k, s, ms[0]), ms[1..])
  }

  lemma {:induction false} DrainFramed(k: Codec, s: Core, ms: seq<Message>)
    requires forall m :: m in ms ==> Writable(k, m)
    ensures Drain(k, s, FramedAll(k, ms)) == Pipe(RouteAll(k, s, ms), [])
    decreases |ms|
  {
    if ms != [] && !s.closed {
      var text, rest := k.encode(ms[0]), FramedAll(k, ms[1..]);
      assert Writable(k, ms[0]);
      FirstNulOf(text, rest);
      var b := FramedAll(k, ms);
      assert b == text + [0] + rest;
      assert b[..|text|] == text && b[|text| + 1..] == rest;
      DrainFramed(k, Route(k, s, ms[0]), ms[1..]);
    }
  }

  /** Messages framed the way #write frames them come back as the same messages, in any chunks. */
  lemma WriteReadRoundTrip(k: Codec, s: Core, ms: seq<Message>, chunks: seq<seq<Byte>>)
    requires !s.closed && chunks != []
    requires forall m :: m in ms ==> Writable(k, m)
    requires Concat(chunks) == FramedAll(k, ms)
    ensures ReadAll(k, Pipe(s, []), chunks) == Pipe(RouteAll(k, s, ms), [])
  {
    ChunkIndependence(k, Pipe(s, []), chunks);
    assert [] + Concat(chunks) == Concat(chunks);
    DrainFramed(k, s, ms);
  }
}

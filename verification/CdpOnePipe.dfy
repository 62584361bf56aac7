/** A pipe to Chrome with a single client, knowing no other clients and no internal ids. */
module CdpOnePipe {
  import opened Basics
  import opened CdpBridgeModel

  /**
   The pipe speaks the client's own ids. It judges commands, filters events and
   gives up on a client that does not read, all from what it knows of that client.
   */
  datatype Private = Private(
    open: bool,
    doomed: bool,            // a command was refused and the client is about to be dropped
    browser: Option<string>,
    buffered: nat,           // the socket's unsent bytes
    outstanding: set<int>,
    sessions: set<string>)

  const HUNG := Private(false, false, None, 0, {}, {})

  /** What the pipe to Chrome makes of a valid command. */
  datatype Room = Taken | Full | TooLarge

  datatype Input =
    | Sent(input: Option<Message>, room: Room)  // a message of the client; `None` is an unreadable one
    | Flushed(bytes: nat)         // the socket took these bytes
    | Left                        // the client disconnects
    | Dismissed                   // the continuation of a refusal runs
    | Received(message: Message)  // Chrome sends a message, ids being the client's
    | Joined(session: string)     // the client's browser session is established
    | Lost(session: string)       // Chrome reports a session as someone else's, or as ended
    | PipeDown                    // the pipe to Chrome ends

  predicate PrivatelyRefused(v: Private, m: Message) {
    || !m.id.SafeId? || m.id.id < 0
    || !m.verb.Text?
    || m.sessionId.Malformed?
    || (m.sessionId.Text? && m.sessionId.value !in v.sessions)
    || m.id.id in v.outstanding
  }

  function PrivateSubmit(v: Private, input: Option<Message>, room: Room): Private {
    if input.None? || PrivatelyRefused(v, input.value) || room.Full? then v.(doomed := true)
    else v.(outstanding := v.outstanding + {input.value.id.id}, doomed := v.doomed || room.TooLarge?)
  }

  /** The client's own browser session is left out of what it receives; child sessions are named. */
  function Implied(m: Message, browser: Option<string>): Message {
    match browser
    case None => m
    case Some(sid) => if m.sessionId == Text(sid) then Message(m.id, m.verb, Absent, m.childId, m.resultSession, m.isError, m.body) else m
  }

  function PrivateSend(k: Codec, v: Private, m: Message): (Private, seq<Message>) {
    var output := Implied(m, v.browser);
    var n := |k.encode(output)|;
    if v.buffered + n > MAX_QUEUED_BYTES then (HUNG, []) else (v.(buffered := v.buffered + n), [output])
  }

  function PrivateReceive(k: Codec, v: Private, m: Message): (Private, seq<Message>) {
    match m.id
    case BadId => (HUNG, [])
    case SafeId(o) =>
      if o !in v.outstanding then (v, []) else
        PrivateSend(k, v.(outstanding := v.outstanding - {o}, sessions := Joining(v.sessions, m.resultSession)), m)
    case NoId =>
      if !m.sessionId.Text? || m.sessionId.value !in v.sessions then (v, []) else
        var (v1, out) := PrivateSend(k, v.(sessions := Arriving(v.sessions, m)), m);
        (v1.(sessions := Departing(v1.sessions, m)), out)
  }

  function Joining(sessions: set<string>, sid: Text): set<string> {
    if sid.Text? then sessions + {sid.value} else sessions
  }

  function Leaving(sessions: set<string>, sid: Text): set<string> {
    if sid.Text? then sessions - {sid.value} else sessions
  }

  function Arriving(sessions: set<string>, m: Message): set<string> {
    if m.verb == Text("Target.attachedToTarget") then Joining(sessions, m.childId) else sessions
  }

  function Departing(sessions: set<string>, m: Message): set<string> {
    if m.verb == Text("Target.detachedFromTarget") then Leaving(sessions, m.childId) else sessions
  }

  function PrivateStep(k: Codec, v: Private, i: Input): (Private, seq<Message>) {
    if !v.open then (v, []) else
      match i
      case Sent(input, room) => (PrivateSubmit(v, input, room), [])
      case Flushed(n) => (v.(buffered := if n <= v.buffered then v.buffered - n else 0), [])
      case Left => (HUNG, [])
      case Dismissed => (if v.doomed then HUNG else v, [])
      case Received(m) => PrivateReceive(k, v, m)
      case Joined(sid) => (v.(browser := Some(sid), sessions := v.sessions + {sid}), [])
      case Lost(sid) => (v.(sessions := v.sessions - {sid}), [])
      case PipeDown => (HUNG, [])
  }

  function PrivateRun(k: Codec, v: Private, inputs: seq<Input>): (Private, seq<Message>)
    decreases |inputs|
  {
    if inputs == [] then (v, []) else
      var (v1, out) := PrivateStep(k, v, inputs[0]);
      var (v2, more) := PrivateRun(k, v1, inputs[1..]);
      (v2, out + more)
  }

  lemma {:induction false} PrivateRunAppend(k: Codec, v: Private, x: seq<Input>, y: seq<Input>)
    ensures var a := PrivateRun(k, v, x); var b := PrivateRun(k, a.0, y);
            PrivateRun(k, v, x + y) == (b.0, a.1 + b.1)
    decreases |x|
  {
    hide PrivateStep;
    if x == [] {
      var b := PrivateRun(k, v, y);
      assert x + y == y && [] + b.1 == b.1;
    } else {
      var (v1, out) := PrivateStep(k, v, x[0]);
      assert (x + y)[0] == x[0] && (x + y)[1..] == x[1..] + y;
      PrivateRunAppend(k, v1, x[1..], y);
      var a := PrivateRun(k, v1, x[1..]);
      var b := PrivateRun(k, a.0, y);
      assert out + (a.1 + b.1) == (out + a.1) + b.1;
    }
  }

  lemma PrivateRunOne(k: Codec, v: Private, i: Input)
    ensures PrivateRun(k, v, [i]) == PrivateStep(k, v, i)
  {
    var (v1, out) := PrivateStep(k, v, i);
    assert [i][1..] == [] && out + [] == out;
  }
}

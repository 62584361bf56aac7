/**
 Sharing one pipe is invisible: each client observes what it would observe on a
 pipe of its own.
 */
module CdpPrivatePipes {
  import opened Basics
  import opened CdpBridgeModel
  import opened CdpFraming
  import opened CdpBridgeProofs
  import opened CdpOnePipe
  import opened CdpNonInterference

  // ---- A client's share of the bridge's events ----

  ghost function DownIf(s: Core, r: Core, c: Client): seq<Input> {
    if Closes(s, r, c) then [PipeDown] else []
  }

  /** The client a message from Chrome is for. */
  ghost predicate Addressed(s: Core, m: Message, c: Client) {
    match m.id
    case BadId => false
    case SafeId(id) => id in s.pending && IsOf(s.pending[id], c)
    case NoId => m.sessionId.Text? && m.sessionId.value in s.owners && s.owners[m.sessionId.value] == c
  }

  /** The same message with the client's own id. */
  ghost function Own(s: Core, m: Message): Message {
    if m.id.SafeId? && m.id.id in s.pending && s.pending[m.id.id].Command?
    then m.(id := SafeId(s.pending[m.id.id].originalId)) else m
  }

  /** The session a message hands to its addressee or ends. */
  ghost function Moved(s: Core, m: Message): Text {
    match m.id
    case BadId => Absent
    case SafeId(id) => if id in s.pending && s.pending[id].Command? then m.resultSession else Absent
    case NoId =>
      if m.sessionId.Text? && m.sessionId.value in s.owners &&
         (m.verb == Text("Target.attachedToTarget") || m.verb == Text("Target.detachedFromTarget"))
      then m.childId else Absent
  }

  ghost function LostIf(s: Core, sid: Text, c: Client): seq<Input> {
    if sid.Text? && sid.value in s.owners && s.owners[sid.value] == c then [Lost(sid.value)] else []
  }

  /** Everyone hears events, and every private pipe picks its own. */
  ghost function Heard(m: Message): seq<Input> {
    if m.id.NoId? then [Input.Received(m)] else []
  }

  /** What one message from Chrome means for one client. */
  ghost function RouteInputs(k: Codec, s: Core, m: Message, c: Client): seq<Input> {
    if ViewOf(s, c).closed then []
    else if m.id.BadId? || Addressed(s, m, c) then [Input.Received(Own(s, m))]
    else if Closes(s, Route(k, s, m), c) then [PipeDown]
    else Heard(m) + LostIf(s, Moved(s, m), c)
  }

  ghost function ConsumeInputs(k: Codec, s: Core, frame: seq<Byte>, c: Client): seq<Input> {
    var m := k.decode(frame);
    if m.None? then DownIf(s, Close(s), c) else RouteInputs(k, s, m.value, c)
  }

  ghost function DrainInputs(k: Codec, s: Core, buffer: seq<Byte>, c: Client): seq<Input>
    decreases |buffer|
  {
    if s.closed then [] else
      var i := FirstNul(buffer);
      if i > MAX_MESSAGE_BYTES then DownIf(s, Close(s), c)
      else if i == |buffer| then []
      else if i == 0 then DrainInputs(k, s, buffer[1..], c)
      else ConsumeInputs(k, s, buffer[..i], c) + DrainInputs(k, Consume(k, s, buffer[..i]), buffer[i + 1..], c)
  }

  /** The shared pipe's part in a command: its capacity, and nothing about the client. */
  ghost function RoomFor(k: Codec, s: Core, m: Message, browserId: string): Room {
    if !CanIssue(s) then Full
    else if Write(k, s, Outgoing(m, s.serial + 1, browserId)).1 then Taken
    else TooLarge
  }

  ghost function Submission(k: Codec, s: Core, c: Client, input: Option<Message>): Input
    requires ViewOf(s, c).browserId.Some?
  {
    Sent(input, if input.None? then Full else RoomFor(k, s, input.value, ViewOf(s, c).browserId.value))
  }

  /** What one event of the bridge means for one client. */
  ghost function StepInputs(k: Codec, p: Pipe, e: Event, c: Client): seq<Input>
    requires Enabled(p, e)
  {
    var s := p.core;
    if e.Chunk? then if s.closed then [] else DrainInputs(k, s, p.buffer + e.data, c)
    else if ViewOf(s, c).closed then []
    else if e == Dropped(c) then [Left]
    else if e.TaskRun? && s.tasks[0] == DropTask(c) then [Dismissed]
    else if Closes(s, Step(k, p, e).core, c) then [PipeDown]
    else if e.Received? && e.client == c then [Submission(k, s, c, e.input)]
    else if e.SocketSent? && e.client == c then [Flushed(e.bytes)]
    else if e.TaskRun? && s.tasks[0].AttachTask? && s.tasks[0].session.Text? && !ViewOf(s, s.tasks[0].client).closed then
      var t := s.tasks[0];
      if t.client == c then [Joined(t.session.value)] else LostIf(s, t.session, c)
    else []
  }

  // ---- Messages from Chrome ----

  lemma DeliveredAppend(log: seq<Delivery>, d: Delivery, c: Client)
    ensures DeliveredTo(log + [d], c) == DeliveredTo(log, c) + (if d.client == c then [d.message] else [])
  {
    assert (log + [d])[..|log|] == log;
  }

  /** A delivery to another client, or a refusal that drops it, is quiet. */
  lemma SendToOther(k: Codec, s: Core, d: Client, m: Message, internal: Option<int>, c: Client)
    requires Inv(s) && c in s.views && d in s.views && c != d
    ensures var r := Send(k, s, d, m, internal);
            && DeliveredTo(r.delivered, c) == DeliveredTo(s.delivered, c)
            && Quiet(s, r.(delivered := s.delivered), c)
  {
    hide InvExcept, Drop;
    var v := ViewOf(s, d);
    var output := Incoming(m, v.browserId);
    if v.closed {
    } else if v.buffered + |k.encode(output)| > MAX_QUEUED_BYTES {
      DropQuiet(k, s, d, c);
    } else {
      DeliveredAppend(s.delivered, Delivery(d, output, internal), c);
    }
  }

  /** A delivery to the client itself: it goes through, or the client is given up without it. */
  lemma SendToSelf(k: Codec, s: Core, m: Message, internal: Option<int>, c: Client)
    requires Inv(s) && c in s.views && !ViewOf(s, c).closed
    ensures var r := Send(k, s, c, m, internal);
            var (v, out) := PrivateSend(k, PrivateOf(s, c), m);
            && c in r.views && (s.closed ==> r.closed)
            && PrivateOf(r, c) == v && ViewOf(r, c).closed == !v.open
            && (v.open ==> r.owners == s.owners)
            && DeliveredTo(r.delivered, c) == DeliveredTo(s.delivered, c) + out
  {
    hide InvExcept, Drop;
    var v := ViewOf(s, c);
    var output := Incoming(m, v.browserId);
    assert DeliveredTo(s.delivered, c) + [] == DeliveredTo(s.delivered, c);
    if v.buffered + |k.encode(output)| > MAX_QUEUED_BYTES {
      DropSelf(k, s, c);
    } else {
      DeliveredAppend(s.delivered, Delivery(c, output, internal), c);
    }
  }

  /** One step seen by a client: its private pipe makes the same move and gives the same output. */
  ghost predicate Refines(k: Codec, s: Core, r: Core, inputs: seq<Input>, c: Client) {
    var (v, out) := PrivateRun(k, PrivateOf(s, c), inputs);
    && PrivateOf(r, c) == v
    && DeliveredTo(r.delivered, c) == DeliveredTo(s.delivered, c) + out
    && (s.closed ==> r.closed)
    && (PipeDown in inputs ==> r.closed && !s.closed)
  }

  lemma RefinesOne(k: Codec, s: Core, r: Core, i: Input, c: Client)
    requires PrivateOf(r, c) == PrivateStep(k, PrivateOf(s, c), i).0
    requires DeliveredTo(r.delivered, c) == DeliveredTo(s.delivered, c) + PrivateStep(k, PrivateOf(s, c), i).1
    requires (s.closed ==> r.closed) && (i.PipeDown? ==> r.closed && !s.closed)
    ensures Refines(k, s, r, [i], c)
  {
    PrivateRunOne(k, PrivateOf(s, c), i);
  }

  lemma RefinesNone(k: Codec, s: Core, r: Core, c: Client)
    requires PrivateOf(r, c) == PrivateOf(s, c) && DeliveredTo(r.delivered, c) == DeliveredTo(s.delivered, c)
    requires s.closed ==> r.closed
    ensures Refines(k, s, r, [], c)
  {
    assert DeliveredTo(s.delivered, c) + [] == DeliveredTo(s.delivered, c);
  }

  lemma RefinesTrans(k: Codec, s: Core, r: Core, t: Core, x: seq<Input>, y: seq<Input>, c: Client)
    requires Refines(k, s, r, x, c) && Refines(k, r, t, y, c)
    ensures Refines(k, s, t, x + y, c)
  {
    PrivateRunAppend(k, PrivateOf(s, c), x, y);
    var a := PrivateRun(k, PrivateOf(s, c), x);
    var b := PrivateRun(k, a.0, y);
    assert DeliveredTo(s.delivered, c) + a.1 + b.1 == DeliveredTo(s.delivered, c) + (a.1 + b.1);
  }

  lemma QuietStep(k: Codec, s: Core, r: Core, c: Client)
    requires Quiet(s, r, c)
    ensures Refines(k, s, r, DownIf(s, r, c), c)
  {
    PrivateRunOne(k, PrivateOf(s, c), PipeDown);
    assert DeliveredTo(s.delivered, c) + [] == DeliveredTo(s.delivered, c);
  }

  lemma ReplyToSelf(k: Codec, s: Core, m: Message, c: Client)
    requires Inv(s) && c in s.views && !ViewOf(s, c).closed
    requires m.id.SafeId? && Addressed(s, m, c)
    ensures Refines(k, s, Route(k, s, m), RouteInputs(k, s, m, c), c)
  {
    hide InvExcept, Send, Refines;
    var id, o := m.id.id, s.pending[m.id.id].originalId;
    var s1, own := Answer(s, id, m), m.(id := SafeId(o));
    InvCommand(s, id);
    AnswerKeeps(s, id, m);
    SendToSelf(k, s1, own, Some(id), c);
    assert Sessions(s1.owners, c) == Joining(Sessions(s.owners, c), m.resultSession);
    RefinesOne(k, s, Route(k, s, m), Input.Received(own), c);
  }

  lemma EventToSelf(k: Codec, s: Core, m: Message, c: Client)
    requires Inv(s) && c in s.views && !ViewOf(s, c).closed
    requires m.id.NoId? && Addressed(s, m, c)
    ensures Refines(k, s, Route(k, s, m), RouteInputs(k, s, m, c), c)
  {
    hide InvExcept, Send, Refines;
    var s1 := BeforeEvent(s, m, c);
    InvOwners(s);
    OwnersKeep(s, s1.owners);
    SessionsMove(s.owners, m, c);
    SendToSelf(k, s1, m, None, c);
    var s2 := Send(k, s1, c, m, None);
    SessionsMove(s2.owners, m, c);
    RefinesOne(k, s, Route(k, s, m), Input.Received(m), c);
  }

  lemma SessionsMove(owners: map<string, Client>, m: Message, c: Client)
    ensures Sessions(if m.verb == Text("Target.attachedToTarget") then Claim(owners, m.childId, c) else owners, c) ==
            Arriving(Sessions(owners, c), m)
    ensures Sessions(Unclaim(owners, m.childId), c) == Leaving(Sessions(owners, c), m.childId)
  {}

  /** Owner changes made for another client cost this one at most the session that moved. */
  lemma MovedAway(s: Core, owners: map<string, Client>, sid: Text, d: Client, c: Client)
    requires c != d && (owners == Claim(s.owners, sid, d) || owners == Unclaim(s.owners, sid))
    ensures Sessions(owners, c) == Leaving(Sessions(s.owners, c), sid)
    ensures LostIf(s, sid, c) == [] ==> Sessions(owners, c) == Sessions(s.owners, c)
  {}

  /** A reply to a call of the bridge, or to nothing in flight. */
  lemma ReplyToNobody(k: Codec, s: Core, m: Message, c: Client)
    requires c in s.views && !ViewOf(s, c).closed
    requires m.id.SafeId? && (m.id.id !in s.pending || s.pending[m.id.id].Call?)
    ensures RouteInputs(k, s, m, c) == []
    ensures Refines(k, s, Route(k, s, m), [], c)
  {
    hide Refines;
    RefinesNone(k, s, Route(k, s, m), c);
  }

  lemma ReplyToOther(k: Codec, s: Core, m: Message, c: Client)
    requires Inv(s) && c in s.views && !ViewOf(s, c).closed && !s.closed
    requires m.id.SafeId? && !Addressed(s, m, c)
    ensures Refines(k, s, Route(k, s, m), RouteInputs(k, s, m, c), c)
  {
    hide InvExcept, Refines, Send, Quiet, Reply;
    var id := m.id.id;
    if id !in s.pending || s.pending[id].Call? {
      ReplyToNobody(k, s, m, c);
    } else {
      var d, o := s.pending[id].client, s.pending[id].originalId;
      var s1 := Answer(s, id, m);
      InvCommand(s, id);
      AnswerKeeps(s, id, m);
      SendToOther(k, s1, d, m.(id := SafeId(o)), Some(id), c);
      MovedAway(s, s1.owners, m.resultSession, d, c);
      LosesOrNot(k, s, s1, Route(k, s, m), m.resultSession, c);
      assert Heard(m) + LostIf(s, m.resultSession, c) == LostIf(s, m.resultSession, c);
    }
  }

  lemma LosesOrNot(k: Codec, s: Core, s1: Core, r: Core, sid: Text, c: Client)
    requires c in s.views && !ViewOf(s, c).closed && ViewOf(s1, c) == ViewOf(s, c)
    requires s1.delivered == s.delivered && DeliveredTo(r.delivered, c) == DeliveredTo(s.delivered, c)
    requires s1.closed == s.closed && (DropTask(c) in s1.tasks <==> DropTask(c) in s.tasks)
    requires Sessions(s1.owners, c) == Leaving(Sessions(s.owners, c), sid)
    requires Quiet(s1, r.(delivered := s1.delivered), c)
    ensures Refines(k, s, r, if Closes(s, r, c) then [PipeDown] else LostIf(s, sid, c), c)
  {
    hide Refines;
    if Closes(s, r, c) {
      RefinesOne(k, s, r, PipeDown, c);
    } else if LostIf(s, sid, c) != [] {
      RefinesOne(k, s, r, Lost(sid.value), c);
    } else {
      RefinesNone(k, s, r, c);
    }
  }

  /** An event of a session that is not the client's is overheard and ignored. */
  lemma Overhears(k: Codec, s: Core, r: Core, m: Message, lost: seq<Input>, c: Client)
    requires m.id.NoId? && !Addressed(s, m, c) && !ViewOf(s, c).closed
    requires Refines(k, s, r, if Closes(s, r, c) then [PipeDown] else lost, c)
    ensures Refines(k, s, r, if Closes(s, r, c) then [PipeDown] else Heard(m) + lost, c)
  {
    hide Refines;
    if !Closes(s, r, c) {
      assert DeliveredTo(s.delivered, c) + [] == DeliveredTo(s.delivered, c);
      RefinesOne(k, s, s, Input.Received(m), c);
      RefinesTrans(k, s, s, r, [Input.Received(m)], lost, c);
    }
  }

  lemma EventToOther(k: Codec, s: Core, m: Message, c: Client)
    requires Inv(s) && c in s.views && !ViewOf(s, c).closed && !s.closed
    requires m.id.NoId? && !Addressed(s, m, c)
    ensures Refines(k, s, Route(k, s, m), RouteInputs(k, s, m, c), c)
  {
    hide InvExcept, Refines;
    var r := Route(k, s, m);
    Overheard(k, s, m, c);
    Overhears(k, s, r, m, LostIf(s, Moved(s, m), c), c);
  }

  lemma Overheard(k: Codec, s: Core, m: Message, c: Client)
    requires Inv(s) && c in s.views && !ViewOf(s, c).closed && !s.closed
    requires m.id.NoId? && !Addressed(s, m, c)
    ensures var r := Route(k, s, m);
            Refines(k, s, r, if Closes(s, r, c) then [PipeDown] else LostIf(s, Moved(s, m), c), c)
  {
    hide InvExcept, Refines;
    if !m.sessionId.Text? || m.sessionId.value !in s.owners {
      RefinesNone(k, s, Route(k, s, m), c);
    } else {
      var d := s.owners[m.sessionId.value];
      var s1 := BeforeEvent(s, m, d);
      InvOwners(s);
      OwnersKeep(s, s1.owners);
      SendToOther(k, s1, d, m, None, c);
      var s2 := Send(k, s1, d, m, None);
      var r := AfterEvent(s2, m);
      if m.verb == Text("Target.detachedFromTarget") {
        assert s1 == s;
        DetachedFromOther(k, s, s2, r, m.childId, d, c);
      } else {
        if m.verb == Text("Target.attachedToTarget") {
          MovedAway(s, s1.owners, m.childId, d, c);
          LosesOrNot(k, s, s1, r, m.childId, c);
        } else {
          LosesOrNot(k, s, s1, r, Absent, c);
        }
      }
    }
  }

  lemma DetachedFromOther(k: Codec, s: Core, s2: Core, r: Core, sid: Text, d: Client, c: Client)
    requires c in s.views && !ViewOf(s, c).closed && c != d
    requires DeliveredTo(s2.delivered, c) == DeliveredTo(s.delivered, c)
    requires Quiet(s, s2.(delivered := s.delivered), c)
    requires r == s2.(owners := Unclaim(s2.owners, sid))
    ensures Refines(k, s, r, if Closes(s, r, c) then [PipeDown] else LostIf(s, sid, c), c)
  {
    hide Refines;
    MovedAway(s2, r.owners, sid, d, c);
    if Closes(s, r, c) {
      RefinesOne(k, s, r, PipeDown, c);
    } else {
      assert forall t :: t in Sessions(s2.owners, c) <==> t in Sessions(s.owners, c);
      if LostIf(s, sid, c) != [] {
        assert sid.value in Sessions(s.owners, c);
        RefinesOne(k, s, r, Lost(sid.value), c);
      } else {
        assert sid.Text? ==> sid.value !in Sessions(s.owners, c);
        RefinesNone(k, s, r, c);
      }
    }
  }

  /** A message from Chrome does to each client what it would do on the client's own pipe. */
  lemma RouteRefines(k: Codec, s: Core, m: Message, c: Client)
    requires Inv(s) && c in s.views && !s.closed
    ensures Refines(k, s, Route(k, s, m), RouteInputs(k, s, m, c), c)
  {
    hide InvExcept, Refines;
    if ViewOf(s, c).closed {
      ClosedStays(k, s, m, c);
      RefinesNone(k, s, Route(k, s, m), c);
    } else if m.id.BadId? {
      InvOwners(s);
      CloseQuiet(s, c, {});
      assert ViewOf(Close(s), c).closed;
      assert DeliveredTo(s.delivered, c) + [] == DeliveredTo(s.delivered, c);
      RefinesOne(k, s, Close(s), Input.Received(m), c);
    } else if m.id.SafeId? {
      if Addressed(s, m, c) { ReplyToSelf(k, s, m, c); } else { ReplyToOther(k, s, m, c); }
    } else {
      if Addressed(s, m, c) { EventToSelf(k, s, m, c); } else { EventToOther(k, s, m, c); }
    }
  }

  lemma ClosedStays(k: Codec, s: Core, m: Message, c: Client)
    requires Inv(s) && c in s.views && ViewOf(s, c).closed
    ensures var r := Route(k, s, m);
            ViewOf(r, c).closed && DeliveredTo(r.delivered, c) == DeliveredTo(s.delivered, c)
  {
    hide InvExcept;
    InvOwners(s);
    match m.id
    case BadId => CloseQuiet(s, c, {});
    case SafeId(id) =>
      if id in s.pending && s.pending[id].Command? {
        var s1, d, own := Answer(s, id, m), s.pending[id].client, m.(id := SafeId(s.pending[id].originalId));
        InvCommand(s, id);
        AnswerKeeps(s, id, m);
        SendToOther(k, s1, d, own, Some(id), c);
        assert Route(k, s, m) == Send(k, s1, d, own, Some(id));
      } else {
        assert ViewOf(Route(k, s, m), c) == ViewOf(s, c);
      }
    case NoId =>
      if m.sessionId.Text? && m.sessionId.value in s.owners {
        var d := s.owners[m.sessionId.value];
        var s1 := BeforeEvent(s, m, d);
        OwnersKeep(s, s1.owners);
        SendToOther(k, s1, d, m, None, c);
        assert Route(k, s, m) == AfterEvent(Send(k, s1, d, m, None), m);
      }
  }

  lemma ConsumeRefines(k: Codec, s: Core, frame: seq<Byte>, c: Client)
    requires Inv(s) && c in s.views && !s.closed
    ensures Inv(Consume(k, s, frame))
    ensures Refines(k, s, Consume(k, s, frame), ConsumeInputs(k, s, frame, c), c)
  {
    hide InvExcept, Refines, Route, RouteInputs;
    if k.decode(frame).Some? {
      RouteKeeps(k, s, k.decode(frame).value);
      RouteRefines(k, s, k.decode(frame).value, c);
    } else {
      CloseRefines(k, s, c);
    }
  }

  lemma CloseRefines(k: Codec, s: Core, c: Client)
    requires Inv(s) && c in s.views
    ensures Inv(Close(s)) && Refines(k, s, Close(s), DownIf(s, Close(s), c), c)
  {
    CloseKeeps(s, {});
    CloseQuiet(s, c, {});
    QuietStep(k, s, Close(s), c);
  }

  lemma {:induction false} DrainRefines(k: Codec, s: Core, buffer: seq<Byte>, c: Client)
    requires Inv(s) && c in s.views
    ensures Refines(k, s, Drain(k, s, buffer).core, DrainInputs(k, s, buffer, c), c)
    decreases |buffer|
  {
    hide InvExcept, Refines, ConsumeInputs;
    var i := FirstNul(buffer);
    if s.closed || (i == |buffer| && i <= MAX_MESSAGE_BYTES) {
      RefinesNone(k, s, s, c);
    } else if i > MAX_MESSAGE_BYTES {
      CloseRefines(k, s, c);
    } else if i == 0 {
      DrainRefines(k, s, buffer[1..], c);
    } else {
      var frame, rest := buffer[..i], buffer[i + 1..];
      var r := Consume(k, s, frame);
      ConsumeRefines(k, s, frame, c);
      DrainRefines(k, r, rest, c);
      RefinesTrans(k, s, r, Drain(k, r, rest).core, ConsumeInputs(k, s, frame, c), DrainInputs(k, r, rest, c), c);
    }
  }

  // ---- Every event, every run ----

  /** The bridge and the private pipe refuse the same commands. */
  lemma RefusedPrivately(s: Core, c: Client, m: Message)
    requires !ViewOf(s, c).closed
    ensures Refused(s, c, m) <==> PrivatelyRefused(PrivateOf(s, c), m)
  {}

  lemma SubmitRefines(k: Codec, s: Core, c: Client, input: Option<Message>)
    requires Inv(s) && c in s.views && ViewOf(s, c).browserId.Some? && !ViewOf(s, c).closed
    ensures var r := Submit(k, s, c, input);
            Refines(k, s, r, if Closes(s, r, c) then [PipeDown] else [Submission(k, s, c, input)], c)
  {
    hide InvExcept, Refines, Refused, PrivatelyRefused;
    assert DeliveredTo(s.delivered, c) + [] == DeliveredTo(s.delivered, c);
    if input.Some? {
      RefusedPrivately(s, c, input.value);
    }
    if input.None? || Refused(s, c, input.value) || !CanIssue(s) {
      RefinesOne(k, s, Later(s, DropTask(c)), Submission(k, s, c, input), c);
    } else {
      AcceptedRefines(k, s, c, input.value);
    }
  }

  lemma AcceptedRefines(k: Codec, s: Core, c: Client, m: Message)
    requires Inv(s) && c in s.views && ViewOf(s, c).browserId.Some? && !ViewOf(s, c).closed
    requires !Refused(s, c, m) && CanIssue(s)
    ensures var r := Submit(k, s, c, Some(m));
            Refines(k, s, r, if Closes(s, r, c) then [PipeDown] else [Submission(k, s, c, Some(m))], c)
  {
    hide InvExcept, Refines, PrivateOf, Closes, Refused, Write, Register, CanIssue;
    var r := Submit(k, s, c, Some(m));
    AcceptedGoesOn(k, s, c, m);
    if Closes(s, r, c) {
      ClosesRefines(k, s, r, c);
    } else {
      RefinesOne(k, s, r, Submission(k, s, c, Some(m)), c);
    }
  }

  lemma ClosesRefines(k: Codec, s: Core, r: Core, c: Client)
    requires Closes(s, r, c) && r.delivered == s.delivered && r.closed && !s.closed
    ensures Refines(k, s, r, [PipeDown], c)
  {
    hide Refines;
    assert DeliveredTo(s.delivered, c) + [] == DeliveredTo(s.delivered, c);
    RefinesOne(k, s, r, PipeDown, c);
  }

  lemma AcceptedGoesOn(k: Codec, s: Core, c: Client, m: Message)
    requires Inv(s) && c in s.views && ViewOf(s, c).browserId.Some? && !ViewOf(s, c).closed
    requires !Refused(s, c, m) && CanIssue(s)
    ensures var r := Submit(k, s, c, Some(m));
            && r.delivered == s.delivered && (s.closed ==> r.closed)
            && DeliveredTo(r.delivered, c) == DeliveredTo(s.delivered, c) + []
            && (Closes(s, r, c) ==> r.closed && !s.closed)
            && (!Closes(s, r, c) ==> PrivateStep(k, PrivateOf(s, c), Submission(k, s, c, Some(m))) == (PrivateOf(r, c), []))
  {
    hide InvExcept, DeliveredTo;
    var s1 := Register(s, c, m.id.id);
    var out := Outgoing(m, s1.serial, ViewOf(s, c).browserId.value);
    RegisterKeeps(s, c, m.id.id);
    RegisteredWriteQuiet(k, s1, out, c);
    RefusedPrivately(s, c, m);
    assert DeliveredTo(s.delivered, c) + [] == DeliveredTo(s.delivered, c);
  }

  lemma AttachRefines(k: Codec, s: Core, d: Client, session: string, c: Client)
    requires Inv(s) && c in s.views && d in s.views && !ViewOf(s, d).closed && !ViewOf(s, c).closed
    ensures Refines(k, s, Attached(s, d, session),
                    if c == d then [Joined(session)] else LostIf(s, Text(session), c), c)
  {
    hide InvExcept, Refines;
    var r := Attached(s, d, session);
    if c == d {
      assert Sessions(r.owners, c) == Sessions(s.owners, c) + {session};
      assert DeliveredTo(s.delivered, c) + [] == DeliveredTo(s.delivered, c);
      RefinesOne(k, s, r, Joined(session), c);
    } else {
      MovedAway(s, r.owners, Text(session), d, c);
      LosesOrNot(k, s, r, r, Text(session), c);
    }
  }

  /** The continuation of the client's own refusal. */
  lemma DismissedRefines(k: Codec, s: Core, c: Client)
    requires Inv(s) && c in s.views && s.tasks != [] && s.tasks[0] == DropTask(c) && !ViewOf(s, c).closed
    ensures Refines(k, s, RunTask(k, s), [Dismissed], c)
  {
    hide InvExcept, Refines, Drop;
    NextTask(s);
    DropSelf(k, s.(tasks := s.tasks[1..]), c);
    assert DeliveredTo(s.delivered, c) + [] == DeliveredTo(s.delivered, c);
    RefinesOne(k, s, RunTask(k, s), Dismissed, c);
  }

  lemma LeftRefines(k: Codec, s: Core, c: Client)
    requires Inv(s) && c in s.views && !ViewOf(s, c).closed
    ensures Refines(k, s, Drop(k, s, c), [Left], c)
  {
    hide InvExcept, Refines, Drop;
    DropSelf(k, s, c);
    assert DeliveredTo(s.delivered, c) + [] == DeliveredTo(s.delivered, c);
    RefinesOne(k, s, Drop(k, s, c), Left, c);
  }

  lemma FlushedRefines(k: Codec, s: Core, n: nat, c: Client)
    requires c in s.views && !ViewOf(s, c).closed && n <= ViewOf(s, c).buffered
    ensures var r := s.(views := s.views[c := ViewOf(s, c).(buffered := ViewOf(s, c).buffered - n)]);
            !ViewOf(r, c).closed && Refines(k, s, r, [Flushed(n)], c)
  {
    hide Refines;
    var r := s.(views := s.views[c := ViewOf(s, c).(buffered := ViewOf(s, c).buffered - n)]);
    assert DeliveredTo(s.delivered, c) + [] == DeliveredTo(s.delivered, c);
    RefinesOne(k, s, r, Flushed(n), c);
  }

  /** A continuation that is not the client's own refusal. */
  lemma TaskQuiet(k: Codec, s: Core, c: Client)
    requires Inv(s) && c in s.views && s.tasks != [] && s.tasks[0] != DropTask(c)
    requires var t := s.tasks[0]; !(t.AttachTask? && t.session.Text? && !ViewOf(s, t.client).closed)
    ensures Quiet(s, RunTask(k, s), c)
  {
    hide InvExcept, Quiet, Drop, DetachClient, Attached, Close;
    var s0, r, t := s.(tasks := s.tasks[1..]), RunTask(k, s), s.tasks[0];
    NextTask(s);
    InvTask(s);
    InvOwners(s0);
    NextTaskQuiet(s, c);
    match t {
      case FailTask => CloseQuiet(s0, c, {});
      case DropTask(d) => DropQuiet(k, s0, d, c);
      case AttachTask(d, session) =>
        if session.Text? {
          AttachedClosed(k, s0, d, session.value, c);
        } else {
          LaterQuiet(s0, FailTask, c);
        }
    }
    QuietTrans(s, s0, r, c);
  }

  lemma AttachTaskRefines(k: Codec, s: Core, c: Client)
    requires Inv(s) && c in s.views && !ViewOf(s, c).closed && s.tasks != []
    requires var t := s.tasks[0]; t.AttachTask? && t.session.Text? && !ViewOf(s, t.client).closed
    ensures var t, r := s.tasks[0], RunTask(k, s);
            && !Closes(s, r, c)
            && Refines(k, s, r, if t.client == c then [Joined(t.session.value)] else LostIf(s, t.session, c), c)
  {
    hide InvExcept, Refines, Quiet;
    var s0, t := s.(tasks := s.tasks[1..]), s.tasks[0];
    NextTask(s);
    InvTask(s);
    NextTaskQuiet(s, c);
    QuietStep(k, s, s0, c);
    AttachRefines(k, s0, t.client, t.session.value, c);
    var inputs := if t.client == c then [Joined(t.session.value)] else LostIf(s, t.session, c);
    RefinesTrans(k, s, s0, RunTask(k, s), [], inputs, c);
    assert [] + inputs == inputs;
  }

  lemma TaskRefines(k: Codec, p: Pipe, c: Client)
    requires Inv(p.core) && Enabled(p, TaskRun) && c in p.core.views
    ensures Refines(k, p.core, Step(k, p, TaskRun).core, StepInputs(k, p, TaskRun, c), c)
  {
    hide InvExcept, Refines, RunTask, Quiet;
    var s := p.core;
    var t := s.tasks[0];
    if ViewOf(s, c).closed {
      ClosedTask(k, s, c);
      RefinesNone(k, s, RunTask(k, s), c);
    } else if t == DropTask(c) {
      DismissedRefines(k, s, c);
    } else if t.AttachTask? && t.session.Text? && !ViewOf(s, t.client).closed {
      AttachTaskRefines(k, s, c);
    } else {
      TaskQuiet(k, s, c);
      QuietStep(k, s, RunTask(k, s), c);
    }
  }

  lemma ClosedTask(k: Codec, s: Core, c: Client)
    requires Inv(s) && c in s.views && ViewOf(s, c).closed && s.tasks != []
    ensures var r := RunTask(k, s);
            ViewOf(r, c).closed && r.delivered == s.delivered && (s.closed ==> r.closed)
  {
    hide InvExcept;
    var t := s.tasks[0];
    if !(t.AttachTask? && t.session.Text? && !ViewOf(s, t.client).closed) && t != DropTask(c) {
      TaskQuiet(k, s, c);
    }
  }

  lemma AttachedClosed(k: Codec, s: Core, d: Client, session: string, c: Client)
    requires Inv(s) && c in s.views && d in s.views && ViewOf(s, d).closed
    ensures Quiet(s, DetachClient(k, Attached(s, d, session), d), c)
  {
    hide InvExcept;
    var s1 := Attached(s, d, session);
    AttachedKeeps(s, d, session);
    assert Quiet(s, s1, c);
    DetachQuiet(k, s1, d, c);
    QuietTrans(s, s1, DetachClient(k, s1, d), c);
  }

  lemma ChunkRefines(k: Codec, p: Pipe, data: seq<Byte>, c: Client)
    requires Inv(p.core) && c in p.core.views
    ensures Refines(k, p.core, Read(k, p, data).core, StepInputs(k, p, Chunk(data), c), c)
  {
    hide InvExcept, Refines;
    if p.core.closed {
      RefinesNone(k, p.core, p.core, c);
    } else {
      DrainRefines(k, p.core, p.buffer + data, c);
    }
  }

  /** The client's own events, on a pipe that is still open. */
  lemma OwnRefines(k: Codec, p: Pipe, e: Event, c: Client)
    requires Inv(p.core) && Enabled(p, e) && c in p.core.views && !ViewOf(p.core, c).closed
    requires e.Received? || e.Dropped? || e.SocketSent?
    requires e.client == c
    ensures Refines(k, p.core, Step(k, p, e).core, StepInputs(k, p, e, c), c)
  {
    hide InvExcept, Refines, Submit, Drop;
    match e
    case Received(_, input) => SubmitRefines(k, p.core, c, input);
    case Dropped(_) => LeftRefines(k, p.core, c);
    case SocketSent(_, n) => FlushedRefines(k, p.core, n, c);
  }

  lemma ClosedOwnEvent(k: Codec, p: Pipe, e: Event, c: Client)
    requires Inv(p.core) && Enabled(p, e) && c in p.core.views && ViewOf(p.core, c).closed
    requires e.Received? || e.Dropped? || e.SocketSent?
    requires e.client == c
    ensures Refines(k, p.core, Step(k, p, e).core, StepInputs(k, p, e, c), c)
  {
    hide InvExcept, Refines;
    RefinesNone(k, p.core, Step(k, p, e).core, c);
  }

  lemma ForeignRefines(k: Codec, p: Pipe, e: Event, c: Client)
    requires Inv(p.core) && Enabled(p, e) && c in p.core.views && Foreign(p, e, c) && !e.TaskRun?
    ensures Refines(k, p.core, Step(k, p, e).core, StepInputs(k, p, e, c), c)
  {
    hide InvExcept, Refines, Step;
    ForeignQuiet(k, p, e, c);
    QuietStep(k, p.core, Step(k, p, e).core, c);
  }

  /** One event of the bridge is, for each client, that client's events on its own pipe. */
  lemma StepRefines(k: Codec, p: Pipe, e: Event, c: Client)
    requires Inv(p.core) && Enabled(p, e) && c in p.core.views
    ensures Refines(k, p.core, Step(k, p, e).core, StepInputs(k, p, e, c), c)
  {
    hide InvExcept, Refines, StepInputs;
    match e
    case Chunk(data) => ChunkRefines(k, p, data, c);
    case TaskRun => TaskRefines(k, p, c);
    case Ended => EndRefines(k, p, c);
    case Accepted(_) => ForeignRefines(k, p, e, c);
    case Asked(_) => ForeignRefines(k, p, e, c);
    case TimedOut(_) => ForeignRefines(k, p, e, c);
    case PipeSent(_) => ForeignRefines(k, p, e, c);
    case _ =>
      if e.client != c {
        ForeignRefines(k, p, e, c);
      } else if ViewOf(p.core, c).closed {
        ClosedOwnEvent(k, p, e, c);
      } else {
        OwnRefines(k, p, e, c);
      }
  }

  lemma EndRefines(k: Codec, p: Pipe, c: Client)
    requires Inv(p.core) && c in p.core.views
    ensures Refines(k, p.core, Step(k, p, Ended).core, StepInputs(k, p, Ended, c), c)
  {
    hide InvExcept, Refines;
    CloseRefines(k, p.core, c);
  }

  ghost function RunInputs(k: Codec, p: Pipe, run: seq<Event>, c: Client): seq<Input>
    requires Inv(p.core) && Possible(k, p, run)
    decreases |run|
  {
    if run == [] then [] else
      StepKeeps(k, p, run[0]);
      StepInputs(k, p, run[0], c) + RunInputs(k, Step(k, p, run[0]), run[1..], c)
  }

  lemma StepKnows(k: Codec, p: Pipe, e: Event, c: Client)
    requires Enabled(p, e) && c in p.core.views
    ensures c in Step(k, p, e).core.views
  {}

  lemma {:induction false} RunRefines(k: Codec, p: Pipe, run: seq<Event>, c: Client)
    requires Inv(p.core) && Possible(k, p, run) && c in p.core.views
    ensures Refines(k, p.core, Run(k, p, run).core, RunInputs(k, p, run, c), c)
    decreases |run|
  {
    hide InvExcept, Refines, StepInputs, Step, PrivateOf, PrivateRun;
    if run == [] {
      assert Run(k, p, run) == p && RunInputs(k, p, run, c) == [];
      RefinesNone(k, p.core, p.core, c);
    } else {
      var q := Step(k, p, run[0]);
      StepKeeps(k, p, run[0]);
      StepKnows(k, p, run[0], c);
      StepRefines(k, p, run[0], c);
      RunRefines(k, q, run[1..], c);
      RefinesTrans(k, p.core, q.core, Run(k, q, run[1..]).core, StepInputs(k, p, run[0], c), RunInputs(k, q, run[1..], c), c);
    }
  }

  /**
   Multiplexing refines private pipes: over any run, a client's ids in flight,
   its sessions, its refusals, its unread bytes and the messages it was sent are
   those of a pipe of its own, fed with the client's share of the bridge's
   events. It is cut off from outside only when the bridge ends.
   */
  lemma MultiplexingIsInvisible(k: Codec, p: Pipe, run: seq<Event>, c: Client)
    requires Inv(p.core) && Possible(k, p, run) && c in p.core.views
    ensures var (v, out) := PrivateRun(k, PrivateOf(p.core, c), RunInputs(k, p, run, c));
            var r := Run(k, p, run).core;
            && PrivateOf(r, c) == v
            && DeliveredTo(r.delivered, c) == DeliveredTo(p.core.delivered, c) + out
            && (PipeDown in RunInputs(k, p, run, c) ==> r.closed && !p.core.closed)
  {
    RunRefines(k, p, run, c);
  }
}

/** An event that overtakes the continuation of its client's attachment. */
module CdpRaces {
  import opened Basics
  import opened CdpBridgeModel
  import opened CdpFraming
  import opened CdpBridgeProofs

  /** An event is lost, without a trace, exactly if nobody owns its session when it is routed. */
  lemma EventLostExactly(k: Codec, s: Core, event: Message)
    requires Inv(s) && !s.closed && event.id.NoId? && event.sessionId.Text?
    ensures Route(k, s, event) == s <==> event.sessionId.value !in s.owners
  {
    if event.sessionId.value in s.owners {
      var c := s.owners[event.sessionId.value];
      InvOwners(s);
      OwnerHears(k, BeforeEvent(s, event, c), event, c);
    }
  }

  lemma IssueStaysClosed(k: Codec, s: Core, purpose: Purpose, m: Message, c: Client)
    requires c in s.views && ViewOf(s, c).closed
    ensures ViewOf(Issue(k, s, purpose, m).0, c).closed
  {}

  lemma DropCloses(k: Codec, s: Core, c: Client)
    requires c in s.views
    ensures ViewOf(Drop(k, s, c), c).closed
  {
    if !ViewOf(s, c).closed {
      var r := Forget(s, c);
      assert ViewOf(r, c).closed;
      if ViewOf(r, c).browserId.Some? {
        IssueStaysClosed(k, r, Purpose.Detach, DetachMessage(ViewOf(r, c).browserId.value), c);
      }
      hide Issue, Forget;
    }
  }

  /** A connected client's event is delivered or ends it. */
  lemma OwnerHears(k: Codec, s: Core, event: Message, c: Client)
    requires c in s.views && !ViewOf(s, c).closed
    ensures var r := AfterEvent(Send(k, s, c, event, None), event);
            ViewOf(r, c).closed || |r.delivered| == |s.delivered| + 1
  {
    hide Drop;
    DropCloses(k, s, c);
  }

  // ---- The race, from the start ----

  const ATTACH_SENT := ATTACH_MESSAGE.(id := SafeId(1))

  /** Chrome's answer to the first attachment, and an event of the session it names. */
  ghost predicate Racing(k: Codec, reply: Message, event: Message) {
    && reply.id == SafeId(1) && !reply.isError && reply.resultSession.Text?
    && event.id.NoId? && event.sessionId == reply.resultSession
    && event.verb != Text("Target.attachedToTarget") && event.verb != Text("Target.detachedFromTarget")
    && Writable(k, ATTACH_SENT) && Writable(k, reply) && Writable(k, event)
    && |k.encode(event.(sessionId := Absent))| <= MAX_QUEUED_BYTES
  }

  /** The bridge once its first client has connected and its attachment is under way. */
  ghost function Attaching(k: Codec, c: Client): Core {
    INITIAL_CORE.(
      views := map[c := View(false, None, {}, 0)],
      live := {c},
      serial := 1,
      pending := map[1 := Call(Attach(c))],
      queued := |k.encode(ATTACH_SENT)| + 1,
      wire := [ATTACH_SENT])
  }

  /** Attached: the client has its session. */
  ghost function Ready(k: Codec, c: Client, session: string): Core {
    Attaching(k, c).(
      views := map[c := View(false, Some(session), {}, 0)],
      owners := map[session := c],
      pending := map[])
  }

  lemma FirstClient(k: Codec, c: Client)
    requires Writable(k, ATTACH_SENT)
    ensures Enabled(START, Accepted(c)) && Step(k, START, Accepted(c)) == Pipe(Attaching(k, c), [])
  {
    var s1 := Arrive(INITIAL_CORE, c);
    assert s1.views == map[c := View(false, None, {}, 0)];
    var s2 := Enter(s1, Attach(c));
    assert s2.pending == map[1 := Call(Attach(c))] && s2.serial == 1 && s2.queued == 0;
    var (s3, ok) := Write(k, s2, ATTACH_SENT);
    assert ok && s3.wire == [ATTACH_SENT] && s3.queued == |k.encode(ATTACH_SENT)| + 1;
    assert |s1.pending| == 0;
    assert Issue(k, s1, Attach(c), ATTACH_MESSAGE) == (s3, true);
    assert {} + {c} == {c};
  }

  /** Chrome has answered, and the client's continuation is still to run. */
  ghost function Answered(k: Codec, c: Client, session: Text): Core {
    Attaching(k, c).(pending := map[], tasks := [AttachTask(c, session)])
  }

  lemma ReplyArrives(k: Codec, c: Client, reply: Message, event: Message)
    requires Racing(k, reply, event)
    ensures Route(k, Attaching(k, c), reply) == Answered(k, c, reply.resultSession)
    ensures Route(k, Answered(k, c, reply.resultSession), event) == Answered(k, c, reply.resultSession)
  {
    assert map[1 := Call(Attach(c))] - {1} == map[];
  }

  lemma Continues(k: Codec, c: Client, session: string)
    ensures var p := Pipe(Answered(k, c, Text(session)), []);
            Enabled(p, TaskRun) && Step(k, p, TaskRun) == Pipe(Ready(k, c, session), [])
  {
    var s := Answered(k, c, Text(session));
    assert s.tasks[1..] == [];
    assert s.views[c := View(false, Some(session), {}, 0)] == Ready(k, c, session).views;
  }

  lemma ChunkOf(k: Codec, s: Core, ms: seq<Message>)
    requires !s.closed && forall m :: m in ms ==> Writable(k, m)
    ensures Enabled(Pipe(s, []), Chunk(FramedAll(k, ms)))
    ensures Step(k, Pipe(s, []), Chunk(FramedAll(k, ms))) == Pipe(RouteAll(k, s, ms), [])
  {
    assert [] + FramedAll(k, ms) == FramedAll(k, ms);
    DrainFramed(k, s, ms);
  }

  lemma RouteTwo(k: Codec, s: Core, a: Message, b: Message)
    requires !s.closed && !Route(k, s, a).closed
    ensures RouteAll(k, s, [a]) == Route(k, s, a) && RouteAll(k, s, [a, b]) == Route(k, Route(k, s, a), b)
  {
    hide Route;
    assert [a][1..] == [] && [a, b][1..] == [b] && [b][1..] == [];
    var t := Route(k, s, a);
    assert RouteAll(k, s, [a]) == RouteAll(k, t, []);
    assert RouteAll(k, t, [b]) == if t.closed then t else RouteAll(k, Route(k, t, b), []);
  }

  lemma RunOne(k: Codec, p: Pipe, e: Event, rest: seq<Event>)
    requires Enabled(p, e) && Possible(k, Step(k, p, e), rest)
    ensures Possible(k, p, [e] + rest) && Run(k, p, [e] + rest) == Run(k, Step(k, p, e), rest)
  {
    hide Step, Enabled;
    assert ([e] + rest)[0] == e && ([e] + rest)[1..] == rest;
  }

  lemma RepliesInChunks(k: Codec, c: Client, reply: Message, event: Message)
    requires Racing(k, reply, event)
    ensures var p, after := Pipe(Attaching(k, c), []), Pipe(Answered(k, c, reply.resultSession), []);
            && Enabled(p, Chunk(FramedAll(k, [reply]))) && Step(k, p, Chunk(FramedAll(k, [reply]))) == after
            && Enabled(p, Chunk(FramedAll(k, [reply, event]))) && Step(k, p, Chunk(FramedAll(k, [reply, event]))) == after
  {
    var s := Attaching(k, c);
    assert !s.closed && !Answered(k, c, reply.resultSession).closed;
    ReplyArrives(k, c, reply, event);
    hide Route, RouteAll, Step, FramedAll, Attaching, Answered;
    RouteTwo(k, s, reply, event);
    ChunkOf(k, s, [reply]);
    ChunkOf(k, s, [reply, event]);
  }

  lemma Delivers(k: Codec, c: Client, reply: Message, event: Message)
    requires Racing(k, reply, event)
    ensures var session := reply.resultSession.value;
            var p, r := Pipe(Ready(k, c, session), []), Route(k, Ready(k, c, session), event);
            && r.delivered == [Delivery(c, event.(sessionId := Absent), None)]
            && Enabled(p, Chunk(FramedAll(k, [event]))) && Step(k, p, Chunk(FramedAll(k, [event]))) == Pipe(r, [])
  {
    var session := reply.resultSession.value;
    var s := Ready(k, c, session);
    assert !s.closed;
    var r := Route(k, s, event);
    assert !r.closed && r.delivered == [Delivery(c, event.(sessionId := Absent), None)];
    hide Route, RouteAll, Step, FramedAll, Ready;
    RouteTwo(k, s, event, event);
    ChunkOf(k, s, [event]);
  }

  /** In the same chunk as the reply, the event of the new session is lost. */
  lemma EventRacingAttach(k: Codec, c: Client, reply: Message, event: Message)
    requires Racing(k, reply, event)
    ensures var run := [Accepted(c), Chunk(FramedAll(k, [reply, event])), TaskRun];
            Possible(k, START, run) && Run(k, START, run).core == Ready(k, c, reply.resultSession.value)
            && Run(k, START, run).core.delivered == []
  {
    var run := [Accepted(c), Chunk(FramedAll(k, [reply, event])), TaskRun];
    var session := reply.resultSession.value;
    FirstClient(k, c);
    RepliesInChunks(k, c, reply, event);
    Continues(k, c, session);
    assert Ready(k, c, session).delivered == [];
    hide Step, FramedAll, Attaching, Answered, Ready, Enabled, Racing;
    var p1, p2, p3 := Pipe(Attaching(k, c), []), Pipe(Answered(k, c, Text(session)), []), Pipe(Ready(k, c, session), []);
    assert Possible(k, p3, []) && Run(k, p3, []) == p3;
    RunOne(k, p2, run[2], []);
    RunOne(k, p1, run[1], [run[2]] + []);
    RunOne(k, START, run[0], [run[1]] + ([run[2]] + []));
    assert [run[0]] + ([run[1]] + ([run[2]] + [])) == run;
  }

  /** One chunk later it is delivered. */
  lemma EventAfterAttach(k: Codec, c: Client, reply: Message, event: Message)
    requires Racing(k, reply, event)
    ensures var run := [Accepted(c), Chunk(FramedAll(k, [reply])), TaskRun, Chunk(FramedAll(k, [event]))];
            Possible(k, START, run)
            && Run(k, START, run).core.delivered == [Delivery(c, event.(sessionId := Absent), None)]
  {
    var run := [Accepted(c), Chunk(FramedAll(k, [reply])), TaskRun, Chunk(FramedAll(k, [event]))];
    var session := reply.resultSession.value;
    assert reply.resultSession == Text(session);
    hide Step, Route, FramedAll, Attaching, Answered, Ready, Enabled, Racing, Incoming, Writable;
    FirstClient(k, c);
    RepliesInChunks(k, c, reply, event);
    Continues(k, c, session);
    Delivers(k, c, reply, event);
    var p1, p2, p3 := Pipe(Attaching(k, c), []), Pipe(Answered(k, c, Text(session)), []), Pipe(Ready(k, c, session), []);
    var p4 := Pipe(Route(k, Ready(k, c, session), event), []);
    assert Possible(k, p4, []) && Run(k, p4, []) == p4;
    RunOne(k, p3, run[3], []);
    RunOne(k, p2, run[2], [run[3]] + []);
    RunOne(k, p1, run[1], [run[2]] + ([run[3]] + []));
    RunOne(k, START, run[0], [run[1]] + ([run[2]] + ([run[3]] + [])));
    assert [run[0]] + ([run[1]] + ([run[2]] + ([run[3]] + []))) == run;
  }
}

/** What each operation of the bridge does for its caller, written out. */
module CdpAnswers {
  import opened Basics
  import opened CdpBridgeModel
  import opened CdpBridgeProofs

  // ---- Commands ----

  /** The message handler takes this message: a fresh id, a verb, and a session the client owns or none. */
  ghost predicate Acceptable(s: Core, c: Client, m: Message)
    requires c in s.views
  {
    && m.id.SafeId? && m.id.id >= 0 && m.id.id !in s.views[c].pendingIds
    && m.verb.Text?
    && (m.sessionId.Absent? || (m.sessionId.Text? && m.sessionId.value in s.owners && s.owners[m.sessionId.value] == c))
  }

  /** There is an id left for one more command. */
  ghost predicate Spare(s: Core) {
    !s.closed && |s.pending| < 16384 && s.serial < 9007199254740991
  }

  /** The pipe takes the message: at most 16 MiB without its NUL, and 32 MiB queued with it. */
  ghost predicate Fits(k: Codec, s: Core, m: Message) {
    |k.encode(m)| <= 16777216 && s.queued + |k.encode(m)| + 1 <= 33554432
  }

  /** The command as Chrome sees it: under the next serial, in the client's browser session unless it names another. */
  ghost function Forwarded(s: Core, c: Client, m: Message): Message
    requires c in s.views && s.views[c].browserId.Some?
  {
    Message(SafeId(s.serial + 1), m.verb,
            if m.sessionId == Absent then Text(s.views[c].browserId.value) else m.sessionId,
            m.childId, m.resultSession, m.isError, m.body)
  }

  /** Exactly the acceptable messages for which there is room reach Chrome, and every other one drops its client. */
  lemma CommandWrittenExactly(k: Codec, s: Core, c: Client, m: Message)
    requires Inv(s) && c in s.views && !s.views[c].closed && s.views[c].browserId.Some?
    ensures var r, out := Submit(k, s, c, Some(m)), Forwarded(s, c, m);
            var taken := Acceptable(s, c, m) && Spare(s) && Fits(k, s, out);
            && r.wire == (if taken then s.wire + [out] else s.wire)
            && r.tasks == (if taken then s.tasks else s.tasks + [DropTask(c)])
            && (taken ==> r.pending == s.pending[s.serial + 1 := Command(c, m.id.id)]
                          && r.views == s.views[c := s.views[c].(pendingIds := s.views[c].pendingIds + {m.id.id})])
            && (taken ==> !r.closed && r.serial == s.serial + 1 && r.queued == s.queued + |k.encode(out)| + 1)
  {
    hide Inv;
    assert Forwarded(s, c, m) == Outgoing(m, s.serial + 1, s.views[c].browserId.value);
    assert Acceptable(s, c, m) == !Refused(s, c, m);
  }

  /** A valid command that overflows the queue to Chrome ends the bridge; nothing else a client sends does. */
  lemma CommandEndsBridgeExactly(k: Codec, s: Core, c: Client, m: Message)
    requires Inv(s) && c in s.views && !s.views[c].closed && s.views[c].browserId.Some? && !s.closed
    ensures var out := Forwarded(s, c, m);
            Submit(k, s, c, Some(m)).closed <==>
              Acceptable(s, c, m) && Spare(s) && |k.encode(out)| <= 16777216 && s.queued + |k.encode(out)| + 1 > 33554432
  {
    hide Inv;
    assert Forwarded(s, c, m) == Outgoing(m, s.serial + 1, s.views[c].browserId.value);
    assert Acceptable(s, c, m) == !Refused(s, c, m);
  }

  /** What cannot be read drops its client; a dropped client is not heard. */
  lemma UnreadableDrops(k: Codec, s: Core, c: Client, input: Option<Message>)
    requires Inv(s) && c in s.views && s.views[c].browserId.Some?
    ensures s.views[c].closed ==> Submit(k, s, c, input) == s
    ensures !s.views[c].closed && input.None? ==> Submit(k, s, c, input) == s.(tasks := s.tasks + [DropTask(c)])
  {}

  // ---- What clients are sent ----

  /** A message without the client's own browser session. */
  ghost function Seen(m: Message, v: View): Message {
    if v.browserId.Some? && m.sessionId == Text(v.browserId.value)
    then Message(m.id, m.verb, Absent, m.childId, m.resultSession, m.isError, m.body) else m
  }

  /**
   A connected client is sent the message, without its sessionId exactly if that is the
   client's browser session, as long as its socket has room; otherwise it is dropped.
   */
  lemma SentExactly(k: Codec, s: Core, c: Client, m: Message, internal: Option<int>)
    requires Inv(s) && c in s.views && !s.views[c].closed
    ensures var r, v, out := Send(k, s, c, m, internal), s.views[c], Seen(m, s.views[c]);
            if v.buffered + |k.encode(out)| <= 33554432
            then r == s.(delivered := s.delivered + [Delivery(c, out, internal)],
                         views := s.views[c := v.(buffered := v.buffered + |k.encode(out)|)])
            else r.delivered == s.delivered && c in r.views && r.views[c].closed
  {
    hide Inv;
    assert Seen(m, s.views[c]) == Incoming(m, s.views[c].browserId);
    if s.views[c].buffered + |k.encode(Seen(m, s.views[c]))| > 33554432 {
      DroppedExactly(k, s, c);
    }
  }

  /** A closed client is sent nothing. */
  lemma ClosedHearsNothing(k: Codec, s: Core, c: Client, m: Message, internal: Option<int>)
    requires c in s.views && s.views[c].closed
    ensures Send(k, s, c, m, internal) == s
  {}

  /**
   A reply to a command goes to the client that sent it, under the client's own id, and
   frees that id; a session in the result is the client's from then on.
   */
  lemma RepliedExactly(k: Codec, s: Core, id: int, c: Client, own: int, reply: Message)
    requires Inv(s) && id in s.pending && s.pending[id] == Command(c, own) && reply.id == SafeId(id)
    ensures c in s.views && !s.views[c].closed
    ensures var r, v := Route(k, s, reply), s.views[c];
            var out := Seen(reply.(id := SafeId(own)), v);
            if v.buffered + |k.encode(out)| <= 33554432
            then r == s.(pending := s.pending - {id},
                         views := s.views[c := v.(pendingIds := v.pendingIds - {own}, buffered := v.buffered + |k.encode(out)|)],
                         owners := if reply.resultSession.Text? then s.owners[reply.resultSession.value := c] else s.owners,
                         delivered := s.delivered + [Delivery(c, out, Some(id))])
            else r.delivered == s.delivered && c in r.views && r.views[c].closed
  {
    InvCommand(s, id);
    AnswerKeeps(s, id, reply);
    hide Inv, Send;
    SentExactly(k, Answer(s, id, reply), c, reply.(id := SafeId(own)), Some(id));
  }

  lemma OwnerIsOpen(s: Core, session: string)
    requires Inv(s) && session in s.owners
    ensures s.owners[session] in s.views && !s.views[s.owners[session]].closed && s.owners[session] in s.live && !s.closed
  {}

  lemma BeforeKeeps(s: Core, event: Message, c: Client)
    requires Inv(s) && c in s.live && !s.closed
    ensures Inv(BeforeEvent(s, event, c))
  {
    OwnersKeep(s, BeforeEvent(s, event, c).owners);
  }

  /**
   An event goes to the owner of its session. A child it reports as attached is the
   owner's from before it is sent; one it reports as detached is nobody's after.
   */
  lemma EventSentExactly(k: Codec, s: Core, event: Message, c: Client)
    requires Inv(s) && event.id.NoId? && event.sessionId.Text?
    requires event.sessionId.value in s.owners && s.owners[event.sessionId.value] == c
    ensures c in s.views && !s.views[c].closed
    ensures var r, v := Route(k, s, event), s.views[c];
            var out := Seen(event, v);
            if v.buffered + |k.encode(out)| <= 33554432
            then r == s.(views := s.views[c := v.(buffered := v.buffered + |k.encode(out)|)],
                         owners := if event.verb == Text("Target.attachedToTarget") && event.childId.Text?
                                   then s.owners[event.childId.value := c]
                                   else if event.verb == Text("Target.detachedFromTarget") && event.childId.Text?
                                   then s.owners - {event.childId.value}
                                   else s.owners,
                         delivered := s.delivered + [Delivery(c, out, None)])
            else r.delivered == s.delivered && c in r.views && r.views[c].closed
  {
    OwnerIsOpen(s, event.sessionId.value);
    hide Inv, InvExcept, Send, Seen;
    var s1 := BeforeEvent(s, event, c);
    assert Route(k, s, event) == AfterEvent(Send(k, s1, c, event, None), event);
    assert s1.views == s.views && s1.delivered == s.delivered;
    BeforeKeeps(s, event, c);
    SentExactly(k, s1, c, event, None);
  }

  /**
   A command that is written and answered comes back to its client: the reply under the
   client's own id, and the id free to be used again.
   */
  lemma CommandRoundTrip(k: Codec, s: Core, c: Client, m: Message, reply: Message)
    requires Inv(s) && c in s.views && !s.views[c].closed && s.views[c].browserId.Some?
    requires Acceptable(s, c, m) && Spare(s) && Fits(k, s, Forwarded(s, c, m))
    requires reply.id == SafeId(s.serial + 1)
    requires s.views[c].buffered + |k.encode(Seen(reply.(id := m.id), s.views[c]))| <= 33554432
    ensures var r := Route(k, Submit(k, s, c, Some(m)), reply);
            && r.delivered == s.delivered + [Delivery(c, Seen(reply.(id := m.id), s.views[c]), Some(s.serial + 1))]
            && c in r.views && r.views[c].pendingIds == s.views[c].pendingIds && r.pending == s.pending
  {
    CommandWrittenExactly(k, s, c, m);
    SubmitKeeps(k, s, c, Some(m));
    SubmitDelivers(k, s, c, m);
    NextIsFree(s);
    hide Inv, Submit, Route, Acceptable, Spare, Fits, Seen, Forwarded;
    var s1 := Submit(k, s, c, Some(m));
    SameSeen(reply.(id := m.id), s.views[c], s1.views[c]);
    RepliedExactly(k, s1, s.serial + 1, c, m.id.id, reply);
    assert s.pending[s.serial + 1 := Command(c, m.id.id)] - {s.serial + 1} == s.pending;
    assert s.views[c].pendingIds + {m.id.id} - {m.id.id} == s.views[c].pendingIds by { FreshId(s, c, m); }
  }

  lemma FreshId(s: Core, c: Client, m: Message)
    requires c in s.views && Acceptable(s, c, m)
    ensures s.views[c].pendingIds + {m.id.id} - {m.id.id} == s.views[c].pendingIds
  {}

  lemma NextIsFree(s: Core)
    requires Inv(s)
    ensures s.serial + 1 !in s.pending
  {}

  lemma SameSeen(m: Message, v: View, w: View)
    requires v.browserId == w.browserId
    ensures Seen(m, v) == Seen(m, w)
  {}

  lemma SubmitDelivers(k: Codec, s: Core, c: Client, m: Message)
    requires c in s.views && s.views[c].browserId.Some?
    ensures Submit(k, s, c, Some(m)).delivered == s.delivered
  {}

  // ---- Calls of the bridge itself ----

  /** A call goes out under the next serial exactly if there is room, and is in flight exactly then. */
  lemma CallWrittenExactly(k: Codec, s: Core, purpose: Purpose, m: Message)
    ensures var r, out := Issue(k, s, purpose, m), m.(id := SafeId(s.serial + 1));
            if Spare(s) && Fits(k, s, out)
            then r == (s.(serial := s.serial + 1, pending := s.pending[s.serial + 1 := Call(purpose)],
                          queued := s.queued + |k.encode(out)| + 1, wire := s.wire + [out]), true)
            else !r.1 && r.0.wire == s.wire && r.0.pending.Keys <= s.pending.Keys && r.0.tasks == s.tasks
                 && r.0.owners.Keys <= s.owners.Keys
  {}

  /** A client that connects is attached by a call of its own; a call that cannot be made ends the bridge. */
  lemma AttachWrittenExactly(k: Codec, s: Core, c: Client)
    requires Inv(s) && c !in s.views && !s.closed
    ensures var r := Accept(k, s, c);
            var out := Message(SafeId(s.serial + 1), Text("Target.attachToBrowserTarget"), Absent, Absent, Absent, false, "");
            && c in r.live
            && if Spare(s) && Fits(k, s, out)
               then r == s.(serial := s.serial + 1, pending := s.pending[s.serial + 1 := Call(Attach(c))],
                            queued := s.queued + |k.encode(out)| + 1, wire := s.wire + [out],
                            views := s.views[c := View(false, None, {}, 0)], live := s.live + {c})
               else r.wire == s.wire && r.tasks == s.tasks + [FailTask]
  {
    hide Issue, Inv, Fits, Spare;
    var s0 := Arrive(s, c);
    SameRoom(k, s, s0, ATTACH_MESSAGE.(id := SafeId(s.serial + 1)));
    AcceptedCall(k, s, c);
  }

  lemma AcceptedCall(k: Codec, s: Core, c: Client)
    requires Inv(s) && c !in s.views && !s.closed
    ensures var s0, out := Arrive(s, c), ATTACH_MESSAGE.(id := SafeId(s.serial + 1));
            var r := Issue(k, s0, Attach(c), ATTACH_MESSAGE);
            if Spare(s0) && Fits(k, s0, out)
            then r == (s0.(serial := s.serial + 1, pending := s.pending[s.serial + 1 := Call(Attach(c))],
                           queued := s.queued + |k.encode(out)| + 1, wire := s.wire + [out]), true)
            else !r.1 && r.0.wire == s.wire && r.0.tasks == s.tasks
  {
    hide InvExcept;
  }

  /** The entries of other clients, and of the bridge, that stay in flight. */
  ghost function Others(s: Core, c: Client): map<int, Pending> {
    map id | id in s.pending && !(s.pending[id].Command? && s.pending[id].client == c) :: s.pending[id]
  }

  /** A client that goes leaves every table; its browser session is detached, or the bridge is to end. */
  lemma DroppedExactly(k: Codec, s: Core, c: Client)
    requires Inv(s) && c in s.views && !s.views[c].closed
    ensures var r, v := Drop(k, s, c), s.views[c];
            && Gone(r, c) && r.delivered == s.delivered
            && (v.browserId.None? || s.closed ==> r.wire == s.wire && r.tasks == s.tasks)
            && (v.browserId.Some? && !s.closed ==>
                  var out := Message(SafeId(s.serial + 1), Text("Target.detachFromTarget"), Absent,
                                     Text(v.browserId.value), Absent, false, "");
                  if |Others(s, c)| < 16384 && s.serial < 9007199254740991 && Fits(k, s, out)
                  then r.wire == s.wire + [out] && r.tasks == s.tasks
                       && r.pending == Others(s, c)[s.serial + 1 := Call(Purpose.Detach)]
                  else r.wire == s.wire && r.tasks == s.tasks + [FailTask])
  {
    hide Issue, Inv;
    var f := Forget(s, c);
    ForgetKeeps(s, c);
    ForgetsAll(s, c);
    if s.views[c].browserId.Some? && !s.closed {
      DetachCall(k, f, c, s.views[c].browserId.value);
    }
  }

  lemma ForgetsAll(s: Core, c: Client)
    requires c in s.views
    ensures var f := Forget(s, c);
            && f.pending == Others(s, c) && c !in f.live
            && f.views == s.views[c := s.views[c].(closed := true, pendingIds := {})]
            && f.wire == s.wire && f.tasks == s.tasks && f.queued == s.queued && f.serial == s.serial && f.closed == s.closed
            && f.delivered == s.delivered
            && (forall sid :: sid in f.owners ==> f.owners[sid] != c)
  {
    assert forall id :: id in s.pending ==> IsOf(s.pending[id], c) == (s.pending[id].Command? && s.pending[id].client == c);
    assert Forget(s, c).pending == Others(s, c);
  }

  /** The detach of a client already forgotten. */
  lemma DetachCall(k: Codec, f: Core, c: Client, browserId: string)
    requires Gone(f, c) && !f.closed && f.views[c].browserId == Some(browserId)
    ensures var r := DetachClient(k, f, c);
            var out := Message(SafeId(f.serial + 1), Text("Target.detachFromTarget"), Absent, Text(browserId), Absent, false, "");
            && Gone(r, c) && r.delivered == f.delivered
            && if Spare(f) && Fits(k, f, out)
               then r.wire == f.wire + [out] && r.tasks == f.tasks && r.pending == f.pending[f.serial + 1 := Call(Purpose.Detach)]
               else r.wire == f.wire && r.tasks == f.tasks + [FailTask]
  {
    hide Issue, Fits, Spare;
    CallWrittenExactly(k, f, Purpose.Detach, DetachMessage(browserId));
    CallFrame(k, f, Purpose.Detach, DetachMessage(browserId), c);
  }

  /** The client has left every table. */
  ghost predicate Gone(s: Core, c: Client) {
    && c in s.views && s.views[c].closed && s.views[c].pendingIds == {} && c !in s.live
    && (forall id :: id in s.pending && s.pending[id].Command? ==> s.pending[id].client != c)
    && (forall sid :: sid in s.owners ==> s.owners[sid] != c)
  }

  lemma WriteFrame(k: Codec, s: Core, m: Message, c: Client)
    requires Gone(s, c)
    ensures var r := Write(k, s, m).0; Gone(r, c) && r.delivered == s.delivered && r.tasks == s.tasks
  {}

  lemma EnterFrame(s: Core, purpose: Purpose, c: Client)
    requires Gone(s, c)
    ensures var r := Enter(s, purpose); Gone(r, c) && r.delivered == s.delivered && r.tasks == s.tasks
  {}

  lemma WithdrawFrame(s: Core, id: int, c: Client)
    requires Gone(s, c)
    ensures var r := Withdraw(s, id); Gone(r, c) && r.delivered == s.delivered && r.tasks == s.tasks
  {}

  /** A call leaves a client that is gone as it is. */
  lemma CallFrame(k: Codec, s: Core, purpose: Purpose, m: Message, c: Client)
    requires Gone(s, c)
    ensures var r := Issue(k, s, purpose, m).0; Gone(r, c) && r.delivered == s.delivered && r.tasks == s.tasks
  {
    hide Gone, Write, Enter, Withdraw, CanIssue;
    var s0, out := Enter(s, purpose), m.(id := SafeId(s.serial + 1));
    EnterFrame(s, purpose, c);
    WriteFrame(k, s0, out, c);
    WithdrawFrame(Write(k, s0, out).0, s.serial + 1, c);
  }

  /** What the bridge does with the reply to one of its own calls. */
  lemma CallAnsweredExactly(k: Codec, s: Core, id: int, purpose: Purpose, m: Message)
    requires Inv(s) && id in s.pending && s.pending[id] == Call(purpose) && m.id == SafeId(id)
    ensures var r := Route(k, s, m);
            r == s.(pending := s.pending - {id},
                    tasks := s.tasks + if m.isError && !purpose.Query? then [FailTask]
                                       else if !m.isError && purpose.Attach? then [AttachTask(purpose.client, m.resultSession)]
                                       else [])
  {
    assert s.tasks + [] == s.tasks;
  }

  /** A call that is not answered in time fails as one that is answered with an error. */
  lemma CallTimedOutExactly(s: Core, id: int, purpose: Purpose)
    requires id in s.pending && s.pending[id] == Call(purpose)
    ensures Timeout(s, id) == s.(pending := s.pending - {id}, tasks := s.tasks + if purpose.Query? then [] else [FailTask])
  {
    assert s.tasks + [] == s.tasks;
  }

  // ---- Continuations ----

  /** The attach continuation of a client still connected gives it its session. */
  lemma AttachedExactly(k: Codec, s: Core, c: Client, session: string)
    requires Inv(s) && s.tasks != [] && s.tasks[0] == AttachTask(c, Text(session)) && c in s.views && !s.views[c].closed
    ensures RunTask(k, s) == s.(tasks := s.tasks[1..],
                                views := s.views[c := s.views[c].(browserId := Some(session))],
                                owners := s.owners[session := c])
  {}

  /** Of a client gone meanwhile, it detaches the session at once. */
  lemma LateAttachDetached(k: Codec, s: Core, c: Client, session: string)
    requires s.tasks != [] && s.tasks[0] == AttachTask(c, Text(session)) && c in s.views && s.views[c].closed
    ensures var r := RunTask(k, s);
            var out := Message(SafeId(s.serial + 1), Text("Target.detachFromTarget"), Absent, Text(session), Absent, false, "");
            && r.owners.Keys <= s.owners.Keys
            && (!s.closed ==>
                  if Spare(s) && Fits(k, s, out) then r.wire == s.wire + [out] && r.tasks == s.tasks[1..]
                  else r.wire == s.wire && r.tasks == s.tasks[1..] + [FailTask])
  {
    var a := Attached(s.(tasks := s.tasks[1..]), c, session);
    LateIsDetached(k, s, c, session);
    SameRoom(k, s, a, DetachMessage(session).(id := SafeId(s.serial + 1)));
    hide Issue, Fits, Spare, Attached, RunTask;
    CallWrittenExactly(k, a, Purpose.Detach, DetachMessage(session));
  }

  lemma LateIsDetached(k: Codec, s: Core, c: Client, session: string)
    requires s.tasks != [] && s.tasks[0] == AttachTask(c, Text(session)) && c in s.views && s.views[c].closed
    ensures var a := Attached(s.(tasks := s.tasks[1..]), c, session);
            && RunTask(k, s) == DetachClient(k, a, c) && ViewOf(a, c).browserId == Some(session)
            && a == s.(tasks := s.tasks[1..], views := a.views)
  {
    hide DetachClient;
  }

  lemma SameRoom(k: Codec, s: Core, t: Core, m: Message)
    requires t.closed == s.closed && t.pending == s.pending && t.serial == s.serial && t.queued == s.queued
    ensures Spare(t) == Spare(s) && Fits(k, t, m) == Fits(k, s, m)
  {}

  /** An attach reply without a session, and every other failure, ends the bridge and all its clients. */
  lemma FailureEndsBridge(k: Codec, s: Core)
    requires Inv(s) && s.tasks != [] && !s.closed
    requires s.tasks[0].FailTask? || (s.tasks[0].AttachTask? && !s.tasks[0].session.Text?)
    ensures s.tasks[0].AttachTask? ==> RunTask(k, s) == s.(tasks := s.tasks[1..] + [FailTask])
    ensures s.tasks[0].FailTask? ==>
              var r := RunTask(k, s);
              && r.closed && r.pending == map[] && r.owners == map[] && r.live == {}
              && (forall c :: c in s.views ==> c in r.views && r.views[c] == s.views[c].(closed := true))
  {}
}

/**
 What the bridge keeps in every reachable state, and what that says about who
 receives which message.
 */
module CdpBridgeProofs {
  import opened Basics
  import opened CdpBridgeModel
  import opened CdpFraming

  // ---- The invariant ----

  ghost predicate InFlight(pending: map<int, Pending>, c: Client, o: int) {
    exists id :: id in pending && pending[id] == Command(c, o)
  }

  /** Commands in flight and pending ids of clients that are not closed, one to one. */
  ghost predicate Matched(views: map<Client, View>, pending: map<int, Pending>) {
    && (forall id :: id in pending && pending[id].Command? ==>
          && pending[id].client in views
          && !views[pending[id].client].closed
          && pending[id].originalId in views[pending[id].client].pendingIds)
    && (forall i, j :: i in pending && j in pending && pending[i].Command? && pending[i] == pending[j] ==> i == j)
    && (forall c, o :: c in views && !views[c].closed && o in views[c].pendingIds ==> InFlight(pending, c, o))
  }

  /** `#clients` holds exactly the clients that are not closed, except one being accepted. */
  ghost predicate Alive(views: map<Client, View>, live: set<Client>, accepting: set<Client>) {
    && live <= views.Keys
    && live !! accepting
    && accepting <= views.Keys
    && (forall c :: c in accepting ==> views[c] == View(false, None, {}, 0))
    && (forall c :: c in views && c !in accepting ==> (c in live <==> !views[c].closed))
  }

  ghost predicate Owned(owners: map<string, Client>, live: set<Client>) {
    forall sid :: sid in owners ==> owners[sid] in live
  }

  ghost predicate Known(s: Core, purpose: Purpose) {
    purpose.Attach? ==> purpose.client in s.views
  }

  /** The in-flight table, the clients' pending ids and the owner table agree. */
  ghost predicate Tables(s: Core, accepting: set<Client>) {
    && |s.pending| <= MAX_PENDING_COMMANDS
    && (s.closed ==> s.pending == map[] && s.owners == map[])
    && (forall id :: id in s.pending ==> 0 < id <= s.serial)
    && Alive(s.views, s.live, accepting)
    && Owned(s.owners, s.live)
    && Matched(s.views, s.pending)
    && (forall id :: id in s.pending && s.pending[id].Call? ==> Known(s, s.pending[id].purpose))
    && (forall t :: t in s.tasks && !t.FailTask? ==> t.client in s.views)
    && (forall t :: t in s.tasks && t.AttachTask? ==>
          t.client !in accepting && (s.closed ==> ViewOf(s, t.client).closed))
  }

  /** The internal ids written to Chrome strictly increase and stay below `bound`. */
  ghost predicate WireBelow(wire: seq<Message>, bound: int) {
    && (forall i :: 0 <= i < |wire| ==> wire[i].id.SafeId? && wire[i].id.id < bound)
    && (forall i, j :: 0 <= i < j < |wire| ==> wire[i].id.id < wire[j].id.id)
  }

  /** A reply sent to a client answers a command that client issued, under the client's own id. */
  ghost predicate RightfulReply(issued: map<int, (Client, int)>, pending: map<int, Pending>, d: Delivery) {
    && d.internal.Some?
    && d.internal.value in issued
    && d.internal.value !in pending
    && d.message.id.SafeId?
    && issued[d.internal.value] == (d.client, d.message.id.id)
  }

  ghost predicate Attributed(issued: map<int, (Client, int)>, pending: map<int, Pending>, delivered: seq<Delivery>) {
    && (forall id :: id in pending && pending[id].Command? ==>
          id in issued && issued[id] == (pending[id].client, pending[id].originalId))
    && (forall p :: 0 <= p < |delivered| && delivered[p].internal.Some? ==> RightfulReply(issued, pending, delivered[p]))
    && (forall p, q :: 0 <= p < q < |delivered| && delivered[p].internal.Some?
          ==> delivered[p].internal != delivered[q].internal)
  }

  ghost predicate History(s: Core) {
    && WireBelow(s.wire, s.serial + 1)
    && (forall id :: id in s.issued ==> 0 < id <= s.serial)
    && Attributed(s.issued, s.pending, s.delivered)
  }

  ghost predicate InvExcept(s: Core, accepting: set<Client>) {
    Tables(s, accepting) && History(s)
  }

  /** Every reachable state between two JavaScript jobs satisfies this. */
  ghost predicate Inv(s: Core) {
    InvExcept(s, {})
  }

  lemma SubsetSize<T>(a: set<T>, b: set<T>)
    requires a <= b
    ensures |a| <= |b|
  {
    if a != {} {
      var x :| x in a;
      SubsetSize(a - {x}, b - {x});
    }
  }

  // ---- Each transition keeps it ----

  lemma CloseKeeps(s: Core, x: set<Client>)
    requires InvExcept(s, x)
    ensures InvExcept(Close(s), x)
  {}

  /** Removing entries that are not commands of a client that stays open. */
  lemma RemoveEntries(views: map<Client, View>, pending: map<int, Pending>, views': map<Client, View>, pending': map<int, Pending>)
    requires Matched(views, pending) && views.Keys == views'.Keys
    requires pending'.Keys <= pending.Keys && forall id :: id in pending' ==> pending'[id] == pending[id]
    requires forall c :: c in views && !views'[c].closed ==> !views[c].closed && views'[c].pendingIds == views[c].pendingIds
    requires forall id :: id in pending && pending[id].Command? ==>
      (id in pending' <==> !views'[pending[id].client].closed)
    ensures Matched(views', pending') && |pending'| <= |pending|
  {
    forall c, o | InFlight(pending, c, o) && c in views && !views'[c].closed
      ensures InFlight(pending', c, o)
    {
      var i :| i in pending && pending[i] == Command(c, o);
      assert pending'[i] == Command(c, o);
    }
    SubsetSize(pending'.Keys, pending.Keys);
  }

  /** The newest serial number is taken but not written yet. */
  ghost predicate Unwritten(s: Core, x: set<Client>) {
    && Tables(s, x)
    && WireBelow(s.wire, s.serial)
    && (forall id :: id in s.issued ==> 0 < id <= s.serial)
    && Attributed(s.issued, s.pending, s.delivered)
  }

  lemma UnwrittenIsInv(s: Core, x: set<Client>)
    requires Unwritten(s, x)
    ensures InvExcept(s, x)
  {}

  lemma WrittenIsInv(s: Core, queued: nat, m: Message, x: set<Client>)
    requires Unwritten(s, x) && m.id == SafeId(s.serial)
    ensures InvExcept(s.(queued := queued, wire := s.wire + [m]), x)
  {}

  lemma WriteKeeps(k: Codec, s: Core, m: Message, x: set<Client>)
    requires Unwritten(s, x) && m.id == SafeId(s.serial)
    ensures InvExcept(Write(k, s, m).0, x)
    ensures var pending := Write(k, s, m).0.pending; pending == s.pending || pending == map[]
  {
    var n := |k.encode(m)| + 1;
    if s.closed || n > MAX_MESSAGE_BYTES + 1 {
      UnwrittenIsInv(s, x);
    } else if s.queued + n > MAX_QUEUED_BYTES {
      UnwrittenIsInv(s, x);
      CloseKeeps(s, x);
    } else {
      WrittenIsInv(s, s.queued + n, m, x);
    }
  }

  lemma IssueKeeps(k: Codec, s: Core, purpose: Purpose, m: Message, x: set<Client>)
    requires InvExcept(s, x) && Known(s, purpose)
    ensures InvExcept(Issue(k, s, purpose, m).0, x)
  {
    hide InvExcept, Unwritten, Known, Write;
    if CanIssue(s) {
      var id := s.serial + 1;
      EnterKeeps(s, purpose, x);
      WriteKeeps(k, Enter(s, purpose), m.(id := SafeId(id)), x);
      WithdrawKeeps(Write(k, Enter(s, purpose), m.(id := SafeId(id))).0, id, x);
    }
  }

  lemma EnterKeeps(s: Core, purpose: Purpose, x: set<Client>)
    requires InvExcept(s, x) && Known(s, purpose) && CanIssue(s)
    ensures Unwritten(Enter(s, purpose), x)
  {
    EnterTables(s, purpose, x);
    EnterHistory(s, purpose);
  }

  lemma EnterTables(s: Core, purpose: Purpose, x: set<Client>)
    requires Tables(s, x) && Known(s, purpose) && CanIssue(s)
    ensures Tables(Enter(s, purpose), x)
  {
    hide Matched, Alive, Owned;
    MatchedWithCall(s.views, s.pending, s.serial + 1, purpose);
  }

  lemma EnterHistory(s: Core, purpose: Purpose)
    requires History(s)
    ensures var r := Enter(s, purpose);
            && WireBelow(r.wire, r.serial)
            && (forall id :: id in r.issued ==> 0 < id <= r.serial)
            && Attributed(r.issued, r.pending, r.delivered)
  {}

  lemma MatchedWithCall(views: map<Client, View>, pending: map<int, Pending>, id: int, purpose: Purpose)
    requires Matched(views, pending) && id !in pending
    ensures Matched(views, pending[id := Call(purpose)])
    ensures |pending[id := Call(purpose)]| == |pending| + 1
  {
    var p := pending[id := Call(purpose)];
    forall c, o | InFlight(pending, c, o)
      ensures InFlight(p, c, o)
    {
      var i :| i in pending && pending[i] == Command(c, o);
      assert p[i] == Command(c, o);
    }
  }

  /** Removing an entry that is not a client's command. */
  lemma WithdrawKeeps(s: Core, id: int, x: set<Client>)
    requires InvExcept(s, x) && (id in s.pending ==> s.pending[id].Call?)
    ensures InvExcept(Withdraw(s, id), x)
  {
    WithdrawTables(s, id, x);
    FewerPending(s, s.pending - {id});
  }

  lemma WithdrawTables(s: Core, id: int, x: set<Client>)
    requires Tables(s, x) && (id in s.pending ==> s.pending[id].Call?)
    ensures Tables(Withdraw(s, id), x)
  {
    hide Alive, Owned, Matched;
    MatchedWithoutCall(s.views, s.pending, id);
  }

  lemma MatchedWithoutCall(views: map<Client, View>, pending: map<int, Pending>, id: int)
    requires Matched(views, pending) && (id in pending ==> pending[id].Call?)
    ensures Matched(views, pending - {id}) && |pending - {id}| <= |pending|
  {
    RemoveEntries(views, pending, views, pending - {id});
  }

  lemma FewerPending(s: Core, pending: map<int, Pending>)
    requires History(s) && pending.Keys <= s.pending.Keys && forall id :: id in pending ==> pending[id] == s.pending[id]
    ensures Attributed(s.issued, pending, s.delivered)
  {
    forall p | 0 <= p < |s.delivered| && s.delivered[p].internal.Some?
      ensures RightfulReply(s.issued, pending, s.delivered[p])
    {
      assert RightfulReply(s.issued, s.pending, s.delivered[p]);
    }
  }

  lemma DetachKeeps(k: Codec, s: Core, c: Client)
    requires Inv(s) && c in s.views
    ensures Inv(DetachClient(k, s, c))
  {
    hide InvExcept;
    if !s.closed && ViewOf(s, c).browserId.Some? {
      var m := DetachMessage(ViewOf(s, c).browserId.value);
      IssueKeeps(k, s, Detach, m, {});
      LaterKeeps(Issue(k, s, Detach, m).0, FailTask, {});
    }
  }

  lemma ForgetKeeps(s: Core, c: Client)
    requires Inv(s) && c in s.views && !ViewOf(s, c).closed
    ensures Inv(Forget(s, c))
  {
    ForgetTables(s, c);
    FewerPending(s, Forget(s, c).pending);
  }

  lemma ForgetTables(s: Core, c: Client)
    requires Tables(s, {}) && c in s.views && !ViewOf(s, c).closed
    ensures Tables(Forget(s, c), {})
  {
    var r := Forget(s, c);
    RemoveEntries(s.views, s.pending, r.views, r.pending);
    hide Matched;
  }

  lemma DropKeeps(k: Codec, s: Core, c: Client)
    requires Inv(s) && c in s.views
    ensures Inv(Drop(k, s, c))
  {
    if !ViewOf(s, c).closed {
      ForgetKeeps(s, c);
      DetachKeeps(k, Forget(s, c), c);
    }
  }

  lemma AcceptKeeps(k: Codec, s: Core, c: Client)
    requires Inv(s) && c !in s.views
    ensures Inv(Accept(k, s, c))
  {
    var s0 := Arrive(s, c);
    ArriveKeeps(s, c);
    var (s1, ok) := Issue(k, s0, Attach(c), ATTACH_MESSAGE);
    IssueKeeps(k, s0, Attach(c), ATTACH_MESSAGE, {c});
    LaterKeeps(s1, FailTask, {c});
    AdmitKeeps(if ok then s1 else Later(s1, FailTask), c);
  }

  lemma ArriveKeeps(s: Core, c: Client)
    requires Inv(s) && c !in s.views
    ensures InvExcept(Arrive(s, c), {c})
  {}

  lemma AdmitKeeps(s: Core, c: Client)
    requires InvExcept(s, {c})
    ensures Inv(Admit(s, c))
  {}

  lemma LaterKeeps(s: Core, t: Task, x: set<Client>)
    requires InvExcept(s, x) && (t.FailTask? || t.client in s.views)
    requires t.AttachTask? ==> t.client !in x && !s.closed
    ensures InvExcept(Later(s, t), x)
  {}

  lemma RegisterKeeps(s: Core, c: Client, o: int)
    requires Inv(s) && c in s.views && !ViewOf(s, c).closed && CanIssue(s) && o !in ViewOf(s, c).pendingIds
    ensures Unwritten(Register(s, c, o), {})
  {
    RegisterTables(s, c, o);
    RegisterHistory(s, c, o);
  }

  lemma RegisterTables(s: Core, c: Client, o: int)
    requires Tables(s, {}) && c in s.views && !ViewOf(s, c).closed && CanIssue(s) && o !in ViewOf(s, c).pendingIds
    ensures Tables(Register(s, c, o), {})
  {
    hide Matched, Owned, Alive;
    MatchedWithCommand(s.views, s.pending, s.serial + 1, c, o);
    AliveWith(s.views, s.live, c, ViewOf(s, c).(pendingIds := ViewOf(s, c).pendingIds + {o}));
  }

  lemma AliveWith(views: map<Client, View>, live: set<Client>, c: Client, v: View)
    requires Alive(views, live, {}) && c in views && v.closed == views[c].closed
    ensures Alive(views[c := v], live, {})
  {}

  lemma RegisterHistory(s: Core, c: Client, o: int)
    requires History(s)
    ensures var r := Register(s, c, o);
            && WireBelow(r.wire, r.serial)
            && (forall id :: id in r.issued ==> 0 < id <= r.serial)
            && Attributed(r.issued, r.pending, r.delivered)
  {}

  lemma SubmitKeeps(k: Codec, s: Core, c: Client, input: Option<Message>)
    requires Inv(s) && c in s.views && ViewOf(s, c).browserId.Some?
    ensures Inv(Submit(k, s, c, input))
  {
    LaterKeeps(s, DropTask(c), {});
    if !ViewOf(s, c).closed && input.Some? && !Refused(s, c, input.value) && CanIssue(s) {
      var m := input.value;
      var s1 := Register(s, c, m.id.id);
      var out := Outgoing(m, s1.serial, ViewOf(s, c).browserId.value);
      RegisterKeeps(s, c, m.id.id);
      WriteKeeps(k, s1, out, {});
      LaterKeeps(Write(k, s1, out).0, DropTask(c), {});
    }
  }

  lemma MatchedWithCommand(views: map<Client, View>, pending: map<int, Pending>, id: int, c: Client, o: int)
    requires Matched(views, pending) && id !in pending && c in views && !views[c].closed && o !in views[c].pendingIds
    ensures Matched(views[c := views[c].(pendingIds := views[c].pendingIds + {o})], pending[id := Command(c, o)])
    ensures |pending[id := Command(c, o)]| == |pending| + 1
  {
    var p := pending[id := Command(c, o)];
    assert p[id] == Command(c, o);
    forall d, n | InFlight(pending, d, n)
      ensures InFlight(p, d, n)
    {
      var i :| i in pending && pending[i] == Command(d, n);
      assert p[i] == Command(d, n);
    }
  }

  lemma SendKeeps(k: Codec, s: Core, c: Client, m: Message, internal: Option<int>)
    requires Inv(s) && c in s.views
    requires internal.Some? ==> RightfulReply(s.issued, s.pending, Delivery(c, m, internal))
    requires internal.Some? ==> forall p :: 0 <= p < |s.delivered| ==> s.delivered[p].internal != internal
    ensures Inv(Send(k, s, c, m, internal))
  {
    hide InvExcept;
    var v := ViewOf(s, c);
    var output := Incoming(m, v.browserId);
    var n := v.buffered + |k.encode(output)|;
    if v.closed {
    } else if n > MAX_QUEUED_BYTES {
      DropKeeps(k, s, c);
    } else {
      DeliverKeeps(s, c, Delivery(c, output, internal), n);
    }
  }

  lemma DeliverKeeps(s: Core, c: Client, d: Delivery, n: nat)
    requires Inv(s) && c in s.views && !ViewOf(s, c).closed
    requires d.internal.Some? ==> RightfulReply(s.issued, s.pending, d)
    requires d.internal.Some? ==> forall p :: 0 <= p < |s.delivered| ==> s.delivered[p].internal != d.internal
    ensures Inv(s.(views := s.views[c := ViewOf(s, c).(buffered := n)], delivered := s.delivered + [d]))
  {}

  lemma MatchedWithout(views: map<Client, View>, pending: map<int, Pending>, id: int)
    requires Matched(views, pending) && id in pending && pending[id].Command?
    ensures var c, o := pending[id].client, pending[id].originalId;
            Matched(views[c := views[c].(pendingIds := views[c].pendingIds - {o})], pending - {id})
    ensures |pending - {id}| <= |pending|
  {
    var c, o := pending[id].client, pending[id].originalId;
    var p := pending - {id};
    forall d, n | InFlight(pending, d, n) && (d, n) != (c, o)
      ensures InFlight(p, d, n)
    {
      var i :| i in pending && pending[i] == Command(d, n);
      assert p[i] == Command(d, n);
    }
    SubsetSize(p.Keys, pending.Keys);
  }

  lemma AnswerKeeps(s: Core, id: int, m: Message)
    requires Inv(s) && id in s.pending && s.pending[id].Command?
    ensures Inv(Answer(s, id, m))
  {
    hide Matched;
    InvCommand(s, id);
    MatchedWithout(s.views, s.pending, id);
  }

  lemma OwnersKeep(s: Core, owners: map<string, Client>)
    requires Inv(s) && Owned(owners, s.live) && (s.closed ==> owners == map[])
    ensures Inv(s.(owners := owners))
  {}

  lemma AfterEventKeeps(s: Core, m: Message)
    requires Inv(s)
    ensures Inv(AfterEvent(s, m))
  {
    OwnersKeep(s, Unclaim(s.owners, m.childId));
  }

  lemma RouteEventKeeps(k: Codec, s: Core, m: Message)
    requires Inv(s)
    ensures Inv(RouteEvent(k, s, m))
  {
    if m.sessionId.Text? && m.sessionId.value in s.owners {
      var c := s.owners[m.sessionId.value];
      var s1 := BeforeEvent(s, m, c);
      OwnersKeep(s, s1.owners);
      SendKeeps(k, s1, c, m, None);
      AfterEventKeeps(Send(k, s1, c, m, None), m);
    }
  }

  lemma RouteReplyKeeps(k: Codec, s: Core, m: Message)
    requires Inv(s) && m.id.SafeId?
    ensures Inv(RouteReply(k, s, m))
  {
    var id := m.id.id;
    if id in s.pending {
      match s.pending[id]
      case Call(purpose) =>
        var s1 := Withdraw(s, id);
        WithdrawKeeps(s, id, {});
        LaterKeeps(s1, FailTask, {});
        if purpose.Attach? {
          LaterKeeps(s1, AttachTask(purpose.client, m.resultSession), {});
        }
      case Command(c, o) =>
        AnswerKeeps(s, id, m);
        SendKeeps(k, Answer(s, id, m), c, m.(id := SafeId(o)), Some(id));
    }
  }

  lemma RouteKeeps(k: Codec, s: Core, m: Message)
    requires Inv(s)
    ensures Inv(Route(k, s, m))
  {
    match m.id
    case BadId => CloseKeeps(s, {});
    case NoId => RouteEventKeeps(k, s, m);
    case SafeId(_) => RouteReplyKeeps(k, s, m);
  }

  lemma AttachedKeeps(s: Core, c: Client, session: string)
    requires Inv(s) && c in s.views && (s.closed ==> ViewOf(s, c).closed)
    ensures Inv(Attached(s, c, session))
  {
    assert Matched(Attached(s, c, session).views, s.pending);
    hide Matched;
  }

  lemma NextTask(s: Core)
    requires Inv(s) && s.tasks != []
    ensures Inv(s.(tasks := s.tasks[1..]))
    ensures s.tasks[0].AttachTask? ==> s.closed ==> ViewOf(s, s.tasks[0].client).closed
  {}

  lemma RunTaskKeeps(k: Codec, s: Core)
    requires Inv(s) && s.tasks != []
    ensures Inv(RunTask(k, s))
  {
    var s0 := s.(tasks := s.tasks[1..]);
    NextTask(s);
    match s.tasks[0]
    case FailTask => CloseKeeps(s0, {});
    case DropTask(c) => DropKeeps(k, s0, c);
    case AttachTask(c, session) =>
      LaterKeeps(s0, FailTask, {});
      if session.Text? {
        AttachedKeeps(s0, c, session.value);
        DetachKeeps(k, Attached(s0, c, session.value), c);
      }
  }

  lemma TimeoutKeeps(s: Core, id: int)
    requires Inv(s) && id in s.pending && s.pending[id].Call?
    ensures Inv(Timeout(s, id))
  {
    WithdrawKeeps(s, id, {});
    LaterKeeps(Withdraw(s, id), FailTask, {});
  }

  lemma ConsumeKeeps(k: Codec, s: Core, frame: seq<Byte>)
    requires Inv(s)
    ensures Inv(Consume(k, s, frame))
  {
    hide InvExcept, Route, Close;
    CloseKeeps(s, {});
    var m := k.decode(frame);
    if m.Some? { RouteKeeps(k, s, m.value); }
  }

  lemma {:induction false} DrainKeeps(k: Codec, s: Core, buffer: seq<Byte>)
    requires Inv(s)
    ensures Inv(Drain(k, s, buffer).core)
    decreases |buffer|
  {
    hide InvExcept, Consume, Close;
    CloseKeeps(s, {});
    var i := FirstNul(buffer);
    if !s.closed && i <= MAX_MESSAGE_BYTES && i < |buffer| {
      ConsumeKeeps(k, s, buffer[..i]);
      DrainKeeps(k, if i == 0 then s else Consume(k, s, buffer[..i]), buffer[i + 1..]);
    }
  }

  // ---- Runs ----

  datatype Event =
    | Accepted(client: Client)
    | Received(client: Client, input: Option<Message>)  // a WebSocket message, once the client is attached
    | Dropped(client: Client)                           // socket closed, socket error, or command timeout
    | SocketSent(client: Client, bytes: nat)
    | Asked(message: Message)                           // getVersion, closeBrowser
    | TimedOut(id: int)
    | TaskRun
    | Chunk(data: seq<Byte>)
    | PipeSent(bytes: nat)
    | Ended                                             // pipe error or end, cancellation, close()

  ghost predicate Enabled(p: Pipe, e: Event) {
    match e
    case Accepted(c) => !p.core.closed && c !in p.core.views
    case Received(c, _) => c in p.core.views && p.core.views[c].browserId.Some?
    case Dropped(c) => c in p.core.views
    case SocketSent(c, n) => c in p.core.views && n <= p.core.views[c].buffered
    case TimedOut(id) => id in p.core.pending && p.core.pending[id].Call?
    case TaskRun => p.core.tasks != []
    case PipeSent(n) => n <= p.core.queued
    case Asked(_) => true
    case Chunk(_) => true
    case Ended => true
  }

  /** The buffer is emptied with the bridge. */
  ghost function With(p: Pipe, s: Core): Pipe {
    Pipe(s, if s.closed then [] else p.buffer)
  }

  ghost function Step(k: Codec, p: Pipe, e: Event): (r: Pipe)
    requires Enabled(p, e)
  {
    var s := p.core;
    match e
    case Accepted(c) => With(p, Accept(k, s, c))
    case Received(c, input) => With(p, Submit(k, s, c, input))
    case Dropped(c) => With(p, Drop(k, s, c))
    case SocketSent(c, n) => p.(core := s.(views := s.views[c := ViewOf(s, c).(buffered := ViewOf(s, c).buffered - n)]))
    case Asked(m) => With(p, Issue(k, s, Query, m).0)
    case TimedOut(id) => With(p, Timeout(s, id))
    case TaskRun => With(p, RunTask(k, s))
    case Chunk(bytes) => Read(k, p, bytes)
    case PipeSent(n) => p.(core := s.(queued := s.queued - n))
    case Ended => With(p, Close(s))
  }

  lemma SocketSentKeeps(s: Core, c: Client, v: View)
    requires Inv(s) && c in s.views && v == ViewOf(s, c).(buffered := v.buffered)
    ensures Inv(s.(views := s.views[c := v]))
  {}

  lemma PipeSentKeeps(s: Core, queued: nat)
    requires Inv(s)
    ensures Inv(s.(queued := queued))
  {}

  // Parts of the invariant, for proofs that do not look inside it.

  lemma InvOwners(s: Core)
    requires Inv(s)
    ensures Alive(s.views, s.live, {}) && Owned(s.owners, s.live) && (s.closed ==> s.owners == map[])
    ensures forall sid :: sid in s.owners ==> s.owners[sid] in s.views
  {}

  lemma InvCommand(s: Core, id: int)
    requires Inv(s) && id in s.pending && s.pending[id].Command?
    ensures var c := s.pending[id].client;
            c in s.views && !ViewOf(s, c).closed && s.pending[id].originalId in ViewOf(s, c).pendingIds
  {}

  lemma InvTask(s: Core)
    requires Inv(s) && s.tasks != []
    ensures s.tasks[0].FailTask? || s.tasks[0].client in s.views
  {}

  lemma StepKeeps(k: Codec, p: Pipe, e: Event)
    requires Inv(p.core) && Enabled(p, e)
    ensures Inv(Step(k, p, e).core)
  {
    hide InvExcept;
    var s := p.core;
    match e
    case Accepted(c) => AcceptKeeps(k, s, c);
    case Received(c, input) => SubmitKeeps(k, s, c, input);
    case Dropped(c) => DropKeeps(k, s, c);
    case SocketSent(c, n) => SocketSentKeeps(s, c, ViewOf(s, c).(buffered := ViewOf(s, c).buffered - n));
    case Asked(m) => IssueKeeps(k, s, Query, m, {});
    case TimedOut(id) => TimeoutKeeps(s, id);
    case TaskRun => RunTaskKeeps(k, s);
    case Chunk(bytes) => DrainKeeps(k, s, p.buffer + bytes);
    case PipeSent(n) => PipeSentKeeps(s, s.queued - n);
    case Ended => CloseKeeps(s, {});
  }

  ghost predicate Possible(k: Codec, p: Pipe, run: seq<Event>)
    decreases |run|
  {
    run == [] || (Enabled(p, run[0]) && Possible(k, Step(k, p, run[0]), run[1..]))
  }

  ghost function Run(k: Codec, p: Pipe, run: seq<Event>): Pipe
    requires Possible(k, p, run)
    decreases |run|
  {
    if run == [] then p else Run(k, Step(k, p, run[0]), run[1..])
  }

  lemma {:induction false} RunKeeps(k: Codec, p: Pipe, run: seq<Event>)
    requires Inv(p.core) && Possible(k, p, run)
    ensures Inv(Run(k, p, run).core)
    decreases |run|
  {
    if run != [] {
      StepKeeps(k, p, run[0]);
      RunKeeps(k, Step(k, p, run[0]), run[1..]);
    }
  }

  const START := Pipe(INITIAL_CORE, [])

  lemma StartInv()
    ensures Inv(START.core)
  {}

  /**
   In every reachable state: each client's commands in flight and its pending
   ids correspond one to one, all owners are live clients, and no internal id
   was written to Chrome twice.
   */
  lemma TablesAgree(k: Codec, run: seq<Event>)
    requires Possible(k, START, run)
    ensures var s := Run(k, START, run).core;
            && (forall c, o :: c in s.live ==> (o in ViewOf(s, c).pendingIds <==> InFlight(s.pending, c, o)))
            && (forall i, j :: i in s.pending && j in s.pending && s.pending[i].Command? && s.pending[i] == s.pending[j] ==> i == j)
            && (forall id :: id in s.pending && s.pending[id].Command? ==> s.pending[id].client in s.live)
            && (forall sid :: sid in s.owners ==> s.owners[sid] in s.live)
            && (forall i :: 0 <= i < |s.wire| ==> s.wire[i].id.SafeId?)
            && (forall i, j :: 0 <= i < j < |s.wire| ==> s.wire[i].id.id < s.wire[j].id.id)
  {
    StartInv();
    RunKeeps(k, START, run);
    var s := Run(k, START, run).core;
    assert WireBelow(s.wire, s.serial + 1);
    forall c, o | c in s.live && InFlight(s.pending, c, o)
      ensures o in ViewOf(s, c).pendingIds
    {
      var i :| i in s.pending && s.pending[i] == Command(c, o);
    }
  }

  /**
   Every reply that reached a client answers a command of that client, carries
   the client's own id, and no command is answered twice.
   */
  lemma RepliesAreAttributed(k: Codec, run: seq<Event>)
    requires Possible(k, START, run)
    ensures var s := Run(k, START, run).core;
            && (forall p :: 0 <= p < |s.delivered| && s.delivered[p].internal.Some? ==>
                  var d := s.delivered[p];
                  && d.internal.value in s.issued
                  && d.message.id.SafeId?
                  && s.issued[d.internal.value] == (d.client, d.message.id.id))
            && (forall p, q :: 0 <= p < q < |s.delivered| && s.delivered[p].internal.Some?
                  ==> s.delivered[p].internal != s.delivered[q].internal)
  {
    StartInv();
    RunKeeps(k, START, run);
    var s := Run(k, START, run).core;
    forall p | 0 <= p < |s.delivered| && s.delivered[p].internal.Some?
      ensures RightfulReply(s.issued, s.pending, s.delivered[p])
    {}
  }

  /**
   What a client's message makes of the pipe: nothing, or one message, which is the
   client's own under the next internal id and, without a session of its own, for the
   client's browser session.
   */
  lemma ForwardedAsOwnCommand(k: Codec, s: Core, c: Client, input: Option<Message>)
    requires Inv(s) && c in s.views && ViewOf(s, c).browserId.Some?
    ensures var r := Submit(k, s, c, input);
            || r.wire == s.wire
            || (input.Some? && !Refused(s, c, input.value) && input.value.id.SafeId?
                && var m := input.value;
                   var session := if m.sessionId.Text? then m.sessionId else Text(ViewOf(s, c).browserId.value);
                && r.wire == s.wire + [m.(id := SafeId(s.serial + 1), sessionId := session)]
                && s.serial + 1 !in s.issued && r.issued == s.issued[s.serial + 1 := (c, m.id.id)]
                && (m.sessionId.Text? ==> session.value in s.owners && s.owners[session.value] == c))
  {
    hide Tables, Attributed, WireBelow;
  }

  /**
   close() empties the in-flight table but leaves the clients' pending ids, so for
   a client it ends the correspondence survives exactly if nothing was in flight.
   */
  lemma PendingIdsAfterClose(s: Core, c: Client)
    requires Inv(s) && !s.closed && c in s.live
    ensures var r := Close(s);
            (forall o :: o in ViewOf(r, c).pendingIds <==> InFlight(r.pending, c, o)) <==> ViewOf(s, c).pendingIds == {}
  {
    var r := Close(s);
    assert forall o :: !InFlight(r.pending, c, o);
    assert ViewOf(r, c).pendingIds == ViewOf(s, c).pendingIds;
    if forall o :: o !in ViewOf(s, c).pendingIds { NoElement(ViewOf(s, c).pendingIds); }
  }
}

/** The bridge object. Its methods update the tables in place, one JavaScript job each. */
module CdpPipeBridge {
  import opened Basics
  import opened CdpBridgeModel
  import F = CdpFraming

  class Bridge {
    const codec: Codec
    var clients: set<Client>
    var owners: map<string, Client>
    var pending: map<int, Pending>
    var buffer: seq<Byte>
    var serial: nat
    var closed: bool
    var queued: nat
    var tasks: seq<Task>
    ghost var views: map<Client, View>  // the fields of every client ever accepted
    ghost var wire: seq<Message>
    ghost var issued: map<int, (Client, int)>
    ghost var delivered: seq<Delivery>

    ghost predicate Valid()
      reads this, views.Keys
    {
      && (forall c :: c in views ==> views[c] == View(c.closed, c.browserId, c.pendingIds, c.buffered))
      && clients <= views.Keys
      && (forall sid :: sid in owners ==> owners[sid] in views)
      && (forall id :: id in pending && pending[id].Command? ==> pending[id].client in views)
      && (forall id :: id in pending && pending[id].Call? && pending[id].purpose.Attach? ==> pending[id].purpose.client in views)
      && (forall t :: t in tasks && !t.FailTask? ==> t.client in views)
    }

    ghost function Model(): Core
      reads this
    {
      Core(views, clients, owners, pending, serial, closed, queued, tasks, wire, issued, delivered)
    }

    constructor (codec: Codec)
      ensures Valid() && Model() == INITIAL_CORE && buffer == [] && this.codec == codec
    {
      this.codec := codec;
      clients, owners, pending, buffer := {}, map[], map[], [];
      serial, closed, queued, tasks := 0, false, 0, [];
      views, wire, issued, delivered := map[], [], map[], [];
    }

    method AddTask(t: Task)
      requires Valid() && (!t.FailTask? ==> t.client in views)
      modifies this`tasks
      ensures Valid() && tasks == old(tasks) + [t]
    {
      tasks := tasks + [t];
    }

    method CloseBridge()
      requires Valid()
      modifies this, views.Keys
      ensures Valid() && views.Keys == old(views.Keys) && Model() == Close(old(Model()))
      ensures buffer == if old(closed) then old(buffer) else []
    {
      if closed { return; }
      closed := true;
      RejectPending();
      TerminateClients();
      clients, owners, buffer := {}, map[], [];
    }

    method RejectPending()
      modifies this`pending
      ensures pending == map[]
    {
      while pending.Keys != {}
        decreases pending.Keys
      {
        var ids := pending.Keys;
        var id := Pick(ids);
        pending := pending - {id};
      }
    }

    method TerminateClients()
      requires Valid()
      modifies this`views, views.Keys
      ensures Valid() && views == AllClosed(old(views), clients)
    {
      var open := clients;
      while open != {}
        invariant open <= clients && Valid()
        invariant views == AllClosed(old(views), clients - open)
        decreases open
      {
        var c := Pick(open);
        open := open - {c};
        c.closed := true;
        views := views[c := views[c].(closed := true)];
      }
      assert clients - open == clients;
    }

    method Write(m: Message) returns (ok: bool)
      requires Valid()
      modifies this, views.Keys
      ensures Valid() && views.Keys == old(views.Keys)
      ensures (Model(), ok) == CdpBridgeModel.Write(codec, old(Model()), m)
      ensures buffer == if closed && !old(closed) then [] else old(buffer)
    {
      if closed { return false; }
      var n := |codec.encode(m)| + 1;
      if n > MAX_MESSAGE_BYTES + 1 { return false; }
      if queued + n > MAX_QUEUED_BYTES {
        CloseBridge();
        return false;
      }
      queued := queued + n;
      wire := wire + [m];
      return true;
    }

    /** #call; `ok` is false when its promise is already rejected. */
    method CallChrome(purpose: Purpose, m: Message) returns (ok: bool)
      requires Valid() && (purpose.Attach? ==> purpose.client in views)
      modifies this, views.Keys
      ensures Valid() && views.Keys == old(views.Keys)
      ensures (Model(), ok) == Issue(codec, old(Model()), purpose, m)
      ensures buffer == if closed && !old(closed) then [] else old(buffer)
    {
      hide CdpBridgeModel.Write;
      if closed || |pending| >= MAX_PENDING_COMMANDS || serial >= MAX_SAFE_INTEGER { return false; }
      serial := serial + 1;
      var id := serial;
      pending := pending[id := Call(purpose)];
      ok := Write(m.(id := SafeId(id)));
      if !ok {
        pending := pending - {id};
      }
    }

    method Detach(c: Client)
      requires Valid() && c in views
      modifies this, views.Keys
      ensures Valid() && views.Keys == old(views.Keys) && Model() == DetachClient(codec, old(Model()), c)
      ensures buffer == if closed && !old(closed) then [] else old(buffer)
    {
      hide Issue;
      if closed || c.browserId.None? { return; }
      var ok := CallChrome(Purpose.Detach, DetachMessage(c.browserId.value));
      if !ok {
        AddTask(FailTask);
      }
    }

    method ForgetPending(c: Client)
      modifies this`pending
      ensures pending == WithoutClient(old(pending), c)
    {
      var ids := pending.Keys;
      while ids != {}
        invariant ids <= old(pending).Keys
        invariant pending == map id | id in old(pending) && (id in ids || !IsOf(old(pending)[id], c)) :: old(pending)[id]
      {
        var id := Pick(ids);
        ids := ids - {id};
        if IsOf(pending[id], c) {
          pending := pending - {id};
        }
      }
    }

    method ForgetOwners(c: Client)
      modifies this`owners
      ensures owners == WithoutOwner(old(owners), c)
    {
      var sids := owners.Keys;
      while sids != {}
        invariant sids <= old(owners).Keys
        invariant owners == map sid | sid in old(owners) && (sid in sids || old(owners)[sid] != c) :: old(owners)[sid]
      {
        var sid := Pick(sids);
        sids := sids - {sid};
        if owners[sid] == c {
          owners := owners - {sid};
        }
      }
    }

    method Drop(c: Client)
      requires Valid() && c in views
      modifies this, views.Keys
      ensures Valid() && views.Keys == old(views.Keys) && Model() == CdpBridgeModel.Drop(codec, old(Model()), c)
      ensures buffer == if closed && !old(closed) then [] else old(buffer)
    {
      hide DetachClient, Forget;
      if c.closed { return; }
      ForgetClient(c);
      Detach(c);
    }

    method ForgetClient(c: Client)
      requires Valid() && c in views
      modifies this, c
      ensures Valid() && Model() == Forget(old(Model()), c)
      ensures buffer == old(buffer) && closed == old(closed) && views.Keys == old(views.Keys)
    {
      c.closed := true;
      clients := clients - {c};
      ForgetPending(c);
      c.pendingIds := {};
      ForgetOwners(c);
      views := views[c := views[c].(closed := true, pendingIds := {})];
    }

    method Welcome() returns (c: Client)
      requires Valid()
      modifies this`views
      ensures Valid() && fresh(c) && views == old(views)[c := View(false, None, {}, 0)]
    {
      c := new Client();
      views := views[c := View(false, None, {}, 0)];
    }

    method Accept() returns (c: Client)
      requires Valid()
      modifies this, views.Keys
      ensures Valid() && fresh(c) && views.Keys == old(views.Keys) + {c}
      ensures Model() == CdpBridgeModel.Accept(codec, old(Model()), c)
    {
      hide Issue;
      c := Welcome();
      BeginAttach(c);
      clients := clients + {c};
    }

    method BeginAttach(c: Client)
      requires Valid() && c in views
      modifies this, views.Keys
      ensures Valid() && views.Keys == old(views.Keys)
      ensures Model() == var (s, ok) := Issue(codec, old(Model()), Attach(c), ATTACH_MESSAGE); if ok then s else Later(s, FailTask)
    {
      hide Issue;
      var ok := CallChrome(Attach(c), ATTACH_MESSAGE);
      if !ok {
        AddTask(FailTask);
      }
    }

    method SetPendingIds(c: Client, ids: set<int>)
      requires Valid() && c in views
      modifies this`views, c`pendingIds
      ensures Valid() && views == old(views)[c := old(views)[c].(pendingIds := ids)]
    {
      c.pendingIds := ids;
      views := views[c := views[c].(pendingIds := ids)];
    }

    method SetBuffered(c: Client, bytes: nat)
      requires Valid() && c in views
      modifies this`views, c`buffered
      ensures Valid() && views == old(views)[c := old(views)[c].(buffered := bytes)]
    {
      c.buffered := bytes;
      views := views[c := views[c].(buffered := bytes)];
    }

    method Register(c: Client, originalId: int)
      requires Valid() && c in views
      modifies this`serial, this`views, this`pending, this`issued, c`pendingIds
      ensures Valid() && Model() == CdpBridgeModel.Register(old(Model()), c, originalId)
      ensures views.Keys == old(views.Keys)
    {
      serial := serial + 1;
      SetPendingIds(c, c.pendingIds + {originalId});
      pending := pending[serial := Command(c, originalId)];
      issued := issued[serial := (c, originalId)];
    }

    /** The 'message' handler, after the client's attachment. */
    method OnMessage(c: Client, input: Option<Message>)
      requires Valid() && c in views && c.browserId.Some?
      modifies this, views.Keys
      ensures Valid() && views.Keys == old(views.Keys) && Model() == Submit(codec, old(Model()), c, input)
    {
      hide CdpBridgeModel.Write, CdpBridgeModel.Register;
      if c.closed { return; }
      if input.None?
         || !input.value.id.SafeId? || input.value.id.id < 0
         || !input.value.verb.Text?
         || input.value.sessionId.Malformed?
         || (input.value.sessionId.Text? && !(input.value.sessionId.value in owners && owners[input.value.sessionId.value] == c))
         || input.value.id.id in c.pendingIds
         || closed || |pending| >= MAX_PENDING_COMMANDS || serial >= MAX_SAFE_INTEGER
      {
        AddTask(DropTask(c));
        return;
      }
      var m := input.value;
      Register(c, m.id.id);
      var ok := Write(Outgoing(m, serial, c.browserId.value));
      if !ok {
        AddTask(DropTask(c));
      }
    }

    method Send(c: Client, m: Message, ghost internal: Option<int>)
      requires Valid() && c in views
      modifies this, views.Keys
      ensures Valid() && views.Keys == old(views.Keys) && Model() == CdpBridgeModel.Send(codec, old(Model()), c, m, internal)
      ensures buffer == if closed && !old(closed) then [] else old(buffer)
    {
      hide CdpBridgeModel.Drop;
      if c.closed { return; }
      var output := Incoming(m, c.browserId);
      var n := |codec.encode(output)|;
      if c.buffered + n > MAX_QUEUED_BYTES {
        Drop(c);
        return;
      }
      Deliver(c, output, n, internal);
    }

    method Deliver(c: Client, output: Message, n: nat, ghost internal: Option<int>)
      requires Valid() && c in views
      modifies this`views, this`delivered, c`buffered
      ensures Valid() && views == old(views)[c := old(views)[c].(buffered := old(c.buffered) + n)]
      ensures delivered == old(delivered) + [Delivery(c, output, internal)]
    {
      SetBuffered(c, c.buffered + n);
      delivered := delivered + [Delivery(c, output, internal)];
    }

    method RouteReply(id: int, m: Message)
      requires Valid() && m.id == SafeId(id)
      modifies this, views.Keys
      ensures Valid() && views.Keys == old(views.Keys) && Model() == CdpBridgeModel.RouteReply(codec, old(Model()), m)
      ensures buffer == if closed && !old(closed) then [] else old(buffer)
    {
      hide CdpBridgeModel.Send, CdpBridgeModel.Answer;
      if id !in pending { return; }
      match pending[id]
      case Call(purpose) =>
        pending := pending - {id};
        if m.isError {
          if !purpose.Query? { AddTask(FailTask); }
        } else if purpose.Attach? {
          AddTask(AttachTask(purpose.client, m.resultSession));
        }
      case Command(c, originalId) =>
        Answer(id, m);
        Send(c, m.(id := SafeId(originalId)), Some(id));
    }

    method Answer(id: int, m: Message)
      requires Valid() && id in pending && pending[id].Command?
      modifies this, pending[id].client
      ensures Valid() && Model() == CdpBridgeModel.Answer(old(Model()), id, m)
      ensures buffer == old(buffer) && closed == old(closed) && views.Keys == old(views.Keys)
    {
      var c, originalId := pending[id].client, pending[id].originalId;
      pending := pending - {id};
      SetPendingIds(c, c.pendingIds - {originalId});
      if m.resultSession.Text? {
        owners := owners[m.resultSession.value := c];
      }
    }

    method RouteEvent(m: Message)
      requires Valid()
      modifies this, views.Keys
      ensures Valid() && views.Keys == old(views.Keys) && Model() == CdpBridgeModel.RouteEvent(codec, old(Model()), m)
      ensures buffer == if closed && !old(closed) then [] else old(buffer)
    {
      hide CdpBridgeModel.Send;
      if !m.sessionId.Text? || m.sessionId.value !in owners { return; }
      var c := owners[m.sessionId.value];
      if m.verb == Text("Target.attachedToTarget") && m.childId.Text? {
        owners := owners[m.childId.value := c];
      }
      assert Model() == BeforeEvent(old(Model()), m, c);
      Send(c, m, None);
      if m.verb == Text("Target.detachedFromTarget") && m.childId.Text? {
        owners := owners - {m.childId.value};
      }
    }

    /** One turn of #read's loop: fails, stops short of a separator, or takes a frame. */
    method ReadFrame() returns (more: bool)
      requires Valid() && !closed
      modifies this, views.Keys
      ensures Valid() && views.Keys == old(views.Keys) && (closed ==> buffer == [])
      ensures more ==> |buffer| < |old(buffer)| && !closed
      ensures more ==> F.Drain(codec, Model(), buffer) == F.Drain(codec, old(Model()), old(buffer))
      ensures !more ==> F.Pipe(Model(), buffer) == F.Drain(codec, old(Model()), old(buffer))
    {
      hide F.Consume;
      var separator := F.FirstNul(buffer);
      if separator == |buffer| {
        if |buffer| > MAX_MESSAGE_BYTES { CloseBridge(); }
        return false;
      }
      if separator > MAX_MESSAGE_BYTES {
        CloseBridge();
        return false;
      }
      var frame := buffer[..separator];
      buffer := buffer[separator + 1..];
      if |frame| > 0 {
        Consume(frame);
      }
      return !closed;
    }

    /** #read: append the chunk, then route every complete frame. */
    method Read(chunk: seq<Byte>)
      requires Valid()
      modifies this, views.Keys
      ensures Valid() && views.Keys == old(views.Keys)
      ensures F.Pipe(Model(), buffer) == F.Read(codec, F.Pipe(old(Model()), old(buffer)), chunk)
    {
      hide F.Drain;
      if closed { return; }
      buffer := buffer + chunk;
      var more := true;
      while more
        invariant Valid() && views.Keys == old(views.Keys) && (more ==> !closed)
        invariant more ==> F.Drain(codec, Model(), buffer) == F.Drain(codec, old(Model()), old(buffer) + chunk)
        invariant !more ==> F.Pipe(Model(), buffer) == F.Drain(codec, old(Model()), old(buffer) + chunk)
        decreases more, |buffer|
      {
        more := ReadFrame();
      }
    }

    /** parseMessage and #route. */
    method Consume(frame: seq<Byte>)
      requires Valid()
      modifies this, views.Keys
      ensures Valid() && views.Keys == old(views.Keys) && Model() == F.Consume(codec, old(Model()), frame)
      ensures buffer == if closed && !old(closed) then [] else old(buffer)
    {
      var parsed := codec.decode(frame);
      if parsed.None? {
        CloseBridge();
      } else {
        match parsed.value.id
        case BadId => CloseBridge();
        case SafeId(id) => RouteReply(id, parsed.value);
        case NoId => RouteEvent(parsed.value);
      }
    }

    /** The next continuation. */
    method RunTask()
      requires Valid() && tasks != []
      modifies this, views.Keys
      ensures Valid() && views.Keys == old(views.Keys) && Model() == CdpBridgeModel.RunTask(codec, old(Model()))
    {
      hide CdpBridgeModel.Drop, DetachClient, Attached, Close;
      var task := tasks[0];
      tasks := tasks[1..];
      match task
      case FailTask => CloseBridge();
      case DropTask(c) => Drop(c);
      case AttachTask(c, session) =>
        if !session.Text? {
          AddTask(FailTask);
        } else {
          var gone := c.closed;
          LearnSession(c, session.value);
          if gone { Detach(c); }
        }
    }

    method LearnSession(c: Client, session: string)
      requires Valid() && c in views
      modifies this, c
      ensures Valid() && Model() == Attached(old(Model()), c, session)
      ensures views.Keys == old(views.Keys)
    {
      c.browserId := Some(session);
      views := views[c := views[c].(browserId := Some(session))];
      if !c.closed {
        owners := owners[session := c];
      }
    }

    /** The timer of one of the bridge's own calls. */
    method OnTimeout(id: int)
      requires Valid() && id in pending && pending[id].Call?
      modifies this
      ensures Valid() && views.Keys == old(views.Keys) && Model() == Timeout(old(Model()), id)
    {
      var purpose := pending[id].purpose;
      pending := pending - {id};
      if !purpose.Query? {
        AddTask(FailTask);
      }
    }
  }
}

/**
 The CDP pipe bridge as a transition system: many browser clients share one
 pipe to Chrome. Command ids are remapped to one serial, session ownership is
 tracked per client, and every await in the source is a step boundary
 (microtasks wait in `tasks`).

 The last three fields of `Core` are history. No transition reads them.
 */
module CdpBridgeModel {
  import opened Basics

  const MAX_MESSAGE_BYTES: nat := 16 * 1024 * 1024
  const MAX_QUEUED_BYTES: nat := 2 * MAX_MESSAGE_BYTES
  const MAX_PENDING_COMMANDS: nat := 16_384

  newtype Byte = b: int | 0 <= b < 256

  /** One connected browser client. Its fields are updated in place by the bridge. */
  class Client {
    var closed: bool
    var browserId: Option<string>
    var pendingIds: set<int>
    var buffered: nat  // the socket's unsent bytes

    constructor ()
      ensures !closed && browserId == None && pendingIds == {} && buffered == 0
    {
      closed, browserId, pendingIds, buffered := false, None, {}, 0;
    }
  }

  /** The value of a client's fields. */
  datatype View = View(closed: bool, browserId: Option<string>, pendingIds: set<int>, buffered: nat)

  /** An untyped JSON field: missing, of the expected type, or of another type. */
  datatype IdField = NoId | SafeId(id: int) | BadId
  datatype Text = Absent | Text(value: string) | Malformed

  /** The parts of a JSON message the bridge looks at; `body` is everything else. */
  datatype Message = Message(
    id: IdField,
    verb: Text,          // the "method" field
    sessionId: Text,
    childId: Text,        // params.sessionId
    resultSession: Text,  // result.sessionId
    isError: bool,
    body: string)

  /** JSON.stringify and JSON.parse. */
  datatype Codec = Codec(encode: Message -> seq<Byte>, decode: seq<Byte> -> Option<Message>)

  datatype Purpose = Attach(client: Client) | Detach | Query

  datatype Pending =
    | Command(client: Client, originalId: int)
    | Call(purpose: Purpose)

  /** Continuations that run after the current JavaScript job. */
  datatype Task = FailTask | DropTask(client: Client) | AttachTask(client: Client, session: Text)

  datatype Delivery = Delivery(client: Client, message: Message, internal: Option<int>)

  datatype Core = Core(
    views: map<Client, View>,       // every client ever accepted
    live: set<Client>,              // #clients
    owners: map<string, Client>,    // #owners
    pending: map<int, Pending>,     // #pending
    serial: nat,
    closed: bool,
    queued: nat,                    // writable.writableLength
    tasks: seq<Task>,
    wire: seq<Message>,             // history: messages written to Chrome
    issued: map<int, (Client, int)>,  // history: client and own id behind each internal id
    delivered: seq<Delivery>)       // history: messages sent to clients

  const INITIAL_CORE := Core(map[], {}, map[], map[], 0, false, 0, [], [], map[], [])

  const ATTACH_MESSAGE := Message(NoId, Text("Target.attachToBrowserTarget"), Absent, Absent, Absent, false, "")

  function DetachMessage(browserId: string): Message {
    Message(NoId, Text("Target.detachFromTarget"), Absent, Text(browserId), Absent, false, "")
  }

  /** A client's fields; clients never accepted count as closed. */
  function ViewOf(s: Core, c: Client): View {
    if c in s.views then s.views[c] else View(true, None, {}, 0)
  }

  predicate IsOf(p: Pending, c: Client) {
    p.Command? && p.client == c
  }

  function WithoutClient(pending: map<int, Pending>, c: Client): map<int, Pending> {
    map id | id in pending && !IsOf(pending[id], c) :: pending[id]
  }

  function WithoutOwner(owners: map<string, Client>, c: Client): map<string, Client> {
    map sid | sid in owners && owners[sid] != c :: owners[sid]
  }

  function AllClosed(views: map<Client, View>, live: set<Client>): map<Client, View> {
    map c | c in views :: if c in live then views[c].(closed := true) else views[c]
  }

  /** close(), up to its first await; #fail does the same and then reports the failure. */
  function Close(s: Core): (r: Core)
    ensures s.views.Keys <= r.views.Keys
  {
    if s.closed then s else
      s.(closed := true, pending := map[], live := {}, owners := map[], views := AllClosed(s.views, s.live))
  }

  /** #write: the message reaches the pipe, is too large, or overflows the queue and ends the bridge. */
  function Write(k: Codec, s: Core, m: Message): (r: (Core, bool))
    ensures s.views.Keys <= r.0.views.Keys
    ensures r.1 ==> !r.0.closed
  {
    var n := |k.encode(m)| + 1;
    if s.closed || n > MAX_MESSAGE_BYTES + 1 then (s, false)
    else if s.queued + n > MAX_QUEUED_BYTES then (Close(s), false)
    else (s.(queued := s.queued + n, wire := s.wire + [m]), true)
  }

  /** #nextId succeeds. */
  predicate CanIssue(s: Core) {
    !s.closed && |s.pending| < MAX_PENDING_COMMANDS && s.serial < MAX_SAFE_INTEGER
  }

  function Enter(s: Core, purpose: Purpose): (r: Core)
    ensures s.views.Keys <= r.views.Keys
  {
    s.(serial := s.serial + 1, pending := s.pending[s.serial + 1 := Call(purpose)])
  }

  function Withdraw(s: Core, id: int): (r: Core)
    ensures s.views.Keys <= r.views.Keys
  {
    s.(pending := s.pending - {id})
  }

  /** #call: a command of the bridge itself. A failed write withdraws the entry. */
  function Issue(k: Codec, s: Core, purpose: Purpose, m: Message): (r: (Core, bool))
    ensures s.views.Keys <= r.0.views.Keys
  {
    if !CanIssue(s) then (s, false) else
      var id := s.serial + 1;
      var (s1, ok) := Write(k, Enter(s, purpose), m.(id := SafeId(id)));
      if ok then (s1, true) else (Withdraw(s1, id), false)
  }

  function Later(s: Core, t: Task): (r: Core)
    ensures s.views.Keys <= r.views.Keys
  {
    s.(tasks := s.tasks + [t])
  }

  /** #detach: a lost detach ends the bridge. */
  function DetachClient(k: Codec, s: Core, c: Client): (r: Core)
    ensures s.views.Keys <= r.views.Keys
  {
    if s.closed || ViewOf(s, c).browserId.None? then s else
      var (s1, ok) := Issue(k, s, Detach, DetachMessage(ViewOf(s, c).browserId.value));
      if ok then s1 else Later(s1, FailTask)
  }

  /** #drop up to the detach call. */
  function Forget(s: Core, c: Client): (r: Core)
    ensures s.views.Keys <= r.views.Keys
  {
    s.(views := s.views[c := ViewOf(s, c).(closed := true, pendingIds := {})],
       live := s.live - {c},
       pending := WithoutClient(s.pending, c),
       owners := WithoutOwner(s.owners, c))
  }

  function Drop(k: Codec, s: Core, c: Client): (r: Core)
    ensures s.views.Keys <= r.views.Keys
  {
    if ViewOf(s, c).closed then s else DetachClient(k, Forget(s, c), c)
  }

  function Arrive(s: Core, c: Client): (r: Core)
    ensures s.views.Keys <= r.views.Keys
  {
    s.(views := s.views[c := View(false, None, {}, 0)])
  }

  function Admit(s: Core, c: Client): (r: Core)
    ensures s.views.Keys <= r.views.Keys
  {
    s.(live := s.live + {c})
  }

  /** #accept: the attach command goes out before the client is registered. */
  function Accept(k: Codec, s: Core, c: Client): (r: Core)
    requires c !in s.views
    ensures s.views.Keys <= r.views.Keys
  {
    var (s1, ok) := Issue(k, Arrive(s, c), Attach(c), ATTACH_MESSAGE);
    Admit(if ok then s1 else Later(s1, FailTask), c)
  }

  /** The message handler refuses a client's message. */
  predicate Refused(s: Core, c: Client, m: Message)
  {
    || !m.id.SafeId? || m.id.id < 0
    || !m.verb.Text?
    || m.sessionId.Malformed?
    || (m.sessionId.Text? && !(m.sessionId.value in s.owners && s.owners[m.sessionId.value] == c))
    || m.id.id in ViewOf(s, c).pendingIds
  }

  /** A client's command as it goes to Chrome. */
  function Outgoing(m: Message, id: int, browserId: string): Message {
    m.(id := SafeId(id), sessionId := if m.sessionId.Absent? then Text(browserId) else m.sessionId)
  }

  /** An accepted command enters the tables under a fresh internal id. */
  function Register(s: Core, c: Client, originalId: int): (r: Core)
    ensures s.views.Keys <= r.views.Keys
  {
    var id := s.serial + 1;
    s.(serial := id,
       views := s.views[c := ViewOf(s, c).(pendingIds := ViewOf(s, c).pendingIds + {originalId})],
       pending := s.pending[id := Command(c, originalId)],
       issued := s.issued[id := (c, originalId)])
  }

  /** A client's message, after its attachment finished. `None` stands for a binary or unparsable one. */
  function Submit(k: Codec, s: Core, c: Client, input: Option<Message>): (r: Core)
    requires ViewOf(s, c).browserId.Some?
    ensures s.views.Keys <= r.views.Keys
  {
    if ViewOf(s, c).closed then s
    else if input.None? || Refused(s, c, input.value) || !CanIssue(s) then Later(s, DropTask(c))
    else
      var m := input.value;
      var s1 := Register(s, c, m.id.id);
      var (s2, ok) := Write(k, s1, Outgoing(m, s1.serial, ViewOf(s, c).browserId.value));
      if ok then s2 else Later(s2, DropTask(c))
  }

  /** What a client sees of a message: its own browser session is implicit. */
  function Incoming(m: Message, browserId: Option<string>): Message {
    if browserId.Some? && m.sessionId == Text(browserId.value) then m.(sessionId := Absent) else m
  }

  /** #send: deliver, or drop a client that does not read. */
  function Send(k: Codec, s: Core, c: Client, m: Message, internal: Option<int>): (r: Core)
    ensures s.views.Keys <= r.views.Keys
  {
    var v := ViewOf(s, c);
    if v.closed then s else
      var output := Incoming(m, v.browserId);
      var n := |k.encode(output)|;
      if v.buffered + n > MAX_QUEUED_BYTES then Drop(k, s, c)
      else s.(views := s.views[c := v.(buffered := v.buffered + n)],
              delivered := s.delivered + [Delivery(c, output, internal)])
  }

  function Claim(owners: map<string, Client>, sid: Text, c: Client): map<string, Client> {
    if sid.Text? then owners[sid.value := c] else owners
  }

  function Unclaim(owners: map<string, Client>, sid: Text): map<string, Client> {
    if sid.Text? then owners - {sid.value} else owners
  }

  /** The reply to one of the bridge's own calls. */
  function Reply(s: Core, purpose: Purpose, m: Message): (r: Core)
    ensures s.views.Keys <= r.views.Keys
  {
    if m.isError then if purpose.Query? then s else Later(s, FailTask)
    else if purpose.Attach? then Later(s, AttachTask(purpose.client, m.resultSession))
    else s
  }

  /** The command of an arriving reply leaves the tables. */
  function Answer(s: Core, id: int, m: Message): (r: Core)
    requires id in s.pending && s.pending[id].Command?
    ensures s.views.Keys <= r.views.Keys
  {
    var c := s.pending[id].client;
    s.(pending := s.pending - {id},
       views := s.views[c := ViewOf(s, c).(pendingIds := ViewOf(s, c).pendingIds - {s.pending[id].originalId})],
       owners := Claim(s.owners, m.resultSession, c))
  }

  function RouteReply(k: Codec, s: Core, m: Message): (r: Core)
    requires m.id.SafeId?
    ensures s.views.Keys <= r.views.Keys
  {
    if m.id.id !in s.pending then s else
      match s.pending[m.id.id]
      case Call(purpose) => Reply(Withdraw(s, m.id.id), purpose, m)
      case Command(c, originalId) => Send(k, Answer(s, m.id.id, m), c, m.(id := SafeId(originalId)), Some(m.id.id))
  }

  /** A target attached under the client's session belongs to the client too. */
  function BeforeEvent(s: Core, m: Message, c: Client): (r: Core)
    ensures s.views.Keys <= r.views.Keys
  {
    if m.verb == Text("Target.attachedToTarget") then s.(owners := Claim(s.owners, m.childId, c)) else s
  }

  function AfterEvent(s: Core, m: Message): (r: Core)
    ensures s.views.Keys <= r.views.Keys
  {
    if m.verb == Text("Target.detachedFromTarget") then s.(owners := Unclaim(s.owners, m.childId)) else s
  }

  function RouteEvent(k: Codec, s: Core, m: Message): (r: Core)
    ensures s.views.Keys <= r.views.Keys
  {
    if !m.sessionId.Text? || m.sessionId.value !in s.owners then s else
      var c := s.owners[m.sessionId.value];
      AfterEvent(Send(k, BeforeEvent(s, m, c), c, m, None), m)
  }

  /** #route. A message id that is not a safe integer throws and ends the bridge. */
  function Route(k: Codec, s: Core, m: Message): (r: Core)
    ensures s.views.Keys <= r.views.Keys
  {
    match m.id
    case BadId => Close(s)
    case SafeId(_) => RouteReply(k, s, m)
    case NoId => RouteEvent(k, s, m)
  }

  /** The first half of an attach continuation: the client learns its browser session. */
  function Attached(s: Core, c: Client, session: string): (r: Core)
    ensures s.views.Keys <= r.views.Keys
  {
    s.(views := s.views[c := ViewOf(s, c).(browserId := Some(session))],
       owners := if ViewOf(s, c).closed then s.owners else s.owners[session := c])
  }

  /** A continuation runs. */
  function RunTask(k: Codec, s: Core): (r: Core)
    requires s.tasks != []
    ensures s.views.Keys <= r.views.Keys
  {
    var s0 := s.(tasks := s.tasks[1..]);
    match s.tasks[0]
    case FailTask => Close(s0)
    case DropTask(c) => Drop(k, s0, c)
    case AttachTask(c, session) =>
      if !session.Text? then Later(s0, FailTask)
      else if ViewOf(s0, c).closed then DetachClient(k, Attached(s0, c, session.value), c)
      else Attached(s0, c, session.value)
  }

  /** The timer of one of the bridge's own calls fires. */
  function Timeout(s: Core, id: int): (r: Core)
    requires id in s.pending && s.pending[id].Call?
    ensures s.views.Keys <= r.views.Keys
  {
    var s1 := Withdraw(s, id);
    if s.pending[id].purpose.Query? then s1 else Later(s1, FailTask)
  }
}

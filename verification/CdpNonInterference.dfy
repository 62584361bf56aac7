/**
 What other clients do cannot be felt: their events leave a client's view,
 sessions and messages alone, unless they end the bridge.
 */
module CdpNonInterference {
  import opened Basics
  import opened CdpBridgeModel
  import opened CdpFraming
  import opened CdpBridgeProofs
  import opened CdpOnePipe

  // ---- The private pipe a client sees inside the bridge ----

  ghost function Sessions(owners: map<string, Client>, c: Client): set<string> {
    set sid | sid in owners && owners[sid] == c
  }

  ghost function PrivateOf(s: Core, c: Client): Private {
    var v := ViewOf(s, c);
    if v.closed then HUNG
    else Private(true, DropTask(c) in s.tasks, v.browserId, v.buffered, v.pendingIds, Sessions(s.owners, c))
  }

  ghost function DeliveredTo(log: seq<Delivery>, c: Client): seq<Message>
    decreases |log|
  {
    if log == [] then [] else
      var front := DeliveredTo(log[..|log| - 1], c);
      var d := log[|log| - 1];
      if d.client == c then front + [d.message] else front
  }

  ghost predicate Closes(s: Core, r: Core, c: Client) {
    c in s.views && c in r.views && !ViewOf(s, c).closed && ViewOf(r, c).closed
  }

  // ---- Steps that are none of the client's business ----

  /** A step that concerns the client only by ending the bridge, if at all. */
  ghost predicate Quiet(s: Core, r: Core, c: Client) {
    && c in s.views && c in r.views
    && r.delivered == s.delivered
    && (s.closed ==> r.closed)
    && (ViewOf(s, c).closed ==> ViewOf(r, c).closed)
    && (Closes(s, r, c) ==> r.closed && !s.closed)
    && (!ViewOf(r, c).closed ==>
          && ViewOf(r, c) == ViewOf(s, c)
          && Sessions(r.owners, c) == Sessions(s.owners, c)
          && (DropTask(c) in r.tasks <==> DropTask(c) in s.tasks))
  }

  lemma CloseQuiet(s: Core, c: Client, x: set<Client>)
    requires Alive(s.views, s.live, x) && c in s.views && c !in x
    ensures Quiet(s, Close(s), c)
  {}

  /** Nothing but the client's view, its sessions and its refusals matters. */
  lemma SameQuiet(s: Core, r: Core, c: Client)
    requires c in s.views && c in r.views && ViewOf(r, c) == ViewOf(s, c) && r.owners == s.owners && r.delivered == s.delivered
    requires r.closed == s.closed && (DropTask(c) in r.tasks <==> DropTask(c) in s.tasks)
    ensures Quiet(s, r, c)
  {}

  lemma QuietTrans(s: Core, r: Core, t: Core, c: Client)
    requires Quiet(s, r, c) && Quiet(r, t, c)
    ensures Quiet(s, t, c)
  {}

  lemma WriteQuiet(k: Codec, s: Core, m: Message, c: Client, x: set<Client>)
    requires Alive(s.views, s.live, x) && c in s.views && c !in x
    ensures Quiet(s, Write(k, s, m).0, c)
  {
    CloseQuiet(s, c, x);
  }

  lemma EnterQuiet(s: Core, purpose: Purpose, c: Client)
    requires c in s.views
    ensures Quiet(s, Enter(s, purpose), c)
  {}

  lemma WithdrawQuiet(s: Core, id: int, c: Client)
    requires c in s.views
    ensures Quiet(s, Withdraw(s, id), c)
  {}

  lemma IssueQuiet(k: Codec, s: Core, purpose: Purpose, m: Message, c: Client, x: set<Client>)
    requires Alive(s.views, s.live, x) && c in s.views && c !in x
    ensures Quiet(s, Issue(k, s, purpose, m).0, c)
  {
    hide Quiet, Alive, Write, Withdraw, CanIssue;
    if CanIssue(s) {
      var s0 := Enter(s, purpose);
      var m0 := m.(id := SafeId(s.serial + 1));
      var s1 := Write(k, s0, m0).0;
      EnterQuiet(s, purpose, c);
      WriteQuiet(k, s0, m0, c, x);
      QuietTrans(s, s0, s1, c);
      WithdrawQuiet(s1, s.serial + 1, c);
      QuietTrans(s, s1, Withdraw(s1, s.serial + 1), c);
    } else {
      SameQuiet(s, s, c);
    }
  }

  lemma LaterQuiet(s: Core, t: Task, c: Client)
    requires c in s.views && t != DropTask(c)
    ensures Quiet(s, Later(s, t), c)
  {}

  lemma DetachQuiet(k: Codec, s: Core, d: Client, c: Client)
    requires Inv(s) && c in s.views && d in s.views
    ensures Quiet(s, DetachClient(k, s, d), c)
  {
    hide Quiet;
    if !s.closed && ViewOf(s, d).browserId.Some? {
      var m := DetachMessage(ViewOf(s, d).browserId.value);
      InvOwners(s);
      IssueQuiet(k, s, Detach, m, c, {});
      var s1 := Issue(k, s, Detach, m).0;
      LaterQuiet(s1, FailTask, c);
      QuietTrans(s, s1, Later(s1, FailTask), c);
    } else {
      SameQuiet(s, s, c);
    }
  }

  lemma ForgetQuiet(s: Core, d: Client, c: Client)
    requires c in s.views && d in s.views && c != d
    ensures Quiet(s, Forget(s, d), c)
  {
    assert Sessions(WithoutOwner(s.owners, d), c) == Sessions(s.owners, c);
  }

  lemma DropQuiet(k: Codec, s: Core, d: Client, c: Client)
    requires Inv(s) && c in s.views && d in s.views && c != d
    ensures Quiet(s, Drop(k, s, d), c)
  {
    hide InvExcept;
    if !ViewOf(s, d).closed {
      ForgetKeeps(s, d);
      ForgetQuiet(s, d, c);
      DetachQuiet(k, Forget(s, d), d, c);
    }
  }

  lemma DropSelf(k: Codec, s: Core, c: Client)
    requires Inv(s) && c in s.views
    ensures var r := Drop(k, s, c); r.views[c].closed && r.delivered == s.delivered && (s.closed ==> r.closed)
  {
    hide InvExcept;
    if !ViewOf(s, c).closed {
      ForgetKeeps(s, c);
      DetachQuiet(k, Forget(s, c), c, c);
    }
  }

  lemma AcceptQuiet(k: Codec, s: Core, d: Client, c: Client)
    requires Inv(s) && d !in s.views && c in s.views
    ensures Quiet(s, Accept(k, s, d), c)
  {
    hide Quiet;
    var s0 := Arrive(s, d);
    SameQuiet(s, s0, c);
    ArriveKeeps(s, d);
    IssueQuiet(k, s0, Attach(d), ATTACH_MESSAGE, c, {d});
    var (s1, ok) := Issue(k, s0, Attach(d), ATTACH_MESSAGE);
    QuietTrans(s, s0, s1, c);
    SameQuiet(s1, Accept(k, s, d), c);
    QuietTrans(s, s1, Accept(k, s, d), c);
  }

  lemma SubmitQuiet(k: Codec, s: Core, d: Client, input: Option<Message>, c: Client)
    requires Inv(s) && d in s.views && ViewOf(s, d).browserId.Some? && c in s.views
    requires c == d ==> ViewOf(s, c).closed
    ensures Quiet(s, Submit(k, s, d, input), c)
  {
    hide InvExcept, Quiet;
    if ViewOf(s, d).closed {
      SameQuiet(s, s, c);
    } else if input.None? || Refused(s, d, input.value) || !CanIssue(s) {
      LaterQuiet(s, DropTask(d), c);
    } else {
      var s1 := Register(s, d, input.value.id.id);
      SameQuiet(s, s1, c);
      RegisterKeeps(s, d, input.value.id.id);
      RegisteredWriteQuiet(k, s1, Outgoing(input.value, s1.serial, ViewOf(s, d).browserId.value), c);
      var s2 := Write(k, s1, Outgoing(input.value, s1.serial, ViewOf(s, d).browserId.value)).0;
      QuietTrans(s, s1, s2, c);
      LaterQuiet(s2, DropTask(d), c);
      QuietTrans(s, s2, Later(s2, DropTask(d)), c);
    }
  }

  lemma RegisteredWriteQuiet(k: Codec, s: Core, m: Message, c: Client)
    requires Unwritten(s, {}) && c in s.views
    ensures Quiet(s, Write(k, s, m).0, c)
  {
    WriteQuiet(k, s, m, c, {});
  }

  /** An event that is another client's alone. */
  ghost predicate Foreign(p: Pipe, e: Event, c: Client)
    requires Enabled(p, e)
  {
    match e
    case Accepted(d) => d != c
    case Received(d, _) => d != c
    case Dropped(d) => d != c
    case SocketSent(d, _) => d != c
    case TaskRun => p.core.tasks[0].DropTask? && p.core.tasks[0].client != c
    case Asked(_) => true
    case TimedOut(_) => true
    case PipeSent(_) => true
    case Chunk(_) => false
    case Ended => false
  }

  lemma SocketQuiet(s: Core, d: Client, v: View, c: Client)
    requires c in s.views && c != d
    ensures Quiet(s, s.(views := s.views[d := v]), c)
  {}

  lemma NextTaskQuiet(s: Core, c: Client)
    requires c in s.views && s.tasks != [] && s.tasks[0] != DropTask(c)
    ensures Quiet(s, s.(tasks := s.tasks[1..]), c)
  {
    assert s.tasks == [s.tasks[0]] + s.tasks[1..];
  }

  lemma TimeoutQuiet(s: Core, id: int, c: Client)
    requires id in s.pending && s.pending[id].Call? && c in s.views
    ensures Quiet(s, Timeout(s, id), c)
  {}

  /** What other clients do is nobody else's business, except that it may end the bridge. */
  lemma ForeignQuiet(k: Codec, p: Pipe, e: Event, c: Client)
    requires Inv(p.core) && Enabled(p, e) && c in p.core.views && Foreign(p, e, c)
    ensures Quiet(p.core, Step(k, p, e).core, c)
  {
    hide InvExcept, Quiet, Issue, Drop, Accept, Submit;
    var s, r := p.core, Step(k, p, e).core;
    match e
    case Accepted(d) => AcceptQuiet(k, s, d, c);
    case Received(d, input) => SubmitQuiet(k, s, d, input, c);
    case Dropped(d) => DropQuiet(k, s, d, c);
    case SocketSent(d, n) => SocketQuiet(s, d, ViewOf(s, d).(buffered := ViewOf(s, d).buffered - n), c);
    case Asked(m) => InvOwners(s); IssueQuiet(k, s, Query, m, c, {});
    case TimedOut(id) => TimeoutQuiet(s, id, c);
    case PipeSent(n) => SameQuiet(s, r, c);
    case TaskRun =>
      var s0 := s.(tasks := s.tasks[1..]);
      NextTask(s);
      InvTask(s);
      NextTaskQuiet(s, c);
      DropQuiet(k, s0, s.tasks[0].client, c);
      QuietTrans(s, s0, r, c);
  }

  /** A run in which everything that happens is other clients' doing. */
  ghost predicate OthersOnly(k: Codec, p: Pipe, run: seq<Event>, c: Client)
    decreases |run|
  {
    run == [] || (Enabled(p, run[0]) && Foreign(p, run[0], c) && OthersOnly(k, Step(k, p, run[0]), run[1..], c))
  }

  lemma {:induction false} OthersOnlyQuiet(k: Codec, p: Pipe, run: seq<Event>, c: Client)
    requires Inv(p.core) && Possible(k, p, run) && OthersOnly(k, p, run, c) && c in p.core.views
    ensures Quiet(p.core, Run(k, p, run).core, c)
    decreases |run|
  {
    hide InvExcept, Quiet, Step, Foreign;
    if run == [] {
      SameQuiet(p.core, p.core, c);
    } else {
      var q := Step(k, p, run[0]);
      StepKeeps(k, p, run[0]);
      ForeignQuiet(k, p, run[0], c);
      StaysKnown(p.core, q.core, c);
      OthersOnlyQuiet(k, q, run[1..], c);
      QuietTrans(p.core, q.core, Run(k, q, run[1..]).core, c);
    }
  }

  lemma StaysKnown(s: Core, r: Core, c: Client)
    requires Quiet(s, r, c)
    ensures c in r.views
  {}

  /**
   Other clients cannot be felt: whatever they connect, send, refuse to read or
   drop, in any number of events, a client's ids, sessions, buffered bytes and
   messages stay as they were, unless the bridge ends.
   */
  lemma OthersAreNotFelt(k: Codec, p: Pipe, run: seq<Event>, c: Client)
    requires Inv(p.core) && Possible(k, p, run) && OthersOnly(k, p, run, c) && c in p.core.views
    ensures var s, r := p.core, Run(k, p, run).core;
            && DeliveredTo(r.delivered, c) == DeliveredTo(s.delivered, c)
            && (PrivateOf(r, c) == PrivateOf(s, c) || (r.closed && !s.closed && PrivateOf(r, c) == HUNG))
  {
    hide InvExcept, Step;
    OthersOnlyQuiet(k, p, run, c);
  }
}

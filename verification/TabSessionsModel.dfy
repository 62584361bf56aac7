/** Sessions of a Worker: who may create one, when it is retired, and what it never does again. */
module TabSessionsModel {
  import opened Basics

  const LEASE_LIMIT := 10 * 60 * 1000

  datatype Kind = Normal | Maintenance

  /** A creation command; `configuration` is all of it that is only compared. */
  datatype Request = Request(
    messageId: string,
    sessionId: string,
    profileId: string,
    kind: Kind,
    reservationExpiresAt: int,
    leaseExpiresAt: int,
    configuration: string)

  /** `ticket` is the Viewer generation of the ticket being issued. */
  datatype Entry = Entry(request: Request, closing: bool, viewerGeneration: int, leaseExpiresAt: int, ticket: Option<int>)

  type Entries = map<string, Entry>

  /** A command's Session, and when the command can be forgotten. */
  datatype Command = Command(session: string, expiresAt: int)

  datatype Sessions = Sessions(
    entries: Entries,
    commands: map<string, Command>,
    retired: map<string, int>,
    closed: bool,
    now: int)

  datatype Outcome = Created | Existing | Refused(code: Code)

  datatype Code =
    | WorkerClosed
    | CommandIdConflict
    | SessionIdConflict
    | SessionClosed
    | ProfileSessionConflict
    | ReservationExpired
    | LeaseExpired
    | LeaseInvalid

  datatype Event =
    | Tick(to: int)
    | Create(request: Request)
    | Close(session: string, creationExpiresAt: Option<int>)
    | AttachFailed(session: string)
    | CleanedUp(session: string)
    | Renew(session: string, leaseExpiresAt: int)
    | TicketStarted(session: string, generation: int, valid: bool)
    | TicketEnded(session: string, ok: bool)
    | Shutdown

  // ---- Pruning ----

  function PrunedCommands(commands: map<string, Command>, entries: Entries, now: int): map<string, Command> {
    map id | id in commands && (commands[id].expiresAt > now || commands[id].session in entries) :: commands[id]
  }

  function PrunedRetired(retired: map<string, int>, now: int): map<string, int> {
    map id | id in retired && retired[id] > now :: retired[id]
  }

  function Prune(s: Sessions): Sessions {
    s.(commands := PrunedCommands(s.commands, s.entries, s.now), retired := PrunedRetired(s.retired, s.now))
  }

  // ---- Creating ----

  predicate Conflicts(entries: Entries, profileId: string, kind: Kind) {
    exists id :: id in entries && entries[id].request.profileId == profileId
                 && (kind.Maintenance? || entries[id].request.kind.Maintenance?)
  }

  function LeaseProblem(lease: int, now: int): Option<Code> {
    if lease <= now then Some(LeaseExpired)
    else if lease > now + LEASE_LIMIT then Some(LeaseInvalid)
    else None
  }

  /** The checks of a creation, in order, once pruned. */
  function Decide(s: Sessions, r: Request): Outcome {
    if r.messageId in s.commands && s.commands[r.messageId].session != r.sessionId then Refused(CommandIdConflict)
    else if r.sessionId in s.entries then
      if s.entries[r.sessionId].request != r then Refused(SessionIdConflict)
      else if s.entries[r.sessionId].closing then Refused(SessionClosed)
      else Existing
    else if r.sessionId in s.retired || r.messageId in s.commands then Refused(SessionClosed)
    else if Conflicts(s.entries, r.profileId, r.kind) then Refused(ProfileSessionConflict)
    else if r.reservationExpiresAt <= s.now then Refused(ReservationExpired)
    else match LeaseProblem(r.leaseExpiresAt, s.now)
      case Some(code) => Refused(code)
      case None => Created
  }

  function CreateSession(s: Sessions, r: Request): (Sessions, Outcome) {
    if s.closed then (s, Refused(WorkerClosed)) else
      var p := Prune(s);
      var outcome := Decide(p, r);
      if outcome.Created? then
        (p.(entries := p.entries[r.sessionId := Entry(r, false, 0, r.leaseExpiresAt, None)],
            commands := p.commands[r.messageId := Command(r.sessionId, r.reservationExpiresAt)]), outcome)
      else (p, outcome)
  }

  // ---- Closing ----

  function Retire(s: Sessions, session: string, expiresAt: int): Sessions {
    var p := Prune(s);
    p.(retired := p.retired[session := Max(if session in p.retired then p.retired[session] else 0, expiresAt)])
  }

  function Closing(s: Sessions, session: string): Sessions {
    if session in s.entries then s.(entries := s.entries[session := s.entries[session].(closing := true)]) else s
  }

  /** A close may name the expiry of a creation it has overtaken. */
  function CloseSession(s: Sessions, session: string, creationExpiresAt: Option<int>): Sessions {
    Closing(match creationExpiresAt case None => s case Some(at) => Retire(s, session, at), session)
  }

  /** Cleanup has succeeded; it waited for the ticket being issued. */
  function Cleanup(s: Sessions, session: string): Sessions {
    if session in s.entries && s.entries[session].closing && s.entries[session].ticket.None?
    then s.(entries := s.entries - {session},
            retired := s.retired[session := s.entries[session].request.reservationExpiresAt])
    else s
  }

  // ---- Living ----

  predicate Live(s: Sessions, session: string) {
    session in s.entries && !s.entries[session].closing && !s.closed && s.entries[session].leaseExpiresAt > s.now
  }

  function RenewLease(s: Sessions, session: string, lease: int): Sessions {
    if Live(s, session) && LeaseProblem(lease, s.now).None? && lease > s.entries[session].leaseExpiresAt
    then s.(entries := s.entries[session := s.entries[session].(leaseExpiresAt := lease)])
    else s
  }

  /** Tickets of a Session are issued one after another; `valid` is the rest of the checks. */
  function StartTicket(s: Sessions, session: string, generation: int, valid: bool): Sessions {
    if Live(s, session) && valid && s.entries[session].ticket.None? && generation > s.entries[session].viewerGeneration
    then s.(entries := s.entries[session := s.entries[session].(ticket := Some(generation))])
    else s
  }

  function EndTicket(s: Sessions, session: string, ok: bool): Sessions {
    if session !in s.entries || s.entries[session].ticket.None? then s else
      var e := s.entries[session];
      s.(entries := s.entries[session := e.(
        ticket := None,
        viewerGeneration := if ok && Live(s, session) then e.ticket.value else e.viewerGeneration)])
  }

  function ShutDown(s: Sessions): Sessions {
    s.(closed := true, entries := map id | id in s.entries :: s.entries[id].(closing := true))
  }

  function Step(s: Sessions, e: Event): Sessions {
    match e
    case Tick(to) => if to >= s.now then s.(now := to) else s
    case Create(r) => CreateSession(s, r).0
    case Close(session, at) => CloseSession(s, session, at)
    case AttachFailed(session) => Closing(s, session)
    case CleanedUp(session) => Cleanup(s, session)
    case Renew(session, lease) => RenewLease(s, session, lease)
    case TicketStarted(session, generation, valid) => StartTicket(s, session, generation, valid)
    case TicketEnded(session, ok) => EndTicket(s, session, ok)
    case Shutdown => ShutDown(s)
  }

  function Run(s: Sessions, run: seq<Event>): Sessions
    decreases |run|
  {
    if run == [] then s else Run(Step(s, run[0]), run[1..])
  }

  // ---- No resurrection ----

  /** No creation that expires by then can succeed any more: it is too late, or the Session is retired for longer. */
  ghost predicate Blocked(s: Sessions, session: string, until: int) {
    until <= s.now || (session !in s.entries && session in s.retired && s.retired[session] >= until)
  }

  lemma BlockedIsRefused(s: Sessions, r: Request, until: int)
    requires Blocked(s, r.sessionId, until) && r.reservationExpiresAt <= until
    ensures !CreateSession(s, r).1.Created?
  {}

  lemma BlockedStep(s: Sessions, e: Event, session: string, until: int)
    requires Blocked(s, session, until)
    ensures Blocked(Step(s, e), session, until)
  {
    if until > s.now && e.Create? && e.request.sessionId == session {
      assert session in Prune(s).retired;
    }
  }

  lemma {:induction false} BlockedForGood(s: Sessions, run: seq<Event>, session: string, until: int)
    requires Blocked(s, session, until)
    ensures Blocked(Run(s, run), session, until)
    decreases |run|
  {
    if run != [] {
      BlockedStep(s, run[0], session, until);
      BlockedForGood(Step(s, run[0]), run[1..], session, until);
    }
  }

  /** A close that arrives first blocks, for good, every creation that expires no later than it says. */
  lemma CloseBeforeCreation(s: Sessions, session: string, at: int, run: seq<Event>, r: Request)
    requires session !in s.entries && r.sessionId == session && r.reservationExpiresAt <= at
    ensures !CreateSession(Run(CloseSession(s, session, Some(at)), run), r).1.Created?
  {
    BlockedForGood(CloseSession(s, session, Some(at)), run, session, at);
    BlockedIsRefused(Run(CloseSession(s, session, Some(at)), run), r, at);
  }

  /** The command has had its Session: it is there now, or can never be created again. */
  ghost predicate Spent(s: Sessions, r: Request) {
    || (r.sessionId in s.entries && s.entries[r.sessionId].request == r)
    || Blocked(s, r.sessionId, r.reservationExpiresAt)
  }

  lemma SpentStep(s: Sessions, e: Event, r: Request)
    requires Spent(s, r)
    ensures Spent(Step(s, e), r)
  {
    if Blocked(s, r.sessionId, r.reservationExpiresAt) {
      BlockedStep(s, e, r.sessionId, r.reservationExpiresAt);
    }
  }

  lemma {:induction false} SpentForGood(s: Sessions, run: seq<Event>, r: Request)
    requires Spent(s, r)
    ensures Spent(Run(s, run), r)
    decreases |run|
  {
    if run != [] {
      SpentStep(s, run[0], r);
      SpentForGood(Step(s, run[0]), run[1..], r);
    }
  }

  /** However often it is delivered, and however late, a command creates at most one Session. */
  lemma CreatedAtMostOnce(s: Sessions, r: Request, run: seq<Event>)
    requires CreateSession(s, r).1.Created?
    ensures !CreateSession(Run(CreateSession(s, r).0, run), r).1.Created?
  {
    var t := Run(CreateSession(s, r).0, run);
    SpentForGood(CreateSession(s, r).0, run, r);
    if Blocked(t, r.sessionId, r.reservationExpiresAt) { BlockedIsRefused(t, r, r.reservationExpiresAt); }
  }

  /**
   Cleanup blocks exactly what its own reservation covers: a close that named a later
   expiry while the Session was alive is forgotten with it.
   */
  lemma CleanupBlocksOwnReservation(s: Sessions, session: string, at: Option<int>, until: int)
    requires session in s.entries && s.entries[session].ticket.None? && until > s.now
    ensures var t := Cleanup(CloseSession(s, session, at), session);
            Blocked(t, session, until) <==> until <= s.entries[session].request.reservationExpiresAt
  {}

  /** So a creation it should have refused succeeds. */
  lemma LateCreationAfterClose(profile: string, session: string)
    ensures var r := Request("m", session, profile, Normal, 100, 50, "");
            var late := r.(messageId := "n", reservationExpiresAt := 200, leaseExpiresAt := 150);
            var s := CreateSession(Sessions(map[], map[], map[], false, 0), r).0;
            var t := Step(Cleanup(CloseSession(s, session, Some(300)), session), Tick(100));
            CreateSession(t, late).1.Created?
  {}

  // ---- What every Session keeps ----

  /** Of a Profile's Sessions either all are normal, or there is one and it is for maintenance. */
  ghost predicate Exclusive(entries: Entries) {
    forall a, b :: a in entries && b in entries && a != b && entries[a].request.profileId == entries[b].request.profileId
      ==> entries[a].request.kind.Normal?
  }

  /** An entry is filed under its id, its command is remembered, its next ticket is newer. */
  ghost predicate EntryFits(commands: map<string, Command>, now: int, id: string, e: Entry) {
    && e.request.sessionId == id
    && e.request.messageId in commands && commands[e.request.messageId].session == id
    && (e.ticket.Some? ==> e.ticket.value > e.viewerGeneration)
    && e.leaseExpiresAt <= now + LEASE_LIMIT
  }

  ghost predicate EntriesFit(s: Sessions) {
    forall id :: id in s.entries ==> EntryFits(s.commands, s.now, id, s.entries[id])
  }

  ghost predicate Inv(s: Sessions) {
    Exclusive(s.entries) && EntriesFit(s)
  }

  lemma CreateKeeps(s: Sessions, r: Request)
    requires Inv(s)
    ensures Inv(CreateSession(s, r).0)
  {
    if !s.closed {
      PruneKeeps(s);
      var p := Prune(s);
      if Decide(p, r).Created? {
        var t := CreateSession(s, r).0;
        forall id | id in t.entries
          ensures EntryFits(t.commands, t.now, id, t.entries[id])
        {
          if id != r.sessionId { assert EntryFits(p.commands, p.now, id, p.entries[id]); }
        }
      }
    }
  }

  lemma PruneKeeps(s: Sessions)
    requires Inv(s)
    ensures Inv(Prune(s))
  {
    forall id | id in s.entries
      ensures EntryFits(Prune(s).commands, s.now, id, s.entries[id])
    {
      assert EntryFits(s.commands, s.now, id, s.entries[id]);
    }
  }

  lemma UpdateKeeps(s: Sessions, id: string, e: Entry)
    requires Inv(s) && id in s.entries && e.request == s.entries[id].request && EntryFits(s.commands, s.now, id, e)
    ensures Inv(s.(entries := s.entries[id := e]))
  {
    hide EntryFits;
  }

  lemma CloseKeeps(s: Sessions, session: string, at: Option<int>)
    requires Inv(s)
    ensures Inv(CloseSession(s, session, at)) && Inv(Closing(s, session))
  {
    PruneKeeps(s);
    if session in s.entries {
      var e := s.entries[session].(closing := true);
      assert EntryFits(s.commands, s.now, session, s.entries[session]);
      UpdateKeeps(s, session, e);
      if at.Some? { UpdateKeeps(Retire(s, session, at.value), session, e); }
    }
  }

  lemma StepKeeps(s: Sessions, e: Event)
    requires Inv(s)
    ensures Inv(Step(s, e))
  {
    hide CreateSession, CloseSession, Closing, LeaseProblem, Inv;
    match e
    case Create(r) => CreateKeeps(s, r);
    case Close(session, at) => CloseKeeps(s, session, at);
    case AttachFailed(session) => CloseKeeps(s, session, None);
    case _ => OtherStepKeeps(s, e);
  }

  lemma OtherStepKeeps(s: Sessions, e: Event)
    requires Inv(s) && !e.Create? && !e.Close? && !e.AttachFailed?
    ensures Inv(Step(s, e))
  {
    match e
    case Renew(session, lease) =>
      if RenewLease(s, session, lease) != s {
        UpdateKeeps(s, session, s.entries[session].(leaseExpiresAt := lease));
      }
    case TicketStarted(session, generation, valid) =>
      if StartTicket(s, session, generation, valid) != s {
        UpdateKeeps(s, session, s.entries[session].(ticket := Some(generation)));
      }
    case TicketEnded(session, ok) =>
      if EndTicket(s, session, ok) != s { UpdateKeeps(s, session, EndTicket(s, session, ok).entries[session]); }
    case _ =>
  }

  lemma {:induction false} RunKeeps(s: Sessions, run: seq<Event>)
    requires Inv(s)
    ensures Inv(Run(s, run)) && Exclusive(Run(s, run).entries)
    decreases |run|
  {
    if run != [] {
      StepKeeps(s, run[0]);
      RunKeeps(Step(s, run[0]), run[1..]);
    }
  }

  /** A Session's Viewer generation and lease, as long as it lives. */
  ghost predicate NoLess(was: Entry, now: Entry) {
    now.request == was.request && now.viewerGeneration >= was.viewerGeneration && now.leaseExpiresAt >= was.leaseExpiresAt
  }

  lemma StepNoLess(s: Sessions, e: Event, session: string)
    requires Inv(s) && session in s.entries && e != CleanedUp(session)
    ensures session in Step(s, e).entries && NoLess(s.entries[session], Step(s, e).entries[session])
  {
    hide EntryFits, Exclusive, LeaseProblem, CreateSession, CloseSession, PrunedCommands, PrunedRetired, EndTicket;
    match e
    case Create(r) => CreateNoLess(s, r, session);
    case Close(closed, at) => CloseNoLess(s, closed, at, session);
    case TicketEnded(other, ok) => TicketNoLess(s, other, ok, session);
    case _ =>
  }

  lemma CreateNoLess(s: Sessions, r: Request, session: string)
    requires session in s.entries
    ensures session in CreateSession(s, r).0.entries && CreateSession(s, r).0.entries[session] == s.entries[session]
  {}

  lemma CloseNoLess(s: Sessions, closed: string, at: Option<int>, session: string)
    requires session in s.entries
    ensures var t := CloseSession(s, closed, at);
            session in t.entries && t.entries[session].(closing := s.entries[session].closing) == s.entries[session]
  {}

  lemma TicketNoLess(s: Sessions, other: string, ok: bool, session: string)
    requires EntriesFit(s) && session in s.entries
    ensures session in EndTicket(s, other, ok).entries && NoLess(s.entries[session], EndTicket(s, other, ok).entries[session])
  {
    assert EntryFits(s.commands, s.now, session, s.entries[session]);
  }

  lemma {:induction false} GenerationsAndLeasesOnlyGrow(s: Sessions, run: seq<Event>, session: string)
    requires Inv(s) && session in s.entries && CleanedUp(session) !in run
    ensures session in Run(s, run).entries && NoLess(s.entries[session], Run(s, run).entries[session])
    decreases |run|
  {
    if run != [] {
      StepKeeps(s, run[0]);
      StepNoLess(s, run[0], session);
      GenerationsAndLeasesOnlyGrow(Step(s, run[0]), run[1..], session);
    }
  }

  /** Every ticket published is for a newer generation than any before it. */
  lemma PublishedGenerationIsNew(s: Sessions, e: Event, session: string)
    requires Inv(s) && session in s.entries && session in Step(s, e).entries
    requires Step(s, e).entries[session].viewerGeneration != s.entries[session].viewerGeneration
    ensures Step(s, e).entries[session].viewerGeneration > s.entries[session].viewerGeneration
    ensures e == TicketEnded(session, true) && Live(s, session)
  {}

  // ---- What each call answers, written out ----

  /** The command of that message is remembered: not expired, or its Session is still there. */
  predicate Remembered(s: Sessions, messageId: string) {
    messageId in s.commands && (s.now < s.commands[messageId].expiresAt || s.commands[messageId].session in s.entries)
  }

  predicate StillRetired(s: Sessions, session: string) {
    session in s.retired && s.now < s.retired[session]
  }

  /** Another Session of the Profile is for maintenance, or this one is and there is another. */
  ghost predicate ProfileTaken(s: Sessions, r: Request) {
    exists id :: id in s.entries && s.entries[id].request.profileId == r.profileId
                 && (r.kind == Maintenance || s.entries[id].request.kind == Maintenance)
  }

  /** What a creation is answered: the first of these that applies. */
  ghost function Answer(s: Sessions, r: Request): Outcome {
    if s.closed then Refused(WorkerClosed)
    else if Remembered(s, r.messageId) && s.commands[r.messageId].session != r.sessionId then Refused(CommandIdConflict)
    else if r.sessionId in s.entries && s.entries[r.sessionId].request != r then Refused(SessionIdConflict)
    else if r.sessionId in s.entries && s.entries[r.sessionId].closing then Refused(SessionClosed)
    else if r.sessionId in s.entries then Existing
    else if StillRetired(s, r.sessionId) || Remembered(s, r.messageId) then Refused(SessionClosed)
    else if ProfileTaken(s, r) then Refused(ProfileSessionConflict)
    else if r.reservationExpiresAt <= s.now then Refused(ReservationExpired)
    else if r.leaseExpiresAt <= s.now then Refused(LeaseExpired)
    else if s.now + 600000 < r.leaseExpiresAt then Refused(LeaseInvalid)
    else Created
  }

  /** A creation is answered so, and only one that succeeds adds a Session: the one asked for, with the lease asked for. */
  lemma CreatedExactly(s: Sessions, r: Request)
    ensures var (t, outcome) := CreateSession(s, r);
            && outcome == Answer(s, r) && t == Step(s, Create(r))
            && t.closed == s.closed && t.now == s.now
            && t.entries == (if outcome == Created then s.entries[r.sessionId := Entry(r, false, 0, r.leaseExpiresAt, None)] else s.entries)
            && (outcome == Created ==>
                  r.messageId in t.commands && t.commands[r.messageId] == Command(r.sessionId, r.reservationExpiresAt))
            && (forall m :: m != r.messageId || outcome != Created ==> (Remembered(t, m) <==> Remembered(s, m)))
  {}

  /** Sessions of one Profile live side by side as long as none is for maintenance. */
  lemma NormalSessionsShare(s: Sessions, r: Request)
    requires r.kind == Normal && forall id :: id in s.entries ==> s.entries[id].request.kind == Normal
    ensures CreateSession(s, r).1 != Refused(ProfileSessionConflict)
  {}

  /** A Session that is there, not closing, with its lease not over, on a Worker that is not closed. */
  predicate Alive(s: Sessions, session: string) {
    session in s.entries && !s.entries[session].closing && s.now < s.entries[session].leaseExpiresAt && !s.closed
  }

  /** A renewal moves the lease of a Session that is alive, to a time ahead of now by ten minutes at most, if that is later. */
  lemma RenewedExactly(s: Sessions, session: string, lease: int)
    ensures Step(s, Renew(session, lease)) ==
            if Alive(s, session) && s.now < lease <= s.now + 600000 && s.entries[session].leaseExpiresAt < lease
            then s.(entries := s.entries[session := s.entries[session].(leaseExpiresAt := lease)]) else s
  {}

  /** A ticket is begun by a Session that is alive, for a newer generation, one at a time; it is published if that is still so. */
  lemma TicketedExactly(s: Sessions, session: string, generation: int, valid: bool)
    ensures Step(s, TicketStarted(session, generation, valid)) ==
            if Alive(s, session) && valid && s.entries[session].ticket == None && s.entries[session].viewerGeneration < generation
            then s.(entries := s.entries[session := s.entries[session].(ticket := Some(generation))]) else s
    ensures session in s.entries && s.entries[session].ticket.Some? ==>
              var e := s.entries[session];
              Step(s, TicketEnded(session, valid)) ==
                s.(entries := s.entries[session := Entry(e.request, e.closing,
                     if valid && Alive(s, session) then e.ticket.value else e.viewerGeneration, e.leaseExpiresAt, None)])
  {}

  /** A close, or an attachment that failed, marks its Session as closing; a close also retires it until the latest expiry it has been told, at least. */
  lemma ClosedExactly(s: Sessions, session: string, at: Option<int>)
    ensures Step(s, AttachFailed(session)) == Step(s, Close(session, None))
    ensures var t := Step(s, Close(session, at));
            && t.entries == (if session in s.entries then s.entries[session := s.entries[session].(closing := true)] else s.entries)
            && (at.Some? ==>
                  var before := if StillRetired(s, session) then s.retired[session] else 0;
                  session in t.retired && t.retired[session] == if before < at.value then at.value else before)
            && (forall other :: other != session || at == None ==> (StillRetired(t, other) <==> StillRetired(s, other)))
            && t.closed == s.closed && t.now == s.now
  {}

  /** Only a Session that is closing, with no ticket being issued, is cleaned up; then it is gone and retired. */
  lemma CleanedUpExactly(s: Sessions, session: string)
    ensures Step(s, CleanedUp(session)) ==
            if session in s.entries && s.entries[session].closing && s.entries[session].ticket == None
            then s.(entries := s.entries - {session}, retired := s.retired[session := s.entries[session].request.reservationExpiresAt])
            else s
  {}

  /** Shutting down closes the Worker and every Session; nothing is created, renewed or ticketed from then on. */
  lemma ShutDownExactly(s: Sessions, run: seq<Event>, r: Request, session: string, lease: int)
    ensures var t := Step(s, Shutdown);
            t.closed && t.entries.Keys == s.entries.Keys
            && forall id :: id in s.entries ==> t.entries[id] == s.entries[id].(closing := true)
    ensures var t := Run(ShutDown(s), run);
            t.closed && CreateSession(t, r) == (t, Refused(WorkerClosed)) && RenewLease(t, session, lease) == t
  {
    ClosedForGood(ShutDown(s), run);
  }

  lemma {:induction false} ClosedForGood(s: Sessions, run: seq<Event>)
    requires s.closed
    ensures Run(s, run).closed
    decreases |run|
  {
    if run != [] { ClosedForGood(Step(s, run[0]), run[1..]); }
  }
}

/** The Worker's Sessions as it keeps them: three maps updated in place. */
module TabSessions {
  import opened Basics
  import opened TabSessionsModel

  class WorkerTabSessions {
    var entries: Entries
    var commands: map<string, Command>
    var retired: map<string, int>
    var closed: bool
    var clock: int

    function Model(): Sessions
      reads this
    {
      Sessions(entries, commands, retired, closed, clock)
    }

    constructor (clock: int)
      ensures Model() == Sessions(map[], map[], map[], false, clock) && Inv(Model())
    {
      entries, commands, retired, closed := map[], map[], map[], false;
      this.clock := clock;
    }

    /** Forgets commands and retirements whose time has passed. */
    method PruneCommands()
      modifies this`commands, this`retired
      ensures Model() == Prune(old(Model()))
    {
      var ids := commands.Keys;
      while ids != {}
        invariant ids <= old(commands).Keys && retired == old(retired)
        invariant forall id :: id in commands <==>
                    id in old(commands) && (id in ids || id in PrunedCommands(old(commands), entries, clock))
        invariant forall id :: id in commands ==> commands[id] == old(commands)[id]
        decreases |ids|
      {
        var id := Pick(ids);
        if id in commands && commands[id].expiresAt <= clock && commands[id].session !in entries {
          commands := commands - {id};
        }
        ids := ids - {id};
      }
      assert commands == PrunedCommands(old(commands), entries, clock);
      var sessions := retired.Keys;
      while sessions != {}
        invariant sessions <= old(retired).Keys && commands == PrunedCommands(old(commands), entries, clock)
        invariant forall id :: id in retired <==>
                    id in old(retired) && (id in sessions || id in PrunedRetired(old(retired), clock))
        invariant forall id :: id in retired ==> retired[id] == old(retired)[id]
        decreases |sessions|
      {
        var id := Pick(sessions);
        if id in retired && retired[id] <= clock { retired := retired - {id}; }
        sessions := sessions - {id};
      }
      assert retired == PrunedRetired(old(retired), clock);
    }

    /** Whether a Profile already has a Session this one cannot share it with. */
    method HasConflict(profileId: string, kind: Kind) returns (found: bool)
      ensures found == Conflicts(entries, profileId, kind)
    {
      var ids := entries.Keys;
      while ids != {}
        invariant ids <= entries.Keys
        invariant forall id :: id in entries && id !in ids ==>
                    !(entries[id].request.profileId == profileId && (kind.Maintenance? || entries[id].request.kind.Maintenance?))
        decreases |ids|
      {
        var id := Pick(ids);
        var request := entries[id].request;
        if request.profileId == profileId && (kind.Maintenance? || request.kind.Maintenance?) { return true; }
        ids := ids - {id};
      }
      return false;
    }

    method CreateTab(r: Request) returns (outcome: Outcome)
      modifies this
      ensures (Model(), outcome) == CreateSession(old(Model()), r)
    {
      if closed { return Refused(WorkerClosed); }
      PruneCommands();
      if r.messageId in commands && commands[r.messageId].session != r.sessionId { return Refused(CommandIdConflict); }
      if r.sessionId in entries {
        var current := entries[r.sessionId];
        if current.request != r { return Refused(SessionIdConflict); }
        return if current.closing then Refused(SessionClosed) else Existing;
      }
      if r.sessionId in retired || r.messageId in commands { return Refused(SessionClosed); }
      var conflict := HasConflict(r.profileId, r.kind);
      if conflict { return Refused(ProfileSessionConflict); }
      if r.reservationExpiresAt <= clock { return Refused(ReservationExpired); }
      if r.leaseExpiresAt <= clock { return Refused(LeaseExpired); }
      if r.leaseExpiresAt > clock + LEASE_LIMIT { return Refused(LeaseInvalid); }
      entries := entries[r.sessionId := Entry(r, false, 0, r.leaseExpiresAt, None)];
      commands := commands[r.messageId := Command(r.sessionId, r.reservationExpiresAt)];
      return Created;
    }

    method CloseTab(session: string, creationExpiresAt: Option<int>)
      modifies this
      ensures Model() == CloseSession(old(Model()), session, creationExpiresAt)
    {
      if creationExpiresAt.Some? {
        PruneCommands();
        var before := if session in retired then retired[session] else 0;
        retired := retired[session := Max(before, creationExpiresAt.value)];
      }
      if session in entries { entries := entries[session := entries[session].(closing := true)]; }
    }

    /** Core and storage have let go of the Session. */
    method FinishCleanup(session: string)
      requires session in entries && entries[session].closing && entries[session].ticket.None?
      modifies this
      ensures Model() == Cleanup(old(Model()), session)
    {
      var request := entries[session].request;
      entries := entries - {session};
      retired := retired[session := request.reservationExpiresAt];
    }

    method RenewTabLease(session: string, lease: int) returns (ok: bool)
      modifies this`entries
      ensures Model() == RenewLease(old(Model()), session, lease)
      ensures ok == (Live(old(Model()), session) && LeaseProblem(lease, clock).None?)
    {
      if session !in entries || entries[session].closing || closed || entries[session].leaseExpiresAt <= clock { return false; }
      if LeaseProblem(lease, clock).Some? { return false; }
      if lease > entries[session].leaseExpiresAt {
        entries := entries[session := entries[session].(leaseExpiresAt := lease)];
      }
      return true;
    }

    /** Up to asking Core for the ticket. */
    method BeginTicket(session: string, generation: int, valid: bool) returns (ok: bool)
      requires session in entries ==> entries[session].ticket.None?
      modifies this`entries
      ensures Model() == StartTicket(old(Model()), session, generation, valid)
      ensures ok == (Model() != old(Model()))
    {
      if session !in entries || entries[session].closing || closed || entries[session].leaseExpiresAt <= clock { return false; }
      if !valid || generation <= entries[session].viewerGeneration { return false; }
      entries := entries[session := entries[session].(ticket := Some(generation))];
      return true;
    }

    /** Core has answered; a Session that closed meanwhile publishes nothing. */
    method FinishTicket(session: string, ok: bool) returns (published: bool)
      requires session in entries && entries[session].ticket.Some?
      modifies this`entries
      ensures Model() == EndTicket(old(Model()), session, ok)
      ensures published == (ok && Live(old(Model()), session))
    {
      var entry := entries[session];
      published := ok && !entry.closing && !closed && entry.leaseExpiresAt > clock;
      if published { entry := entry.(viewerGeneration := entry.ticket.value); }
      entries := entries[session := entry.(ticket := None)];
    }
  }
}

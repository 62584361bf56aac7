/** The store of completed downloads as it runs: its maps, its queue and its leases, updated in place. */
module RetainedDownloads {
  import opened Basics
  import opened Totals
  import opened RetainedDownloadsModel
  import P = RetainedDownloadsProofs

  class WorkerRetainedDownloads {
    const policy: Policy
    var files: map<string, File>
    var stored: set<string>
    var active: map<string, nat>
    var leases: seq<Lease>
    var reservations: map<Key, Reservation>
    var queue: seq<Op>
    var running: Running
    var clock: int
    var used: set<string>

    function Model(): Store
      reads this
    {
      Store(files, stored, active, leases, reservations, queue, running, clock, used, policy)
    }

    /** A store opened on the manifests found; the bytes of every available file were checked. */
    constructor (policy: Policy, found: map<string, File>, clock: int)
      ensures this.policy == policy
      ensures Model() == Store(found, set id | id in found && found[id].status.Available?, map[], [], map[], [], Idle,
                               clock, found.Keys, policy)
      ensures P.Inv(Model())
    {
      this.policy, files, this.clock := policy, found, clock;
      stored := set id | id in found && found[id].status.Available?;
      active, leases, reservations := map[], [], map[];
      queue, running, used := [], Idle, found.Keys;
    }

    // ---- Bytes ----

    method ReservedBytesOf(session: string) returns (bytes: nat)
      ensures bytes == ReservedBytes(Model(), session)
    {
      var kept := AddUp(FileBytes(files, stored, session));
      var arriving := AddUp(ReservationBytes(reservations, session));
      bytes := kept + arriving;
    }

    method ReserveSink(key: Key, id: string, size: int, uploadBytes: int, maxBytes: nat, admitted: bool) returns (ok: bool)
      requires id !in used
      modifies this
      ensures ok == MayReserve(old(Model()), key, size, uploadBytes, maxBytes, admitted)
      ensures Model() == ReserveDownload(old(Model()), key, id, size, uploadBytes, maxBytes, admitted)
    {
      if !IsSafeInteger(uploadBytes) || uploadBytes < 0 { return false; }
      var bytes := ReservedBytesOf(key.0);
      var previous := if key in reservations then reservations[key].size else 0;
      if !IsSafeInteger(size) || size < 0 || bytes - previous + size + uploadBytes > maxBytes || !admitted { return false; }
      if key in reservations {
        reservations := reservations[key := Reservation(reservations[key].id, size)];
      } else {
        reservations := reservations[key := Reservation(id, size)];
        used := used + {id};
      }
      return true;
    }

    // ---- Leases: these never wait ----

    /** Aborts a lease that is still open once its file is due. */
    method ScheduleDeadline(l: nat, expiresAt: int)
      modifies this`leases
      ensures leases == Schedule(old(leases), l, expiresAt, clock)
    {
      if l >= |leases| || leases[l].finishedAt.Some? { return; }
      if expiresAt - clock <= 0 { leases := leases[l := leases[l].(aborted := true)]; }
    }

    method ReleaseBytes(l: nat)
      requires l < |leases|
      modifies this
      ensures Model() == ReleaseLease(old(Model()), l)
    {
      if leases[l].finishedAt.Some? { return; }
      leases := leases[l := leases[l].(aborted := true)];
      var id := leases[l].file;
      if id in active && active[id] == l { active := active - {id}; }
    }

    /** Called from the response's finish event: decided before anything waits. */
    method FinishTransfer(l: nat) returns (accepted: bool)
      requires l < |leases|
      modifies this
      ensures accepted == MayFinish(old(Model()), l) && Model() == FinishLease(old(Model()), l)
    {
      var lease := leases[l];
      if lease.aborted || lease.finishedAt.Some? || lease.file !in files || files[lease.file].expiresAt <= clock
         || lease.file !in active || active[lease.file] != l
      {
        ReleaseBytes(l);
        return false;
      }
      leases := leases[l := lease.(finishedAt := Some(clock))];
      queue := queue + [Claim(l)];
      return true;
    }

    // ---- The queue ----

    method Call(op: Op)
      requires !op.Claim?
      modifies this`queue
      ensures Model() == Enqueue(old(Model()), op)
    {
      queue := queue + [if op.Expire? then Expire(clock) else op];
    }

    method AcquireLease(id: string, session: string) returns (lease: Option<nat>)
      modifies this
      ensures Model() == AcquireFile(old(Model()), id, session)
      ensures lease == if MayAcquire(old(Model()), id, session) then Some(|old(leases)|) else None
    {
      if id !in files || !files[id].status.Available? || files[id].expiresAt <= clock { return None; }
      if files[id].session != session || id in active { return None; }
      lease := Some(|leases|);
      active := active[id := |leases|];
      leases := leases + [Lease(id, session, false, None)];
    }

    method StartOperation()
      requires running.Idle? && queue != []
      modifies this
      ensures Model() == StartNext(old(Model()))
    {
      var op := queue[0];
      queue := queue[1..];
      match op
      case Acquire(id, session) => var lease := AcquireLease(id, session);
      case EndSession(session, endedAt) => running := Ending(session, endedAt, files.Keys);
      case Expire(at) => running := Expiring(at, files.Keys);
      case Acknowledge(id) =>
        if id in files && !files[id].status.Available? { running := Acknowledging(id); }
      case Claim(l) => running := ClaimedBy(Model(), l);
      case Commit(key, size) =>
        if key in reservations && reservations[key].size == size { running := Checking(key, reservations[key]); }
      case Abort(key) =>
        if key in reservations { running := Aborting(key); }
    }

    method PersistManifest(id: string, file: File)
      modifies this`files, this`leases
      ensures Model() == Persist(old(Model()), id, file)
    {
      files := files[id := file];
      if id in active { ScheduleDeadline(active[id], file.expiresAt); }
    }

    method LetLeaseGo(l: nat)
      modifies this`running, this`active
      ensures Model() == EndClaim(old(Model()), l)
    {
      running := Idle;
      if l < |leases| && leases[l].file in active && active[leases[l].file] == l {
        active := active - {leases[l].file};
      }
    }

    /** endSession's loop: one file, up to its manifest being written. */
    method EndFile(id: string, ok: bool)
      requires running.Ending? && id in running.todo
      modifies this
      ensures Model() == EndOne(old(Model()), old(running.session), old(running.endedAt), old(running.todo), id, ok)
    {
      var endedAt := running.endedAt;
      var skip := id !in files || files[id].session != running.session || files[id].endedAt.Some?;
      running := Ending(running.session, endedAt, running.todo - {id});
      if skip { return; }
      PersistManifest(id, files[id].(endedAt := Some(endedAt), expiresAt := Min(files[id].expiresAt, endedAt + policy.afterSession)));
      if !ok { running := Idle; }
    }

    method DeleteBytesIfGone(at: int, todo: set<string>, id: string)
      modifies this`running
      ensures Model() == DeleteIfGone(old(Model()), at, todo, id)
    {
      if id in files && !files[id].status.Available? && id in stored {
        running := DeletingExpired(at, todo, id);
      } else {
        running := Expiring(at, todo);
      }
    }

    /** expire's loop: one file, up to the first thing it waits for. */
    method ExpireFile(id: string)
      requires running.Expiring? && id in running.todo
      modifies this
      ensures Model() == ExpireOne(old(Model()), old(running.at), old(running.todo), id)
    {
      var at, todo := running.at, running.todo - {id};
      var holder := if id in active && active[id] < |leases| then Some(active[id]) else None;
      if id !in files || (holder.Some? && leases[holder.value].finishedAt.Some?) {
        running := Expiring(at, todo);
        return;
      }
      if files[id].status.Available? && files[id].expiresAt <= at {
        if holder.Some? { leases := leases[holder.value := leases[holder.value].(aborted := true)]; }
        running := WritingExpired(at, todo, id, files[id].(status := Expired));
        return;
      }
      DeleteBytesIfGone(at, todo, id);
    }

    /** What the running operation awaited has ended, or its loop takes the next file. */
    method ContinueOperation(pick: string, ok: bool)
      requires (running.Ending? || running.Expiring?) && running.todo != {} ==> pick in running.todo
      modifies this
      ensures Model() == ResumeRunning(old(Model()), pick, ok)
    {
      match running
      case Idle =>
      case Ending(_, _, todo) => if todo == {} { running := Idle; } else { EndFile(pick, ok); }
      case Expiring(_, todo) => if todo == {} { running := Idle; } else { ExpireFile(pick); }
      case WritingExpired(at, todo, id, file) =>
        if ok { PersistManifest(id, file); DeleteBytesIfGone(at, todo, id); } else { running := Idle; }
      case DeletingExpired(at, todo, id) =>
        if ok { stored := stored - {id}; running := Expiring(at, todo); } else { running := Idle; }
      case Acknowledging(id) =>
        if ok { files := files - {id}; stored := stored - {id}; }
        running := Idle;
      case WritingClaim(l, file) =>
        if ok && l < |leases| { PersistManifest(leases[l].file, file); running := DeletingClaim(l); } else { LetLeaseGo(l); }
      case DeletingClaim(l) =>
        if ok && l < |leases| { stored := stored - {leases[l].file}; }
        LetLeaseGo(l);
      case Checking(key, reservation) =>
        running := if ok
          then Moving(key, reservation.id, File(key.0, reservation.size, Available, clock + policy.completed, None, None))
          else Idle;
      case Moving(key, id, file) =>
        if ok { files := files[id := file]; stored := stored + {id}; reservations := reservations - {key}; }
        running := Idle;
      case Aborting(key) =>
        if ok { reservations := reservations - {key}; }
        running := Idle;
    }
  }
}

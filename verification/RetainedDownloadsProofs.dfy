/** What every step of the download store keeps, and how each download ends. */
module RetainedDownloadsProofs {
  import opened Basics
  import opened RetainedDownloadsModel

  // ---- The invariant ----

  ghost predicate LeasesFit(active: map<string, nat>, leases: seq<Lease>) {
    forall id :: id in active ==> active[id] < |leases| && leases[active[id]].file == id
  }

  /** An available download still has its bytes. */
  ghost predicate BytesFit(files: map<string, File>, stored: set<string>) {
    forall id :: id in files && files[id].status.Available? ==> id in stored
  }

  /** Whoever holds a download that is no longer available cannot finish it any more. */
  ghost predicate HoldersFit(files: map<string, File>, active: map<string, nat>, leases: seq<Lease>) {
    forall id :: id in active ==>
      || (id in files && files[id].status.Available?)
      || (active[id] < |leases| && (leases[active[id]].aborted || leases[active[id]].finishedAt.Some?))
  }

  ghost predicate IdsFit(files: map<string, File>, reservations: map<Key, Reservation>, used: set<string>) {
    && files.Keys <= used
    && (forall k :: k in reservations ==> reservations[k].id in used && reservations[k].id !in files)
    && (forall j, k :: j in reservations && k in reservations && j != k ==> reservations[j].id != reservations[k].id)
  }

  /** The lease has finished, its file has not been claimed yet, and no one else can have it. */
  ghost predicate Pending(files: map<string, File>, active: map<string, nat>, leases: seq<Lease>, l: nat) {
    && l < |leases| && leases[l].finishedAt.Some?
    && leases[l].file in active && active[leases[l].file] == l
    && leases[l].file in files && files[leases[l].file].status.Available?
  }

  ghost predicate ClaimsFit(queue: seq<Op>, files: map<string, File>, active: map<string, nat>, leases: seq<Lease>) {
    forall i :: 0 <= i < |queue| && queue[i].Claim? ==> Pending(files, active, leases, queue[i].lease)
  }

  ghost predicate ClaimsDiffer(queue: seq<Op>) {
    forall i, j :: 0 <= i < j < |queue| && queue[i].Claim? && queue[j].Claim? ==> queue[i].lease != queue[j].lease
  }

  ghost predicate ExpiriesPast(queue: seq<Op>, now: int) {
    forall i :: 0 <= i < |queue| && queue[i].Expire? ==> queue[i].at <= now
  }

  /** Expiry of this file has been decided: whoever holds it can no longer finish. */
  ghost predicate Revoked(active: map<string, nat>, leases: seq<Lease>, id: string) {
    id in active && active[id] < |leases| ==> leases[active[id]].aborted && leases[active[id]].finishedAt.None?
  }

  ghost predicate Arriving(s: Store, key: Key, id: string) {
    key in s.reservations && s.reservations[key].id == id
  }

  ghost predicate RunningFits(s: Store) {
    match s.running
    case Idle => true
    case Ending(_, _, _) => true
    case Expiring(at, _) => at <= s.now
    case WritingExpired(at, _, id, file) =>
      && id in s.files && s.files[id].status.Available? && file == s.files[id].(status := Expired)
      && file.expiresAt <= at <= s.now && Revoked(s.active, s.leases, id)
    case DeletingExpired(at, _, id) => at <= s.now && id in s.files && !s.files[id].status.Available?
    case Acknowledging(id) => id in s.files && !s.files[id].status.Available?
    case WritingClaim(l, file) =>
      && Pending(s.files, s.active, s.leases, l) && Claim(l) !in s.queue
      && file == s.files[s.leases[l].file].(status := Claimed, claimedAt := s.leases[l].finishedAt)
    case DeletingClaim(l) =>
      && l < |s.leases| && s.leases[l].file in s.files && s.files[s.leases[l].file].status.Claimed?
    case Checking(key, r) => Arriving(s, key, r.id)
    case Moving(key, id, file) => Arriving(s, key, id) && file.status.Available? && file.session == key.0
    case Aborting(key) => key in s.reservations
  }

  ghost predicate Inv(s: Store) {
    && LeasesFit(s.active, s.leases)
    && BytesFit(s.files, s.stored)
    && HoldersFit(s.files, s.active, s.leases)
    && IdsFit(s.files, s.reservations, s.used)
    && ClaimsFit(s.queue, s.files, s.active, s.leases)
    && ClaimsDiffer(s.queue)
    && ExpiriesPast(s.queue, s.now)
    && RunningFits(s)
  }

  /** Leases may come, go and be aborted; those that finished stay what they are. */
  ghost predicate KeepsFinished(active: map<string, nat>, leases: seq<Lease>, active2: map<string, nat>, leases2: seq<Lease>) {
    && |leases| <= |leases2|
    && forall l :: 0 <= l < |leases| ==>
         && leases2[l].file == leases[l].file
         && (leases[l].aborted ==> leases2[l].aborted)
         && (leases[l].finishedAt.Some? ==>
               && leases2[l].finishedAt == leases[l].finishedAt
               && (leases[l].file in active && active[leases[l].file] == l ==>
                     leases[l].file in active2 && active2[leases[l].file] == l))
  }

  lemma PendingKept(files: map<string, File>, active: map<string, nat>, leases: seq<Lease>,
                    active2: map<string, nat>, leases2: seq<Lease>, queue: seq<Op>)
    requires KeepsFinished(active, leases, active2, leases2) && ClaimsFit(queue, files, active, leases)
    ensures ClaimsFit(queue, files, active2, leases2)
  {
    forall i | 0 <= i < |queue| && queue[i].Claim?
      ensures Pending(files, active2, leases2, queue[i].lease)
    {
      assert Pending(files, active, leases, queue[i].lease);
    }
  }

  /** Two pending claims are for different files. */
  lemma OneClaimPerFile(files: map<string, File>, active: map<string, nat>, leases: seq<Lease>, k: nat, l: nat)
    requires Pending(files, active, leases, k) && Pending(files, active, leases, l) && k != l
    ensures leases[k].file != leases[l].file
  {}

  /** A file changes under claims that are all for other files, or keeps its status. */
  lemma ClaimsOnOtherFiles(s: Store, queue: seq<Op>, files: map<string, File>, id: string)
    requires ClaimsFit(queue, s.files, s.active, s.leases)
    requires forall f :: f in s.files && f != id ==> f in files && files[f] == s.files[f]
    requires (id in files && files[id].status.Available?)
          || (forall i :: 0 <= i < |queue| && queue[i].Claim? && queue[i].lease < |s.leases| ==> s.leases[queue[i].lease].file != id)
    ensures ClaimsFit(queue, files, s.active, s.leases)
  {
    forall i | 0 <= i < |queue| && queue[i].Claim?
      ensures Pending(files, s.active, s.leases, queue[i].lease)
    {
      assert Pending(s.files, s.active, s.leases, queue[i].lease);
    }
  }

  // ---- Each kind of step keeps it ----

  lemma TickKeeps(s: Store, to: int)
    requires Inv(s)
    ensures Inv(Step(s, Tick(to)))
  {}

  lemma Queued(s: Store, op: Op)
    requires ClaimsFit(s.queue, s.files, s.active, s.leases) && ClaimsDiffer(s.queue) && ExpiriesPast(s.queue, s.now)
    requires !op.Claim? && (op.Expire? ==> op.at <= s.now)
    ensures var queue := s.queue + [op];
            && ClaimsFit(queue, s.files, s.active, s.leases) && ClaimsDiffer(queue) && ExpiriesPast(queue, s.now)
            && forall l :: Claim(l) in queue <==> Claim(l) in s.queue
  {
    hide Pending;
  }

  lemma CallKeeps(s: Store, op: Op)
    requires Inv(s)
    ensures Inv(Step(s, Call(op)))
  {
    hide LeasesFit, BytesFit, HoldersFit, IdsFit, ClaimsFit, ClaimsDiffer, ExpiriesPast, Pending, Revoked;
    var t := Enqueue(s, op);
    if !op.Claim? {
      Queued(s, if op.Expire? then Expire(s.now) else op);
      assert t == s.(queue := t.queue);
      assert RunningFits(t);
    }
  }

  lemma ReleaseKeeps(s: Store, l: nat)
    requires Inv(s)
    ensures Inv(ReleaseLease(s, l))
  {
    if l < |s.leases| && s.leases[l].finishedAt.None? {
      var t := ReleaseLease(s, l);
      assert KeepsFinished(s.active, s.leases, t.active, t.leases);
      PendingKept(s.files, s.active, s.leases, t.active, t.leases, s.queue);
    }
  }

  lemma FinishKeeps(s: Store, l: nat)
    requires Inv(s)
    ensures Inv(FinishLease(s, l))
  {
    if MayFinish(s, l) {
      var t := FinishLease(s, l);
      var f := s.leases[l].file;
      assert KeepsFinished(s.active, s.leases, t.active, t.leases);
      PendingKept(s.files, s.active, s.leases, t.active, t.leases, s.queue);
      assert forall i :: 0 <= i < |s.queue| && s.queue[i].Claim? ==> Pending(s.files, s.active, s.leases, s.queue[i].lease);
      assert Pending(t.files, t.active, t.leases, l);
    } else {
      ReleaseKeeps(s, l);
    }
  }

  lemma ScheduleKeepsFinished(s: Store, l: nat, expiresAt: int)
    requires Inv(s)
    ensures var leases := Schedule(s.leases, l, expiresAt, s.now);
            KeepsFinished(s.active, s.leases, s.active, leases) && Inv(s.(leases := leases))
  {
    var leases := Schedule(s.leases, l, expiresAt, s.now);
    assert KeepsFinished(s.active, s.leases, s.active, leases);
    PendingKept(s.files, s.active, s.leases, s.active, leases, s.queue);
  }

  lemma IdsAfterReserve(s: Store, key: Key, id: string, size: nat)
    requires IdsFit(s.files, s.reservations, s.used)
    ensures key in s.reservations ==>
              IdsFit(s.files, s.reservations[key := Reservation(s.reservations[key].id, size)], s.used)
    ensures key !in s.reservations && id !in s.used ==>
              IdsFit(s.files, s.reservations[key := Reservation(id, size)], s.used + {id})
  {}

  lemma ReserveKeeps(s: Store, key: Key, id: string, size: int, uploadBytes: int, maxBytes: nat, admitted: bool)
    requires Inv(s)
    ensures Inv(ReserveDownload(s, key, id, size, uploadBytes, maxBytes, admitted))
  {
    hide LeasesFit, BytesFit, HoldersFit, IdsFit, ClaimsFit, ClaimsDiffer, ExpiriesPast, Pending, Revoked;
    if MayReserve(s, key, size, uploadBytes, maxBytes, admitted) { IdsAfterReserve(s, key, id, size); }
  }

  /** The rest of the queue, once its head has been taken. */
  lemma TakeNext(s: Store)
    requires Inv(s) && s.running.Idle? && s.queue != []
    ensures Inv(s.(queue := s.queue[1..]))
    ensures s.queue[0].Claim? ==> Pending(s.files, s.active, s.leases, s.queue[0].lease) && s.queue[0] !in s.queue[1..]
    ensures s.queue[0].Expire? ==> s.queue[0].at <= s.now
  {
    assert forall i :: 0 <= i < |s.queue[1..]| ==> s.queue[1..][i] == s.queue[i + 1];
  }

  lemma AcquireKeeps(s: Store, id: string, session: string)
    requires Inv(s) && s.running.Idle?
    ensures Inv(AcquireFile(s, id, session))
  {
    if MayAcquire(s, id, session) {
      var t := AcquireFile(s, id, session);
      assert KeepsFinished(s.active, s.leases, t.active, t.leases);
      PendingKept(s.files, s.active, s.leases, t.active, t.leases, s.queue);
    }
  }

  lemma StartKeeps(s: Store)
    requires Inv(s)
    ensures Inv(StartNext(s))
  {
    if s.running.Idle? && s.queue != [] {
      TakeNext(s);
      var next := s.(queue := s.queue[1..]);
      if s.queue[0].Acquire? {
        AcquireKeeps(next, s.queue[0].id, s.queue[0].session);
      }
    }
  }

  // ---- The running operation continues ----

  /** A manifest is rewritten with the same status. */
  lemma PersistSameStatus(s: Store, id: string, file: File)
    requires Inv(s) && (s.running.Ending? || s.running.Idle?)
    requires id in s.files && file.status == s.files[id].status
    ensures Inv(Persist(s, id, file))
  {
    var files := s.files[id := file];
    ClaimsOnSameStatus(s, files, id);
    var t := s.(files := files);
    assert Inv(t);
    if id in s.active { ScheduleKeepsFinished(t, s.active[id], file.expiresAt); }
  }

  lemma ClaimsOnSameStatus(s: Store, files: map<string, File>, id: string)
    requires ClaimsFit(s.queue, s.files, s.active, s.leases)
    requires id in s.files && id in files && files[id].status == s.files[id].status
    requires forall f :: f in s.files && f != id ==> f in files && files[f] == s.files[f]
    ensures ClaimsFit(s.queue, files, s.active, s.leases)
  {
    forall i | 0 <= i < |s.queue| && s.queue[i].Claim?
      ensures Pending(files, s.active, s.leases, s.queue[i].lease)
    {
      assert Pending(s.files, s.active, s.leases, s.queue[i].lease);
    }
  }

  /** An available download reaches its final status: no claim waits for it, its holder cannot finish. */
  lemma PersistFinalStatus(s: Store, id: string, file: File)
    requires Inv(s) && s.running.Idle?
    requires id in s.files && !file.status.Available?
    requires forall i :: 0 <= i < |s.queue| && s.queue[i].Claim? && s.queue[i].lease < |s.leases| ==>
               s.leases[s.queue[i].lease].file != id
    requires id in s.active && s.active[id] < |s.leases| ==>
               s.leases[s.active[id]].aborted || s.leases[s.active[id]].finishedAt.Some?
    ensures Inv(Persist(s, id, file))
  {
    var files := s.files[id := file];
    ClaimsOnOtherFiles(s, s.queue, files, id);
    var t := s.(files := files);
    assert Inv(t);
    if id in s.active { ScheduleKeepsFinished(t, s.active[id], file.expiresAt); }
  }

  lemma EndOneKeeps(s: Store, session: string, endedAt: int, todo: set<string>, id: string, ok: bool)
    requires Inv(s) && s.running.Ending?
    ensures Inv(EndOne(s, session, endedAt, todo, id, ok))
  {
    var on := s.(running := Ending(session, endedAt, todo - {id}));
    if id in s.files && s.files[id].session == session && s.files[id].endedAt.None? {
      PersistSameStatus(on, id, Ended(s.files[id], endedAt, s.policy));
    }
  }

  lemma AbortKeepsFinished(s: Store, id: string)
    requires Inv(s) && !Finished(s, id)
    ensures KeepsFinished(s.active, s.leases, s.active, AbortActive(s, id))
    ensures s.running.Idle? ==> Inv(s.(leases := AbortActive(s, id)))
    ensures Revoked(s.active, AbortActive(s, id), id)
  {
    var leases := AbortActive(s, id);
    assert KeepsFinished(s.active, s.leases, s.active, leases);
    PendingKept(s.files, s.active, s.leases, s.active, leases, s.queue);
  }

  lemma ExpireOneKeeps(s: Store, at: int, todo: set<string>, id: string)
    requires Inv(s) && s.running.Expiring? && at <= s.now
    ensures Inv(ExpireOne(s, at, todo, id))
  {
    var idle := s.(running := Idle);
    assert Inv(idle);
    if !Finished(s, id) { AbortKeepsFinished(idle, id); }
  }

  /** While expiry writes a file, none of the queued claims is for it. */
  lemma NoClaimOfRevoked(s: Store, id: string)
    requires Inv(s) && Revoked(s.active, s.leases, id)
    ensures forall i :: 0 <= i < |s.queue| && s.queue[i].Claim? && s.queue[i].lease < |s.leases| ==>
              s.leases[s.queue[i].lease].file != id
  {
    forall i | 0 <= i < |s.queue| && s.queue[i].Claim? && s.queue[i].lease < |s.leases|
      ensures s.leases[s.queue[i].lease].file != id
    {
      assert Pending(s.files, s.active, s.leases, s.queue[i].lease);
    }
  }

  lemma WritingExpiredKeeps(s: Store, ok: bool)
    requires Inv(s) && s.running.WritingExpired?
    ensures Inv(ResumeRunning(s, "", ok))
  {
    var idle := s.(running := Idle);
    assert Inv(idle);
    if ok {
      NoClaimOfRevoked(s, s.running.id);
      PersistFinalStatus(idle, s.running.id, s.running.file);
    }
  }

  lemma WritingClaimKeeps(s: Store, ok: bool)
    requires Inv(s) && s.running.WritingClaim?
    ensures Inv(ResumeRunning(s, "", ok))
  {
    var l := s.running.lease;
    var idle := s.(running := Idle);
    assert Inv(idle);
    if ok {
      forall i | 0 <= i < |s.queue| && s.queue[i].Claim? && s.queue[i].lease < |s.leases|
        ensures s.leases[s.queue[i].lease].file != s.leases[l].file
      {
        assert Pending(s.files, s.active, s.leases, s.queue[i].lease);
        OneClaimPerFile(s.files, s.active, s.leases, s.queue[i].lease, l);
      }
      PersistFinalStatus(idle, s.leases[l].file, s.running.file);
    } else {
      EndClaimKeeps(idle, l);
    }
  }

  lemma EndClaimKeeps(s: Store, l: nat)
    requires Inv(s) && Claim(l) !in s.queue
    ensures Inv(EndClaim(s, l))
  {
    var t := EndClaim(s, l);
    forall i | 0 <= i < |s.queue| && s.queue[i].Claim?
      ensures Pending(t.files, t.active, t.leases, s.queue[i].lease)
    {
      assert s.queue[i] in s.queue && Pending(s.files, s.active, s.leases, s.queue[i].lease);
    }
  }

  lemma DeletingClaimKeeps(s: Store, ok: bool)
    requires Inv(s) && s.running.DeletingClaim?
    ensures Inv(ResumeRunning(s, "", ok))
  {
    var l := s.running.lease;
    forall i | 0 <= i < |s.queue|
      ensures s.queue[i] != Claim(l)
    {
      if s.queue[i].Claim? { assert Pending(s.files, s.active, s.leases, s.queue[i].lease); }
    }
    var idle := s.(running := Idle);
    EndClaimKeeps(idle, l);
    if ok { EndClaimKeeps(idle.(stored := s.stored - {s.leases[l].file}), l); }
  }

  lemma AcknowledgingKeeps(s: Store, ok: bool)
    requires Inv(s) && s.running.Acknowledging?
    ensures Inv(ResumeRunning(s, "", ok))
  {
    var id := s.running.id;
    forall i | 0 <= i < |s.queue| && s.queue[i].Claim?
      ensures Pending(s.files - {id}, s.active, s.leases, s.queue[i].lease)
    {
      assert Pending(s.files, s.active, s.leases, s.queue[i].lease);
    }
  }

  lemma MovingKeeps(s: Store, ok: bool)
    requires Inv(s) && s.running.Moving?
    ensures Inv(ResumeRunning(s, "", ok))
  {
    if ok {
      var id := s.running.id;
      ClaimsOnOtherFiles(s, s.queue, s.files[id := s.running.file], id);
    }
  }

  lemma ResumeKeeps(s: Store, pick: string, ok: bool)
    requires Inv(s)
    ensures Inv(ResumeRunning(s, pick, ok))
  {
    match s.running
    case Ending(session, endedAt, todo) => if pick in todo { EndOneKeeps(s, session, endedAt, todo, pick, ok); }
    case Expiring(at, todo) => if pick in todo { ExpireOneKeeps(s, at, todo, pick); }
    case WritingExpired(_, _, _, _) => WritingExpiredKeeps(s, ok);
    case WritingClaim(_, _) => WritingClaimKeeps(s, ok);
    case DeletingClaim(_) => DeletingClaimKeeps(s, ok);
    case Acknowledging(_) => AcknowledgingKeeps(s, ok);
    case Moving(_, _, _) => MovingKeeps(s, ok);
    case _ =>
  }

  lemma StepKeeps(s: Store, e: Event)
    requires Inv(s)
    ensures Inv(Step(s, e))
  {
    match e
    case Tick(to) => TickKeeps(s, to);
    case Call(op) => CallKeeps(s, op);
    case Start => StartKeeps(s);
    case Resume(pick, ok) => ResumeKeeps(s, pick, ok);
    case Finish(l) => FinishKeeps(s, l);
    case Release(l) => ReleaseKeeps(s, l);
    case Deadline(l) =>
      if l < |s.leases| && s.leases[l].file in s.files {
        ScheduleKeepsFinished(s, l, s.files[s.leases[l].file].expiresAt);
      }
    case Reserve(key, id, size, uploadBytes, maxBytes, admitted) =>
      ReserveKeeps(s, key, id, size, uploadBytes, maxBytes, admitted);
  }

  /** Whatever happens, an available download still has its bytes. */
  lemma {:induction false} RunKeeps(s: Store, run: seq<Event>)
    requires Inv(s)
    ensures Inv(Run(s, run)) && BytesFit(Run(s, run).files, Run(s, run).stored)
    decreases |run|
  {
    if run != [] {
      StepKeeps(s, run[0]);
      RunKeeps(Step(s, run[0]), run[1..]);
    }
  }
}

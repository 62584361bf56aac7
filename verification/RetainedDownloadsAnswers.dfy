/** What each call on the download store, and each step of its queue, does, written out. */
module RetainedDownloadsAnswers {
  import opened Basics
  import opened Totals
  import opened RetainedDownloadsModel
  import P = RetainedDownloadsProofs
  import O = RetainedDownloadsOutcomes

  // ---- Whose bytes a lease is on ----

  /** A lease is given exactly on a download that is there, available, not due, held by nobody, and the Session's own. */
  lemma AcquiredExactly(s: Store, id: string, session: string)
    ensures AcquireFile(s, id, session) ==
            if id in s.files && s.files[id].status == Available && s.now < s.files[id].expiresAt
               && id !in s.active && s.files[id].session == session
            then s.(active := s.active[id := |s.leases|], leases := s.leases + [Lease(id, session, false, None)])
            else s
  {}

  /** A download a lease is on will not be another one later. */
  ghost predicate LeasesOwn(s: Store) {
    forall l :: 0 <= l < |s.leases| ==>
      O.Known(s, s.leases[l].file)
      && (s.leases[l].file in s.files ==> s.files[s.leases[l].file].session == s.leases[l].session)
  }

  /** The leases there were are on the same downloads for the same Sessions; a new one is on a download of its own. */
  ghost predicate LeasesGrow(s: Store, now: seq<Lease>) {
    && |s.leases| <= |now|
    && (forall l :: 0 <= l < |s.leases| ==> now[l].file == s.leases[l].file && now[l].session == s.leases[l].session)
    && (forall l :: |s.leases| <= l < |now| ==> now[l].file in s.files && s.files[now[l].file].session == now[l].session)
  }

  lemma SameGrow(s: Store, now: seq<Lease>)
    requires O.SameLeases(s.leases, now) && |now| == |s.leases|
    ensures LeasesGrow(s, now)
  {}

  lemma ResumeSameLength(s: Store, pick: string, ok: bool)
    ensures |ResumeRunning(s, pick, ok).leases| == |s.leases|
  {}

  lemma StartGrows(s: Store)
    ensures LeasesGrow(s, StartNext(s).leases)
  {
    hide ClaimedBy;
  }

  lemma StepGrows(s: Store, e: Event)
    ensures LeasesGrow(s, Step(s, e).leases)
  {
    hide StartNext, ResumeRunning, MayReserve, O.SameLeases;
    match e
    case Start => StartGrows(s);
    case Resume(pick, ok) =>
      O.ResumeLeases(s, pick, ok);
      ResumeSameLength(s, pick, ok);
      SameGrow(s, ResumeRunning(s, pick, ok).leases);
    case _ =>
  }

  lemma StepOwns(s: Store, e: Event)
    requires P.Inv(s) && LeasesOwn(s)
    ensures LeasesOwn(Step(s, e))
  {
    hide Step, P.Inv, O.Known, O.Advances;
    StepGrows(s, e);
    var t := Step(s, e);
    forall l | 0 <= l < |t.leases|
      ensures O.Known(t, t.leases[l].file)
      ensures t.leases[l].file in t.files ==> t.files[t.leases[l].file].session == t.leases[l].session
    {
      var id := t.leases[l].file;
      if l >= |s.leases| { O.FileIsKnown(s, id); }
      O.KnownKept(s, e, id);
      if id in s.files {
        O.StepAdvances(s, e, id);
        if id in t.files { SameSession(s.files[id], t.files[id]); }
      }
    }
  }

  lemma SameSession(was: File, now: File)
    requires O.Advances(was, now)
    ensures now.session == was.session
  {}

  /** In every run, every lease there has ever been is on a download of the Session that acquired it. */
  lemma {:induction false} LeasesAreOwn(s: Store, run: seq<Event>)
    requires P.Inv(s) && LeasesOwn(s)
    ensures LeasesOwn(Run(s, run))
    decreases |run|
  {
    if run != [] {
      hide P.Inv, LeasesOwn, Step;
      P.StepKeeps(s, run[0]);
      StepOwns(s, run[0]);
      LeasesAreOwn(Step(s, run[0]), run[1..]);
    }
  }

  // ---- Finishing and letting go ----

  /** Releasing lets go of a lease that has not finished, and of nothing else. */
  lemma LetGoExactly(s: Store, l: nat)
    requires l < |s.leases|
    ensures var lease := s.leases[l];
            Step(s, Release(l)) ==
              if lease.finishedAt != None then s
              else s.(leases := s.leases[l := Lease(lease.file, lease.session, true, None)],
                      active := if lease.file in s.active && s.active[lease.file] == l then s.active - {lease.file} else s.active)
  {}

  /**
   A finish is accepted exactly if the lease holds its download still, was neither aborted nor
   finished, and the download is not due. Then its claim is queued; otherwise it is let go.
   */
  lemma FinishedExactly(s: Store, l: nat)
    requires l < |s.leases|
    ensures var lease := s.leases[l];
            var accepted := lease.file in s.active && s.active[lease.file] == l && !lease.aborted && lease.finishedAt == None
                            && lease.file in s.files && s.now < s.files[lease.file].expiresAt;
            Step(s, Finish(l)) ==
              if accepted then s.(leases := s.leases[l := Lease(lease.file, lease.session, false, Some(s.now))],
                                  queue := s.queue + [Claim(l)])
              else Step(s, Release(l))
  {}

  /** When its timer fires, a lease that has not finished is aborted exactly if its download is due. */
  lemma DeadlineFiresExactly(s: Store, l: nat)
    requires l < |s.leases| && s.leases[l].file in s.files
    ensures var lease := s.leases[l];
            Step(s, Deadline(l)).leases ==
              if lease.finishedAt == None && s.files[lease.file].expiresAt <= s.now
              then s.leases[l := Lease(lease.file, lease.session, true, None)] else s.leases
  {}

  // ---- Retention ----

  /** A Session's end keeps what is due earlier, and gives the rest the afterSession retention. */
  lemma EndedExactly(s: Store, id: string, ok: bool)
    requires s.running.Ending? && id in s.running.todo
    ensures var (session, endedAt, todo) := (s.running.session, s.running.endedAt, s.running.todo);
            var t := ResumeRunning(s, id, ok);
            if id in s.files && s.files[id].session == session && s.files[id].endedAt == None then
              var f := s.files[id];
              && t.files == s.files[id := File(f.session, f.size, f.status,
                                               if f.expiresAt <= endedAt + s.policy.afterSession then f.expiresAt
                                               else endedAt + s.policy.afterSession,
                                               Some(endedAt), f.claimedAt)]
              && t.running == (if ok then Ending(session, endedAt, todo - {id}) else Idle)
              && (forall l :: 0 <= l < |s.leases| ==>
                    t.leases[l] == s.leases[l]
                    || (id in s.active && s.active[id] == l && t.files[id].expiresAt <= s.now && t.leases[l] == s.leases[l].(aborted := true)))
              && ((id in s.active && s.active[id] < |s.leases| && s.leases[s.active[id]].finishedAt == None
                    && t.files[id].expiresAt <= s.now) ==> t.leases[s.active[id]].aborted)
            else t == s.(running := Ending(session, endedAt, todo - {id}))
  {}

  /** When a download of this first deadline is due, its Session still on or ended. */
  ghost predicate DueAt(s: Store, id: string, first: int) {
    && O.Known(s, id)
    && (id in s.files ==>
          s.files[id].expiresAt == match s.files[id].endedAt
            case None => first
            case Some(at) => if first <= at + s.policy.afterSession then first else at + s.policy.afterSession)
  }

  lemma ClaimDue(s: Store, pick: string, ok: bool, id: string, first: int)
    requires P.Inv(s) && DueAt(s, id, first) && id in s.files && (s.running.WritingClaim? || s.running.DeletingClaim?)
    ensures var t := ResumeRunning(s, pick, ok);
            && t.policy == s.policy && id in t.files
            && t.files[id].expiresAt == s.files[id].expiresAt && t.files[id].endedAt == s.files[id].endedAt
  {
    hide P.LeasesFit, P.BytesFit, P.HoldersFit, P.ClaimsFit, P.ClaimsDiffer, P.ExpiriesPast, O.Known;
    hide ScheduleActive, LetGo;
  }

  lemma EndingDue(s: Store, pick: string, ok: bool, id: string, first: int)
    requires DueAt(s, id, first) && id in s.files && s.running.Ending?
    ensures var t := ResumeRunning(s, pick, ok);
            && t.policy == s.policy && id in t.files
            && t.files[id].expiresAt == match t.files[id].endedAt
                 case None => first
                 case Some(at) => if first <= at + s.policy.afterSession then first else at + s.policy.afterSession
  {
    hide O.Known, ScheduleActive;
  }

  lemma ResumeDue(s: Store, pick: string, ok: bool, id: string, first: int)
    requires P.Inv(s) && DueAt(s, id, first) && id in s.files && id in ResumeRunning(s, pick, ok).files
    ensures var t := ResumeRunning(s, pick, ok);
            && t.policy == s.policy
            && t.files[id].expiresAt == match t.files[id].endedAt
                 case None => first
                 case Some(at) => if first <= at + s.policy.afterSession then first else at + s.policy.afterSession
  {
    hide P.LeasesFit, P.BytesFit, P.HoldersFit, P.ClaimsFit, P.ClaimsDiffer, P.ExpiriesPast, P.Revoked, P.Pending, O.Known;
    hide ScheduleActive, LetGo, AbortActive, Finished, EndClaim;
    match s.running
    case WritingClaim(_, _) => ClaimDue(s, pick, ok, id, first);
    case DeletingClaim(_) => ClaimDue(s, pick, ok, id, first);
    case Ending(_, _, _) => EndingDue(s, pick, ok, id, first);
    case _ => hide P.Pending, Ended, EndOne;
  }

  lemma StepDue(s: Store, e: Event, id: string, first: int)
    requires P.Inv(s) && DueAt(s, id, first)
    ensures DueAt(Step(s, e), id, first)
  {
    hide P.Inv, O.Known, ResumeRunning, StartNext, MayFinish, MayReserve;
    O.KnownKept(s, e, id);
    match e
    case Start => StartsDue(s);
    case Resume(pick, ok) => if id in s.files && id in ResumeRunning(s, pick, ok).files { ResumeDue(s, pick, ok, id, first); } else { ResumePolicy(s, pick, ok); }
    case _ =>
  }

  lemma StartsDue(s: Store)
    ensures StartNext(s).files == s.files && StartNext(s).policy == s.policy
  {
    hide MayAcquire, ClaimedBy;
  }

  lemma ResumePolicy(s: Store, pick: string, ok: bool)
    ensures ResumeRunning(s, pick, ok).policy == s.policy
  {
    hide ScheduleActive, LetGo, AbortActive, Finished;
  }

  /**
   Over any run a download is due exactly at its first deadline, or afterSession after its
   Session ended if that is earlier: never before, and never later.
   */
  lemma {:induction false} DueExactly(s: Store, run: seq<Event>, id: string, first: int)
    requires P.Inv(s) && DueAt(s, id, first)
    ensures DueAt(Run(s, run), id, first)
    decreases |run|
  {
    if run != [] {
      hide P.Inv, DueAt, Step;
      P.StepKeeps(s, run[0]);
      StepDue(s, run[0], id, first);
      DueExactly(Step(s, run[0]), run[1..], id, first);
    }
  }

  /** Expiry takes exactly the available downloads that are due and not finished; those already gone lose their bytes. */
  lemma ExpiredExactly(s: Store, id: string, ok: bool)
    requires s.running.Expiring? && id in s.running.todo
    ensures var (at, todo) := (s.running.at, s.running.todo - {id});
            var t := ResumeRunning(s, id, ok);
            var holder := if id in s.active && s.active[id] < |s.leases| then Some(s.active[id]) else None;
            && t.files == s.files && t.stored == s.stored && t.active == s.active
            && t.running ==
                 (if id !in s.files || (holder.Some? && s.leases[holder.value].finishedAt != None) then Expiring(at, todo)
                  else if s.files[id].status == Available && s.files[id].expiresAt <= at
                  then WritingExpired(at, todo, id, s.files[id].(status := Expired))
                  else if s.files[id].status != Available && id in s.stored then DeletingExpired(at, todo, id)
                  else Expiring(at, todo))
            && (t.running.WritingExpired? && holder.Some? ==> t.leases == s.leases[holder.value := s.leases[holder.value].(aborted := true)])
  {}

  /** The rest of an expiry: the manifest is written, then the bytes go; a failure ends it. */
  lemma ExpiryGoesOn(s: Store, pick: string, ok: bool)
    ensures s.running.WritingExpired? ==>
              var (at, todo, id) := (s.running.at, s.running.todo, s.running.id);
              var t := ResumeRunning(s, pick, ok);
              && t.files == (if ok then s.files[id := s.running.file] else s.files)
              && t.running == (if !ok then Idle
                               else if s.running.file.status != Available && id in s.stored then DeletingExpired(at, todo, id)
                               else Expiring(at, todo))
    ensures s.running.DeletingExpired? ==>
              ResumeRunning(s, pick, ok) ==
                if ok then s.(stored := s.stored - {s.running.id}, running := Expiring(s.running.at, s.running.todo))
                else s.(running := Idle)
    ensures (s.running.Expiring? || s.running.Ending?) && s.running.todo == {} ==> ResumeRunning(s, pick, ok) == s.(running := Idle)
  {}

  // ---- Claims, commits, aborts and acknowledgements ----

  /** Where the next operation waits first, if it waits at all. */
  lemma StartedExactly(s: Store)
    requires s.running.Idle? && s.queue != []
    ensures var t, op := StartNext(s), s.queue[0];
            && t.queue == s.queue[1..] && t.files == s.files && t.stored == s.stored && t.reservations == s.reservations
            && (op.Acquire? ==> t == AcquireFile(s.(queue := s.queue[1..]), op.id, op.session))
            && (!op.Acquire? ==> t.leases == s.leases && t.active == s.active)
            && t.running ==
               match op
               case Acquire(_, _) => Idle
               case EndSession(session, endedAt) => Ending(session, endedAt, s.files.Keys)
               case Expire(at) => Expiring(at, s.files.Keys)
               case Acknowledge(id) => if id in s.files && s.files[id].status != Available then Acknowledging(id) else Idle
               case Claim(l) =>
                 if l < |s.leases| && s.leases[l].file in s.files then
                   var f := s.files[s.leases[l].file];
                   WritingClaim(l, File(f.session, f.size, Claimed, f.expiresAt, f.endedAt, s.leases[l].finishedAt))
                 else Idle
               case Commit(key, size) =>
                 if key in s.reservations && s.reservations[key].size == size then Checking(key, s.reservations[key]) else Idle
               case Abort(key) => if key in s.reservations then Aborting(key) else Idle
  {}

  /** A claim that is written deletes the bytes; either way it ends by giving up its lease, failed or not. */
  lemma ClaimGoesOn(s: Store, pick: string, ok: bool)
    requires (s.running.WritingClaim? || s.running.DeletingClaim?) && s.running.lease < |s.leases|
    ensures var t, l := ResumeRunning(s, pick, ok), s.running.lease;
            var id := s.leases[l].file;
            && t.files == (if ok && s.running.WritingClaim? then s.files[id := s.running.file] else s.files)
            && t.stored == (if ok && s.running.DeletingClaim? then s.stored - {id} else s.stored)
            && t.running == (if ok && s.running.WritingClaim? then DeletingClaim(l) else Idle)
            && t.active == (if !(ok && s.running.WritingClaim?) && id in s.active && s.active[id] == l then s.active - {id} else s.active)
  {}

  /** A commit that succeeds puts an available download in the store, due after the completed retention. */
  lemma CommitGoesOn(s: Store, pick: string, ok: bool)
    ensures s.running.Checking? ==>
              var (key, r) := (s.running.key, s.running.reservation);
              ResumeRunning(s, pick, ok) == s.(running :=
                if ok then Moving(key, r.id, File(key.0, r.size, Available, s.now + s.policy.completed, None, None)) else Idle)
    ensures s.running.Moving? ==>
              ResumeRunning(s, pick, ok) ==
                if ok then s.(files := s.files[s.running.id := s.running.file], stored := s.stored + {s.running.id},
                              reservations := s.reservations - {s.running.key}, running := Idle)
                else s.(running := Idle)
  {}

  /** An abort that succeeds forgets the reservation, an acknowledgement the download. */
  lemma ForgetsExactly(s: Store, pick: string, ok: bool)
    ensures s.running.Aborting? ==>
              ResumeRunning(s, pick, ok) ==
                if ok then s.(reservations := s.reservations - {s.running.key}, running := Idle) else s.(running := Idle)
    ensures s.running.Acknowledging? ==>
              ResumeRunning(s, pick, ok) ==
                if ok then s.(files := s.files - {s.running.id}, stored := s.stored - {s.running.id}, running := Idle)
                else s.(running := Idle)
  {}

  /** The bytes of a Session's downloads: files that are stored still, and reservations. */
  ghost function BytesOf(s: Store, session: string): nat {
    var kept := map id | id in s.files && s.files[id].session == session && id in s.stored :: s.files[id].size;
    var arriving := map k | k in s.reservations && k.0 == session :: s.reservations[k].size;
    Sum(kept) + Sum(arriving)
  }

  /**
   A download is reserved exactly if its size and the uploads' total are valid, the Worker-wide
   ledger admits it, and with it in place of its earlier reservation the Session's bytes,
   uploads included, are within the limit. An earlier reservation keeps its id.
   */
  lemma ReservedExactly(s: Store, key: Key, id: string, size: int, uploads: int, max: nat, admitted: bool)
    requires id !in s.used
    ensures var before := if key in s.reservations then s.reservations[key].size else 0;
            var granted := 0 <= size <= 9007199254740991 && 0 <= uploads <= 9007199254740991 && admitted
                           && BytesOf(s, key.0) - before + size + uploads <= max;
            Step(s, Reserve(key, id, size, uploads, max, admitted)) ==
              if !granted then s
              else if key in s.reservations
              then s.(reservations := s.reservations[key := Reservation(s.reservations[key].id, size)])
              else s.(reservations := s.reservations[key := Reservation(id, size)], used := s.used + {id})
  {
    assert FileBytes(s.files, s.stored, key.0) ==
           map i | i in s.files && s.files[i].session == key.0 && i in s.stored :: s.files[i].size;
    assert ReservedBytes(s, key.0) == BytesOf(s, key.0);
    hide ReservedBytes, BytesOf;
  }

  /** Calls wait in line; expire notes the time of the call. */
  lemma CallsQueueUp(s: Store, op: Op)
    requires !op.Claim?
    ensures Step(s, Call(op)) == s.(queue := s.queue + [if op.Expire? then Expire(s.now) else op])
  {}
}

/** How a download ends: claimed by the one lease that finished, or expired, and only once. */
module RetainedDownloadsOutcomes {
  import opened Basics
  import opened RetainedDownloadsModel
  import opened RetainedDownloadsProofs

  // ---- What the queued operations leave alone ----

  ghost predicate SameLeases(was: seq<Lease>, now: seq<Lease>) {
    && |was| <= |now|
    && (forall l :: 0 <= l < |was| ==>
          now[l].file == was[l].file && now[l].session == was[l].session && now[l].finishedAt == was[l].finishedAt)
    && (forall l :: |was| <= l < |now| ==> now[l].finishedAt.None?)
  }

  lemma AcquireFrame(s: Store, id: string, session: string)
    ensures var t := AcquireFile(s, id, session);
            t == s.(active := t.active, leases := t.leases) && SameLeases(s.leases, t.leases)
  {
    hide MayAcquire;
  }

  lemma SameAsBefore(leases: seq<Lease>)
    ensures SameLeases(leases, leases)
  {}

  lemma StartFrame(s: Store)
    ensures var t := StartNext(s);
            && t.files == s.files && t.stored == s.stored && t.reservations == s.reservations
            && t.used == s.used && t.now == s.now
            && SameLeases(s.leases, t.leases)
  {
    hide AcquireFile, ClaimedBy, SameLeases;
    SameAsBefore(s.leases);
    if !s.running.Idle? || s.queue == [] {
    } else if s.queue[0].Acquire? {
      AcquireFrame(s.(queue := s.queue[1..]), s.queue[0].id, s.queue[0].session);
    }
  }

  lemma ScheduleSame(leases: seq<Lease>, active: map<string, nat>, id: string, expiresAt: int, now: int)
    ensures SameLeases(leases, ScheduleActive(leases, active, id, expiresAt, now))
  {}

  lemma AbortSame(s: Store, id: string)
    ensures SameLeases(s.leases, AbortActive(s, id)) && SameLeases(s.leases, s.leases)
  {}

  lemma ResumeLeases(s: Store, pick: string, ok: bool)
    ensures SameLeases(s.leases, ResumeRunning(s, pick, ok).leases)
  {
    hide LetGo, Finished, Ended, SameLeases, ScheduleActive, AbortActive;
    AbortSame(s, pick);
    match s.running
    case Ending(_, endedAt, _) =>
      if pick in s.files { ScheduleSame(s.leases, s.active, pick, Ended(s.files[pick], endedAt, s.policy).expiresAt, s.now); }
    case WritingExpired(_, _, id, file) => ScheduleSame(s.leases, s.active, id, file.expiresAt, s.now);
    case WritingClaim(l, file) =>
      if l < |s.leases| { ScheduleSame(s.leases, s.active, s.leases[l].file, file.expiresAt, s.now); }
    case _ =>
  }

  ghost predicate FewerReservations(was: map<Key, Reservation>, now: map<Key, Reservation>) {
    forall k :: k in now ==> k in was && now[k] == was[k]
  }

  lemma ResumeFrame(s: Store, pick: string, ok: bool)
    ensures var t := ResumeRunning(s, pick, ok);
            t.used == s.used && t.now == s.now && FewerReservations(s.reservations, t.reservations)
  {
    hide LetGo, Finished, Ended, ScheduleActive, AbortActive, FewerReservations;
    Fewer(s.reservations);
  }

  lemma Fewer(reservations: map<Key, Reservation>)
    ensures FewerReservations(reservations, reservations)
    ensures forall keys :: FewerReservations(reservations, reservations - keys)
  {}

  /** The id has been a file's, or has been given up: it will not arrive again. */
  ghost predicate Known(s: Store, id: string) {
    id in s.used && forall k :: k in s.reservations ==> s.reservations[k].id != id
  }

  lemma ResumeKnown(s: Store, pick: string, ok: bool, id: string)
    requires Inv(s) && Known(s, id)
    ensures Known(ResumeRunning(s, pick, ok), id)
    ensures id !in s.files ==> id !in ResumeRunning(s, pick, ok).files
  {
    hide LeasesFit, BytesFit, HoldersFit, ClaimsFit, ClaimsDiffer, ExpiriesPast, Revoked, ScheduleActive, LetGo, SameLeases;
    ResumeFrame(s, pick, ok);
  }

  lemma KnownKept(s: Store, e: Event, id: string)
    requires Inv(s) && Known(s, id)
    ensures Known(Step(s, e), id)
    ensures id !in s.files ==> id !in Step(s, e).files
  {
    hide LeasesFit, BytesFit, HoldersFit, ClaimsFit, ClaimsDiffer, ExpiriesPast, Revoked, MayFinish, MayReserve;
    hide StartNext, SameLeases;
    match e
    case Start => StartFrame(s);
    case Resume(pick, ok) => ResumeKnown(s, pick, ok, id);
    case _ =>
  }

  lemma FileIsKnown(s: Store, id: string)
    requires Inv(s) && id in s.files
    ensures Known(s, id)
  {}

  /** What one step can do to a file: settle it, end its session, or forget it once settled. */
  ghost predicate Advances(was: File, now: File) {
    && now.session == was.session && now.size == was.size
    && now.expiresAt <= was.expiresAt
    && (now.status != was.status ==> was.status.Available?)
    && (now.claimedAt != was.claimedAt ==> was.status.Available? && now.status.Claimed?)
  }

  lemma AdvancesNot(file: File)
    ensures Advances(file, file)
  {}

  lemma ClaimAdvances(s: Store, pick: string, ok: bool, id: string)
    requires Inv(s) && id in s.files && s.running.WritingClaim?
    ensures var t := ResumeRunning(s, pick, ok);
            && (id in t.files ==> Advances(s.files[id], t.files[id]))
            && (id !in t.files ==> !s.files[id].status.Available?)
  {
    hide LeasesFit, BytesFit, HoldersFit, ClaimsFit, ClaimsDiffer, ExpiriesPast, Revoked, ScheduleActive, LetGo;
  }

  lemma ResumeAdvances(s: Store, pick: string, ok: bool, id: string)
    requires Inv(s) && id in s.files
    ensures var t := ResumeRunning(s, pick, ok);
            && (id in t.files ==> Advances(s.files[id], t.files[id]))
            && (id !in t.files ==> !s.files[id].status.Available?)
  {
    hide LeasesFit, BytesFit, HoldersFit, ClaimsFit, ClaimsDiffer, ExpiriesPast, Revoked, ScheduleActive, LetGo;
    if s.running.WritingClaim? {
      ClaimAdvances(s, pick, ok, id);
    } else {
      hide Finished, AbortActive, Pending, EndClaim;
    }
  }

  lemma StepAdvances(s: Store, e: Event, id: string)
    requires Inv(s) && id in s.files
    ensures id in Step(s, e).files ==> Advances(s.files[id], Step(s, e).files[id])
    ensures id !in Step(s, e).files ==> !s.files[id].status.Available?
  {
    hide LeasesFit, BytesFit, HoldersFit, ClaimsFit, ClaimsDiffer, ExpiriesPast, Revoked, MayFinish, MayReserve;
    hide StartNext, ResumeRunning, SameLeases, Advances;
    AdvancesNot(s.files[id]);
    match e
    case Start => StartFrame(s);
    case Resume(pick, ok) => ResumeAdvances(s, pick, ok, id);
    case _ =>
  }

  // ---- Once, and to one end ----

  ghost predicate Settled(s: Store, id: string, status: Status) {
    Known(s, id) && (id in s.files ==> s.files[id].status == status)
  }

  /** A download that has been claimed or has expired stays so until it is forgotten, and never comes back. */
  lemma {:induction false} FinalStatusIsFinal(s: Store, run: seq<Event>, id: string, status: Status)
    requires Inv(s) && Settled(s, id, status) && !status.Available?
    ensures Settled(Run(s, run), id, status)
    decreases |run|
  {
    if run != [] {
      StepKeeps(s, run[0]);
      KnownKept(s, run[0], id);
      if id in s.files { StepAdvances(s, run[0], id); }
      FinalStatusIsFinal(Step(s, run[0]), run[1..], id, status);
    }
  }

  ghost predicate DueBy(s: Store, id: string, bound: int) {
    Known(s, id) && (id in s.files ==> s.files[id].expiresAt <= bound)
  }

  lemma {:induction false} DeadlineOnlyMovesForward(s: Store, run: seq<Event>, id: string, bound: int)
    requires Inv(s) && DueBy(s, id, bound)
    ensures DueBy(Run(s, run), id, bound)
    decreases |run|
  {
    if run != [] {
      StepKeeps(s, run[0]);
      KnownKept(s, run[0], id);
      if id in s.files { StepAdvances(s, run[0], id); }
      DeadlineOnlyMovesForward(Step(s, run[0]), run[1..], id, bound);
    }
  }

  lemma {:induction false} ClockNeverTurnsBack(s: Store, run: seq<Event>)
    ensures s.now <= Run(s, run).now
    decreases |run|
  {
    if run != [] {
      ClockStep(s, run[0]);
      ClockNeverTurnsBack(Step(s, run[0]), run[1..]);
    }
  }

  lemma ClockStep(s: Store, e: Event)
    ensures s.now <= Step(s, e).now
  {
    hide MayFinish, MayReserve, StartNext, ResumeRunning, SameLeases;
    match e
    case Start => StartFrame(s);
    case Resume(pick, ok) => ResumeFrame(s, pick, ok);
    case _ =>
  }

  /** Once expiry has begun to write a download, no finish of any lease on it is accepted again. */
  lemma NoFinishAfterExpiryBegan(s: Store, run: seq<Event>, l: nat)
    requires Inv(s) && s.running.WritingExpired?
    requires l < |Run(s, run).leases| && Run(s, run).leases[l].file == s.running.id
    ensures !MayFinish(Run(s, run), l)
  {
    var id := s.running.id;
    FileIsKnown(s, id);
    DeadlineOnlyMovesForward(s, run, id, s.files[id].expiresAt);
    ClockNeverTurnsBack(s, run);
  }

  // ---- A finish that was accepted ----

  /** The claim of this lease has been queued and not been written yet. */
  ghost predicate Waiting(s: Store, l: nat) {
    Claim(l) in s.queue || (s.running.WritingClaim? && s.running.lease == l)
  }

  ghost predicate Promised(s: Store, l: nat, at: int) {
    && l < |s.leases| && s.leases[l].finishedAt == Some(at)
    && Known(s, s.leases[l].file)
    && (Waiting(s, l) ||
        (s.leases[l].file in s.files ==>
           s.files[s.leases[l].file].status.Claimed? && s.files[s.leases[l].file].claimedAt == Some(at)))
  }

  /** This lease's own claim cannot be written. */
  ghost predicate FailsClaimOf(s: Store, e: Event, l: nat) {
    s.running.WritingClaim? && s.running.lease == l && e.Resume? && !e.ok
  }

  lemma WaitingIsPending(s: Store, l: nat)
    requires Inv(s) && Waiting(s, l)
    ensures Pending(s.files, s.active, s.leases, l)
  {
    if Claim(l) in s.queue {
      var i :| 0 <= i < |s.queue| && s.queue[i] == Claim(l);
    }
  }

  lemma FinishedLeaseStays(s: Store, e: Event, l: nat)
    requires l < |s.leases| && s.leases[l].finishedAt.Some?
    ensures l < |Step(s, e).leases|
    ensures Step(s, e).leases[l].finishedAt == s.leases[l].finishedAt && Step(s, e).leases[l].file == s.leases[l].file
  {
    hide MayReserve, StartNext, ResumeRunning;
    match e
    case Start => StartFrame(s);
    case Resume(pick, ok) => ResumeLeases(s, pick, ok);
    case _ =>
  }

  lemma WaitsOrIsWritten(s: Store, e: Event, l: nat)
    requires Inv(s) && Waiting(s, l) && !FailsClaimOf(s, e, l)
    ensures var t := Step(s, e);
            || Waiting(t, l)
            || (s.leases[l].file in t.files && t.files[s.leases[l].file].status.Claimed?
                && t.files[s.leases[l].file].claimedAt == s.leases[l].finishedAt)
  {
    hide LeasesFit, BytesFit, HoldersFit, IdsFit, ClaimsFit, ClaimsDiffer, ExpiriesPast, Revoked, MayFinish, MayReserve, MayAcquire;
    WaitingIsPending(s, l);
    if Claim(l) in s.queue && e.Start? && s.running.Idle? && s.queue[0] != Claim(l) {
      assert Claim(l) in s.queue[1..];
    }
  }

  lemma PromiseStep(s: Store, e: Event, l: nat, at: int)
    requires Inv(s) && Promised(s, l, at) && !FailsClaimOf(s, e, l)
    ensures Promised(Step(s, e), l, at)
  {
    hide Step, Inv, Known, Waiting;
    var f := s.leases[l].file;
    FinishedLeaseStays(s, e, l);
    KnownKept(s, e, f);
    if Waiting(s, l) {
      WaitsOrIsWritten(s, e, l);
    } else if f in s.files {
      StepAdvances(s, e, f);
    }
  }

  /** A claim that cannot be written leaves its file available, and nobody waiting to claim it. */
  lemma FailedClaimBreaks(s: Store, e: Event, l: nat, at: int)
    requires Inv(s) && FailsClaimOf(s, e, l)
    ensures !Promised(Step(s, e), l, at)
  {
    hide LeasesFit, BytesFit, HoldersFit, IdsFit, ClaimsFit, ClaimsDiffer, ExpiriesPast, Revoked;
  }

  /** A step breaks the promise exactly if it is the failure to write that lease's own claim. */
  lemma PromiseExact(s: Store, e: Event, l: nat, at: int)
    requires Inv(s) && Promised(s, l, at)
    ensures Promised(Step(s, e), l, at) <==> !FailsClaimOf(s, e, l)
  {
    if FailsClaimOf(s, e, l) { FailedClaimBreaks(s, e, l, at); } else { PromiseStep(s, e, l, at); }
  }

  ghost predicate ClaimWritten(s: Store, run: seq<Event>, l: nat)
    decreases |run|
  {
    run == [] || (!FailsClaimOf(s, run[0], l) && ClaimWritten(Step(s, run[0]), run[1..], l))
  }

  ghost predicate KeptThroughout(s: Store, run: seq<Event>, l: nat, at: int)
    decreases |run|
  {
    Promised(s, l, at) && (run != [] ==> KeptThroughout(Step(s, run[0]), run[1..], l, at))
  }

  /** Over a whole run an accepted finish is kept at every moment exactly if its own claim never fails to be written. */
  lemma {:induction false} FinishIsKeptExactly(s: Store, run: seq<Event>, l: nat, at: int)
    requires Inv(s) && Promised(s, l, at)
    ensures KeptThroughout(s, run, l, at) <==> ClaimWritten(s, run, l)
    decreases |run|
  {
    if run != [] {
      hide Step, Inv, Promised, FailsClaimOf;
      StepKeeps(s, run[0]);
      PromiseExact(s, run[0], l, at);
      if Promised(Step(s, run[0]), l, at) {
        FinishIsKeptExactly(Step(s, run[0]), run[1..], l, at);
      }
    }
  }

  /**
   Then it is never overtaken: its file is available until the claim is written, then
   claimed at the moment of the finish, whatever happens to other leases.
   */
  lemma {:induction false} AcceptedFinishIsKept(s: Store, run: seq<Event>, l: nat, at: int)
    requires Inv(s) && Promised(s, l, at) && ClaimWritten(s, run, l)
    ensures Promised(Run(s, run), l, at)
    ensures var t := Run(s, run);
            t.leases[l].file in t.files ==>
              var file := t.files[t.leases[l].file];
              if Waiting(t, l) then file.status.Available? else file.status.Claimed? && file.claimedAt == Some(at)
    decreases |run|
  {
    if run == [] {
      if Waiting(s, l) { WaitingIsPending(s, l); }
    } else {
      StepKeeps(s, run[0]);
      PromiseStep(s, run[0], l, at);
      AcceptedFinishIsKept(Step(s, run[0]), run[1..], l, at);
    }
  }

  lemma AcceptedIsPromised(s: Store, l: nat)
    requires Inv(s) && MayFinish(s, l)
    ensures Promised(FinishLease(s, l), l, s.now)
    ensures (forall k :: 0 <= k < |s.leases| && s.leases[k].file == s.leases[l].file ==> s.leases[k].finishedAt.None?) ==>
              SoleFinish(FinishLease(s, l), l)
  {
    FileIsKnown(s, s.leases[l].file);
    assert FinishLease(s, l).queue[|s.queue|] == Claim(l);
  }

  /** No other lease on the same download has finished. */
  ghost predicate SoleFinish(s: Store, k: nat) {
    && k < |s.leases| && s.leases[k].finishedAt.Some?
    && forall l :: 0 <= l < |s.leases| && l != k && s.leases[l].file == s.leases[k].file ==> s.leases[l].finishedAt.None?
  }

  /** A lease finishes only by a finish that is accepted; new leases have not finished. */
  lemma WhoFinished(s: Store, e: Event, l: nat)
    requires l < |Step(s, e).leases| && Step(s, e).leases[l].finishedAt.Some?
    ensures l < |s.leases| && Step(s, e).leases[l].file == s.leases[l].file
    ensures s.leases[l].finishedAt.Some? || (e == Finish(l) && MayFinish(s, l))
  {
    hide MayReserve, StartNext, ResumeRunning;
    match e
    case Start => StartFrame(s);
    case Resume(pick, ok) => ResumeLeases(s, pick, ok);
    case _ =>
  }

  /** While one finish is kept, no other on the same download is accepted. */
  lemma NoSecondFinish(s: Store, k: nat, l: nat, at: int)
    requires Inv(s) && Promised(s, k, at) && MayFinish(s, l)
    ensures s.leases[k].file != s.leases[l].file
  {
    if Waiting(s, k) { WaitingIsPending(s, k); }
  }

  lemma SoleFinishStep(s: Store, e: Event, k: nat, at: int)
    requires Inv(s) && Promised(s, k, at) && SoleFinish(s, k)
    ensures SoleFinish(Step(s, e), k)
  {
    hide Step, Inv, MayFinish, Waiting, Known;
    var t := Step(s, e);
    FinishedLeaseStays(s, e, k);
    forall l | 0 <= l < |t.leases| && l != k && t.leases[l].file == t.leases[k].file
      ensures t.leases[l].finishedAt.None?
    {
      if t.leases[l].finishedAt.Some? {
        WhoFinished(s, e, l);
        if MayFinish(s, l) { NoSecondFinish(s, k, l, at); }
      }
    }
  }

  /** The first finish of a download is its only one, unless the claim of that lease cannot be written. */
  lemma {:induction false} AtMostOneFinish(s: Store, run: seq<Event>, k: nat, at: int)
    requires Inv(s) && Promised(s, k, at) && SoleFinish(s, k) && ClaimWritten(s, run, k)
    ensures SoleFinish(Run(s, run), k)
    decreases |run|
  {
    if run != [] {
      hide Step, Inv, Promised, FailsClaimOf, SoleFinish;
      StepKeeps(s, run[0]);
      PromiseExact(s, run[0], k, at);
      SoleFinishStep(s, run[0], k, at);
      AtMostOneFinish(Step(s, run[0]), run[1..], k, at);
    }
  }

  lemma ThreeSteps(s: Store, run: seq<Event>)
    requires |run| == 3
    ensures Run(s, run) == Step(Step(Step(s, run[0]), run[1]), run[2])
  {
    hide Step;
    var one, two := run[1..], run[2..];
    assert one[0] == run[1] && one[1..] == two && two[0] == run[2] && two[1..] == [];
    var s1 := Step(s, run[0]);
    var s2 := Step(s1, run[1]);
    assert Run(s2, two) == Run(Step(s2, run[2]), []);
    assert Run(s1, one) == Run(s2, two);
  }

  function OneKept(id: string, session: string): Store {
    Store(map[id := File(session, 5, Available, 10, None, None)], {id}, map[], [], map[], [], Idle, 0, {id}, Policy(1, 1))
  }

  function Accepted(id: string, session: string): Store {
    OneKept(id, session).(active := map[id := 0], leases := [Lease(id, session, false, Some(0))], queue := [Claim(0)])
  }

  lemma AcceptFinish(id: string, session: string)
    ensures Run(OneKept(id, session), [Call(Acquire(id, session)), Start, Finish(0)]) == Accepted(id, session)
  {
    var s, run := OneKept(id, session), [Call(Acquire(id, session)), Start, Finish(0)];
    assert Step(Step(s, run[0]), run[1]) == s.(active := map[id := 0], leases := [Lease(id, session, false, None)]);
    ThreeSteps(s, run);
  }

  lemma FailToClaim(id: string, session: string)
    ensures Run(Accepted(id, session), [Start, Resume("", false), Tick(10)]) ==
            Accepted(id, session).(active := map[], queue := [], now := 10)
  {
    var s, run := Accepted(id, session), [Start, Resume("", false), Tick(10)];
    var s1 := Step(s, run[0]);
    assert s1.running == WritingClaim(0, s.files[id].(status := Claimed, claimedAt := Some(0))) && s1.queue == [];
    assert Step(s1, run[1]) == s.(active := map[], queue := []);
    ThreeSteps(s, run);
  }

  lemma ExpireDue(s: Store, id: string)
    requires s.files.Keys == {id} && s.files[id].status.Available? && s.files[id].expiresAt <= s.now
    requires s.active == map[] && s.queue == [] && s.running.Idle?
    ensures var run := [Call(Expire(0)), Start, Resume(id, true)];
            Run(s, run) == s.(running := WritingExpired(s.now, {}, id, s.files[id].(status := Expired)))
  {
    var run := [Call(Expire(0)), Start, Resume(id, true)];
    assert Step(Step(s, run[0]), run[1]) == s.(running := Expiring(s.now, {id}));
    assert {id} - {id} == {};
    ThreeSteps(s, run);
  }

  lemma ClaimIsLost(id: string, session: string)
    ensures Inv(Accepted(id, session)) && Promised(Accepted(id, session), 0, 0)
    ensures !ClaimWritten(Accepted(id, session), [Start, Resume("", false), Tick(10)], 0)
  {
    var s, run := Accepted(id, session), [Start, Resume("", false), Tick(10)];
    assert s.queue[0] == Claim(0);
    var s1 := Step(s, run[0]);
    assert s1.running == WritingClaim(0, s.files[id].(status := Claimed, claimedAt := Some(0)));
    assert run[1..][0] == run[1];
    assert FailsClaimOf(s1, run[1], 0);
  }

  /** Such a run: the finish is accepted, its claim is lost, and the download expires. */
  lemma FailedClaimMayExpire(id: string, session: string)
    ensures var accept, fail := [Call(Acquire(id, session)), Start, Finish(0)], [Start, Resume("", false), Tick(10)];
            var accepted := Run(OneKept(id, session), accept);
            var t := Step(Run(Run(accepted, fail), [Call(Expire(0)), Start, Resume(id, true)]), Resume("", true));
            && Inv(accepted) && Promised(accepted, 0, 0) && !KeptThroughout(accepted, fail, 0, 0)
            && id in t.files && t.files[id].status.Expired?
  {
    var fail := [Start, Resume("", false), Tick(10)];
    var due := Accepted(id, session).(active := map[], queue := [], now := 10);
    AcceptFinish(id, session);
    FailToClaim(id, session);
    ClaimIsLost(id, session);
    FinishIsKeptExactly(Accepted(id, session), fail, 0, 0);
    assert due.files.Keys == {id};
    ExpireDue(due, id);
    hide Run, Inv, Promised, KeptThroughout;
  }
}

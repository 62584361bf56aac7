/**
 One Session's temporary bytes are shared by uploads and downloads, which two classes
 count; each is told the other's total when it admits a transfer.
 */
module SessionQuota {
  import opened Basics
  import opened Totals
  import U = SessionStorageLedger
  import D = RetainedDownloadsModel
  import P = RetainedDownloadsProofs
  import O = RetainedDownloadsOutcomes

  datatype Joint = Joint(session: string, uploads: U.Storage, downloads: D.Store)

  datatype Event = Upload(u: U.Event) | Download(d: D.Event)

  ghost function Total(j: Joint): int {
    j.uploads.reserved + D.ReservedBytes(j.downloads, j.session)
  }

  /** Both admissions read the other side's total and share the Session's limit. */
  ghost function Step(j: Joint, e: Event): Joint {
    match e
    case Upload(Reserve(size, _, admitted)) =>
      j.(uploads := U.ReserveUpload(j.uploads, size, D.ReservedBytes(j.downloads, j.session), admitted))
    case Upload(u) => j.(uploads := U.Step(j.uploads, u))
    case Download(Reserve(key, id, size, bytes, max, admitted)) =>
      if key.0 == j.session
      then j.(downloads := D.ReserveDownload(j.downloads, key, id, size, j.uploads.reserved, j.uploads.max, admitted))
      else j.(downloads := D.ReserveDownload(j.downloads, key, id, size, bytes, max, admitted))
    case Download(d) => j.(downloads := D.Step(j.downloads, d))
  }

  /** A commit of this Session ends: its file is in place and its reservation is dropped. */
  ghost predicate EndsCommit(j: Joint, e: Event) {
    e.Download? && e.d.Resume? && e.d.ok && j.downloads.running.Moving? && j.downloads.running.key.0 == j.session
  }

  /** What is reserved for the download whose commit ends. */
  ghost function StillReserved(j: Joint): nat
    requires j.downloads.running.Moving?
  {
    D.Previous(j.downloads, j.downloads.running.key)
  }

  /** The file is larger than its reservation by no more than the Session has left. */
  ghost predicate CommitFits(j: Joint, e: Event) {
    EndsCommit(j, e) ==> j.downloads.running.file.size - StillReserved(j) <= j.uploads.max - Total(j)
  }

  /** The file is no larger than what is reserved for it by now. */
  ghost predicate CommitCovered(j: Joint, e: Event) {
    EndsCommit(j, e) ==> j.downloads.running.file.size <= StillReserved(j)
  }

  ghost predicate Inv(j: Joint) {
    U.Inv(j.uploads) && P.Inv(j.downloads) && Total(j) <= j.uploads.max
  }

  // ---- Downloads ----

  lemma ReservedPut(r: map<D.Key, D.Reservation>, key: D.Key, v: D.Reservation, session: string)
    ensures Sum(D.ReservationBytes(r[key := v], session)) ==
            Sum(D.ReservationBytes(r, session)) + if key.0 != session then 0 else v.size - if key in r then r[key].size else 0
  {
    var was, now := D.ReservationBytes(r, session), D.ReservationBytes(r[key := v], session);
    if key.0 == session {
      assert now == was[key := v.size];
      SumPut(was, key, v.size);
    } else {
      assert now == was;
    }
  }

  lemma ReservedWithout(r: map<D.Key, D.Reservation>, key: D.Key, session: string)
    requires key in r
    ensures Sum(D.ReservationBytes(r - {key}, session)) ==
            Sum(D.ReservationBytes(r, session)) - if key.0 == session then r[key].size else 0
  {
    var was, now := D.ReservationBytes(r, session), D.ReservationBytes(r - {key}, session);
    if key.0 == session {
      assert now == was - {key};
      SumRemove(was, key);
    } else {
      assert now == was;
    }
  }

  lemma FileArrives(files: map<string, D.File>, stored: set<string>, id: string, file: D.File, session: string)
    requires id !in files
    ensures Sum(D.FileBytes(files[id := file], stored + {id}, session)) ==
            Sum(D.FileBytes(files, stored, session)) + if file.session == session then file.size else 0
  {
    var was, now := D.FileBytes(files, stored, session), D.FileBytes(files[id := file], stored + {id}, session);
    if file.session == session {
      assert now == was[id := file.size];
      SumPut(was, id, file.size);
    } else {
      assert now == was;
    }
  }

  /** A commit trades what is reserved when it ends for the size of the file. */
  lemma CommitTrades(s: D.Store, pick: string, session: string)
    requires P.Inv(s) && s.running.Moving?
    ensures var (key, file) := (s.running.key, s.running.file);
            && key in s.reservations
            && D.ReservedBytes(D.ResumeRunning(s, pick, true), session) ==
                 D.ReservedBytes(s, session) + if key.0 == session then file.size - s.reservations[key].size else 0
  {
    hide D.FileBytes, D.ReservationBytes;
    ReservedWithout(s.reservations, s.running.key, session);
    FileArrives(s.files, s.stored, s.running.id, s.running.file, session);
  }

  /** So the Session's total is kept exactly when the reservation still has the file's size. */
  lemma CommitKeepsTotal(j: Joint, pick: string)
    requires P.Inv(j.downloads) && j.downloads.running.Moving? && j.downloads.running.key.0 == j.session
    ensures var r := j.downloads.reservations;
            && j.downloads.running.key in r
            && var size := r[j.downloads.running.key].size;
               var after := Step(j, Download(D.Resume(pick, true)));
            && (Total(after) == Total(j) <==> size == j.downloads.running.file.size)
            && (Total(after) <= Total(j) <==> j.downloads.running.file.size <= size)
  {
    CommitTrades(j.downloads, pick, j.session);
  }

  lemma ResumeShrinks(s: D.Store, pick: string, ok: bool)
    requires P.Inv(s) && !s.running.Moving?
    ensures var t := D.ResumeRunning(s, pick, ok); t.stored <= s.stored && t.files.Keys <= s.files.Keys
  {
    hide P.LeasesFit, P.BytesFit, P.HoldersFit, P.IdsFit, P.ClaimsFit, P.ClaimsDiffer, P.ExpiriesPast, P.Revoked;
    hide D.ScheduleActive, D.LetGo, D.Finished, D.AbortActive;
  }

  lemma FewerBytes(s: D.Store, t: D.Store, session: string)
    requires t.stored <= s.stored && t.files.Keys <= s.files.Keys
    requires forall id :: id in t.files ==> O.Advances(s.files[id], t.files[id])
    requires O.FewerReservations(s.reservations, t.reservations)
    ensures D.ReservedBytes(t, session) <= D.ReservedBytes(s, session)
  {
    SumOfFewer(D.FileBytes(t.files, t.stored, session), D.FileBytes(s.files, s.stored, session));
    SumOfFewer(D.ReservationBytes(t.reservations, session), D.ReservationBytes(s.reservations, session));
  }

  lemma ResumeNeverRaises(s: D.Store, pick: string, ok: bool, session: string)
    requires P.Inv(s) && !(ok && s.running.Moving? && s.running.key.0 == session)
    ensures D.ReservedBytes(D.ResumeRunning(s, pick, ok), session) <= D.ReservedBytes(s, session)
  {
    hide D.ReservedBytes, P.Inv, O.Advances, O.FewerReservations;
    if s.running.Moving? {
      if ok { CommitTrades(s, pick, session); }
      if !ok { assert D.ResumeRunning(s, pick, ok) == s.(running := D.Idle); SameBytes(s, s.(running := D.Idle), session); }
    } else {
      hide D.ResumeRunning;
      var t := D.ResumeRunning(s, pick, ok);
      ResumeShrinks(s, pick, ok);
      O.ResumeFrame(s, pick, ok);
      forall id | id in t.files
        ensures O.Advances(s.files[id], t.files[id])
      {
        O.ResumeAdvances(s, pick, ok, id);
      }
      FewerBytes(s, t, session);
    }
  }

  lemma SameBytes(s: D.Store, t: D.Store, session: string)
    requires t.files == s.files && t.stored == s.stored && t.reservations == s.reservations
    ensures D.ReservedBytes(t, session) == D.ReservedBytes(s, session)
  {}

  lemma StepNeverRaises(s: D.Store, d: D.Event, session: string)
    requires P.Inv(s) && !d.Reserve? && !(d.Resume? && d.ok && s.running.Moving? && s.running.key.0 == session)
    ensures D.ReservedBytes(D.Step(s, d), session) <= D.ReservedBytes(s, session)
  {
    hide D.ReservedBytes, D.ResumeRunning, D.StartNext, P.Inv, D.MayFinish;
    match d
    case Resume(pick, ok) => ResumeNeverRaises(s, pick, ok, session);
    case Start =>
      O.StartFrame(s);
      SameBytes(s, D.Step(s, d), session);
    case _ => SameBytes(s, D.Step(s, d), session);
  }

  /** What an admitted reservation adds, and to whom. */
  lemma ReserveAdds(s: D.Store, key: D.Key, id: string, size: int, bytes: int, max: nat, admitted: bool, session: string)
    ensures var t := D.ReserveDownload(s, key, id, size, bytes, max, admitted);
            || t == s
            || (key.0 == session && size >= 0 && D.ReservedBytes(t, session) == D.ReservedBytes(s, session) - D.Previous(s, key) + size
                && D.ReservedBytes(t, session) + bytes <= max)
            || (key.0 != session && D.ReservedBytes(t, session) == D.ReservedBytes(s, session))
  {
    hide D.FileBytes, D.ReservationBytes;
    if size >= 0 {
      ReservedPut(s.reservations, key, D.Reservation(if key in s.reservations then s.reservations[key].id else id, size), session);
    }
  }

  // ---- The shared limit ----

  lemma UploadStep(j: Joint, u: U.Event)
    requires Inv(j)
    ensures Inv(Step(j, Upload(u)))
  {
    hide D.ReservedBytes, P.Inv;
    var external := D.ReservedBytes(j.downloads, j.session);
    match u
    case Reserve(size, _, admitted) =>
      U.ReserveKeeps(j.uploads, size, external, admitted);
    case _ => U.StepKeeps(j.uploads, u);
  }

  lemma DownloadStep(j: Joint, d: D.Event)
    requires Inv(j) && !EndsCommit(j, Download(d))
    ensures Inv(Step(j, Download(d)))
  {
    hide D.ReservedBytes, D.Step, P.Inv, U.Inv, D.ReserveDownload;
    match d
    case Reserve(key, id, size, bytes, max, admitted) =>
      ReserveAdds(j.downloads, key, id, size, bytes, max, admitted, j.session);
      ReserveAdds(j.downloads, key, id, size, j.uploads.reserved, j.uploads.max, admitted, j.session);
      P.ReserveKeeps(j.downloads, key, id, size, bytes, max, admitted);
      P.ReserveKeeps(j.downloads, key, id, size, j.uploads.reserved, j.uploads.max, admitted);
    case _ =>
      P.StepKeeps(j.downloads, d);
      StepNeverRaises(j.downloads, d, j.session);
  }

  lemma CommitStep(j: Joint, e: Event)
    requires Inv(j) && EndsCommit(j, e)
    ensures Total(Step(j, e)) <= j.uploads.max <==> CommitFits(j, e)
    ensures CommitFits(j, e) ==> Inv(Step(j, e))
  {
    hide D.ReservedBytes, D.ResumeRunning, P.Inv, U.Inv;
    CommitTrades(j.downloads, e.d.pick, j.session);
    P.StepKeeps(j.downloads, e.d);
  }

  lemma InvLimits(j: Joint)
    requires Inv(j)
    ensures Total(j) <= j.uploads.max
  {}

  /** One event keeps the limit exactly if it is not the end of a commit whose file outgrew what is left for it. */
  lemma StepExact(j: Joint, e: Event)
    requires Inv(j)
    ensures Step(j, e).uploads.max == j.uploads.max
    ensures Total(Step(j, e)) <= j.uploads.max <==> CommitFits(j, e)
    ensures CommitFits(j, e) ==> Inv(Step(j, e))
  {
    hide Inv, D.Step, D.ReserveDownload, D.ReservedBytes;
    match e
    case Upload(u) =>
      UploadStep(j, u);
      InvLimits(Step(j, e));
    case Download(d) =>
      if EndsCommit(j, e) {
        CommitStep(j, e);
      } else {
        DownloadStep(j, d);
        InvLimits(Step(j, e));
      }
  }

  ghost function Run(j: Joint, run: seq<Event>): Joint
    decreases |run|
  {
    if run == [] then j else Run(Step(j, run[0]), run[1..])
  }

  ghost predicate CommitsFit(j: Joint, run: seq<Event>)
    decreases |run|
  {
    run == [] || (CommitFits(j, run[0]) && CommitsFit(Step(j, run[0]), run[1..]))
  }

  ghost predicate CommitsCovered(j: Joint, run: seq<Event>)
    decreases |run|
  {
    run == [] || (CommitCovered(j, run[0]) && CommitsCovered(Step(j, run[0]), run[1..]))
  }

  /** The limit is kept at every moment. */
  ghost predicate LimitKept(j: Joint, run: seq<Event>)
    decreases |run|
  {
    Total(j) <= j.uploads.max && (run != [] ==> LimitKept(Step(j, run[0]), run[1..]))
  }

  /**
   In every interleaving of uploads and downloads the two together keep the Session's
   limit at every moment exactly if every commit that ends fits.
   */
  lemma {:induction false} LimitHoldsExactly(j: Joint, run: seq<Event>)
    requires Inv(j)
    ensures LimitKept(j, run) <==> CommitsFit(j, run)
    decreases |run|
  {
    InvLimits(j);
    if run != [] {
      hide Inv, CommitFits, Step, Total;
      StepExact(j, run[0]);
      if CommitFits(j, run[0]) { LimitHoldsExactly(Step(j, run[0]), run[1..]); }
    }
  }

  /**
   So it is kept whenever a commit that ends finds its reservation no smaller than its
   file, whatever happened to the reservation meanwhile.
   */
  lemma {:induction false} LimitHolds(j: Joint, run: seq<Event>)
    requires Inv(j) && CommitsCovered(j, run)
    ensures CommitsFit(j, run) && Inv(Run(j, run)) && Total(Run(j, run)) <= j.uploads.max
    decreases |run|
  {
    if run != [] {
      StepExact(j, run[0]);
      hide Inv, CommitFits, CommitCovered, Step;
      assert CommitFits(j, run[0]) by { CoveredFits(j, run[0]); }
      LimitHolds(Step(j, run[0]), run[1..]);
    }
  }

  lemma CoveredFits(j: Joint, e: Event)
    requires Inv(j) && CommitCovered(j, e)
    ensures CommitFits(j, e)
  {}

  // ---- The proviso is needed ----

  /** A commit's reservation shrinks to nothing, an upload takes n bytes, the commit ends. */
  ghost function Overshoot(j: Joint, key: D.Key, n: nat): Joint {
    var shrunk := Step(j, Download(D.Reserve(key, "", 0, 0, 0, true)));
    var spent := Step(shrunk, Upload(U.Reserve(n, 0, true)));
    Step(spent, Download(D.Resume("", true)))
  }

  /** Then the bytes of the commit count twice. */
  lemma ShrinkDuringCommitOvershoots(j: Joint, key: D.Key, n: nat)
    requires Inv(j) && !j.uploads.closed && j.downloads.running.Moving? && j.downloads.running.key == key
    requires key.0 == j.session && j.downloads.running.file.size == n && j.downloads.reservations[key].size == n
    requires j.uploads.max <= MAX_SAFE_INTEGER
    ensures Total(Overshoot(j, key, n)) == Total(j) + n
  {
    hide D.FileBytes, D.ReservationBytes, D.ResumeRunning;
    var s := j.downloads;
    ReservedPut(s.reservations, key, D.Reservation(s.reservations[key].id, 0), j.session);
    var shrunk := Step(j, Download(D.Reserve(key, "", 0, 0, 0, true)));
    assert D.MayReserve(s, key, 0, j.uploads.reserved, j.uploads.max, true);
    P.ReserveKeeps(s, key, "", 0, j.uploads.reserved, j.uploads.max, true);
    assert Total(shrunk) == Total(j) - n;
    var spent := Step(shrunk, Upload(U.Reserve(n, 0, true)));
    assert Total(spent) == Total(j);
    CommitTrades(spent.downloads, "", j.session);
  }

  /** A Session limited to ten bytes, with a download of ten: reserved, then being committed. */
  function Downloading(session: string, reservations: map<D.Key, D.Reservation>, queue: seq<D.Op>, running: D.Running,
                       used: set<string>): Joint {
    Joint(session, U.Fresh(10), D.Store(map[], {}, map[], [], reservations, queue, running, 0, used, D.Policy(1, 1)))
  }

  function Half(session: string, key: D.Key, id: string): Joint {
    Downloading(session, map[key := D.Reservation(id, 10)], [],
                D.Moving(key, id, D.File(key.0, 10, D.Available, 1, None, None)), {id})
  }

  function HalfRun(key: D.Key, id: string): seq<Event> {
    [Download(D.Reserve(key, id, 10, 0, 0, true)), Download(D.Call(D.Commit(key, 10))), Download(D.Start),
     Download(D.Resume("", true))]
  }

  lemma EmptyStore(d: D.Store, session: string)
    requires d.files == map[] && d.reservations == map[] && d.active == map[] && d.queue == [] && d.running.Idle?
    ensures P.Inv(d) && D.ReservedBytes(d, session) == 0
  {
    NoBytes(d, session);
  }

  lemma NoBytes(d: D.Store, session: string)
    requires d.files == map[] && d.reservations == map[]
    ensures D.ReservedBytes(d, session) == 0
  {
    assert D.FileBytes(d.files, d.stored, session) == map[] && D.ReservationBytes(d.reservations, session) == map[];
  }

  lemma NothingReserved(session: string)
    ensures Inv(Downloading(session, map[], [], D.Idle, {})) && Total(Downloading(session, map[], [], D.Idle, {})) == 0
  {
    hide P.Inv, D.ReservedBytes, U.Inv, U.Declared, Sum;
    U.FreshFits(10);
    EmptyStore(Downloading(session, map[], [], D.Idle, {}).downloads, session);
  }

  lemma FirstReserve(session: string, key: D.Key, id: string)
    requires key.0 == session
    ensures Step(Downloading(session, map[], [], D.Idle, {}), HalfRun(key, id)[0]) ==
            Downloading(session, map[key := D.Reservation(id, 10)], [], D.Idle, {id})
  {
    hide D.ReservedBytes, Sum, P.Inv, U.Inv;
    NothingReserved(session);
    var d := Downloading(session, map[], [], D.Idle, {}).downloads;
    assert D.MayReserve(d, key, 10, 0, 10, true);
    assert {} + {id} == {id};
  }

  lemma ThenCommit(session: string, key: D.Key, id: string)
    requires key.0 == session
    ensures var r := map[key := D.Reservation(id, 10)];
            && Step(Downloading(session, r, [], D.Idle, {id}), HalfRun(key, id)[1]) ==
               Downloading(session, r, [D.Commit(key, 10)], D.Idle, {id})
            && Step(Downloading(session, r, [D.Commit(key, 10)], D.Idle, {id}), HalfRun(key, id)[2]) ==
               Downloading(session, r, [], D.Checking(key, r[key]), {id})
            && Step(Downloading(session, r, [], D.Checking(key, r[key]), {id}), HalfRun(key, id)[3]) == Half(session, key, id)
  {}

  lemma {:induction false} RunOne(j: Joint, e: Event, rest: seq<Event>)
    requires !EndsCommit(j, e)
    ensures Run(j, [e] + rest) == Run(Step(j, e), rest)
    ensures CommitsCovered(Step(j, e), rest) ==> CommitsCovered(j, [e] + rest)
  {
    hide Step;
    assert ([e] + rest)[1..] == rest;
  }

  lemma ReachHalf(session: string, key: D.Key, id: string)
    requires key.0 == session
    ensures var start := Downloading(session, map[], [], D.Idle, {});
            Run(start, HalfRun(key, id)) == Half(session, key, id) && CommitsCovered(start, HalfRun(key, id))
  {
    var start, run := Downloading(session, map[], [], D.Idle, {}), HalfRun(key, id);
    var r := map[key := D.Reservation(id, 10)];
    var reserved := Downloading(session, r, [], D.Idle, {id});
    var queued := Downloading(session, r, [D.Commit(key, 10)], D.Idle, {id});
    var checking := Downloading(session, r, [], D.Checking(key, r[key]), {id});
    FirstReserve(session, key, id);
    ThenCommit(session, key, id);
    hide Step;
    RunOne(checking, run[3], []);
    RunOne(queued, run[2], [run[3]]);
    RunOne(reserved, run[1], [run[2], run[3]]);
    RunOne(start, run[0], [run[1], run[2], run[3]]);
    assert [run[0]] + [run[1], run[2], run[3]] == run;
    assert [run[1]] + [run[2], run[3]] == [run[1], run[2], run[3]] && [run[2]] + [run[3]] == [run[2], run[3]];
    assert [run[3]] + [] == [run[3]];
  }

  lemma HalfTotal(session: string, key: D.Key, id: string)
    requires key.0 == session
    ensures Total(Half(session, key, id)) == 10
  {
    var d := Half(session, key, id).downloads;
    var none: map<D.Key, D.Reservation> := map[];
    ReservedPut(none, key, D.Reservation(id, 10), session);
    assert d.reservations == none[key := D.Reservation(id, 10)];
    assert D.FileBytes(d.files, d.stored, session) == map[];
    assert D.ReservationBytes(none, session) == map[];
  }

  /** From an empty Session, twenty bytes under a limit of ten. */
  lemma LimitCanBeBroken(session: string, id: string)
    ensures var key := (session, "d");
            var start := Downloading(session, map[], [], D.Idle, {});
            Inv(start) && start.uploads.max == 10 && Total(Overshoot(Run(start, HalfRun(key, id)), key, 10)) == 20
  {
    hide Inv, Run, CommitsCovered, Total, Overshoot;
    var key := (session, "d");
    NothingReserved(session);
    ReachHalf(session, key, id);
    LimitHolds(Downloading(session, map[], [], D.Idle, {}), HalfRun(key, id));
    HalfTotal(session, key, id);
    ShrinkDuringCommitOvershoots(Half(session, key, id), key, 10);
  }
}

/**
 The Worker-wide ledger beside the ledgers it answers: a Session's uploads and the
 store of downloads. What it holds is taken here as bytes by key; paths and sizes on
 disk are the business of StorageRuns.
 */
module LedgersAgree {
  import opened Basics
  import opened Totals
  import U = SessionStorageLedger
  import D = RetainedDownloadsModel
  import P = RetainedDownloadsProofs
  import O = RetainedDownloadsOutcomes
  import Q = SessionQuota

  // ---- Downloads ----

  /** The reservations of the Worker's ledger for downloads, by download id, after one event of the store. */
  ghost function DownloadStep(s: D.Store, worker: map<string, nat>, d: D.Event): map<string, nat> {
    match d
    case Reserve(key, id, size, bytes, max, admitted) =>
      if !D.MayReserve(s, key, size, bytes, max, admitted) then worker
      else if key in s.reservations then worker[s.reservations[key].id := size]
      else if id in s.used then worker
      else worker[id := size]
    case Resume(_, ok) => if ok then Awaited(s, worker) else worker
    case _ => worker
  }

  /** What the running operation retains or releases when what it waited for succeeds. */
  ghost function Awaited(s: D.Store, worker: map<string, nat>): map<string, nat> {
    match s.running
    case Checking(_, r) => worker[r.id := r.size]
    case Aborting(key) => if key in s.reservations then worker - {s.reservations[key].id} else worker
    case DeletingExpired(_, _, id) => worker - {id}
    case DeletingClaim(l) => if l < |s.leases| then worker - {s.leases[l].file} else worker
    case Acknowledging(id) => worker - {id}
    case _ => worker
  }

  ghost function ReservedIds(s: D.Store): set<string> {
    set k | k in s.reservations :: s.reservations[k].id
  }

  /** One reservation for each download stored or reserved, and no other. */
  ghost predicate KeysAgree(s: D.Store, worker: map<string, nat>) {
    s.stored <= s.files.Keys && worker.Keys == s.stored + ReservedIds(s)
  }

  /** And of the same size. */
  ghost predicate BytesAgree(s: D.Store, worker: map<string, nat>) {
    && KeysAgree(s, worker)
    && (forall id :: id in s.stored ==> worker[id] == s.files[id].size)
    && (forall k :: k in s.reservations ==> worker[s.reservations[k].id] == s.reservations[k].size)
  }

  /** A commit that goes on, or ends, finds its reservation at the size it began with. */
  ghost predicate NotResized(s: D.Store, d: D.Event) {
    d.Resume? && d.ok ==>
      match s.running
      case Checking(key, r) => D.Previous(s, key) == r.size
      case Moving(key, _, file) => D.Previous(s, key) == file.size
      case _ => true
  }

  lemma IdsWith(s: D.Store, t: D.Store, key: D.Key)
    requires key in t.reservations && t.reservations == s.reservations[key := t.reservations[key]]
    requires key in s.reservations ==> s.reservations[key].id == t.reservations[key].id
    ensures ReservedIds(t) == ReservedIds(s) + {t.reservations[key].id}
  {
    forall id | id in ReservedIds(s)
      ensures id in ReservedIds(t)
    {
      var k :| k in s.reservations && s.reservations[k].id == id;
      assert k in t.reservations && t.reservations[k].id == id;
    }
    forall id | id in ReservedIds(t)
      ensures id in ReservedIds(s) || id == t.reservations[key].id
    {
      var k :| k in t.reservations && t.reservations[k].id == id;
    }
  }

  lemma PutAgrees(s: D.Store, worker: map<string, nat>, key: D.Key, id: string, size: nat)
    requires P.IdsFit(s.files, s.reservations, s.used) && KeysAgree(s, worker)
    requires if key in s.reservations then id == s.reservations[key].id else id !in s.used
    ensures var t := s.(reservations := s.reservations[key := D.Reservation(id, size)], used := s.used + {id});
            && KeysAgree(t, worker[id := size])
            && (BytesAgree(s, worker) ==> BytesAgree(t, worker[id := size]))
  {
    var t := s.(reservations := s.reservations[key := D.Reservation(id, size)], used := s.used + {id});
    IdsWith(s, t, key);
    assert id !in s.files;
    if BytesAgree(s, worker) {
      forall k | k in t.reservations && k != key
        ensures t.reservations[k].id != id && worker[t.reservations[k].id] == t.reservations[k].size
      {
        assert t.reservations[k] == s.reservations[k];
      }
    }
  }

  lemma ReserveAgrees(s: D.Store, worker: map<string, nat>, d: D.Event)
    requires P.Inv(s) && KeysAgree(s, worker) && d.Reserve?
    ensures KeysAgree(D.Step(s, d), DownloadStep(s, worker, d))
    ensures BytesAgree(s, worker) ==> BytesAgree(D.Step(s, d), DownloadStep(s, worker, d))
  {
    hide KeysAgree, BytesAgree, P.LeasesFit, P.BytesFit, P.HoldersFit, P.IdsFit, P.ClaimsFit, P.ClaimsDiffer, P.ExpiriesPast;
    hide P.RunningFits;
    assert D.MayReserve(s, d.key, d.size, d.uploadBytes, d.maxBytes, d.admitted) ==> d.size >= 0;
    hide D.MayReserve;
    if d.size >= 0 {
      if d.key in s.reservations {
        IdInUse(s, d.key);
        assert s.used + {s.reservations[d.key].id} == s.used;
        PutAgrees(s, worker, d.key, s.reservations[d.key].id, d.size);
      } else if d.id !in s.used {
        PutAgrees(s, worker, d.key, d.id, d.size);
      }
    }
  }

  lemma IdInUse(s: D.Store, key: D.Key)
    requires P.IdsFit(s.files, s.reservations, s.used) && key in s.reservations
    ensures s.reservations[key].id in s.used
  {}

  lemma IdsWithout(s: D.Store, key: D.Key, rest: map<D.Key, D.Reservation>)
    requires P.Inv(s) && key in s.reservations && rest == s.reservations - {key}
    ensures (set k | k in rest :: rest[k].id) == ReservedIds(s) - {s.reservations[key].id}
  {
    hide P.LeasesFit, P.BytesFit, P.HoldersFit, P.ClaimsFit, P.ClaimsDiffer, P.ExpiriesPast, P.RunningFits;
    var ids := set k | k in rest :: rest[k].id;
    forall id | id in ReservedIds(s) && id != s.reservations[key].id
      ensures id in ids
    {
      var k :| k in s.reservations && s.reservations[k].id == id;
      assert k in rest;
    }
    forall id | id in ids
      ensures id in ReservedIds(s) && id != s.reservations[key].id
    {
      var k :| k in rest && rest[k].id == id;
    }
  }

  lemma CheckedAgrees(s: D.Store, worker: map<string, nat>, pick: string)
    requires P.Inv(s) && KeysAgree(s, worker) && s.running.Checking?
    ensures var d := D.Resume(pick, true);
            && KeysAgree(D.Step(s, d), DownloadStep(s, worker, d))
            && (BytesAgree(s, worker) ==> (BytesAgree(D.Step(s, d), DownloadStep(s, worker, d)) <==> NotResized(s, d)))
  {
    hide P.LeasesFit, P.BytesFit, P.HoldersFit, P.ClaimsFit, P.ClaimsDiffer, P.ExpiriesPast;
    assert s.reservations[s.running.key].id in ReservedIds(s);
    assert ReservedIds(D.ResumeRunning(s, pick, true)) == ReservedIds(s);
  }

  lemma ArrivedAgrees(s: D.Store, worker: map<string, nat>, pick: string)
    requires P.Inv(s) && KeysAgree(s, worker) && s.running.Moving?
    ensures var d := D.Resume(pick, true);
            && KeysAgree(D.Step(s, d), DownloadStep(s, worker, d))
            && (BytesAgree(s, worker) ==> (BytesAgree(D.Step(s, d), DownloadStep(s, worker, d)) <==> NotResized(s, d)))
  {
    hide P.LeasesFit, P.BytesFit, P.HoldersFit, P.ClaimsFit, P.ClaimsDiffer, P.ExpiriesPast;
    var key, id := s.running.key, s.running.id;
    var t := D.ResumeRunning(s, pick, true);
    assert s.reservations[key].id == id && id in ReservedIds(s);
    IdsWithout(s, key, t.reservations);
    assert t.stored + ReservedIds(t) == s.stored + ReservedIds(s);
  }

  lemma AbortedAgrees(s: D.Store, worker: map<string, nat>, pick: string)
    requires P.Inv(s) && KeysAgree(s, worker) && s.running.Aborting?
    ensures var d := D.Resume(pick, true);
            && KeysAgree(D.Step(s, d), DownloadStep(s, worker, d))
            && (BytesAgree(s, worker) ==> BytesAgree(D.Step(s, d), DownloadStep(s, worker, d)))
  {
    hide P.LeasesFit, P.BytesFit, P.HoldersFit, P.ClaimsFit, P.ClaimsDiffer, P.ExpiriesPast;
    var t := D.ResumeRunning(s, pick, true);
    IdsWithout(s, s.running.key, t.reservations);
  }

  /** Deleting bytes, or forgetting a download, takes its reservation along. */
  lemma DeletedAgrees(s: D.Store, worker: map<string, nat>, t: D.Store, id: string)
    requires P.Inv(s) && KeysAgree(s, worker) && id in s.files
    requires t.reservations == s.reservations && t.stored == s.stored - {id}
    requires t.files == s.files || t.files == s.files - {id}
    ensures KeysAgree(t, worker - {id})
    ensures BytesAgree(s, worker) ==> BytesAgree(t, worker - {id})
  {
    hide P.LeasesFit, P.BytesFit, P.HoldersFit, P.ClaimsFit, P.ClaimsDiffer, P.ExpiriesPast, P.RunningFits;
    assert ReservedIds(t) == ReservedIds(s) && id !in ReservedIds(s);
  }

  /** The rest leaves reservations and stored bytes alone, and sizes as they were. */
  lemma SameAgrees(s: D.Store, worker: map<string, nat>, t: D.Store)
    requires KeysAgree(s, worker) && t.reservations == s.reservations && t.stored == s.stored && s.files.Keys <= t.files.Keys
    requires forall id :: id in s.files ==> O.Advances(s.files[id], t.files[id])
    ensures KeysAgree(t, worker)
    ensures BytesAgree(s, worker) ==> BytesAgree(t, worker)
  {
    assert ReservedIds(t) == ReservedIds(s);
  }

  /** Whether the running operation is at a point where it retains, releases or lands bytes. */
  ghost predicate MovesBytes(s: D.Store) {
    s.running.Checking? || s.running.Moving? || s.running.Aborting? || s.running.DeletingExpired? ||
    s.running.DeletingClaim? || s.running.Acknowledging?
  }

  lemma ResumeKeepsBytes(s: D.Store, pick: string, ok: bool)
    requires P.Inv(s) && (ok ==> !MovesBytes(s))
    ensures var t := D.ResumeRunning(s, pick, ok);
            t.reservations == s.reservations && t.stored == s.stored && s.files.Keys <= t.files.Keys
  {
    hide P.LeasesFit, P.BytesFit, P.HoldersFit, P.IdsFit, P.ClaimsFit, P.ClaimsDiffer, P.ExpiriesPast;
    hide D.ScheduleActive, D.LetGo, D.Finished, D.AbortActive, D.Ended, P.Revoked;
    if MovesBytes(s) {
    } else if s.running.WritingClaim? {
      hide D.EndOne, D.ExpireOne, D.DeleteIfGone;
    } else {
      hide P.Pending, D.EndClaim;
    }
  }

  lemma OtherAgrees(s: D.Store, worker: map<string, nat>, d: D.Event)
    requires P.Inv(s) && KeysAgree(s, worker) && !d.Reserve? && !(d.Resume? && d.ok && MovesBytes(s))
    ensures DownloadStep(s, worker, d) == worker && NotResized(s, d)
    ensures KeysAgree(D.Step(s, d), worker)
    ensures BytesAgree(s, worker) ==> BytesAgree(D.Step(s, d), worker)
  {
    hide P.Inv, KeysAgree, BytesAgree, D.StartNext, D.ResumeRunning, D.MayFinish, O.Advances;
    var t := D.Step(s, d);
    match d {
      case Start => O.StartFrame(s);
      case Resume(pick, ok) => ResumeKeepsBytes(s, pick, ok);
      case _ =>
    }
    forall id | id in s.files
      ensures id in t.files && O.Advances(s.files[id], t.files[id])
    {
      O.StepAdvances(s, d, id);
    }
    SameAgrees(s, worker, t);
  }

  lemma ResumedAgrees(s: D.Store, worker: map<string, nat>, pick: string)
    requires P.Inv(s) && KeysAgree(s, worker) && MovesBytes(s)
    ensures var d := D.Resume(pick, true);
            && KeysAgree(D.Step(s, d), DownloadStep(s, worker, d))
            && (BytesAgree(s, worker) ==> (BytesAgree(D.Step(s, d), DownloadStep(s, worker, d)) <==> NotResized(s, d)))
  {
    hide P.LeasesFit, P.BytesFit, P.HoldersFit, P.IdsFit, P.ClaimsFit, P.ClaimsDiffer, P.ExpiriesPast, KeysAgree, BytesAgree;
    hide D.LetGo;
    var t := D.ResumeRunning(s, pick, true);
    match s.running
    case Checking(_, _) => CheckedAgrees(s, worker, pick);
    case Moving(_, _, _) => ArrivedAgrees(s, worker, pick);
    case Aborting(_) => AbortedAgrees(s, worker, pick);
    case DeletingExpired(_, _, id) => DeletedAgrees(s, worker, t, id);
    case DeletingClaim(l) => DeletedAgrees(s, worker, t, s.leases[l].file);
    case Acknowledging(id) => DeletedAgrees(s, worker, t, id);
    case _ =>
  }

  /** Every event keeps one reservation each, and keeps the sizes equal exactly if no commit was resized. */
  lemma DownloadsStepExact(s: D.Store, worker: map<string, nat>, d: D.Event)
    requires P.Inv(s) && KeysAgree(s, worker)
    ensures KeysAgree(D.Step(s, d), DownloadStep(s, worker, d))
    ensures BytesAgree(s, worker) ==> (BytesAgree(D.Step(s, d), DownloadStep(s, worker, d)) <==> NotResized(s, d))
  {
    if d.Reserve? {
      ReserveAgrees(s, worker, d);
    } else if d.Resume? && d.ok && MovesBytes(s) {
      ResumedAgrees(s, worker, d.pick);
    } else {
      OtherAgrees(s, worker, d);
    }
  }

  ghost function WorkerDownloads(s: D.Store, worker: map<string, nat>, run: seq<D.Event>): map<string, nat>
    decreases |run|
  {
    if run == [] then worker else WorkerDownloads(D.Step(s, run[0]), DownloadStep(s, worker, run[0]), run[1..])
  }

  /** In every run the Worker holds one reservation for each download stored or reserved, and no other. */
  lemma {:induction false} DownloadKeysAgree(s: D.Store, worker: map<string, nat>, run: seq<D.Event>)
    requires P.Inv(s) && KeysAgree(s, worker)
    ensures KeysAgree(D.Run(s, run), WorkerDownloads(s, worker, run))
    decreases |run|
  {
    if run != [] {
      hide P.Inv, KeysAgree, D.Step, DownloadStep;
      P.StepKeeps(s, run[0]);
      DownloadsStepExact(s, worker, run[0]);
      DownloadKeysAgree(D.Step(s, run[0]), DownloadStep(s, worker, run[0]), run[1..]);
    }
  }

  ghost predicate AlwaysAgree(s: D.Store, worker: map<string, nat>, run: seq<D.Event>)
    decreases |run|
  {
    BytesAgree(s, worker) && (run != [] ==> AlwaysAgree(D.Step(s, run[0]), DownloadStep(s, worker, run[0]), run[1..]))
  }

  ghost predicate NeverResized(s: D.Store, run: seq<D.Event>)
    decreases |run|
  {
    run == [] || (NotResized(s, run[0]) && NeverResized(D.Step(s, run[0]), run[1..]))
  }

  /** The sizes agree at every moment exactly if no reservation has another size when its commit goes on or ends. */
  lemma {:induction false} DownloadBytesAgreeExactly(s: D.Store, worker: map<string, nat>, run: seq<D.Event>)
    requires P.Inv(s) && BytesAgree(s, worker)
    ensures AlwaysAgree(s, worker, run) <==> NeverResized(s, run)
    decreases |run|
  {
    if run != [] {
      P.StepKeeps(s, run[0]);
      DownloadsStepExact(s, worker, run[0]);
      hide P.Inv, KeysAgree, BytesAgree, D.Step, DownloadStep, NotResized;
      if BytesAgree(D.Step(s, run[0]), DownloadStep(s, worker, run[0])) {
        DownloadBytesAgreeExactly(D.Step(s, run[0]), DownloadStep(s, worker, run[0]), run[1..]);
      }
    }
  }

  // ---- Uploads ----

  /**
   The Worker's reservations for one Session's uploads, and the bytes a cleanup that has
   not completed yet has released of what failed opens left behind.
   */
  datatype Uploads = Uploads(storage: U.Storage, worker: map<nat, nat>, freed: nat)

  /** Once the directory is gone, cleanup releases the keys left, one by one. */
  datatype UploadEvent = Own(u: U.Event) | LeftoverReleased(id: nat)

  ghost predicate Enabled(j: Uploads, e: UploadEvent) {
    match e
    case Own(DirectoryRemoved(ok)) => ok && j.storage.cleanup.RemovingDirectory? ==> j.worker == map[]
    case LeftoverReleased(id) => j.storage.cleanup.RemovingDirectory? && id in j.worker
    case _ => true
  }

  ghost function UploadStep(j: Uploads, e: UploadEvent): Uploads
    requires Enabled(j, e)
  {
    match e
    case LeftoverReleased(id) => j.(worker := j.worker - {id}, freed := j.freed + j.worker[id])
    case Own(u) =>
      var s := j.storage;
      var t := U.Step(s, u);
      Uploads(t, match u
        case Reserve(size, external, admitted) =>
          if U.Refuses(s, size, external, admitted).Some? then j.worker else j.worker[s.nextId := size]
        case OpenFailed(id, removed) => if id in s.pending && removed then j.worker - {id} else j.worker
        case Aborted(id, removed) => if id in s.live && removed then j.worker - {id} else j.worker
        case AbortSettled(id, removed) =>
          if s.cleanup.AwaitingAborts? && id in s.cleanup.todo && id in s.live && removed then j.worker - {id} else j.worker
        case _ => j.worker,
        if U.Resets(s, u) then 0 else j.freed)
  }

  /**
   Each open under way and each live file has a reservation of its size, and together
   with what cleanup has released already they are exactly what the Session has reserved.
   */
  ghost predicate UploadsAgree(j: Uploads) {
    && (forall id :: id in j.worker ==> id < j.storage.nextId)
    && (forall id :: id in j.storage.pending ==> id in j.worker && j.worker[id] == j.storage.pending[id])
    && (forall id :: id in j.storage.live ==> id in j.worker && j.worker[id] == j.storage.live[id])
    && j.storage.reserved == Sum(j.worker) + j.freed
  }

  lemma ReleasedUploadAgrees(j: Uploads, id: nat, t: U.Storage)
    requires UploadsAgree(j) && id in j.worker
    requires t.nextId == j.storage.nextId && t.reserved == j.storage.reserved - j.worker[id]
    requires t.pending.Keys <= j.storage.pending.Keys - {id} && t.live.Keys <= j.storage.live.Keys - {id}
    requires (forall k :: k in t.pending ==> t.pending[k] == j.storage.pending[k])
    requires (forall k :: k in t.live ==> t.live[k] == j.storage.live[k])
    ensures UploadsAgree(Uploads(t, j.worker - {id}, j.freed))
  {
    SumRemove(j.worker, id);
  }

  lemma OwnStepAgrees(j: Uploads, u: U.Event)
    requires U.Inv(j.storage) && UploadsAgree(j) && Enabled(j, Own(u))
    requires u.Reserve? || u.OpenFailed? || u.Aborted? || u.AbortSettled?
    ensures UploadsAgree(UploadStep(j, Own(u)))
  {
    hide U.Declared;
    var s := j.storage;
    match u
    case Reserve(size, external, admitted) => if size >= 0 { SumPut(j.worker, s.nextId, size); }
    case OpenFailed(id, removed) => if id in s.pending && removed { ReleasedUploadAgrees(j, id, U.Step(s, u)); }
    case Aborted(id, removed) => if id in s.live && removed { ReleasedUploadAgrees(j, id, U.Step(s, u)); }
    case AbortSettled(id, removed) =>
      if s.cleanup.AwaitingAborts? && id in s.cleanup.todo && id in s.live && removed { ReleasedUploadAgrees(j, id, U.Step(s, u)); }
  }

  lemma UploadStepAgrees(j: Uploads, e: UploadEvent)
    requires U.Inv(j.storage) && UploadsAgree(j) && Enabled(j, e)
    ensures U.Inv(UploadStep(j, e).storage) && UploadsAgree(UploadStep(j, e))
  {
    hide U.Declared;
    match e
    case LeftoverReleased(id) => SumRemove(j.worker, id);
    case Own(u) =>
      U.StepKeeps(j.storage, u);
      if u.Reserve? || u.OpenFailed? || u.Aborted? || u.AbortSettled? {
        OwnStepAgrees(j, u);
      } else {
        U.SumOfNone();
      }
  }

  ghost predicate Possible(j: Uploads, run: seq<UploadEvent>)
    decreases |run|
  {
    run == [] || (Enabled(j, run[0]) && Possible(UploadStep(j, run[0]), run[1..]))
  }

  ghost function RunUploads(j: Uploads, run: seq<UploadEvent>): Uploads
    requires Possible(j, run)
    decreases |run|
  {
    if run == [] then j else RunUploads(UploadStep(j, run[0]), run[1..])
  }

  /** In every run the Worker's reservations for uploads are those the Session has made, to the byte. */
  lemma {:induction false} UploadLedgersAgree(j: Uploads, run: seq<UploadEvent>)
    requires U.Inv(j.storage) && UploadsAgree(j) && Possible(j, run)
    ensures UploadsAgree(RunUploads(j, run))
    decreases |run|
  {
    if run != [] {
      hide U.Inv, UploadsAgree, UploadStep, Enabled;
      UploadStepAgrees(j, run[0]);
      UploadLedgersAgree(UploadStep(j, run[0]), run[1..]);
    }
  }

  // ---- A commit that was resized ----

  /** The Session of ten bytes whose download of ten is being committed, reached from an empty one. */
  lemma ResizedCommit(session: string, id: string)
    ensures var key := (session, "d");
            var s, worker := Q.Half(session, key, id).downloads, map[id := 10];
            var run := [D.Reserve(key, "", 3, 0, 10, true), D.Resume("", true)];
            && BytesAgree(s, worker) && !NeverResized(s, run)
            && id in D.Run(s, run).files && D.Run(s, run).files[id].size == 10
            && WorkerDownloads(s, worker, run) == map[id := 3]
  {
    var key := (session, "d");
    var s, worker := Q.Half(session, key, id).downloads, map[id := 10];
    var run := [D.Reserve(key, "", 3, 0, 10, true), D.Resume("", true)];
    var s1 := s.(reservations := map[key := D.Reservation(id, 3)]);
    ResizeHalf(session, id);
    var s2 := D.Step(s1, run[1]);
    assert run[1..] == [run[1]] && run[1..][1..] == [];
    assert DownloadStep(s1, map[id := 3], run[1]) == map[id := 3];
    assert s2.files == map[id := D.File(session, 10, D.Available, 1, None, None)];
    hide D.Step, DownloadStep, BytesAgree, NotResized;
    assert D.Run(s2, []) == s2 && D.Run(s1, [run[1]]) == D.Run(s2, []);
    assert D.Run(s, run) == D.Run(s1, run[1..]);
    assert WorkerDownloads(s2, map[id := 3], []) == map[id := 3];
    assert WorkerDownloads(s1, map[id := 3], [run[1]]) == WorkerDownloads(s2, map[id := 3], []);
    assert WorkerDownloads(s, worker, run) == WorkerDownloads(s1, map[id := 3], run[1..]);
    assert !NotResized(s1, run[1]) by { NotTheSame(s1, run[1]); }
    assert !NeverResized(s1, [run[1]]);
  }

  lemma NotTheSame(s: D.Store, d: D.Event)
    requires d.Resume? && d.ok && s.running.Moving? && D.Previous(s, s.running.key) != s.running.file.size
    ensures !NotResized(s, d)
  {}

  lemma ResizeHalf(session: string, id: string)
    ensures var key := (session, "d");
            var s, d := Q.Half(session, key, id).downloads, D.Reserve(key, "", 3, 0, 10, true);
            && BytesAgree(s, map[id := 10])
            && D.Step(s, d) == s.(reservations := map[key := D.Reservation(id, 3)])
            && DownloadStep(s, map[id := 10], d) == map[id := 3]
  {
    hide D.ReservedBytes;
    var key := (session, "d");
    var s := Q.Half(session, key, id).downloads;
    Q.HalfTotal(session, key, id);
    assert D.MayReserve(s, key, 3, 0, 10, true);
    assert ReservedIds(s) == {id} by { assert s.reservations[key].id == id; }
  }
}

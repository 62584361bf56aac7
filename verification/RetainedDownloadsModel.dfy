/**
 The store of completed downloads, step by step. Operations on it are queued and run
 one at a time; between two awaits of the running one, leases may finish or be
 released, timers may fire, and new calls may join the queue.
 */
module RetainedDownloadsModel {
  import opened Basics
  import opened Totals

  datatype Status = Available | Claimed | Expired

  datatype File = File(
    session: string,
    size: nat,
    status: Status,
    expiresAt: int,
    endedAt: Option<int>,
    claimedAt: Option<int>)

  /** One holder of a file's bytes, on behalf of a Session; its place in the list of leases identifies it. */
  datatype Lease = Lease(file: string, session: string, aborted: bool, finishedAt: Option<int>)

  /** Session and download, as `${sessionId}:${downloadId}`. */
  type Key = (string, string)

  datatype Reservation = Reservation(id: string, size: nat)

  datatype Op =
    | Acquire(id: string, session: string)
    | EndSession(session: string, endedAt: int)
    | Expire(at: int)
    | Acknowledge(id: string)
    | Claim(lease: nat)
    | Commit(key: Key, size: int)
    | Abort(key: Key)

  /** Where the running operation waits. `todo` are the files its loop has still to visit. */
  datatype Running =
    | Idle
    | Ending(session: string, endedAt: int, todo: set<string>)
    | Expiring(at: int, todo: set<string>)
    | WritingExpired(at: int, todo: set<string>, id: string, file: File)
    | DeletingExpired(at: int, todo: set<string>, id: string)
    | Acknowledging(id: string)
    | WritingClaim(lease: nat, file: File)
    | DeletingClaim(lease: nat)
    | Checking(key: Key, reservation: Reservation)
    | Moving(key: Key, id: string, file: File)
    | Aborting(key: Key)

  /** `used` are the ids createPublicId has given out. */
  datatype Store = Store(
    files: map<string, File>,
    stored: set<string>,
    active: map<string, nat>,
    leases: seq<Lease>,
    reservations: map<Key, Reservation>,
    queue: seq<Op>,
    running: Running,
    now: int,
    used: set<string>,
    policy: Policy)

  datatype Policy = Policy(completed: nat, afterSession: nat)

  datatype Event =
    | Tick(to: int)
    | Call(op: Op)
    | Start
    | Resume(pick: string, ok: bool)
    | Finish(lease: nat)
    | Release(lease: nat)
    | Deadline(lease: nat)
    | Reserve(key: Key, id: string, size: int, uploadBytes: int, maxBytes: nat, admitted: bool)

  // ---- Leases ----

  /** #scheduleDeadline: a lease that is still open is aborted once its file is due. */
  function Schedule(leases: seq<Lease>, l: nat, expiresAt: int, now: int): seq<Lease> {
    if l < |leases| && leases[l].finishedAt.None? && expiresAt <= now
    then leases[l := leases[l].(aborted := true)]
    else leases
  }

  function ScheduleActive(leases: seq<Lease>, active: map<string, nat>, id: string, expiresAt: int, now: int): seq<Lease> {
    if id in active then Schedule(leases, active[id], expiresAt, now) else leases
  }

  predicate Holds(s: Store, l: nat) {
    l < |s.leases| && s.leases[l].file in s.active && s.active[s.leases[l].file] == l
  }

  function LetGo(active: map<string, nat>, id: string, l: nat): map<string, nat> {
    if id in active && active[id] == l then active - {id} else active
  }

  function ReleaseLease(s: Store, l: nat): Store {
    if l >= |s.leases| || s.leases[l].finishedAt.Some? then s
    else s.(leases := s.leases[l := s.leases[l].(aborted := true)], active := LetGo(s.active, s.leases[l].file, l))
  }

  /** Whether finish is accepted. */
  predicate MayFinish(s: Store, l: nat) {
    && Holds(s, l)
    && !s.leases[l].aborted
    && s.leases[l].finishedAt.None?
    && s.leases[l].file in s.files
    && s.files[s.leases[l].file].expiresAt > s.now
  }

  function FinishLease(s: Store, l: nat): Store {
    if MayFinish(s, l)
    then s.(leases := s.leases[l := s.leases[l].(finishedAt := Some(s.now))], queue := s.queue + [Claim(l)])
    else ReleaseLease(s, l)
  }

  function FireDeadline(s: Store, l: nat): Store {
    if l < |s.leases| && s.leases[l].file in s.files
    then s.(leases := Schedule(s.leases, l, s.files[s.leases[l].file].expiresAt, s.now))
    else s
  }

  // ---- Bytes ----

  function FileBytes(files: map<string, File>, stored: set<string>, session: string): map<string, nat> {
    map id | id in files && id in stored && files[id].session == session :: files[id].size
  }

  function ReservationBytes(reservations: map<Key, Reservation>, session: string): map<Key, nat> {
    map k | k in reservations && k.0 == session :: reservations[k].size
  }

  /** reservedBytes: what a Session's downloads hold, kept or still arriving. */
  ghost function ReservedBytes(s: Store, session: string): nat {
    Sum(FileBytes(s.files, s.stored, session)) + Sum(ReservationBytes(s.reservations, session))
  }

  function Previous(s: Store, key: Key): nat {
    if key in s.reservations then s.reservations[key].size else 0
  }

  /** `admitted` is the Worker-wide ledger's answer. */
  ghost predicate MayReserve(s: Store, key: Key, size: int, uploadBytes: int, maxBytes: nat, admitted: bool) {
    && IsSafeInteger(uploadBytes) && uploadBytes >= 0
    && IsSafeInteger(size) && size >= 0
    && ReservedBytes(s, key.0) - Previous(s, key) + size + uploadBytes <= maxBytes
    && admitted
  }

  ghost function ReserveDownload(s: Store, key: Key, id: string, size: int, uploadBytes: int, maxBytes: nat,
                                 admitted: bool): Store {
    if !MayReserve(s, key, size, uploadBytes, maxBytes, admitted) then s
    else if key in s.reservations then s.(reservations := s.reservations[key := Reservation(s.reservations[key].id, size)])
    else if id in s.used then s
    else s.(reservations := s.reservations[key := Reservation(id, size)], used := s.used + {id})
  }

  // ---- The queue ----

  /** finish alone queues claims, and expire reads the clock when it is called. */
  function Enqueue(s: Store, op: Op): Store {
    match op
    case Claim(_) => s
    case Expire(_) => s.(queue := s.queue + [Expire(s.now)])
    case _ => s.(queue := s.queue + [op])
  }

  predicate MayAcquire(s: Store, id: string, session: string) {
    && id in s.files && s.files[id].status.Available? && s.files[id].expiresAt > s.now
    && s.files[id].session == session
    && id !in s.active
  }

  function AcquireFile(s: Store, id: string, session: string): Store {
    if MayAcquire(s, id, session)
    then s.(active := s.active[id := |s.leases|], leases := s.leases + [Lease(id, session, false, None)])
    else s
  }

  function ClaimedBy(s: Store, l: nat): Running {
    if l < |s.leases| && s.leases[l].file in s.files
    then WritingClaim(l, s.files[s.leases[l].file].(status := Claimed, claimedAt := s.leases[l].finishedAt))
    else Idle
  }

  /** The next operation runs up to its first await. */
  function StartNext(s: Store): Store {
    if !s.running.Idle? || s.queue == [] then s else
      var next := s.(queue := s.queue[1..]);
      match s.queue[0]
      case Acquire(id, session) => AcquireFile(next, id, session)
      case EndSession(session, endedAt) => next.(running := Ending(session, endedAt, s.files.Keys))
      case Expire(at) => next.(running := Expiring(at, s.files.Keys))
      case Acknowledge(id) =>
        if id in s.files && !s.files[id].status.Available? then next.(running := Acknowledging(id)) else next
      case Claim(l) => next.(running := ClaimedBy(s, l))
      case Commit(key, size) =>
        if key in s.reservations && s.reservations[key].size == size
        then next.(running := Checking(key, s.reservations[key])) else next
      case Abort(key) => if key in s.reservations then next.(running := Aborting(key)) else next
  }

  /** #persist, once the manifest is on disk. */
  function Persist(s: Store, id: string, file: File): Store {
    s.(files := s.files[id := file], leases := ScheduleActive(s.leases, s.active, id, file.expiresAt, s.now))
  }

  function Ended(file: File, endedAt: int, policy: Policy): File {
    file.(endedAt := Some(endedAt), expiresAt := Min(file.expiresAt, endedAt + policy.afterSession))
  }

  function EndOne(s: Store, session: string, endedAt: int, todo: set<string>, id: string, ok: bool): Store {
    var on := s.(running := Ending(session, endedAt, todo - {id}));
    if id !in s.files || s.files[id].session != session || s.files[id].endedAt.Some? then on
    else Persist(on, id, Ended(s.files[id], endedAt, s.policy)).(running := if ok then on.running else Idle)
  }

  predicate Finished(s: Store, id: string) {
    id in s.active && s.active[id] < |s.leases| && s.leases[s.active[id]].finishedAt.Some?
  }

  function AbortActive(s: Store, id: string): seq<Lease> {
    if id in s.active && s.active[id] < |s.leases|
    then s.leases[s.active[id] := s.leases[s.active[id]].(aborted := true)]
    else s.leases
  }

  /** What remains of a visit by expire, once the file's status is settled. */
  function DeleteIfGone(s: Store, at: int, todo: set<string>, id: string): Store {
    if id in s.files && !s.files[id].status.Available? && id in s.stored
    then s.(running := DeletingExpired(at, todo, id))
    else s.(running := Expiring(at, todo))
  }

  function ExpireOne(s: Store, at: int, todo: set<string>, id: string): Store {
    if id !in s.files || Finished(s, id) then s.(running := Expiring(at, todo - {id}))
    else if s.files[id].status.Available? && s.files[id].expiresAt <= at then
      s.(leases := AbortActive(s, id), running := WritingExpired(at, todo - {id}, id, s.files[id].(status := Expired)))
    else DeleteIfGone(s, at, todo - {id}, id)
  }

  /** A claim ends, well or badly, by letting its lease go. */
  function EndClaim(s: Store, l: nat): Store {
    s.(running := Idle, active := if l < |s.leases| then LetGo(s.active, s.leases[l].file, l) else s.active)
  }

  function Arrived(s: Store, key: Key, id: string, file: File): Store {
    s.(files := s.files[id := file], stored := s.stored + {id}, reservations := s.reservations - {key},
       running := Idle)
  }

  /** The running operation continues: its loop takes `pick`, or what it awaited ends. */
  function ResumeRunning(s: Store, pick: string, ok: bool): Store {
    match s.running
    case Idle => s
    case Ending(session, endedAt, todo) =>
      if todo == {} then s.(running := Idle)
      else if pick in todo then EndOne(s, session, endedAt, todo, pick, ok)
      else s
    case Expiring(at, todo) =>
      if todo == {} then s.(running := Idle)
      else if pick in todo then ExpireOne(s, at, todo, pick)
      else s
    case WritingExpired(at, todo, id, file) =>
      if ok then DeleteIfGone(Persist(s, id, file), at, todo, id) else s.(running := Idle)
    case DeletingExpired(at, todo, id) =>
      if ok then s.(stored := s.stored - {id}, running := Expiring(at, todo)) else s.(running := Idle)
    case Acknowledging(id) =>
      if ok then s.(files := s.files - {id}, stored := s.stored - {id}, running := Idle) else s.(running := Idle)
    case WritingClaim(l, file) =>
      if ok && l < |s.leases| then Persist(s, s.leases[l].file, file).(running := DeletingClaim(l)) else EndClaim(s, l)
    case DeletingClaim(l) =>
      if ok && l < |s.leases| then EndClaim(s.(stored := s.stored - {s.leases[l].file}), l) else EndClaim(s, l)
    case Checking(key, reservation) =>
      if ok then s.(running := Moving(key, reservation.id,
        File(key.0, reservation.size, Available, s.now + s.policy.completed, None, None)))
      else s.(running := Idle)
    case Moving(key, id, file) => if ok then Arrived(s, key, id, file) else s.(running := Idle)
    case Aborting(key) => if ok then s.(reservations := s.reservations - {key}, running := Idle) else s.(running := Idle)
  }

  ghost function Step(s: Store, e: Event): Store {
    match e
    case Tick(to) => if to >= s.now then s.(now := to) else s
    case Call(op) => Enqueue(s, op)
    case Start => StartNext(s)
    case Resume(pick, ok) => ResumeRunning(s, pick, ok)
    case Finish(l) => FinishLease(s, l)
    case Release(l) => ReleaseLease(s, l)
    case Deadline(l) => FireDeadline(s, l)
    case Reserve(key, id, size, uploadBytes, maxBytes, admitted) =>
      ReserveDownload(s, key, id, size, uploadBytes, maxBytes, admitted)
  }

  ghost function Run(s: Store, run: seq<Event>): Store
    decreases |run|
  {
    if run == [] then s else Run(Step(s, run[0]), run[1..])
  }
}

/** The bytes one Session has reserved for uploads, through failing opens, aborts and cleanup. */
module SessionStorageLedger {
  import opened Basics
  import opened Totals

  /** Cleanup waits for opens, then for every file's abort, then removes the directory. */
  datatype Cleanup =
    | NotRunning
    | AwaitingOpens
    | AwaitingAborts(todo: set<nat>, failed: bool)
    | RemovingDirectory
    | CleanedUp

  /**
   `pending` are the opens under way and `live` the files open or committed, each
   with its declared size. Numbers are given out in order.
   */
  datatype Storage = Storage(
    max: nat,
    reserved: int,
    pending: map<nat, nat>,
    live: map<nat, nat>,
    nextId: nat,
    closed: bool,
    cleanup: Cleanup)

  datatype Refusal = Closed | InvalidUsage | LimitExceeded

  datatype Event =
    | Reserve(size: int, external: int, admitted: bool)
    | Opened(id: nat)
    | OpenFailed(id: nat, removed: bool)
    | Aborted(id: nat, removed: bool)
    | CleanupCalled
    | OpensSettled
    | AbortSettled(id: nat, removed: bool)
    | AbortsSettled
    | DirectoryRemoved(ok: bool)

  /** `admitted` is the Worker-wide ledger's answer. */
  function Refuses(s: Storage, size: int, external: int, admitted: bool): Option<Refusal> {
    if s.closed then Some(Closed)
    else if !IsSafeInteger(external) || external < 0 then Some(InvalidUsage)
    else if !IsSafeInteger(size) || size < 0 || s.reserved + external + size > s.max || !admitted then Some(LimitExceeded)
    else None
  }

  function ReserveUpload(s: Storage, size: int, external: int, admitted: bool): Storage {
    if Refuses(s, size, external, admitted).Some? then s
    else s.(reserved := s.reserved + size, pending := s.pending[s.nextId := size], nextId := s.nextId + 1)
  }

  function OpenedFile(s: Storage, id: nat): Storage {
    if id !in s.pending then s
    else s.(live := s.live[id := s.pending[id]], pending := s.pending - {id})
  }

  /** A failed open gives its bytes back only if what it created could be removed. */
  function OpenFailedFile(s: Storage, id: nat, removed: bool): Storage {
    if id !in s.pending then s
    else s.(reserved := s.reserved - if removed then s.pending[id] else 0, pending := s.pending - {id})
  }

  /** remove, at the end of an abort: only the first one gives the bytes back. */
  function Remove(s: Storage, id: nat, removed: bool): Storage {
    if id !in s.live || !removed then s
    else s.(reserved := s.reserved - s.live[id], live := s.live - {id})
  }

  function Step(s: Storage, e: Event): Storage {
    match e
    case Reserve(size, external, admitted) => ReserveUpload(s, size, external, admitted)
    case Opened(id) => OpenedFile(s, id)
    case OpenFailed(id, removed) => OpenFailedFile(s, id, removed)
    case Aborted(id, removed) => Remove(s, id, removed)
    case CleanupCalled =>
      s.(closed := true, cleanup := if s.cleanup.NotRunning? then AwaitingOpens else s.cleanup)
    case OpensSettled =>
      if s.cleanup.AwaitingOpens? && s.pending == map[] then s.(cleanup := AwaitingAborts(s.live.Keys, false)) else s
    case AbortSettled(id, removed) =>
      if s.cleanup.AwaitingAborts? && id in s.cleanup.todo
      then Remove(s, id, removed).(cleanup := AwaitingAborts(s.cleanup.todo - {id}, s.cleanup.failed || !removed))
      else s
    case AbortsSettled =>
      if s.cleanup.AwaitingAborts? && s.cleanup.todo == {}
      then s.(cleanup := if s.cleanup.failed then NotRunning else RemovingDirectory)
      else s
    case DirectoryRemoved(ok) =>
      if !s.cleanup.RemovingDirectory? then s
      else if ok then s.(reserved := 0, cleanup := CleanedUp)
      else s.(cleanup := NotRunning)
  }

  function Run(s: Storage, run: seq<Event>): Storage
    decreases |run|
  {
    if run == [] then s else Run(Step(s, run[0]), run[1..])
  }

  function Fresh(max: nat): Storage {
    Storage(max, 0, map[], map[], 0, false, NotRunning)
  }

  // ---- What the ledger keeps ----

  ghost function Declared(s: Storage): nat {
    Sum(s.pending) + Sum(s.live)
  }

  ghost predicate IdsFit(pending: map<nat, nat>, live: map<nat, nat>, nextId: nat) {
    && (forall id :: id in pending ==> id < nextId && id !in live)
    && (forall id :: id in live ==> id < nextId)
  }

  ghost predicate CleanupFits(s: Storage) {
    match s.cleanup
    case NotRunning => true
    case AwaitingOpens => s.closed
    case AwaitingAborts(todo, failed) => s.closed && s.pending == map[] && (failed || s.live.Keys <= todo)
    case RemovingDirectory => s.closed && s.pending == map[] && s.live == map[]
    case CleanedUp => s.closed && s.pending == map[] && s.live == map[] && s.reserved == 0
  }

  ghost predicate Inv(s: Storage) {
    && IdsFit(s.pending, s.live, s.nextId)
    && CleanupFits(s)
    && Declared(s) <= s.reserved <= s.max
  }

  /** The bytes a step leaves reserved for nothing: a failed open whose remains could not be removed. */
  function Leaks(s: Storage, e: Event): nat {
    if e.OpenFailed? && !e.removed && e.id in s.pending then s.pending[e.id] else 0
  }

  /** A completed cleanup, which counts nothing any more. */
  predicate Resets(s: Storage, e: Event) {
    e.DirectoryRemoved? && e.ok && s.cleanup.RemovingDirectory?
  }

  lemma ReserveKeeps(s: Storage, size: int, external: int, admitted: bool)
    requires Inv(s)
    ensures Inv(ReserveUpload(s, size, external, admitted))
    ensures var t := ReserveUpload(s, size, external, admitted); t.reserved - s.reserved == Declared(t) - Declared(s)
  {
    if size >= 0 { SumPut(s.pending, s.nextId, size); }
  }

  lemma SumOfNone()
    ensures Sum<nat>(map[]) == 0
  {}

  lemma OpenKeeps(s: Storage, id: nat)
    requires Inv(s)
    ensures var t := OpenedFile(s, id); Inv(t) && Declared(t) == Declared(s) && t.reserved == s.reserved
  {
    if id in s.pending {
      SumPut(s.live, id, s.pending[id]);
      SumRemove(s.pending, id);
    }
  }

  lemma OpenFailedKeeps(s: Storage, id: nat, removed: bool)
    requires Inv(s)
    ensures var t := OpenFailedFile(s, id, removed);
            && Inv(t)
            && t.reserved - Declared(t) == s.reserved - Declared(s) + Leaks(s, OpenFailed(id, removed))
  {
    if id in s.pending { SumRemove(s.pending, id); }
  }

  lemma RemoveKeeps(s: Storage, id: nat, removed: bool)
    requires Inv(s)
    ensures var t := Remove(s, id, removed);
            Inv(t) && t.reserved - s.reserved == Declared(t) - Declared(s)
  {
    if id in s.live { SumRemove(s.live, id); }
  }

  /** A cleanup that reaches the directory has nothing left to count. */
  lemma StepKeeps(s: Storage, e: Event)
    requires Inv(s)
    ensures Inv(Step(s, e))
    ensures Step(s, e).reserved - Declared(Step(s, e)) ==
            if Resets(s, e) then 0 else s.reserved - Declared(s) + Leaks(s, e)
  {
    hide Remove, OpenFailedFile, OpenedFile, ReserveUpload;
    match e
    case Reserve(size, external, admitted) => ReserveKeeps(s, size, external, admitted);
    case Opened(id) => OpenKeeps(s, id);
    case OpenFailed(id, removed) => OpenFailedKeeps(s, id, removed);
    case Aborted(id, removed) => RemoveKeeps(s, id, removed);
    case AbortSettled(id, removed) =>
      if s.cleanup.AwaitingAborts? && id in s.cleanup.todo { AbortSettledKeeps(s, id, removed); }
    case DirectoryRemoved(ok) => SumOfNone();
    case _ =>
  }

  lemma AbortSettledKeeps(s: Storage, id: nat, removed: bool)
    requires Inv(s) && s.cleanup.AwaitingAborts? && id in s.cleanup.todo
    ensures Inv(Step(s, AbortSettled(id, removed)))
    ensures var t := Step(s, AbortSettled(id, removed)); t.reserved - s.reserved == Declared(t) - Declared(s)
  {
    RemoveKeeps(s, id, removed);
  }

  /**
   In every interleaving the reserved bytes cover every open under way and every live
   file, stay within the Session's limit, and are none at all after a cleanup.
   */
  lemma {:induction false} ReservedCoversDeclared(s: Storage, run: seq<Event>)
    requires Inv(s)
    ensures Inv(Run(s, run))
    ensures var t := Run(s, run); 0 <= Declared(t) <= t.reserved <= t.max && (t.cleanup.CleanedUp? ==> t.reserved == 0)
    decreases |run|
  {
    if run != [] {
      StepKeeps(s, run[0]);
      ReservedCoversDeclared(Step(s, run[0]), run[1..]);
    }
  }

  /** What a run leaves reserved for nothing, since the last completed cleanup. */
  function Leaked(s: Storage, run: seq<Event>, before: nat): nat
    decreases |run|
  {
    if run == [] then before
    else Leaked(Step(s, run[0]), run[1..], if Resets(s, run[0]) then 0 else before + Leaks(s, run[0]))
  }

  /** The reserved bytes exceed those of opens and files by exactly what failed opens left behind. */
  lemma {:induction false} ReservedIsDeclaredAndLeaked(s: Storage, run: seq<Event>, before: nat)
    requires Inv(s) && s.reserved == Declared(s) + before
    ensures Run(s, run).reserved == Declared(Run(s, run)) + Leaked(s, run, before)
    decreases |run|
  {
    if run != [] {
      StepKeeps(s, run[0]);
      ReservedIsDeclaredAndLeaked(Step(s, run[0]), run[1..], if Resets(s, run[0]) then 0 else before + Leaks(s, run[0]));
    }
  }

  /** So they are exactly those bytes if and only if nothing was left behind. */
  lemma ReservedIsDeclared(s: Storage, run: seq<Event>)
    requires Inv(s) && s.reserved == Declared(s)
    ensures Run(s, run).reserved == Declared(Run(s, run)) <==> Leaked(s, run, 0) == 0
  {
    ReservedIsDeclaredAndLeaked(s, run, 0);
  }

  lemma FreshFits(max: nat)
    ensures Inv(Fresh(max)) && Fresh(max).reserved == Declared(Fresh(max))
  {
    SumOfNone();
  }

  /** Otherwise they are not: what could not be removed stays reserved until cleanup. */
  lemma FailedRemovalStaysReserved(max: nat, size: nat)
    requires size <= max && size <= MAX_SAFE_INTEGER
    ensures var t := Run(Fresh(max), [Reserve(size, 0, true), OpenFailed(0, false)]);
            t.reserved == size && Declared(t) == 0
  {
    var run := [Reserve(size, 0, true), OpenFailed(0, false)];
    var one := Step(Fresh(max), run[0]);
    var two := Step(one, run[1]);
    assert one.pending - {0} == map[];
    assert run[1..] == [run[1]] && run[1..][1..] == [];
    assert Run(one, run[1..]) == Run(two, []);
    SumOfNone();
  }

  /** After a cleanup nothing is admitted and nothing is counted, ever. */
  lemma {:induction false} CleanedUpForGood(s: Storage, run: seq<Event>)
    requires Inv(s) && s.cleanup.CleanedUp?
    ensures Run(s, run) == s
    decreases |run|
  {
    if run != [] { CleanedUpForGood(Step(s, run[0]), run[1..]); }
  }

  // ---- What each call does, written out ----

  /**
   An upload is reserved exactly if the storage is open, the downloads' total and the size are
   valid, all bytes together are within the Session's limit, and the Worker-wide ledger admits it.
   Otherwise the first check that fails is the reason, and nothing changes.
   */
  lemma ReservedUploadExactly(s: Storage, size: int, external: int, admitted: bool)
    ensures Refuses(s, size, external, admitted) ==
            if s.closed then Some(Closed)
            else if external < 0 || external > 9007199254740991 then Some(InvalidUsage)
            else if size < 0 || size > 9007199254740991 || s.max < s.reserved + external + size || !admitted then Some(LimitExceeded)
            else None
    ensures Step(s, Reserve(size, external, admitted)) ==
            if Refuses(s, size, external, admitted) != None then s
            else Storage(s.max, s.reserved + size, s.pending[s.nextId := size], s.live, s.nextId + 1, s.closed, s.cleanup)
  {}

  /** How opens and files end: bytes come back exactly when what was on disk is gone, and once. */
  lemma EndedExactly(s: Storage, id: nat, removed: bool)
    ensures id in s.pending ==>
              && Step(s, Opened(id)) == s.(live := s.live[id := s.pending[id]], pending := s.pending - {id})
              && Step(s, OpenFailed(id, removed)) ==
                   s.(reserved := if removed then s.reserved - s.pending[id] else s.reserved, pending := s.pending - {id})
    ensures Step(s, Aborted(id, removed)) ==
            if id in s.live && removed then s.(reserved := s.reserved - s.live[id], live := s.live - {id}) else s
  {}

  /** The way of a cleanup: opens, then every file's abort, then the directory; a failure lets it be called again. */
  lemma CleanupGoesOn(s: Storage, id: nat, ok: bool)
    ensures Step(s, CleanupCalled) == s.(closed := true, cleanup := if s.cleanup == NotRunning then AwaitingOpens else s.cleanup)
    ensures Step(s, OpensSettled) ==
            if s.cleanup == AwaitingOpens && s.pending == map[] then s.(cleanup := AwaitingAborts(s.live.Keys, false)) else s
    ensures s.cleanup.AwaitingAborts? && id in s.cleanup.todo ==>
              Step(s, AbortSettled(id, ok)) ==
                Step(s, Aborted(id, ok)).(cleanup := AwaitingAborts(s.cleanup.todo - {id}, s.cleanup.failed || !ok))
    ensures s.cleanup.AwaitingAborts? && s.cleanup.todo == {} ==>
              Step(s, AbortsSettled) == s.(cleanup := if s.cleanup.failed then NotRunning else RemovingDirectory)
    ensures s.cleanup == RemovingDirectory ==>
              Step(s, DirectoryRemoved(ok)) == if ok then s.(reserved := 0, cleanup := CleanedUp) else s.(cleanup := NotRunning)
  {}

  lemma RunAppended(s: Storage, e: Event, run: seq<Event>)
    ensures Run(s, [e] + run) == Run(Step(s, e), run)
  {
    hide Step;
    assert ([e] + run)[0] == e && ([e] + run)[1..] == run;
  }

  lemma {:induction false} AbortsComplete(s: Storage) returns (run: seq<Event>)
    requires s.cleanup.AwaitingAborts? && !s.cleanup.failed
    ensures Run(s, run).cleanup == CleanedUp && Run(s, run).reserved == 0
    decreases if s.cleanup.AwaitingAborts? then |s.cleanup.todo| else 0
  {
    if s.cleanup.todo == {} {
      var s1 := Step(s, AbortsSettled);
      var s2 := Step(s1, DirectoryRemoved(true));
      RunAppended(s1, DirectoryRemoved(true), []);
      RunAppended(s, AbortsSettled, [DirectoryRemoved(true)] + []);
      run := [AbortsSettled] + ([DirectoryRemoved(true)] + []);
    } else {
      var id :| id in s.cleanup.todo;
      var rest := AbortsComplete(Step(s, AbortSettled(id, true)));
      RunAppended(s, AbortSettled(id, true), rest);
      run := [AbortSettled(id, true)] + rest;
    }
  }

  /** Whenever no open is under way and no cleanup runs, also after failed ones, a cleanup whose steps work completes. */
  lemma CleanupCanComplete(s: Storage) returns (run: seq<Event>)
    requires s.pending == map[] && s.cleanup == NotRunning
    ensures Run(s, run).cleanup == CleanedUp && Run(s, run).reserved == 0
  {
    var s1 := Step(s, CleanupCalled);
    var s2 := Step(s1, OpensSettled);
    var rest := AbortsComplete(s2);
    RunAppended(s1, OpensSettled, rest);
    RunAppended(s, CleanupCalled, [OpensSettled] + rest);
    run := [CleanupCalled] + ([OpensSettled] + rest);
  }

  // ---- The same in place ----

  class SessionStorage {
    const maxBytes: nat
    var reservedBytes: int
    var pending: map<nat, nat>
    var reservations: map<nat, nat>
    var nextId: nat
    var closed: bool
    var cleanup: Cleanup

    function Model(): Storage
      reads this
    {
      Storage(maxBytes, reservedBytes, pending, reservations, nextId, closed, cleanup)
    }

    constructor (max: nat)
      ensures Model() == Fresh(max) && Inv(Model())
    {
      FreshFits(max);
      maxBytes, reservedBytes, pending, reservations := max, 0, map[], map[];
      nextId, closed, cleanup := 0, false, NotRunning;
    }

    /** Reserves before the first await, so that two transfers cannot spend the same bytes. */
    method ReserveFile(size: int, external: int, admitted: bool) returns (r: Result<nat, Refusal>)
      modifies this
      ensures Model() == ReserveUpload(old(Model()), size, external, admitted)
      ensures match r
              case Failure(why) => Refuses(old(Model()), size, external, admitted) == Some(why)
              case Success(id) => Refuses(old(Model()), size, external, admitted).None? && id == old(nextId)
    {
      if closed { return Failure(Closed); }
      if !IsSafeInteger(external) || external < 0 { return Failure(InvalidUsage); }
      if !IsSafeInteger(size) || size < 0 || reservedBytes + external + size > maxBytes { return Failure(LimitExceeded); }
      if !admitted { return Failure(LimitExceeded); }
      r := Success(nextId);
      reservedBytes := reservedBytes + size;
      pending := pending[nextId := size];
      nextId := nextId + 1;
    }

    /** The open under way ends: a live file, or bytes given back if nothing was left behind. */
    method FinishOpen(id: nat, ok: bool, removed: bool)
      requires id in pending
      modifies this
      ensures Model() == Step(old(Model()), if ok then Opened(id) else OpenFailed(id, removed))
    {
      var size := pending[id];
      if ok {
        reservations := reservations[id := size];
      } else if removed {
        reservedBytes := reservedBytes - size;
      }
      pending := pending - {id};
    }

    method RemoveFile(id: nat, removed: bool)
      modifies this
      ensures Model() == Remove(old(Model()), id, removed)
    {
      if !removed { return; }
      if id in reservations {
        reservedBytes := reservedBytes - reservations[id];
        reservations := reservations - {id};
      }
    }

    method CleanupSession()
      modifies this
      ensures Model() == Step(old(Model()), CleanupCalled)
    {
      closed := true;
      if cleanup.NotRunning? { cleanup := AwaitingOpens; }
    }

    method ContinueCleanup(e: Event)
      requires e.OpensSettled? || e.AbortSettled? || e.AbortsSettled? || e.DirectoryRemoved?
      modifies this
      ensures Model() == Step(old(Model()), e)
    {
      match cleanup
      case NotRunning =>
      case AwaitingOpens =>
        if e.OpensSettled? && pending == map[] { cleanup := AwaitingAborts(reservations.Keys, false); }
      case AwaitingAborts(todo, failed) =>
        if e.AbortSettled? && e.id in todo {
          RemoveFile(e.id, e.removed);
          cleanup := AwaitingAborts(todo - {e.id}, failed || !e.removed);
        } else if e.AbortsSettled? && todo == {} {
          cleanup := if failed then NotRunning else RemovingDirectory;
        }
      case RemovingDirectory =>
        if e.DirectoryRemoved? {
          if e.ok { reservedBytes := 0; }
          cleanup := if e.ok then CleanedUp else NotRunning;
        }
      case CleanedUp =>
    }
  }
}

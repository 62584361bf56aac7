/**
 The Policy Script scheduler: one interpreter thread at a time, a bounded queue,
 a job in progress, a watchdog and an idle timer.
 */
module ScriptRuntimeModel {
  import opened Basics

  const MAX_QUEUE: nat := 16

  datatype Alarm = BootLimit(worker: nat) | RunLimit | IdleLimit

  /** What an interpreter thread is doing, as its own message loop sees it. */
  datatype Thread = Booting | Resting | Busy(job: nat)

  datatype Outcome =
    | Answered(worker: nat, executed: nat)  // the thread's reply, for the job it executed
    | Failed
    | TimedOut
    | Refused                               // SCRIPT_BUSY

  datatype Settlement = Settlement(job: nat, outcome: Outcome)

  /**
   The module's variables, its armed timers, the threads, and two logs. Jobs,
   workers and timers are numbered in order of creation.
   */
  datatype Runtime = Runtime(
    queue: seq<nat>,
    worker: Option<nat>,
    current: Option<nat>,
    ready: bool,
    terminating: bool,
    watchdog: Option<nat>,    // the last timer stored in the variable, armed or not
    idle: Option<nat>,
    timers: map<nat, Alarm>,  // the armed timers
    threads: map<nat, Thread>,
    terminations: nat,        // terminate() promises not yet settled
    jobs: nat,
    workers: nat,
    timerCount: nat,
    started: seq<nat>,        // jobs posted to a worker, in order
    settled: seq<Settlement>)

  const INITIAL := Runtime([], None, None, false, false, None, None, map[], map[], 0, 0, 0, 0, [], [])

  function Clear(timers: map<nat, Alarm>, t: Option<nat>): map<nat, Alarm> {
    if t.Some? then timers - {t.value} else timers
  }

  function All(jobs: seq<nat>, outcome: Outcome): seq<Settlement> {
    seq(|jobs|, i requires 0 <= i < |jobs| => Settlement(jobs[i], outcome))
  }

  function Jobs(current: Option<nat>): seq<nat> {
    if current.Some? then [current.value] else []
  }

  function CurrentJob(s: Runtime): seq<nat> {
    Jobs(s.current)
  }

  /** stop: the job in progress fails, then the queue in order; the thread is terminated. */
  function Stop(s: Runtime, outcome: Outcome): Runtime {
    s.(worker := None, ready := false, timers := Clear(s.timers, s.watchdog),
       settled := s.settled + All(CurrentJob(s) + s.queue, outcome),
       current := None, queue := [], terminating := true, terminations := s.terminations + 1)
  }

  function WithWorker(s: Runtime): Runtime {
    if s.worker.Some? then s else
      s.(worker := Some(s.workers), workers := s.workers + 1, threads := s.threads[s.workers := Booting],
         watchdog := Some(s.timerCount), timers := s.timers[s.timerCount := BootLimit(s.workers)],
         timerCount := s.timerCount + 1)
  }

  function Post(s: Runtime): Runtime
    requires s.queue != [] && s.worker.Some?
  {
    s.(current := Some(s.queue[0]), queue := s.queue[1..], started := s.started + [s.queue[0]],
       threads := s.threads[s.worker.value := Busy(s.queue[0])],
       watchdog := Some(s.timerCount), timers := s.timers[s.timerCount := RunLimit], timerCount := s.timerCount + 1)
  }

  function Dispatch(s: Runtime): Runtime {
    if s.current.Some? || s.terminating then s else
      var s1 := s.(timers := Clear(s.timers, s.idle));
      if s.queue == [] then
        if s.worker.None? then s1 else
          s1.(idle := Some(s.timerCount), timers := s1.timers[s.timerCount := IdleLimit], timerCount := s.timerCount + 1)
      else
        var s2 := WithWorker(s1);
        if !s2.ready then s2 else Post(s2)
  }

  /** runPolicyScript. */
  function Submit(s: Runtime): Runtime {
    var s1 := s.(jobs := s.jobs + 1);
    if |s.queue| >= MAX_QUEUE then s1.(settled := s.settled + [Settlement(s.jobs, Refused)])
    else Dispatch(s1.(queue := s.queue + [s.jobs]))
  }

  /** A thread announces that it is ready, or replies to the job it executed. */
  function Speak(s: Runtime, w: nat): Runtime
    requires w in s.threads && !s.threads[w].Resting?
  {
    var was := s.threads[w];
    var s0 := s.(threads := s.threads[w := Resting]);
    if s.worker != Some(w) then s0 else
      var s1 := s0.(timers := Clear(s.timers, s.watchdog));
      var s2 := if was.Booting? then s1.(ready := true)
                else s1.(settled := s.settled + All(CurrentJob(s), Answered(w, was.job)), current := None);
      Dispatch(s2)
  }

  /** A thread's 'error' or 'exit' event. */
  function Die(s: Runtime, w: nat): Runtime {
    if s.worker == Some(w) then Stop(s, Failed) else s
  }

  function Fire(s: Runtime, t: nat): Runtime
    requires t in s.timers
  {
    var s1 := s.(timers := s.timers - {t});
    match s.timers[t]
    case BootLimit(w) => if s.worker == Some(w) then Stop(s1, TimedOut) else s1
    case RunLimit => Stop(s1, TimedOut)
    case IdleLimit => Stop(s1, Failed)
  }

  /** A terminate() promise settles. */
  function Terminated(s: Runtime): Runtime
    requires s.terminations > 0
  {
    Dispatch(s.(terminations := s.terminations - 1, terminating := false))
  }

  /** closeNavigationScriptRuntime: the queue fails first, then the job in progress. */
  function Shutdown(s: Runtime): Runtime {
    s.(timers := Clear(Clear(s.timers, s.watchdog), s.idle),
       settled := s.settled + All(s.queue + CurrentJob(s), Failed),
       queue := [], current := None, worker := None, ready := false)
  }

  datatype Event = Submitted | Spoke(worker: nat) | Died(worker: nat) | Fired(timer: nat) | WasTerminated | WasShutDown

  ghost predicate Enabled(s: Runtime, e: Event) {
    match e
    case Spoke(w) => w in s.threads && !s.threads[w].Resting?
    case Fired(t) => t in s.timers
    case WasTerminated => s.terminations > 0
    case Submitted => true
    case Died(_) => true
    case WasShutDown => true
  }

  function Step(s: Runtime, e: Event): Runtime
    requires Enabled(s, e)
  {
    match e
    case Submitted => Submit(s)
    case Spoke(w) => Speak(s, w)
    case Died(w) => Die(s, w)
    case Fired(t) => Fire(s, t)
    case WasTerminated => Terminated(s)
    case WasShutDown => Shutdown(s)
  }

  ghost predicate Possible(s: Runtime, run: seq<Event>)
    decreases |run|
  {
    run == [] || (Enabled(s, run[0]) && Possible(Step(s, run[0]), run[1..]))
  }

  ghost function Run(s: Runtime, run: seq<Event>): Runtime
    requires Possible(s, run)
    decreases |run|
  {
    if run == [] then s else Run(Step(s, run[0]), run[1..])
  }

  lemma AllAppend(a: seq<nat>, b: seq<nat>, outcome: Outcome)
    ensures All(a + b, outcome) == All(a, outcome) + All(b, outcome)
  {}

  // ---- Every job settles exactly once ----

  function SettledJobs(log: seq<Settlement>): seq<nat> {
    seq(|log|, i requires 0 <= i < |log| => log[i].job)
  }

  /** Where the jobs are: settled, in progress, queued. */
  function Places(s: Runtime): seq<nat> {
    SettledJobs(s.settled) + (CurrentJob(s) + s.queue)
  }

  function Upto(n: nat): (r: seq<nat>)
    ensures |r| == n && forall i :: 0 <= i < n ==> r[i] == i
  {
    seq(n, i requires 0 <= i < n => i)
  }

  ghost predicate Conserved(s: Runtime) {
    multiset(Places(s)) == multiset(Upto(s.jobs))
  }

  lemma SettledAppend(log: seq<Settlement>, jobs: seq<nat>, outcome: Outcome)
    ensures SettledJobs(log + All(jobs, outcome)) == SettledJobs(log) + jobs
  {}

  lemma StopPlaces(s: Runtime, outcome: Outcome)
    ensures Places(Stop(s, outcome)) == Places(s) && Stop(s, outcome).jobs == s.jobs
  {
    SettledAppend(s.settled, CurrentJob(s) + s.queue, outcome);
  }

  lemma DispatchPlaces(s: Runtime)
    ensures Places(Dispatch(s)) == Places(s)
    ensures Dispatch(s).jobs == s.jobs
  {
    if s.current.None? && !s.terminating && s.queue != [] {
      assert s.queue == [s.queue[0]] + s.queue[1..];
    }
  }

  lemma ShutdownPlaces(s: Runtime)
    ensures multiset(Places(Shutdown(s))) == multiset(Places(s)) && Shutdown(s).jobs == s.jobs
  {
    SettledAppend(s.settled, s.queue + CurrentJob(s), Failed);
  }

  lemma Insert(a: seq<nat>, j: nat, b: seq<nat>, n: nat)
    requires multiset(a + b) == multiset(Upto(n)) && j == n
    ensures multiset(a + [j] + b) == multiset(Upto(n + 1))
  {
    assert Upto(n + 1) == Upto(n) + [n];
    calc {
      multiset(a + [j] + b);
      multiset(a) + multiset{j} + multiset(b);
      multiset(a + b) + multiset{j};
      multiset(Upto(n)) + multiset{j};
      multiset(Upto(n) + [n]);
    }
  }

  lemma OneRefused(log: seq<Settlement>, job: nat)
    ensures SettledJobs(log + [Settlement(job, Refused)]) == SettledJobs(log) + [job]
  {}

  lemma RefuseConserves(s: Runtime)
    requires Conserved(s)
    ensures Conserved(s.(jobs := s.jobs + 1, settled := s.settled + [Settlement(s.jobs, Refused)]))
  {
    hide Upto, SettledJobs, All;
    OneRefused(s.settled, s.jobs);
    Insert(SettledJobs(s.settled), s.jobs, CurrentJob(s) + s.queue, s.jobs);
  }

  lemma EnqueueConserves(s: Runtime)
    requires Conserved(s)
    ensures Conserved(s.(jobs := s.jobs + 1, queue := s.queue + [s.jobs]))
  {
    hide Upto;
    var all := Places(s);
    assert all + [] == all;
    Insert(all, s.jobs, [], s.jobs);
    assert all + [s.jobs] + [] == SettledJobs(s.settled) + (CurrentJob(s) + (s.queue + [s.jobs]));
  }

  lemma SubmitConserves(s: Runtime)
    requires Conserved(s)
    ensures Conserved(Submit(s))
  {
    hide Dispatch, Places, Upto;
    RefuseConserves(s);
    EnqueueConserves(s);
    DispatchPlaces(s.(jobs := s.jobs + 1, queue := s.queue + [s.jobs]));
  }

  lemma SpeakConserves(s: Runtime, w: nat)
    requires Conserved(s) && w in s.threads && !s.threads[w].Resting?
    ensures Conserved(Speak(s, w))
  {
    hide Dispatch;
    var was := s.threads[w];
    var s0 := s.(threads := s.threads[w := Resting]);
    if s.worker == Some(w) {
      var s1 := s0.(timers := Clear(s.timers, s.watchdog));
      if was.Booting? {
        DispatchPlaces(s1.(ready := true));
        assert Places(s1.(ready := true)) == Places(s);
      } else {
        SettledAppend(s.settled, CurrentJob(s), Answered(w, was.job));
        var s2 := s1.(settled := s.settled + All(CurrentJob(s), Answered(w, was.job)), current := None);
        assert Places(s2) == Places(s);
        DispatchPlaces(s2);
      }
    } else {
      assert Places(s0) == Places(s);
    }
  }

  lemma SamePlaces(s: Runtime, r: Runtime)
    requires r.settled == s.settled && r.current == s.current && r.queue == s.queue
    ensures Places(r) == Places(s)
  {}

  lemma StepConserves(s: Runtime, e: Event)
    requires Conserved(s) && Enabled(s, e)
    ensures Conserved(Step(s, e))
  {
    hide Dispatch, Submit, Speak, Stop, Shutdown, Places, Upto;
    match e
    case Submitted => SubmitConserves(s);
    case Spoke(w) => SpeakConserves(s, w);
    case Died(w) => StopPlaces(s, Failed);
    case Fired(t) =>
      var s1 := s.(timers := s.timers - {t});
      SamePlaces(s, s1);
      StopPlaces(s1, TimedOut);
      StopPlaces(s1, Failed);
    case WasTerminated =>
      var s1 := s.(terminations := s.terminations - 1, terminating := false);
      SamePlaces(s, s1);
      DispatchPlaces(s1);
    case WasShutDown => ShutdownPlaces(s);
  }

  // ---- Order, watchdogs and wake-ups ----

  ghost predicate Increasing(s: seq<nat>) {
    forall i, j :: 0 <= i < j < |s| ==> s[i] < s[j]
  }

  ghost predicate Boots(s: Runtime) {
    s.worker.Some? && !s.ready
  }

  ghost predicate Armed(s: Runtime, a: Alarm) {
    s.watchdog.Some? && s.watchdog.value in s.timers && s.timers[s.watchdog.value] == a
  }

  /** The numbers handed out so far. */
  ghost predicate Numbered(s: Runtime) {
    && (forall w :: w in s.threads ==> w < s.workers)
    && (forall t :: t in s.timers ==> t < s.timerCount)
    && (s.watchdog.Some? ==> s.watchdog.value < s.timerCount)
    && (s.idle.Some? ==> s.idle.value < s.timerCount && s.idle != s.watchdog)
    // no timer outlives its variable
    && (forall t :: t in s.timers ==> Some(t) == if s.timers[t].IdleLimit? then s.idle else s.watchdog)
  }

  /** What the current worker's thread is doing. */
  function Expected(s: Runtime): Thread {
    if !s.ready then Booting else if s.current.Some? then Busy(s.current.value) else Resting
  }

  /** The variables, the timers and the threads agree. */
  ghost predicate Wired(s: Runtime) {
    && Numbered(s)
    && |s.queue| <= MAX_QUEUE
    && (s.terminating ==> s.terminations > 0)
    && (s.worker.None? ==> s.current.None? && !s.ready)
    && (s.worker.Some? ==> s.worker.value in s.threads && s.threads[s.worker.value] == Expected(s))
    && (Boots(s) ==> s.current.None?)
    // the watchdog is armed exactly while a job runs or a worker boots
    && (s.current.Some? ==> Armed(s, RunLimit))
    && (Boots(s) ==> Armed(s, BootLimit(s.worker.value)))
    && (s.current.None? && !Boots(s) ==> forall t :: t in s.timers ==> s.timers[t].IdleLimit?)
    && (forall t :: t in s.timers && s.timers[t].IdleLimit? ==> s.current.None?)
  }

  /** The idle timer runs beside queued jobs only while a thread is being terminated. */
  ghost predicate IdleAlone(s: Runtime) {
    forall t :: t in s.timers && s.timers[t].IdleLimit? ==> s.queue == [] || s.terminating
  }

  /** Nothing waits without a reason to be woken. */
  ghost predicate Awake(s: Runtime) {
    s.queue != [] ==> s.current.Some? || s.terminating || Boots(s)
  }

  /** Jobs start in order, the queue continues that order, and newer jobs come last. */
  ghost predicate InOrder(s: Runtime) {
    Increasing(s.started + s.queue) && forall i :: 0 <= i < |s.started + s.queue| ==> (s.started + s.queue)[i] < s.jobs
  }

  ghost predicate Faithful(log: seq<Settlement>) {
    forall i :: 0 <= i < |log| && log[i].outcome.Answered? ==> log[i].job == log[i].outcome.executed
  }

  ghost predicate Inv(s: Runtime) {
    Wired(s) && IdleAlone(s) && Awake(s) && InOrder(s) && Faithful(s.settled) && Conserved(s)
  }

  ghost predicate Good(s: Runtime) {
    Wired(s) && IdleAlone(s) && Awake(s) && InOrder(s) && Faithful(s.settled)
  }

  lemma StopKeeps(s: Runtime, outcome: Outcome)
    requires Numbered(s) && InOrder(s) && Faithful(s.settled) && !outcome.Answered?
    ensures Good(Stop(s, outcome))
  {
    assert s.started + [] == s.started;
    assert forall i :: 0 <= i < |s.started| ==> s.started[i] == (s.started + s.queue)[i];
  }

  /** Dispatch restores what the event before it disturbed. */
  lemma DispatchKeeps(s: Runtime)
    requires Wired(s) && InOrder(s) && Faithful(s.settled)
    ensures Good(Dispatch(s))
  {
    DispatchOrder(s);
    DispatchWires(s);
  }

  lemma DispatchOrder(s: Runtime)
    requires InOrder(s)
    ensures InOrder(Dispatch(s))
  {
    var r := Dispatch(s);
    if s.queue != [] && r.queue != s.queue {
      assert r.started + r.queue == s.started + s.queue;
    }
  }

  lemma DispatchWires(s: Runtime)
    requires Wired(s)
    ensures var r := Dispatch(s); Wired(r) && IdleAlone(r) && Awake(r) && r.settled == s.settled
  {}

  lemma EnqueueKeeps(s: Runtime)
    requires Inv(s) && |s.queue| < MAX_QUEUE
    ensures var r := s.(jobs := s.jobs + 1, queue := s.queue + [s.jobs]); Wired(r) && InOrder(r)
  {
    hide Conserved;
    assert s.started + (s.queue + [s.jobs]) == (s.started + s.queue) + [s.jobs];
  }

  lemma SubmitKeeps(s: Runtime)
    requires Inv(s)
    ensures Good(Submit(s))
  {
    hide Dispatch, Conserved;
    if |s.queue| < MAX_QUEUE {
      EnqueueKeeps(s);
      DispatchKeeps(s.(jobs := s.jobs + 1, queue := s.queue + [s.jobs]));
    }
  }

  lemma SpeakKeeps(s: Runtime, w: nat)
    requires Inv(s) && Enabled(s, Spoke(w))
    ensures Good(Speak(s, w))
  {
    hide Dispatch;
    if s.worker == Some(w) {
      var was := s.threads[w];
      var s1 := s.(threads := s.threads[w := Resting], timers := Clear(s.timers, s.watchdog));
      if was.Booting? {
        DispatchKeeps(s1.(ready := true));
      } else {
        DispatchKeeps(s1.(settled := s.settled + All(CurrentJob(s), Answered(w, was.job)), current := None));
      }
    }
  }

  lemma FireKeeps(s: Runtime, t: nat)
    requires Inv(s) && t in s.timers
    ensures Good(Fire(s, t))
  {
    hide Stop;
    var s1 := s.(timers := s.timers - {t});
    StopKeeps(s1, TimedOut);
    StopKeeps(s1, Failed);
  }

  lemma StepKeeps(s: Runtime, e: Event)
    requires Inv(s) && Enabled(s, e)
    ensures Inv(Step(s, e))
  {
    hide Dispatch, Submit, Speak, Stop, Fire, Shutdown, Conserved;
    StepConserves(s, e);
    match e
    case Submitted => SubmitKeeps(s);
    case Spoke(w) => SpeakKeeps(s, w);
    case Died(w) => StopKeeps(s, Failed);
    case Fired(t) => FireKeeps(s, t);
    case WasTerminated => DispatchKeeps(s.(terminations := s.terminations - 1, terminating := false));
    case WasShutDown => ShutdownKeeps(s);
  }

  lemma ShutdownKeeps(s: Runtime)
    requires Inv(s)
    ensures Good(Shutdown(s))
  {
    hide Conserved;
    assert s.started + [] == s.started;
    assert forall i :: 0 <= i < |s.started| ==> s.started[i] == (s.started + s.queue)[i];
  }

  lemma {:induction false} RunKeeps(s: Runtime, run: seq<Event>)
    requires Inv(s) && Possible(s, run)
    ensures Inv(Run(s, run))
    decreases |run|
  {
    if run != [] {
      StepKeeps(s, run[0]);
      RunKeeps(Step(s, run[0]), run[1..]);
    }
  }

  lemma InitialKeeps()
    ensures Inv(INITIAL)
  {
    assert Places(INITIAL) == [];
  }

  // ---- What every run guarantees ----

  lemma {:induction false} UptoOnce(n: nat, j: nat)
    ensures multiset(Upto(n))[j] == if j < n then 1 else 0
  {
    if n > 0 {
      UptoOnce(n - 1, j);
      assert Upto(n) == Upto(n - 1) + [n - 1];
    }
  }

  /** Every submitted job is in exactly one place, and no job settles twice. */
  lemma SettledExactlyOnce(run: seq<Event>, j: nat)
    requires Possible(INITIAL, run)
    ensures var s := Run(INITIAL, run);
            && (multiset(SettledJobs(s.settled))[j] + multiset(CurrentJob(s))[j] + multiset(s.queue)[j]
                == if j < s.jobs then 1 else 0)
  {
    InitialKeeps();
    RunKeeps(INITIAL, run);
    var s := Run(INITIAL, run);
    UptoOnce(s.jobs, j);
    assert multiset(Places(s)) == multiset(SettledJobs(s.settled)) + (multiset(CurrentJob(s)) + multiset(s.queue));
  }

  /** A reply settles the job that was last posted to the thread it comes from. */
  lemma RepliesAreFaithful(run: seq<Event>, i: nat)
    requires Possible(INITIAL, run)
    requires i < |Run(INITIAL, run).settled| && Run(INITIAL, run).settled[i].outcome.Answered?
    ensures Run(INITIAL, run).settled[i].outcome.executed == Run(INITIAL, run).settled[i].job
  {
    InitialKeeps();
    RunKeeps(INITIAL, run);
  }

  lemma DispatchSettlesNothing(s: Runtime)
    ensures Dispatch(s).settled == s.settled
  {}

  /**
   A message settles something exactly if it is a reply of the present worker,
   and then it settles the job in progress, which is the one it replies to.
   */
  lemma ReplySettlesJobInProgress(run: seq<Event>, w: nat)
    requires Possible(INITIAL, run) && Enabled(Run(INITIAL, run), Spoke(w))
    ensures var s := Run(INITIAL, run);
            var r := Step(s, Spoke(w));
            if s.worker == Some(w) && s.threads[w].Busy? then
              && s.current == Some(s.threads[w].job)
              && r.settled == s.settled + [Settlement(s.current.value, Answered(w, s.current.value))]
            else r.settled == s.settled
  {
    hide Dispatch, Conserved;
    InitialKeeps();
    RunKeeps(INITIAL, run);
    var s := Run(INITIAL, run);
    if s.worker == Some(w) {
      var s1 := s.(threads := s.threads[w := Resting], timers := Clear(s.timers, s.watchdog));
      if s.threads[w].Booting? {
        DispatchSettlesNothing(s1.(ready := true));
      } else {
        DispatchSettlesNothing(s1.(settled := s.settled + All(CurrentJob(s), Answered(w, s.threads[w].job)), current := None));
      }
    }
  }

  /**
   A submitted job is refused exactly if sixteen are waiting, and that is all that changes.
   Otherwise nothing is settled: it is posted at once if an idle worker is there for it,
   and else it waits behind all the others.
   */
  lemma RefusedExactly(run: seq<Event>)
    requires Possible(INITIAL, run)
    ensures var s := Run(INITIAL, run);
            var r, job := Step(s, Submitted), s.jobs;
            && (r.settled != s.settled <==> |s.queue| == 16)
            && r.jobs == s.jobs + 1
            && if |s.queue| == 16 then
                 r == s.(jobs := s.jobs + 1, settled := s.settled + [Settlement(job, Refused)])
               else if s.current.None? && !s.terminating && s.worker.Some? && s.ready then
                 r.queue == [] && r.current == Some(job) && r.started == s.started + [job]
                 && r.worker == s.worker && r.threads == s.threads[s.worker.value := Busy(job)]
               else
                 r.queue == s.queue + [job] && r.current == s.current && r.started == s.started
  {
    hide Conserved, InOrder, Faithful, IdleAlone;
    InitialKeeps();
    RunKeeps(INITIAL, run);
    var s := Run(INITIAL, run);
    assert |s.queue| <= 16;
    if s.current.None? && !s.terminating && s.worker.Some? && s.ready { assert s.queue == [] && [s.jobs][1..] == []; }
  }

  /** The log has grown by these jobs, in this order, each with the same outcome. */
  ghost predicate SettledAs(was: seq<Settlement>, now: seq<Settlement>, jobs: seq<nat>, outcome: Outcome) {
    && |now| == |was| + |jobs| && now[..|was|] == was
    && forall i :: 0 <= i < |jobs| ==> now[|was| + i].job == jobs[i] && now[|was| + i].outcome == outcome
  }

  /** The jobs that have not been settled: the one in progress first, then those that wait. */
  ghost function Unsettled(s: Runtime): seq<nat> {
    (if s.current.Some? then [s.current.value] else []) + s.queue
  }

  /** The present worker dies: every job fails, the worker is let go and its termination awaited. */
  lemma DeathFailsAll(s: Runtime, w: nat)
    ensures var r := Step(s, Died(w));
            if s.worker == Some(w) then
              && SettledAs(s.settled, r.settled, Unsettled(s), Failed)
              && r.worker == None && r.current == None && r.queue == [] && r.terminating && r.terminations == s.terminations + 1
            else r == s
  {}

  /** A watchdog that is armed settles every job as timed out; the idle alarm fails what waits for a termination. */
  lemma AlarmSettlesAll(run: seq<Event>, t: nat)
    requires Possible(INITIAL, run) && t in Run(INITIAL, run).timers
    ensures var s := Run(INITIAL, run);
            var r := Step(s, Fired(t));
            && SettledAs(s.settled, r.settled, Unsettled(s), if s.timers[t].IdleLimit? then Failed else TimedOut)
            && r.worker == None && r.current == None && r.queue == [] && r.terminating && t !in r.timers
  {
    hide Conserved, InOrder, Faithful;
    InitialKeeps();
    RunKeeps(INITIAL, run);
  }

  /** Shutting down fails every job, those that wait first, and lets the worker go. */
  lemma ShutdownFailsAll(s: Runtime)
    ensures var r := Step(s, WasShutDown);
            && SettledAs(s.settled, r.settled, s.queue + (if s.current.Some? then [s.current.value] else []), Failed)
            && r.worker == None && r.current == None && r.queue == [] && !r.ready
  {}

  /** The end of a termination settles nothing, and lets the first job that waits have a worker. */
  lemma TerminationMovesOn(run: seq<Event>)
    requires Possible(INITIAL, run) && Enabled(Run(INITIAL, run), WasTerminated)
    ensures var s := Run(INITIAL, run);
            var r := Step(s, WasTerminated);
            && r.settled == s.settled && !r.terminating && r.terminations == s.terminations - 1
            && (s.queue != [] && s.current.None? && s.worker.None? ==>
                  r.worker == Some(s.workers) && r.queue == s.queue && r.threads == s.threads[s.workers := Booting]
                  && r.watchdog == Some(s.timerCount) && s.timerCount in r.timers
                  && r.timers[s.timerCount] == BootLimit(s.workers))
  {
    hide Conserved, InOrder, Faithful;
    InitialKeeps();
    RunKeeps(INITIAL, run);
  }

  /** A worker that is ready, or has replied, takes the job that has waited longest; with none, its idle alarm is armed. */
  lemma WorkerTakesNext(run: seq<Event>, w: nat)
    requires Possible(INITIAL, run) && Enabled(Run(INITIAL, run), Spoke(w)) && Run(INITIAL, run).worker == Some(w)
    requires !Run(INITIAL, run).terminating
    ensures var s := Run(INITIAL, run);
            var r := Step(s, Spoke(w));
            if s.queue != [] then
              && r.current == Some(s.queue[0]) && r.queue == s.queue[1..] && r.threads == s.threads[w := Busy(s.queue[0])]
              && Armed(r, RunLimit)
            else r.current == None && r.idle == Some(s.timerCount) && s.timerCount in r.timers && r.timers[s.timerCount] == IdleLimit
  {
    hide Conserved, InOrder, Faithful;
    InitialKeeps();
    RunKeeps(INITIAL, run);
  }

  /** Jobs start in the order of their submission, ahead of every job still queued. */
  lemma FirstInFirstOut(run: seq<Event>)
    requires Possible(INITIAL, run)
    ensures var s := Run(INITIAL, run);
            Increasing(s.started + s.queue) && |s.queue| <= MAX_QUEUE
  {
    InitialKeeps();
    RunKeeps(INITIAL, run);
  }

  /**
   After every event, waiting jobs have something that will dispatch them; the
   watchdog guards every running job and every booting worker, and nothing else.
   */
  lemma NeverStuck(run: seq<Event>)
    requires Possible(INITIAL, run)
    ensures var s := Run(INITIAL, run);
            && (s.queue != [] ==> s.current.Some? || s.terminations > 0 || Boots(s))
            && (s.worker.Some? ==> s.worker.value in s.threads)
            && (s.current.Some? ==> Armed(s, RunLimit) && s.worker.Some? && s.threads[s.worker.value] == Busy(s.current.value))
            && (Boots(s) ==> Armed(s, BootLimit(s.worker.value)) && s.threads[s.worker.value] == Booting)
            && (s.current.None? && !Boots(s) ==> forall t :: t in s.timers ==> s.timers[t].IdleLimit?)
  {
    InitialKeeps();
    RunKeeps(INITIAL, run);
  }

  /**
   stop() does not clear the idle timer. Its alarm settles jobs exactly when jobs
   were queued behind a thread that is still being terminated.
   */
  lemma IdleAlarm(run: seq<Event>, t: nat)
    requires Possible(INITIAL, run)
    requires t in Run(INITIAL, run).timers && Run(INITIAL, run).timers[t].IdleLimit?
    ensures var s := Run(INITIAL, run);
            Fire(s, t).settled != s.settled <==> s.terminating && s.queue != []
  {
    InitialKeeps();
    RunKeeps(INITIAL, run);
    var s := Run(INITIAL, run);
    assert |All(s.queue, Failed)| == |s.queue|;
  }

  /** Such a state is reachable: an idle worker dies, and a job arrives before its termination settles. */
  lemma IdleAlarmReachable()
    ensures var run := [Submitted, Spoke(0), Spoke(0), Died(0), Submitted];
            && Possible(INITIAL, run)
            && var s := Run(INITIAL, run); s.terminating && s.queue == [1] && s.idle == Some(2) && s.timers == map[2 := IdleLimit]
  {
    var s1 := Step(INITIAL, Submitted);
    assert s1.timers == map[0 := BootLimit(0)];
    var s2 := Step(s1, Spoke(0));
    assert s2.timers == map[1 := RunLimit];
    var s3 := Step(s2, Spoke(0));
    assert s3.timers == map[2 := IdleLimit];
    var s4 := Step(s3, Died(0));
    assert s4.timers == map[2 := IdleLimit];
    var s5 := Step(s4, Submitted);
    var run := [Submitted, Spoke(0), Spoke(0), Died(0), Submitted];
    assert run[1..] == [Spoke(0), Spoke(0), Died(0), Submitted];
    assert run[1..][1..] == [Spoke(0), Died(0), Submitted];
    assert run[1..][1..][1..] == [Died(0), Submitted];
    assert run[1..][1..][1..][1..] == [Submitted];
    assert run[1..][1..][1..][1..][1..] == [];
    assert Possible(s5, []) && Run(s5, []) == s5;
    assert Possible(s4, [Submitted]) && Run(s4, [Submitted]) == s5;
    assert Possible(s3, [Died(0), Submitted]) && Run(s3, [Died(0), Submitted]) == s5;
    assert Possible(s2, [Spoke(0), Died(0), Submitted]) && Run(s2, [Spoke(0), Died(0), Submitted]) == s5;
    assert Possible(s1, [Spoke(0), Spoke(0), Died(0), Submitted]) && Run(s1, [Spoke(0), Spoke(0), Died(0), Submitted]) == s5;
  }
}

/** The module's variables and the functions that change them. */
module ScriptRuntime {
  import opened Basics
  import M = ScriptRuntimeModel

  class NavigationScriptRuntime {
    var queue: seq<nat>
    var worker: Option<nat>
    var current: Option<nat>
    var ready: bool
    var terminating: bool
    var watchdog: Option<nat>
    var idle: Option<nat>
    var timers: map<nat, M.Alarm>
    var threads: map<nat, M.Thread>
    var terminations: nat
    var jobs: nat
    var workers: nat
    var timerCount: nat
    ghost var started: seq<nat>
    var settled: seq<M.Settlement>

    ghost function Model(): M.Runtime
      reads this
    {
      M.Runtime(queue, worker, current, ready, terminating, watchdog, idle, timers, threads, terminations,
                jobs, workers, timerCount, started, settled)
    }

    constructor ()
      ensures Model() == M.INITIAL
    {
      queue, worker, current, ready, terminating := [], None, None, false, false;
      watchdog, idle, timers, threads, terminations := None, None, map[], map[], 0;
      jobs, workers, timerCount, started, settled := 0, 0, 0, [], [];
    }

    method ClearTimeout(t: Option<nat>)
      modifies this`timers
      ensures timers == M.Clear(old(timers), t)
    {
      if t.Some? { timers := timers - {t.value}; }
    }

    method SetTimeout(a: M.Alarm) returns (t: nat)
      modifies this`timers, this`timerCount
      ensures t == old(timerCount) && timerCount == t + 1 && timers == old(timers)[t := a]
    {
      t := timerCount;
      timers := timers[t := a];
      timerCount := timerCount + 1;
    }

    method Resolve(job: nat, outcome: M.Outcome)
      modifies this`settled
      ensures settled == old(settled) + [M.Settlement(job, outcome)]
    {
      settled := settled + [M.Settlement(job, outcome)];
    }

    method ResolveCurrent(outcome: M.Outcome)
      modifies this`settled, this`current
      ensures current == None
      ensures settled == old(settled) + M.All(M.Jobs(old(current)), outcome)
    {
      if current.Some? { Resolve(current.value, outcome); }
      current := None;
    }

    method ResolveQueue(outcome: M.Outcome)
      modifies this`settled, this`queue
      ensures queue == [] && settled == old(settled) + M.All(old(queue), outcome)
    {
      var items := queue;
      queue := [];
      for i := 0 to |items|
        invariant queue == [] && settled == old(settled) + M.All(items[..i], outcome)
      {
        Resolve(items[i], outcome);
        assert M.All(items[..i + 1], outcome) == M.All(items[..i], outcome) + [M.Settlement(items[i], outcome)];
      }
      assert items[..|items|] == items;
    }

    method SettleCurrentThenQueue(outcome: M.Outcome)
      modifies this`settled, this`current, this`queue
      ensures current == None && queue == []
      ensures settled == old(settled) + M.All(M.Jobs(old(current)) + old(queue), outcome)
    {
      hide M.All;
      ghost var mine := M.Jobs(current);
      ResolveCurrent(outcome);
      ResolveQueue(outcome);
      M.AllAppend(mine, old(queue), outcome);
    }

    method SettleQueueThenCurrent(outcome: M.Outcome)
      modifies this`settled, this`current, this`queue
      ensures current == None && queue == []
      ensures settled == old(settled) + M.All(old(queue) + M.Jobs(old(current)), outcome)
    {
      hide M.All;
      ghost var mine := M.Jobs(current);
      ResolveQueue(outcome);
      ResolveCurrent(outcome);
      M.AllAppend(old(queue), mine, outcome);
    }

    method LetWorkerGo()
      modifies this`worker, this`ready, this`timers
      ensures worker == None && !ready && timers == M.Clear(old(timers), watchdog)
    {
      worker, ready := None, false;
      ClearTimeout(watchdog);
    }

    method Stop(outcome: M.Outcome)
      modifies this`worker, this`ready, this`timers, this`settled, this`current, this`queue, this`terminating, this`terminations
      ensures Model() == M.Stop(old(Model()), outcome)
    {
      hide M.All, M.Clear, M.Jobs;
      LetWorkerGo();
      SettleCurrentThenQueue(outcome);
      terminating, terminations := true, terminations + 1;
    }

    method Dispatch()
      modifies this
      ensures Model() == M.Dispatch(old(Model()))
    {
      if current.Some? || terminating { return; }
      ClearTimeout(idle);
      if |queue| == 0 {
        if worker.Some? {
          var t := SetTimeout(M.IdleLimit);
          idle := Some(t);
        }
        return;
      }
      if worker.None? { CreateWorker(); }
      if ready { PostNext(); }
    }

    method CreateWorker()
      requires worker.None?
      modifies this
      ensures Model() == M.WithWorker(old(Model()))
    {
      worker := Some(workers);
      threads := threads[workers := M.Booting];
      var t := SetTimeout(M.BootLimit(workers));
      watchdog := Some(t);
      workers := workers + 1;
    }

    method PostNext()
      requires |queue| > 0 && worker.Some?
      modifies this
      ensures Model() == M.Post(old(Model()))
    {
      var job := queue[0];
      queue := queue[1..];
      current := Some(job);
      threads := threads[worker.value := M.Busy(job)];
      started := started + [job];
      var t := SetTimeout(M.RunLimit);
      watchdog := Some(t);
    }

    method RunPolicyScript() returns (job: nat)
      modifies this
      ensures Model() == M.Submit(old(Model())) && job == old(jobs)
    {
      hide M.Dispatch;
      job := jobs;
      jobs := jobs + 1;
      if |queue| >= M.MAX_QUEUE {
        Resolve(job, M.Refused);
      } else {
        queue := queue + [job];
        Dispatch();
      }
    }

    /** The message handler of one worker, created for that worker. */
    method OnMessage(created: nat)
      requires created in threads && !threads[created].Resting?
      modifies this
      ensures Model() == M.Speak(old(Model()), created)
    {
      hide M.Dispatch;
      var was := threads[created];
      threads := threads[created := M.Resting];
      if worker != Some(created) { return; }
      ClearTimeout(watchdog);
      if was.Booting? {
        ready := true;
      } else {
        ResolveCurrent(M.Answered(created, was.job));
      }
      Dispatch();
    }

    method OnDeath(created: nat)
      modifies this
      ensures Model() == M.Die(old(Model()), created)
    {
      if worker == Some(created) { Stop(M.Failed); }
    }

    method OnTimer(t: nat)
      requires t in timers
      modifies this
      ensures Model() == M.Fire(old(Model()), t)
    {
      var alarm := timers[t];
      timers := timers - {t};
      match alarm
      case BootLimit(created) => if worker == Some(created) { Stop(M.TimedOut); }
      case RunLimit => Stop(M.TimedOut);
      case IdleLimit => Stop(M.Failed);
    }

    method OnTerminated()
      requires terminations > 0
      modifies this
      ensures Model() == M.Terminated(old(Model()))
    {
      hide M.Dispatch;
      terminations, terminating := terminations - 1, false;
      Dispatch();
    }

    method Close()
      modifies this
      ensures Model() == M.Shutdown(old(Model()))
    {
      hide M.All;
      ClearTimeout(watchdog);
      ClearTimeout(idle);
      SettleQueueThenCurrent(M.Failed);
      worker, ready := None, false;
    }
  }
}

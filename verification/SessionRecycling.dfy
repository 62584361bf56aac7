/** The policy clock that recycles a Session, against the whole history of what happened in it. */
module SessionRecycling {
  import opened Basics

  /** Timeouts in seconds; None is no limit. */
  datatype Policy = Policy(
    disabled: bool,
    maxDuration: Option<nat>,
    proxyFailure: Option<nat>,
    viewerDisconnect: Option<nat>,
    noInput: Option<nat>,
    noFrameChange: Option<nat>,
    countdown: nat)

  /** What can happen in a Session; every time is in milliseconds. */
  datatype Event =
    | Viewer(connected: bool, now: int)
    | Input(now: int)
    | Frame(now: int)
    | Proxy(healthy: bool, now: int)
    | Continue(now: int)

  /** In order of precedence at equal deadlines. */
  datatype Reason = MaxDuration | ProxyFailure | ViewerDisconnected | NoInput | NoFrameChange

  datatype Recycle = Recycle(reason: Reason, deadline: int, countdownStartsAt: int, canContinue: bool)

  // ---- The conditions, from the whole history ----

  /** A Session's beginning and everything since, oldest first. */
  datatype History = History(createdAt: int, readyAt: int, log: seq<Event>)

  datatype Watched = TheViewer | TheProxy

  predicate Up(e: Event, w: Watched) {
    match w case TheViewer => e.Viewer? && e.connected case TheProxy => e.Proxy? && e.healthy
  }

  predicate Down(e: Event, w: Watched) {
    match w case TheViewer => e.Viewer? && !e.connected case TheProxy => e.Proxy? && !e.healthy
  }

  /** What follows the last time it was up; None if it never was. */
  function SinceUp(log: seq<Event>, w: Watched): Option<seq<Event>>
    decreases |log|
  {
    if log == [] then None
    else match SinceUp(log[1..], w)
      case Some(rest) => Some(rest)
      case None => if Up(log[0], w) then Some(log[1..]) else None
  }

  function FirstDown(log: seq<Event>, w: Watched): Option<int>
    decreases |log|
  {
    if log == [] then None
    else if Down(log[0], w) then Some(log[0].now)
    else FirstDown(log[1..], w)
  }

  /** The start of the streak that still lasts: the Viewer counts as gone from the moment of readiness. */
  function DownSince(h: History, w: Watched): Option<int> {
    match SinceUp(h.log, w)
    case Some(rest) => FirstDown(rest, w)
    case None => if w.TheViewer? then Some(h.readyAt) else FirstDown(h.log, w)
  }

  predicate Kind(e: Event, r: Event) {
    (e.Input? && r.Input?) || (e.Frame? && r.Frame?) || (e.Continue? && r.Continue?)
  }

  /** The last time something of this kind happened. */
  function LastTime(h: History, kind: Event): int
    decreases |h.log|
  {
    if h.log == [] then h.readyAt
    else
      var last := h.log[|h.log| - 1];
      if Kind(last, kind) then last.now else LastTime(h.(log := h.log[..|h.log| - 1]), kind)
  }

  function After(since: Option<int>, seconds: Option<nat>): Option<int> {
    if since.Some? && seconds.Some? then Some(since.value + seconds.value * 1000) else None
  }

  function DeadlineOf(p: Policy, h: History, r: Reason): Option<int> {
    match r
    case MaxDuration => After(Some(h.createdAt), p.maxDuration)
    case ProxyFailure => After(DownSince(h, TheProxy), p.proxyFailure)
    case ViewerDisconnected => After(DownSince(h, TheViewer), p.viewerDisconnect)
    case NoInput => After(Some(Max(LastTime(h, Input(0)), LastTime(h, Continue(0)))), p.noInput)
    case NoFrameChange =>
      After(Some(Max(Max(LastTime(h, Input(0)), LastTime(h, Frame(0))), LastTime(h, Continue(0)))), p.noFrameChange)
  }

  function Rank(r: Reason): nat {
    match r
    case MaxDuration => 0
    case ProxyFailure => 1
    case ViewerDisconnected => 2
    case NoInput => 3
    case NoFrameChange => 4
  }

  predicate Soft(r: Reason) {
    r.NoInput? || r.NoFrameChange?
  }

  /** r's deadline comes first, or at the same time with precedence. */
  predicate Before(p: Policy, h: History, r: Reason, other: Reason) {
    var a, b := DeadlineOf(p, h, r), DeadlineOf(p, h, other);
    a.Some? && (b.None? || a.value < b.value || (a.value == b.value && Rank(r) <= Rank(other)))
  }

  /** What next should say: the first deadline of all, if there is any and recycling is on. */
  ghost predicate IsNext(p: Policy, h: History, next: Option<Recycle>) {
    match next
    case None => p.disabled || forall r: Reason :: DeadlineOf(p, h, r).None?
    case Some(n) =>
      && !p.disabled
      && DeadlineOf(p, h, n.reason) == Some(n.deadline)
      && (forall r: Reason :: Before(p, h, n.reason, r))
      && n.countdownStartsAt == n.deadline - p.countdown * 1000
      && n.canContinue == Soft(n.reason)
  }

  lemma NextIsUnique(p: Policy, h: History, a: Option<Recycle>, b: Option<Recycle>)
    requires IsNext(p, h, a) && IsNext(p, h, b)
    ensures a == b
  {
    if a.Some? && b.Some? {
      assert Before(p, h, a.value.reason, b.value.reason) && Before(p, h, b.value.reason, a.value.reason);
    }
  }

  // ---- The clock keeps five times instead of the history ----

  datatype Clock = Clock(
    createdAt: int,
    disconnectedAt: Option<int>,
    lastInputAt: int,
    lastFrameChangedAt: int,
    continuedAt: int,
    proxyFailedAt: Option<int>)

  function Remembered(h: History): Clock {
    Clock(h.createdAt, DownSince(h, TheViewer), LastTime(h, Input(0)), LastTime(h, Frame(0)), LastTime(h, Continue(0)),
          DownSince(h, TheProxy))
  }

  function Happen(h: History, e: Event): History {
    h.(log := h.log + [e])
  }

  lemma {:induction false} SinceUpThen(log: seq<Event>, e: Event, w: Watched)
    ensures SinceUp(log + [e], w) ==
            if Up(e, w) then Some([]) else match SinceUp(log, w) case Some(rest) => Some(rest + [e]) case None => None
    decreases |log|
  {
    if log == [] {
      assert [e][1..] == [];
    } else {
      assert (log + [e])[1..] == log[1..] + [e];
      SinceUpThen(log[1..], e, w);
    }
  }

  lemma {:induction false} FirstDownThen(log: seq<Event>, e: Event, w: Watched)
    ensures FirstDown(log + [e], w) ==
            if FirstDown(log, w).Some? then FirstDown(log, w) else if Down(e, w) then Some(e.now) else None
    decreases |log|
  {
    if log == [] {
      assert [e][1..] == [];
    } else {
      assert (log + [e])[1..] == log[1..] + [e];
      FirstDownThen(log[1..], e, w);
    }
  }

  function Streak(since: Option<int>, up: bool, now: int): Option<int> {
    if up then None else if since.Some? then since else Some(now)
  }

  /** A streak starts once, lasts through further failures, and ends when things are up again. */
  lemma DownSinceThen(h: History, e: Event, w: Watched)
    ensures DownSince(Happen(h, e), w) ==
            if Up(e, w) || Down(e, w) then Streak(DownSince(h, w), Up(e, w), e.now) else DownSince(h, w)
  {
    SinceUpThen(h.log, e, w);
    FirstDownThen(h.log, e, w);
    if SinceUp(h.log, w).Some? { FirstDownThen(SinceUp(h.log, w).value, e, w); }
  }

  lemma LastTimeThen(h: History, e: Event, kind: Event)
    ensures LastTime(Happen(h, e), kind) == if Kind(e, kind) then e.now else LastTime(h, kind)
  {
    assert Happen(h, e).log[..|h.log|] == h.log;
  }

  function Advance(c: Clock, e: Event): Clock {
    match e
    case Viewer(connected, now) => c.(disconnectedAt := Streak(c.disconnectedAt, connected, now))
    case Input(now) => c.(lastInputAt := now)
    case Frame(now) => c.(lastFrameChangedAt := now)
    case Proxy(healthy, now) => c.(proxyFailedAt := Streak(c.proxyFailedAt, healthy, now))
    case Continue(now) => c.(continuedAt := now)
  }

  lemma RememberedThen(h: History, e: Event)
    ensures Remembered(Happen(h, e)) == Advance(Remembered(h), e)
  {
    DownSinceThen(h, e, TheViewer);
    DownSinceThen(h, e, TheProxy);
    LastTimeThen(h, e, Input(0));
    LastTimeThen(h, e, Frame(0));
    LastTimeThen(h, e, Continue(0));
  }

  // ---- Continuing ----

  function NextAt(p: Policy, h: History, next: Option<Recycle>): Option<int> {
    if next.Some? then Some(next.value.deadline) else None
  }

  predicate NotEarlier(before: Option<int>, after: Option<int>) {
    after.Some? ==> before.Some? && before.value <= after.value
  }

  /** Nothing has happened later than now. */
  ghost predicate UpTo(h: History, now: int) {
    h.readyAt <= now && forall i :: 0 <= i < |h.log| ==> h.log[i].now <= now
  }

  lemma {:induction false} LastTimeUpTo(h: History, kind: Event, now: int)
    requires UpTo(h, now)
    ensures LastTime(h, kind) <= now
    decreases |h.log|
  {
    if h.log != [] && !Kind(h.log[|h.log| - 1], kind) {
      LastTimeUpTo(h.(log := h.log[..|h.log| - 1]), kind, now);
    }
  }

  /** Input, a new frame, a continuation, a Viewer or a proxy that comes back: signs of life. */
  predicate Lively(e: Event) {
    (e.Viewer? ==> e.connected) && (e.Proxy? ==> e.healthy)
  }

  lemma LivelyPostpones(p: Policy, h: History, e: Event, r: Reason)
    requires UpTo(h, e.now) && Lively(e)
    ensures NotEarlier(DeadlineOf(p, h, r), DeadlineOf(p, Happen(h, e), r)) || DeadlineOf(p, h, r).None?
    ensures DeadlineOf(p, Happen(h, e), r).Some? ==> DeadlineOf(p, h, r).Some?
    ensures e.Continue? && !Soft(r) ==> DeadlineOf(p, Happen(h, e), r) == DeadlineOf(p, h, r)
  {
    RememberedThen(h, e);
    LastTimeUpTo(h, Input(0), e.now);
    LastTimeUpTo(h, Frame(0), e.now);
    LastTimeUpTo(h, Continue(0), e.now);
  }

  /** While time goes forward, no sign of life brings recycling forward. */
  lemma LivelyNeverBringsForward(p: Policy, h: History, e: Event, before: Option<Recycle>, after: Option<Recycle>)
    requires UpTo(h, e.now) && Lively(e)
    requires IsNext(p, h, before) && IsNext(p, Happen(h, e), after)
    ensures NotEarlier(NextAt(p, h, before), NextAt(p, Happen(h, e), after))
  {
    if after.Some? {
      LivelyPostpones(p, h, e, after.value.reason);
      assert before.Some?;
      assert Before(p, h, before.value.reason, after.value.reason);
    }
  }

  /** A continuation leaves every hard limit where it was, and recycling no later than any of them. */
  lemma ContinueRespectsHardLimits(p: Policy, h: History, now: int, hard: Reason, after: Option<Recycle>)
    requires UpTo(h, now) && !Soft(hard) && !p.disabled && DeadlineOf(p, h, hard).Some?
    requires IsNext(p, Happen(h, Continue(now)), after)
    ensures after.Some? && after.value.deadline <= DeadlineOf(p, h, hard).value
  {
    LivelyPostpones(p, h, Continue(now), hard);
    if after.Some? {
      assert Before(p, Happen(h, Continue(now)), after.value.reason, hard);
    }
  }

  // ---- The deadlines, written out ----

  /** Some seconds after a time in milliseconds; none without a limit. */
  function Later(since: int, seconds: Option<nat>): Option<int> {
    match seconds case None => None case Some(n) => Some(since + 1000 * n)
  }

  /** At first: the duration counts from creation, the rest from readiness, and the proxy has not failed. */
  lemma FirstDeadlines(p: Policy, createdAt: int, readyAt: int)
    ensures var h := History(createdAt, readyAt, []);
            && DeadlineOf(p, h, MaxDuration) == Later(createdAt, p.maxDuration)
            && DeadlineOf(p, h, ProxyFailure) == None
            && DeadlineOf(p, h, ViewerDisconnected) == Later(readyAt, p.viewerDisconnect)
            && DeadlineOf(p, h, NoInput) == Later(readyAt, p.noInput)
            && DeadlineOf(p, h, NoFrameChange) == Later(readyAt, p.noFrameChange)
  {}

  lemma ThenFits(h: History, e: Event, now: int)
    requires UpTo(h, now)
    ensures LastTime(h, Input(0)) <= now && LastTime(h, Frame(0)) <= now && LastTime(h, Continue(0)) <= now
    ensures Remembered(Happen(h, e)) == Advance(Remembered(h), e)
  {
    LastTimeUpTo(h, Input(0), now);
    LastTimeUpTo(h, Frame(0), now);
    LastTimeUpTo(h, Continue(0), now);
    RememberedThen(h, e);
  }

  /** Input puts off both idle limits, a changed frame that of frames, and a continuation both; the hard limits stay. */
  lemma IdleDeadlines(p: Policy, h: History, now: int)
    requires UpTo(h, now)
    ensures var t := Happen(h, Input(now));
            && DeadlineOf(p, t, NoInput) == Later(now, p.noInput) && DeadlineOf(p, t, NoFrameChange) == Later(now, p.noFrameChange)
            && forall r: Reason :: r.MaxDuration? || r.ProxyFailure? || r.ViewerDisconnected? ==> DeadlineOf(p, t, r) == DeadlineOf(p, h, r)
    ensures var t := Happen(h, Frame(now));
            && DeadlineOf(p, t, NoFrameChange) == Later(now, p.noFrameChange)
            && forall r: Reason :: !r.NoFrameChange? ==> DeadlineOf(p, t, r) == DeadlineOf(p, h, r)
    ensures var t := Happen(h, Continue(now));
            && DeadlineOf(p, t, NoInput) == Later(now, p.noInput) && DeadlineOf(p, t, NoFrameChange) == Later(now, p.noFrameChange)
            && forall r: Reason :: r.MaxDuration? || r.ProxyFailure? || r.ViewerDisconnected? ==> DeadlineOf(p, t, r) == DeadlineOf(p, h, r)
  {
    ThenFits(h, Input(now), now);
    ThenFits(h, Frame(now), now);
    ThenFits(h, Continue(now), now);
    hide LastTime, DownSince;
  }

  /**
   A Viewer that goes starts its limit, once, and one that comes clears it; the same for a
   proxy that fails and recovers. No other limit moves.
   */
  lemma StreakDeadlines(p: Policy, h: History, now: int)
    ensures var t := Happen(h, Viewer(true, now));
            DeadlineOf(p, t, ViewerDisconnected) == None
            && forall r: Reason :: !r.ViewerDisconnected? ==> DeadlineOf(p, t, r) == DeadlineOf(p, h, r)
    ensures var t := Happen(h, Viewer(false, now));
            DeadlineOf(p, t, ViewerDisconnected) ==
              (if DeadlineOf(p, h, ViewerDisconnected).Some? then DeadlineOf(p, h, ViewerDisconnected) else Later(now, p.viewerDisconnect))
            && forall r: Reason :: !r.ViewerDisconnected? ==> DeadlineOf(p, t, r) == DeadlineOf(p, h, r)
    ensures var t := Happen(h, Proxy(true, now));
            DeadlineOf(p, t, ProxyFailure) == None
            && forall r: Reason :: !r.ProxyFailure? ==> DeadlineOf(p, t, r) == DeadlineOf(p, h, r)
    ensures var t := Happen(h, Proxy(false, now));
            DeadlineOf(p, t, ProxyFailure) ==
              (if DeadlineOf(p, h, ProxyFailure).Some? then DeadlineOf(p, h, ProxyFailure) else Later(now, p.proxyFailure))
            && forall r: Reason :: !r.ProxyFailure? ==> DeadlineOf(p, t, r) == DeadlineOf(p, h, r)
  {
    RememberedThen(h, Viewer(true, now));
    RememberedThen(h, Viewer(false, now));
    RememberedThen(h, Proxy(true, now));
    RememberedThen(h, Proxy(false, now));
    hide LastTime, DownSince;
  }

  /** The deadline is there, and the one given is no later. */
  predicate Reached(at: int, deadline: Option<int>) {
    deadline.Some? && deadline.value <= at
  }

  /**
   What next says: nothing if recycling is off or no deadline is set. Otherwise the earliest
   deadline; of equal ones the maximal duration first, then proxy, Viewer, input and frames.
   Only the idle limits can be continued, and the countdown leads up to the deadline.
   */
  lemma NextExactly(p: Policy, h: History, next: Option<Recycle>)
    requires IsNext(p, h, next)
    ensures next == None <==> p.disabled || forall r: Reason :: DeadlineOf(p, h, r) == None
    ensures next.Some? ==>
              var n := next.value;
              && DeadlineOf(p, h, n.reason) == Some(n.deadline)
              && (forall r: Reason :: DeadlineOf(p, h, r).Some? ==> n.deadline <= DeadlineOf(p, h, r).value)
              && (Reached(n.deadline, DeadlineOf(p, h, MaxDuration)) ==> n.reason == MaxDuration)
              && (Reached(n.deadline, DeadlineOf(p, h, ProxyFailure)) ==> n.reason in {MaxDuration, ProxyFailure})
              && (Reached(n.deadline, DeadlineOf(p, h, ViewerDisconnected)) ==> n.reason in {MaxDuration, ProxyFailure, ViewerDisconnected})
              && (Reached(n.deadline, DeadlineOf(p, h, NoInput)) ==> n.reason != NoFrameChange)
              && n.countdownStartsAt == n.deadline - 1000 * p.countdown
              && (n.canContinue <==> n.reason == NoInput || n.reason == NoFrameChange)
  {
    hide DeadlineOf;
    if next.Some? {
      var n := next.value;
      assert Before(p, h, n.reason, MaxDuration) && Before(p, h, n.reason, ProxyFailure) && Before(p, h, n.reason, ViewerDisconnected)
             && Before(p, h, n.reason, NoInput) && Before(p, h, n.reason, NoFrameChange);
      assert DeadlineOf(p, h, n.reason) != None;
      forall r: Reason | DeadlineOf(p, h, r).Some?
        ensures n.deadline <= DeadlineOf(p, h, r).value
      {
        assert Before(p, h, n.reason, r);
      }
    }
  }

  // ---- The clock itself, and continueSession's guard ----

  /** One limit joins the list, if it is set and its condition holds. */
  function Added(deadlines: seq<(Reason, int)>, r: Reason, since: Option<int>, seconds: Option<nat>): seq<(Reason, int)> {
    if since.Some? && seconds.Some? then deadlines + [(r, since.value + seconds.value * 1000)] else deadlines
  }

  /** The deadlines that apply, hard limits first. */
  function Deadlines(p: Policy, c: Clock): seq<(Reason, int)> {
    var d0 := Added([], MaxDuration, Some(c.createdAt), p.maxDuration);
    var d1 := Added(d0, ProxyFailure, c.proxyFailedAt, p.proxyFailure);
    var d2 := Added(d1, ViewerDisconnected, c.disconnectedAt, p.viewerDisconnect);
    var d3 := Added(d2, NoInput, Some(Max(c.lastInputAt, c.continuedAt)), p.noInput);
    Added(d3, NoFrameChange, Some(Max(Max(c.lastInputAt, c.lastFrameChangedAt), c.continuedAt)), p.noFrameChange)
  }

  /** Every deadline in the list is one of a condition below a rank, in order of precedence. */
  ghost predicate InOrder(p: Policy, h: History, deadlines: seq<(Reason, int)>, upTo: nat) {
    && (forall i :: 0 <= i < |deadlines| ==>
          Rank(deadlines[i].0) < upTo && DeadlineOf(p, h, deadlines[i].0) == Some(deadlines[i].1))
    && (forall i, j :: 0 <= i < j < |deadlines| ==> Rank(deadlines[i].0) < Rank(deadlines[j].0))
  }

  ghost predicate Listed(deadlines: seq<(Reason, int)>, r: Reason, at: Option<int>) {
    at.Some? ==> (r, at.value) in deadlines
  }

  ghost predicate AllListed(p: Policy, h: History, deadlines: seq<(Reason, int)>, upTo: nat) {
    forall r: Reason :: Rank(r) < upTo ==> Listed(deadlines, r, DeadlineOf(p, h, r))
  }

  ghost predicate Lists(p: Policy, h: History, deadlines: seq<(Reason, int)>, upTo: nat) {
    InOrder(p, h, deadlines, upTo) && AllListed(p, h, deadlines, upTo)
  }

  lemma AddedInOrder(p: Policy, h: History, deadlines: seq<(Reason, int)>, r: Reason, since: Option<int>, seconds: Option<nat>)
    requires InOrder(p, h, deadlines, Rank(r)) && DeadlineOf(p, h, r) == After(since, seconds)
    ensures InOrder(p, h, Added(deadlines, r, since, seconds), Rank(r) + 1)
  {
    hide DeadlineOf;
  }

  lemma AddedAll(p: Policy, h: History, deadlines: seq<(Reason, int)>, r: Reason, since: Option<int>, seconds: Option<nat>)
    requires AllListed(p, h, deadlines, Rank(r)) && DeadlineOf(p, h, r) == After(since, seconds)
    ensures AllListed(p, h, Added(deadlines, r, since, seconds), Rank(r) + 1)
  {
    hide DeadlineOf;
    var next := Added(deadlines, r, since, seconds);
    forall q: Reason | Rank(q) < Rank(r) + 1
      ensures Listed(next, q, DeadlineOf(p, h, q))
    {
      if Rank(q) < Rank(r) {
        assert Listed(deadlines, q, DeadlineOf(p, h, q));
      } else {
        assert q == r;
      }
    }
  }

  lemma AddedLists(p: Policy, h: History, deadlines: seq<(Reason, int)>, r: Reason, since: Option<int>, seconds: Option<nat>)
    requires Lists(p, h, deadlines, Rank(r)) && DeadlineOf(p, h, r) == After(since, seconds)
    ensures Lists(p, h, Added(deadlines, r, since, seconds), Rank(r) + 1)
  {
    hide DeadlineOf, InOrder, AllListed, Added;
    AddedInOrder(p, h, deadlines, r, since, seconds);
    AddedAll(p, h, deadlines, r, since, seconds);
  }

  lemma DeadlinesListed(p: Policy, h: History)
    ensures Lists(p, h, Deadlines(p, Remembered(h)), 5)
  {
    hide Lists, Added, LastTime, DownSince;
    var c := Remembered(h);
    var d0 := Added([], MaxDuration, Some(c.createdAt), p.maxDuration);
    var d1 := Added(d0, ProxyFailure, c.proxyFailedAt, p.proxyFailure);
    var d2 := Added(d1, ViewerDisconnected, c.disconnectedAt, p.viewerDisconnect);
    var d3 := Added(d2, NoInput, Some(Max(c.lastInputAt, c.continuedAt)), p.noInput);
    NothingListed(p, h);
    AddedLists(p, h, [], MaxDuration, Some(c.createdAt), p.maxDuration);
    AddedLists(p, h, d0, ProxyFailure, c.proxyFailedAt, p.proxyFailure);
    AddedLists(p, h, d1, ViewerDisconnected, c.disconnectedAt, p.viewerDisconnect);
    AddedLists(p, h, d2, NoInput, Some(Max(c.lastInputAt, c.continuedAt)), p.noInput);
    AddedLists(p, h, d3, NoFrameChange, Some(Max(Max(c.lastInputAt, c.lastFrameChangedAt), c.continuedAt)), p.noFrameChange);
  }

  lemma NothingListed(p: Policy, h: History)
    ensures Lists(p, h, [], 0)
  {}

  lemma NoDeadline(p: Policy, h: History)
    requires Lists(p, h, [], 5)
    ensures forall r: Reason :: DeadlineOf(p, h, r).None?
  {
    forall r: Reason
      ensures DeadlineOf(p, h, r).None?
    {
      assert Rank(r) < 5 && Listed([], r, DeadlineOf(p, h, r));
    }
  }

  lemma ListedDeadline(p: Policy, h: History, deadlines: seq<(Reason, int)>, at: nat)
    requires Lists(p, h, deadlines, 5) && at < |deadlines|
    ensures DeadlineOf(p, h, deadlines[at].0) == Some(deadlines[at].1)
  {}

  lemma FirstOfAll(p: Policy, h: History, deadlines: seq<(Reason, int)>, at: nat)
    requires Lists(p, h, deadlines, 5) && at < |deadlines|
    requires forall i :: 0 <= i < |deadlines| ==> deadlines[at].1 <= deadlines[i].1
    requires forall i :: 0 <= i < at ==> deadlines[at].1 < deadlines[i].1
    ensures forall r: Reason :: Before(p, h, deadlines[at].0, r)
  {
    forall r: Reason
      ensures Before(p, h, deadlines[at].0, r)
    {
      if DeadlineOf(p, h, r).Some? {
        assert Listed(deadlines, r, DeadlineOf(p, h, r));
        var i :| 0 <= i < |deadlines| && deadlines[i] == (r, DeadlineOf(p, h, r).value);
      }
    }
  }

  class SessionClock {
    const policy: Policy
    const createdAt: int
    var disconnectedAt: Option<int>
    var lastInputAt: int
    var lastFrameChangedAt: int
    var continuedAt: int
    var proxyFailedAt: Option<int>
    ghost var history: History

    function Times(): Clock
      reads this
    {
      Clock(createdAt, disconnectedAt, lastInputAt, lastFrameChangedAt, continuedAt, proxyFailedAt)
    }

    /** The five times are what the whole history amounts to. */
    ghost predicate Valid()
      reads this
    {
      Times() == Remembered(history)
    }

    constructor (policy: Policy, createdAt: int, readyAt: int)
      ensures Valid() && this.policy == policy && history == History(createdAt, readyAt, [])
    {
      this.policy, this.createdAt := policy, createdAt;
      disconnectedAt, proxyFailedAt := Some(readyAt), None;
      lastInputAt, lastFrameChangedAt, continuedAt := readyAt, readyAt, readyAt;
      history := History(createdAt, readyAt, []);
    }

    method ViewerConnected(connected: bool, now: int)
      requires Valid()
      modifies this
      ensures Valid() && history == Happen(old(history), Viewer(connected, now))
    {
      RememberedThen(history, Viewer(connected, now));
      if connected { disconnectedAt := None; } else if disconnectedAt.None? { disconnectedAt := Some(now); }
      history := Happen(history, Viewer(connected, now));
    }

    method InputReceived(now: int)
      requires Valid()
      modifies this
      ensures Valid() && history == Happen(old(history), Input(now))
    {
      RememberedThen(history, Input(now));
      lastInputAt := now;
      history := Happen(history, Input(now));
    }

    method FrameChanged(now: int)
      requires Valid()
      modifies this
      ensures Valid() && history == Happen(old(history), Frame(now))
    {
      RememberedThen(history, Frame(now));
      lastFrameChangedAt := now;
      history := Happen(history, Frame(now));
    }

    method ProxyHealthy(healthy: bool, now: int)
      requires Valid()
      modifies this
      ensures Valid() && history == Happen(old(history), Proxy(healthy, now))
    {
      RememberedThen(history, Proxy(healthy, now));
      if healthy { proxyFailedAt := None; } else if proxyFailedAt.None? { proxyFailedAt := Some(now); }
      history := Happen(history, Proxy(healthy, now));
    }

    /** The first of the least: what a stable sort by deadline puts in front. */
    method Earliest(deadlines: seq<(Reason, int)>) returns (at: nat)
      requires deadlines != []
      ensures at < |deadlines|
      ensures forall i :: 0 <= i < |deadlines| ==> deadlines[at].1 <= deadlines[i].1
      ensures forall i :: 0 <= i < at ==> deadlines[at].1 < deadlines[i].1
    {
      at := 0;
      for i := 1 to |deadlines|
        invariant at < i
        invariant forall k :: 0 <= k < i ==> deadlines[at].1 <= deadlines[k].1
        invariant forall k :: 0 <= k < at ==> deadlines[at].1 < deadlines[k].1
      {
        if deadlines[i].1 < deadlines[at].1 { at := i; }
      }
    }

    method Next() returns (next: Option<Recycle>)
      requires Valid()
      ensures IsNext(policy, history, next)
    {
      if policy.disabled { return None; }
      hide Lists, Deadlines, Before, DeadlineOf;
      var deadlines := Deadlines(policy, Times());
      DeadlinesListed(policy, history);
      if deadlines == [] {
        NoDeadline(policy, history);
        return None;
      }
      var at := Earliest(deadlines);
      FirstOfAll(policy, history, deadlines, at);
      ListedDeadline(policy, history, deadlines, at);
      var first := deadlines[at];
      next := Some(Recycle(first.0, first.1, first.1 - policy.countdown * 1000, Soft(first.0)));
    }

    /** continueSession: only while a soft limit is next, and not yet reached. */
    method ContinueSession(now: int) returns (ok: bool)
      requires Valid()
      modifies this
      ensures Valid()
      ensures ok ==> history == Happen(old(history), Continue(now))
      ensures !ok ==> history == old(history)
      ensures forall n :: IsNext(policy, old(history), n) ==> ok == (n.Some? && n.value.canContinue && n.value.deadline > now)
    {
      hide IsNext, Remembered;
      var next := Next();
      ok := next.Some? && next.value.canContinue && next.value.deadline > now;
      forall n | IsNext(policy, history, n)
        ensures n == next
      {
        NextIsUnique(policy, history, n, next);
      }
      if ok {
        RememberedThen(history, Continue(now));
        continuedAt := now;
        history := Happen(history, Continue(now));
      }
    }
  }
}

/**
 Starting and stopping a Profile's runtime. Commands for one Profile run one after
 another, and a fence keeps every generation that was told to stop from starting again.
 */
module ProfileCommands {
  import opened Basics

  datatype Action = Start | Stop | Delete

  /** `requireData` is whether the command says if the Profile's data must exist already. */
  datatype Command = Command(id: string, action: Action, generation: nat, requireData: bool)

  datatype RuntimeState = Running | Error | Other

  datatype Fact = Fact(generation: nat, runtimeId: string, state: RuntimeState)

  datatype Phase =
    | Waiting
    | Reading     // waits for the runtime's facts
    | Replacing   // waits for a failed runtime to be stopped
    | Launching   // the start has been passed to the runtime
    | Stopping    // the stop or the deletion has been passed to the runtime
    | Finished
    | Cleared     // its promise has settled

  /** `after` is the command it was chained behind. */
  datatype Entry = Entry(profile: string, command: Command, after: Option<nat>, phase: Phase)

  /** `serialized` is false only to show what the chain of promises is for. */
  datatype State = State(serialized: bool, entries: seq<Entry>, tails: map<string, nat>, fences: map<string, nat>)

  datatype Event =
    | Accept(profile: string, command: Command)
    | Begin(k: nat)
    | Read(k: nat, current: Option<Fact>)
    | Replaced(k: nat, ok: bool)
    | Returned(k: nat)
    | Clear(k: nat)

  function Fence(fences: map<string, nat>, profile: string): nat {
    if profile in fences then fences[profile] else 0
  }

  datatype Decision = Incompatible | Stopped | Mismatch | RaiseFence | Replace | Launch

  /** What execute decides once it knows the facts. */
  function Decide(c: Command, current: Option<Fact>, fence: nat): Decision {
    if !c.action.Start? then
      if current.Some? && current.value.generation != c.generation then Mismatch
      else if c.generation < fence then Mismatch
      else RaiseFence
    else if !c.requireData then Incompatible
    else if c.generation <= fence then Stopped
    else if current.None? then Launch
    else if current.value.state.Error? && current.value.generation < c.generation then Replace
    else if current.value.generation != c.generation || current.value.runtimeId != c.id then Mismatch
    else Launch
  }

  function To(s: State, k: nat, phase: Phase): State
    requires k < |s.entries|
  {
    s.(entries := s.entries[k := s.entries[k].(phase := phase)])
  }

  function ReadFacts(s: State, k: nat, current: Option<Fact>): State
    requires k < |s.entries|
  {
    var e := s.entries[k];
    match Decide(e.command, current, Fence(s.fences, e.profile))
    case RaiseFence => To(s, k, Stopping).(fences := s.fences[e.profile := e.command.generation])
    case Replace => To(s, k, Replacing)
    case Launch => To(s, k, Launching)
    case _ => To(s, k, Finished)
  }

  predicate MayBegin(s: State, k: nat) {
    && k < |s.entries| && s.entries[k].phase.Waiting?
    && (s.serialized && s.entries[k].after.Some? ==>
          s.entries[k].after.value < |s.entries| && s.entries[s.entries[k].after.value].phase.Cleared?)
  }

  function AcceptCommand(s: State, profile: string, c: Command): State {
    var after := if profile in s.tails then Some(s.tails[profile]) else None;
    s.(entries := s.entries + [Entry(profile, c, after, Waiting)], tails := s.tails[profile := |s.entries|])
  }

  /** The last of a chain takes its tail with it. */
  function ClearCommand(s: State, k: nat): State
    requires k < |s.entries|
  {
    var profile := s.entries[k].profile;
    To(s, k, Cleared).(tails := if profile in s.tails && s.tails[profile] == k then s.tails - {profile} else s.tails)
  }

  function Step(s: State, e: Event): State {
    match e
    case Accept(profile, c) => AcceptCommand(s, profile, c)
    case Begin(k) => if MayBegin(s, k) then To(s, k, Reading) else s
    case Read(k, current) => if k < |s.entries| && s.entries[k].phase.Reading? then ReadFacts(s, k, current) else s
    case Replaced(k, ok) =>
      if k < |s.entries| && s.entries[k].phase.Replacing? then To(s, k, if ok then Launching else Finished) else s
    case Returned(k) =>
      if k < |s.entries| && (s.entries[k].phase.Launching? || s.entries[k].phase.Stopping?) then To(s, k, Finished) else s
    case Clear(k) => if k < |s.entries| && s.entries[k].phase.Finished? then ClearCommand(s, k) else s
  }

  function Run(s: State, run: seq<Event>): State
    decreases |run|
  {
    if run == [] then s else Run(Step(s, run[0]), run[1..])
  }

  const EMPTY := State(true, [], map[], map[])

  // ---- One at a time ----

  predicate Began(p: Phase) {
    !p.Waiting?
  }

  predicate Executing(p: Phase) {
    !p.Waiting? && !p.Cleared?
  }

  /** Whoever has begun found every earlier command of its Profile settled. */
  ghost predicate InTurn(entries: seq<Entry>) {
    forall i, j :: 0 <= i < j < |entries| && entries[i].profile == entries[j].profile && Began(entries[j].phase)
      ==> entries[i].phase.Cleared?
  }

  /** A command is chained behind the one before it; with none, all before it have settled. */
  ghost predicate Chained(entries: seq<Entry>) {
    forall i, j :: 0 <= i < j < |entries| && entries[i].profile == entries[j].profile ==>
      match entries[j].after
      case None => entries[i].phase.Cleared?
      case Some(a) => i <= a
  }

  ghost predicate ChainsFit(entries: seq<Entry>) {
    forall j :: 0 <= j < |entries| && entries[j].after.Some? ==>
      entries[j].after.value < j && entries[entries[j].after.value].profile == entries[j].profile
  }

  /** The tail of a Profile is its last command; without one, all its commands have settled. */
  ghost predicate TailsFit(entries: seq<Entry>, tails: map<string, nat>) {
    && (forall p :: p in tails ==> tails[p] < |entries| && entries[tails[p]].profile == p)
    && (forall i :: 0 <= i < |entries| ==>
          if entries[i].profile in tails then i <= tails[entries[i].profile] else entries[i].phase.Cleared?)
  }

  /** A start that waits for its predecessor to be stopped is still above the fence. */
  ghost predicate AboveFence(entries: seq<Entry>, fences: map<string, nat>) {
    forall k :: 0 <= k < |entries| && entries[k].phase.Replacing? ==>
      entries[k].command.action.Start? && entries[k].command.generation > Fence(fences, entries[k].profile)
  }

  ghost predicate Inv(s: State) {
    && s.serialized
    && InTurn(s.entries) && Chained(s.entries) && ChainsFit(s.entries) && TailsFit(s.entries, s.tails)
    && AboveFence(s.entries, s.fences)
  }

  /** Commands of one Profile never overlap. */
  lemma OneAtATime(s: State, i: nat, j: nat)
    requires Inv(s) && i < |s.entries| && j < |s.entries| && s.entries[i].profile == s.entries[j].profile
    requires Executing(s.entries[i].phase) && Executing(s.entries[j].phase)
    ensures i == j
  {}

  /** An entry moves on among its phases; it neither becomes waiting again nor comes back from settled. */
  lemma MoveKeeps(s: State, k: nat, phase: Phase)
    requires InTurn(s.entries) && Chained(s.entries) && ChainsFit(s.entries) && TailsFit(s.entries, s.tails)
    requires k < |s.entries| && Executing(s.entries[k].phase) && !phase.Waiting?
    ensures var t := To(s, k, phase).entries; InTurn(t) && Chained(t) && ChainsFit(t) && TailsFit(t, s.tails)
  {
    MoveFrame(s, k, phase);
    hide Chained, ChainsFit, TailsFit;
    var after := To(s, k, phase).entries;
    forall i, j | 0 <= i < j < |after| && after[i].profile == after[j].profile && Began(after[j].phase)
      ensures after[i].phase.Cleared?
    {
      assert s.entries[i].phase.Cleared?;
    }
  }

  lemma MoveFrame(s: State, k: nat, phase: Phase)
    requires k < |s.entries| && !s.entries[k].phase.Cleared?
    ensures var t := To(s, k, phase).entries;
            && (Chained(s.entries) ==> Chained(t))
            && (ChainsFit(s.entries) ==> ChainsFit(t))
            && (TailsFit(s.entries, s.tails) ==> TailsFit(t, s.tails))
            && (AboveFence(s.entries, s.fences) && !phase.Replacing? ==> AboveFence(t, s.fences))
  {}

  lemma EarlierHaveSettled(s: State, k: nat, i: nat)
    requires Inv(s) && MayBegin(s, k) && i < k && s.entries[i].profile == s.entries[k].profile
    ensures s.entries[i].phase.Cleared?
  {
    hide TailsFit, AboveFence;
    if s.entries[k].after.Some? {
      var a := s.entries[k].after.value;
      assert i <= a < k && Began(s.entries[a].phase);
    }
  }

  lemma BeginKeeps(s: State, k: nat)
    requires Inv(s) && MayBegin(s, k)
    ensures Inv(To(s, k, Reading))
  {
    MoveFrame(s, k, Reading);
    hide TailsFit, AboveFence, Chained, ChainsFit;
    var after := To(s, k, Reading).entries;
    forall i, j | 0 <= i < j < |after| && after[i].profile == after[j].profile && Began(after[j].phase)
      ensures after[i].phase.Cleared?
    {
      if j == k { EarlierHaveSettled(s, k, i); } else { assert s.entries[i].phase.Cleared?; }
    }
  }

  lemma AcceptKeeps(s: State, profile: string, c: Command)
    requires Inv(s)
    ensures Inv(AcceptCommand(s, profile, c))
  {
    var t := AcceptCommand(s, profile, c);
    assert t.entries[..|s.entries|] == s.entries;
    AcceptInTurn(s, t.entries[|s.entries|]);
    AcceptChained(s, profile, c);
    NotReplacing(s.entries, s.fences, t.entries[|s.entries|]);
    hide AboveFence, InTurn, Chained, ChainsFit;
  }

  lemma AcceptInTurn(s: State, last: Entry)
    requires InTurn(s.entries) && last.phase.Waiting?
    ensures InTurn(s.entries + [last])
  {}

  lemma AcceptChained(s: State, profile: string, c: Command)
    requires Chained(s.entries) && ChainsFit(s.entries) && TailsFit(s.entries, s.tails)
    ensures Chained(AcceptCommand(s, profile, c).entries) && ChainsFit(AcceptCommand(s, profile, c).entries)
  {}

  lemma NotReplacing(entries: seq<Entry>, fences: map<string, nat>, last: Entry)
    requires AboveFence(entries, fences) && !last.phase.Replacing?
    ensures AboveFence(entries + [last], fences)
  {}

  lemma ReadKeeps(s: State, k: nat, current: Option<Fact>)
    requires Inv(s) && k < |s.entries| && s.entries[k].phase.Reading?
    ensures Inv(ReadFacts(s, k, current))
  {
    hide InTurn, Chained, TailsFit;
    var t := ReadFacts(s, k, current);
    MoveKeeps(s, k, t.entries[k].phase);
    assert t.entries == To(s, k, t.entries[k].phase).entries;
    forall j | 0 <= j < |t.entries| && t.entries[j].phase.Replacing?
      ensures t.entries[j].command.action.Start? && t.entries[j].command.generation > Fence(t.fences, t.entries[j].profile)
    {
      if j != k && t.entries[j].profile == t.entries[k].profile { OneAtATime(s, j, k); }
    }
  }

  lemma StepKeeps(s: State, e: Event)
    requires Inv(s)
    ensures Inv(Step(s, e))
  {
    hide InTurn, Chained, TailsFit;
    match e
    case Accept(profile, c) => AcceptKeeps(s, profile, c);
    case Begin(k) => if MayBegin(s, k) { BeginKeeps(s, k); }
    case Read(k, current) => if k < |s.entries| && s.entries[k].phase.Reading? { ReadKeeps(s, k, current); }
    case Replaced(k, ok) =>
      if k < |s.entries| && s.entries[k].phase.Replacing? { MoveKeeps(s, k, if ok then Launching else Finished); }
    case Returned(k) =>
      if k < |s.entries| && (s.entries[k].phase.Launching? || s.entries[k].phase.Stopping?) { MoveKeeps(s, k, Finished); }
    case Clear(k) => if k < |s.entries| && s.entries[k].phase.Finished? { ClearKeeps(s, k); }
  }

  lemma ClearKeeps(s: State, k: nat)
    requires Inv(s) && k < |s.entries| && s.entries[k].phase.Finished?
    ensures Inv(ClearCommand(s, k))
  {
    MoveKeeps(s, k, Cleared);
  }

  /** In every run, no two commands of a Profile overlap. */
  lemma {:induction false} NeverOverlap(s: State, run: seq<Event>)
    requires Inv(s)
    ensures var t := Run(s, run);
            && Inv(t)
            && forall i, j :: 0 <= i < j < |t.entries| && t.entries[i].profile == t.entries[j].profile ==>
                 !(Executing(t.entries[i].phase) && Executing(t.entries[j].phase))
    decreases |run|
  {
    if run != [] {
      StepKeeps(s, run[0]);
      NeverOverlap(Step(s, run[0]), run[1..]);
    }
  }

  /** A Profile's commands never get stuck: while one has not settled, one is running or can begin. */
  lemma {:induction false} SomeoneCanMove(s: State, k: nat) returns (j: nat)
    requires Inv(s) && k < |s.entries| && !s.entries[k].phase.Cleared?
    ensures j <= k && s.entries[j].profile == s.entries[k].profile
    ensures Executing(s.entries[j].phase) || MayBegin(s, j)
    decreases k
  {
    if i: nat :| i < k && s.entries[i].profile == s.entries[k].profile && !s.entries[i].phase.Cleared? {
      j := SomeoneCanMove(s, i);
    } else {
      j := k;
    }
  }

  // ---- The fence ----

  /** The generation whose start this step passes to the runtime. */
  function Launches(s: State, e: Event, profile: string): Option<nat> {
    if (e.Read? || e.Replaced?) && e.k < |s.entries| && s.entries[e.k].profile == profile
       && !s.entries[e.k].phase.Launching? && Step(s, e).entries[e.k].phase.Launching?
    then Some(s.entries[e.k].command.generation) else None
  }

  /** Whether or not commands overlap, the fence never moves back. */
  lemma FenceOnlyRises(s: State, e: Event, profile: string)
    ensures Fence(s.fences, profile) <= Fence(Step(s, e).fences, profile)
  {}

  /** A stop or a deletion that is admitted raises the fence to its generation. */
  lemma AdmittedStopRaisesFence(s: State, k: nat, current: Option<Fact>)
    requires k < |s.entries| && s.entries[k].phase.Reading? && !s.entries[k].command.action.Start?
    ensures var t := Step(s, Read(k, current));
            t.entries[k].phase.Stopping? <==>
              (current.Some? ==> current.value.generation == s.entries[k].command.generation)
              && s.entries[k].command.generation >= Fence(s.fences, s.entries[k].profile)
    ensures var t := Step(s, Read(k, current));
            t.entries[k].phase.Stopping? ==> Fence(t.fences, s.entries[k].profile) == s.entries[k].command.generation
  {}

  lemma LaunchedAboveFence(s: State, e: Event, profile: string)
    requires Inv(s) && Launches(s, e, profile).Some?
    ensures Launches(s, e, profile).value > Fence(s.fences, profile)
  {}

  ghost predicate LaunchesAbove(s: State, run: seq<Event>, profile: string, generation: nat)
    decreases |run|
  {
    run == [] || (
      && (Launches(s, run[0], profile).Some? ==> Launches(s, run[0], profile).value > generation)
      && LaunchesAbove(Step(s, run[0]), run[1..], profile, generation))
  }

  /**
   Once a generation is fenced, no start of it or of an older one reaches the runtime,
   however late or however often it is delivered, and whatever the runtime reports.
   */
  lemma {:induction false} FencedNeverStarts(s: State, run: seq<Event>, profile: string, generation: nat)
    requires Inv(s) && generation <= Fence(s.fences, profile)
    ensures LaunchesAbove(s, run, profile, generation)
    ensures generation <= Fence(Run(s, run).fences, profile)
    decreases |run|
  {
    if run != [] {
      if Launches(s, run[0], profile).Some? { LaunchedAboveFence(s, run[0], profile); }
      StepKeeps(s, run[0]);
      FenceOnlyRises(s, run[0], profile);
      FencedNeverStarts(Step(s, run[0]), run[1..], profile, generation);
    }
  }

  /** A start that replaces nothing is above the fence even without the chain. */
  lemma DirectLaunchAboveFence(s: State, k: nat, current: Option<Fact>, profile: string)
    requires Launches(s, Read(k, current), profile).Some?
    ensures Launches(s, Read(k, current), profile).value > Fence(s.fences, profile)
  {}

  /** The generation this step fences. */
  function Raises(s: State, e: Event, profile: string): Option<nat> {
    if e.Read? && e.k < |s.entries| && s.entries[e.k].phase.Reading? && s.entries[e.k].profile == profile
       && Decide(s.entries[e.k].command, e.current, Fence(s.fences, profile)).RaiseFence?
    then Some(s.entries[e.k].command.generation) else None
  }

  /** Some stop or deletion of this generation or a newer one is admitted during the run. */
  ghost predicate RaisedTo(s: State, run: seq<Event>, profile: string, generation: nat)
    decreases |run|
  {
    run != [] && (
      || (Raises(s, run[0], profile).Some? && Raises(s, run[0], profile).value >= generation)
      || RaisedTo(Step(s, run[0]), run[1..], profile, generation))
  }

  lemma FenceIsLastRaised(s: State, e: Event, profile: string)
    ensures var r := Raises(s, e, profile);
            Fence(Step(s, e).fences, profile) == if r.Some? then r.value else Fence(s.fences, profile)
  {}

  lemma {:induction false} FenceReached(s: State, run: seq<Event>, profile: string, generation: nat)
    requires Fence(s.fences, profile) < generation
    ensures generation <= Fence(Run(s, run).fences, profile) <==> RaisedTo(s, run, profile, generation)
    decreases |run|
  {
    if run != [] {
      hide Step, Raises, Fence;
      var next := Step(s, run[0]);
      FenceIsLastRaised(s, run[0], profile);
      if Fence(next.fences, profile) < generation {
        FenceReached(next, run[1..], profile, generation);
      } else {
        FenceStays(next, run[1..], profile, generation);
      }
    }
  }

  lemma {:induction false} FenceStays(s: State, run: seq<Event>, profile: string, generation: nat)
    requires generation <= Fence(s.fences, profile)
    ensures generation <= Fence(Run(s, run).fences, profile)
    decreases |run|
  {
    if run != [] {
      FenceOnlyRises(s, run[0], profile);
      FenceStays(Step(s, run[0]), run[1..], profile, generation);
    }
  }

  /**
   Without the chain, a start that waits for a failed runtime to be replaced reaches the
   runtime at or below the fence exactly when a stop or a deletion of its generation, or of
   a newer one, is admitted while it waits.
   */
  lemma ReplacementBreaksFence(s: State, k: nat, run: seq<Event>)
    requires k < |s.entries| && s.entries[k].phase.Replacing?
    requires s.entries[k].command.generation > Fence(s.fences, s.entries[k].profile)
    requires var t := Run(s, run); k < |t.entries| && t.entries[k] == s.entries[k]
    ensures var profile := s.entries[k].profile;
            var t := Run(s, run);
            var launched := Launches(t, Replaced(k, true), profile);
            launched.Some? && (launched.value <= Fence(t.fences, profile) <==> RaisedTo(s, run, profile, launched.value))
  {
    FenceReached(s, run, s.entries[k].profile, s.entries[k].command.generation);
  }

  /** And that does happen: a stop of generation two is admitted while its start replaces generation one. */
  lemma OverlapBreaksFence(p: string)
    ensures var start, stop := Command("a", Start, 2, true), Command("b", Stop, 2, false);
            var run := [Accept(p, start), Accept(p, stop), Begin(0), Read(0, Some(Fact(1, "x", Error))), Begin(1), Read(1, None)];
            var s := Run(EMPTY.(serialized := false), run);
            Fence(s.fences, p) == 2 && Launches(s, Replaced(0, true), p) == Some(2)
  {
    var start, stop := Command("a", Start, 2, true), Command("b", Stop, 2, false);
    var run := [Accept(p, start), Accept(p, stop), Begin(0), Read(0, Some(Fact(1, "x", Error))), Begin(1), Read(1, None)];
    var e0, e1 := Entry(p, start, None, Waiting), Entry(p, stop, Some(0), Waiting);
    var s2 := State(false, [e0, e1], map[p := 1], map[]);
    var s4 := s2.(entries := [e0.(phase := Replacing), e1]);
    var s6 := State(false, [e0.(phase := Replacing), e1.(phase := Stopping)], map[p := 1], map[p := 2]);
    TwoAccepted(p, start, stop);
    StartReads(s2, p);
    StopReads(s4, p);
    hide Step;
    RunTwo(EMPTY.(serialized := false), run);
    RunTwo(s2, run[2..]);
    RunTwo(s4, run[2..][2..]);
    assert Run(EMPTY.(serialized := false), run) == s6;
    LastLaunch(s6, p);
  }

  lemma TwoAccepted(p: string, a: Command, b: Command)
    ensures Step(Step(EMPTY.(serialized := false), Accept(p, a)), Accept(p, b)) ==
            State(false, [Entry(p, a, None, Waiting), Entry(p, b, Some(0), Waiting)], map[p := 1], map[])
  {}

  lemma StartReads(s: State, p: string)
    requires !s.serialized && |s.entries| == 2 && s.fences == map[]
    requires s.entries[0].profile == p && s.entries[0].phase.Waiting? && s.entries[0].command == Command("a", Start, 2, true)
    ensures Step(Step(s, Begin(0)), Read(0, Some(Fact(1, "x", Error)))) ==
            s.(entries := [s.entries[0].(phase := Replacing), s.entries[1]])
  {}

  lemma StopReads(s: State, p: string)
    requires !s.serialized && |s.entries| == 2 && s.fences == map[]
    requires s.entries[1].profile == p && s.entries[1].phase.Waiting? && s.entries[1].command == Command("b", Stop, 2, false)
    ensures Step(Step(s, Begin(1)), Read(1, None)) ==
            s.(entries := [s.entries[0], s.entries[1].(phase := Stopping)], fences := map[p := 2])
  {}

  lemma LastLaunch(s: State, p: string)
    requires |s.entries| == 2 && s.entries[0].profile == p && s.entries[0].phase.Replacing?
    requires s.entries[0].command.generation == 2
    ensures Launches(s, Replaced(0, true), p) == Some(2)
  {}

  lemma RunTwo(s: State, run: seq<Event>)
    requires |run| >= 2
    ensures Run(s, run) == Run(Step(Step(s, run[0]), run[1]), run[2..])
    ensures |run| == 2 ==> Run(s, run) == Step(Step(s, run[0]), run[1])
  {
    hide Step;
    assert run[1..][0] == run[1] && run[1..][1..] == run[2..];
  }

  // ---- What each command is answered, written out ----

  /** The generation that was last told to stop; zero if none was. */
  function LastStopped(s: State, profile: string): nat {
    if profile in s.fences then s.fences[profile] else 0
  }

  /**
   Once the facts are read: a stop or deletion goes ahead exactly if the runtime there is of its
   generation or there is none, and no newer generation was told to stop. A start goes ahead
   exactly if it names its data requirement, its generation was not told to stop, and there is
   no runtime, its own, or an older one that failed, which it replaces first.
   */
  lemma ExecutedExactly(s: State, k: nat, current: Option<Fact>)
    requires k < |s.entries| && s.entries[k].phase == Reading
    ensures var e := s.entries[k];
            var c := e.command;
            var stops := c.action != Start && (current == None || current.value.generation == c.generation)
                         && LastStopped(s, e.profile) <= c.generation;
            var may := c.action == Start && c.requireData && LastStopped(s, e.profile) < c.generation;
            var supplants := may && current != None && current.value.state == Error && current.value.generation < c.generation;
            var launches := may && (current == None || (current.value.generation == c.generation && current.value.runtimeId == c.id));
            var phase := if stops then Stopping else if supplants then Replacing else if launches then Launching else Finished;
            Step(s, Read(k, current)) ==
              s.(entries := s.entries[k := Entry(e.profile, c, e.after, phase)],
                 fences := if stops then s.fences[e.profile := c.generation] else s.fences)
  {}

  /** The three refusals, and when each is given. */
  lemma RefusedExactly(c: Command, current: Option<Fact>, stopped: nat)
    ensures Decide(c, current, stopped) == Incompatible <==> c.action == Start && !c.requireData
    ensures Decide(c, current, stopped) == Stopped <==> c.action == Start && c.requireData && c.generation <= stopped
    ensures Decide(c, current, stopped) == Mismatch <==>
              if c.action == Start then
                c.requireData && stopped < c.generation && current != None
                && !(current.value.generation == c.generation && current.value.runtimeId == c.id)
                && !(current.value.state == Error && current.value.generation < c.generation)
              else (current != None && current.value.generation != c.generation) || c.generation < stopped
  {}

  /** A start that waited for a failed runtime is launched exactly if that was stopped; what the runtime was told ends the command. */
  lemma GoesOnExactly(s: State, k: nat, ok: bool)
    requires k < |s.entries|
    ensures s.entries[k].phase == Replacing ==>
              Step(s, Replaced(k, ok)) == s.(entries := s.entries[k := s.entries[k].(phase := if ok then Launching else Finished)])
    ensures s.entries[k].phase == Launching || s.entries[k].phase == Stopping ==>
              Step(s, Returned(k)) == s.(entries := s.entries[k := s.entries[k].(phase := Finished)])
    ensures s.entries[k].phase == Finished ==>
              var profile := s.entries[k].profile;
              Step(s, Clear(k)) ==
                s.(entries := s.entries[k := s.entries[k].(phase := Cleared)],
                   tails := if profile in s.tails && s.tails[profile] == k then s.tails - {profile} else s.tails)
  {}

  /** A command waits exactly for the one it was chained behind, if any, to settle. */
  lemma BeginsExactly(s: State, profile: string, c: Command, k: nat)
    requires Inv(s)
    ensures Step(s, Accept(profile, c)) ==
            s.(entries := s.entries + [Entry(profile, c, if profile in s.tails then Some(s.tails[profile]) else None, Waiting)],
               tails := s.tails[profile := |s.entries|])
    ensures k < |s.entries| && s.entries[k].phase == Waiting ==>
              Step(s, Begin(k)) ==
                if s.entries[k].after == None || s.entries[s.entries[k].after.value].phase == Cleared
                then s.(entries := s.entries[k := s.entries[k].(phase := Reading)]) else s
  {}

  // ---- In place ----

  class ProfileRuntimeCommands {
    var entries: seq<Entry>
    var tails: map<string, nat>
    var stoppedGenerations: map<string, nat>

    function Model(): State
      reads this
    {
      State(true, entries, tails, stoppedGenerations)
    }

    constructor ()
      ensures Model() == EMPTY && Inv(Model())
    {
      entries, tails, stoppedGenerations := [], map[], map[];
    }

    /** Chains the command behind the Profile's last one and becomes the last. */
    method AcceptProfileCommand(profile: string, c: Command) returns (k: nat)
      modifies this`entries, this`tails
      ensures Model() == AcceptCommand(old(Model()), profile, c) && k == |old(entries)|
    {
      k := |entries|;
      var previous := if profile in tails then Some(tails[profile]) else None;
      entries := entries + [Entry(profile, c, previous, Waiting)];
      tails := tails[profile := k];
    }

    /** execute, from the facts to the first call that reaches the runtime. */
    method Execute(k: nat, current: Option<Fact>) returns (phase: Phase)
      requires k < |entries| && entries[k].phase.Reading?
      modifies this`entries, this`stoppedGenerations
      ensures Model() == ReadFacts(old(Model()), k, current) && phase == entries[k].phase
    {
      var e := entries[k];
      var stopped := Fence(stoppedGenerations, e.profile);
      phase := Finished;
      if !e.command.action.Start? {
        if !(current.Some? && current.value.generation != e.command.generation) && e.command.generation >= stopped {
          stoppedGenerations := stoppedGenerations[e.profile := e.command.generation];
          phase := Stopping;
        }
      } else if e.command.requireData && e.command.generation > stopped {
        if current.None? {
          phase := Launching;
        } else if current.value.state.Error? && current.value.generation < e.command.generation {
          phase := Replacing;
        } else if current.value.generation == e.command.generation && current.value.runtimeId == e.command.id {
          phase := Launching;
        }
      }
      entries := entries[k := e.(phase := phase)];
    }

    /** The chained promise settles: the last one removes the Profile's tail. */
    method Settle(k: nat)
      requires k < |entries| && entries[k].phase.Finished?
      modifies this`entries, this`tails
      ensures Model() == ClearCommand(old(Model()), k)
    {
      var profile := entries[k].profile;
      if profile in tails && tails[profile] == k { tails := tails - {profile}; }
      entries := entries[k := entries[k].(phase := Cleared)];
    }
  }
}

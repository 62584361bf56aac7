/** Versioned quota policies: merging them, and keeping them across restarts. */
module StoragePolicies {
  import opened Basics

  datatype Policy = Policy(version: nat, quota: Option<nat>)

  datatype Policies = Policies(worker: Option<Policy>, profiles: map<string, Policy>)

  /** One applyPolicy call: a Worker policy, and possibly one Profile's. */
  datatype Call = Call(worker: Policy, profile: Option<(string, Policy)>)

  const NO_POLICIES := Policies(None, map[])

  function ProfileAt(m: Policies, id: string): Option<Policy> {
    if id in m.profiles then Some(m.profiles[id]) else None
  }

  predicate Conflicts(current: Option<Policy>, next: Policy) {
    current.Some? && current.value.version == next.version && current.value.quota != next.quota
  }

  function Choose(current: Option<Policy>, next: Policy): Policy {
    if current.Some? && current.value.version >= next.version then current.value else next
  }

  /** What applyPolicy settles on, or None for STORAGE_POLICY_STALE. */
  function Decide(m: Policies, c: Call): Option<Policies> {
    if Conflicts(m.worker, c.worker) then None
    else if c.profile.Some? && Conflicts(ProfileAt(m, c.profile.value.0), c.profile.value.1) then None
    else Some(Policies(
      Some(Choose(m.worker, c.worker)),
      match c.profile
      case None => m.profiles
      case Some((id, next)) => m.profiles[id := Choose(ProfileAt(m, id), next)]))
  }

  function DecideAll(m: Policies, calls: seq<Call>): Option<Policies>
    decreases |calls|
  {
    if calls == [] then Some(m) else
      match Decide(m, calls[0])
      case None => None
      case Some(next) => DecideAll(next, calls[1..])
  }

  // ---- The highest version wins, in any order ----

  function Known(p: Option<Policy>): set<Policy> {
    match p case None => {} case Some(v) => {v}
  }

  ghost function WorkerOffers(m: Policies, calls: seq<Call>): set<Policy> {
    Known(m.worker) + set c | c in calls :: c.worker
  }

  ghost function ProfileOffers(m: Policies, calls: seq<Call>, id: string): set<Policy> {
    Known(ProfileAt(m, id)) + set c | c in calls && c.profile.Some? && c.profile.value.0 == id :: c.profile.value.1
  }

  ghost predicate Consistent(offers: set<Policy>) {
    forall p, q :: p in offers && q in offers && p.version == q.version ==> p == q
  }

  ghost predicate NoConflict(m: Policies, calls: seq<Call>) {
    Consistent(WorkerOffers(m, calls)) && forall id :: Consistent(ProfileOffers(m, calls, id))
  }

  ghost predicate Highest(p: Option<Policy>, offers: set<Policy>) {
    match p
    case None => offers == {}
    case Some(v) => v in offers && forall q :: q in offers ==> q.version <= v.version
  }

  lemma HighestIsOne(p: Option<Policy>, q: Option<Policy>, offers: set<Policy>)
    requires Consistent(offers) && Highest(p, offers) && Highest(q, offers)
    ensures p == q
  {}

  /** Choosing between the current policy and one offer loses no candidate for the highest. */
  lemma ChooseKeepsHighest(current: Option<Policy>, next: Policy, rest: set<Policy>, p: Option<Policy>)
    requires Highest(p, {Choose(current, next)} + rest)
    ensures Highest(p, Known(current) + {next} + rest)
  {}

  lemma OffersAhead(m: Policies, calls: seq<Call>, id: string)
    requires calls != [] && Decide(m, calls[0]).Some?
    ensures var next := Decide(m, calls[0]).value;
            && WorkerOffers(m, calls) == Known(m.worker) + {calls[0].worker} + WorkerOffers(NO_POLICIES, calls[1..])
            && WorkerOffers(next, calls[1..]) == Known(next.worker) + WorkerOffers(NO_POLICIES, calls[1..])
            && ProfileOffers(next, calls[1..], id) == Known(ProfileAt(next, id)) + ProfileOffers(NO_POLICIES, calls[1..], id)
            && ProfileOffers(m, calls, id) ==
                 Known(ProfileAt(m, id)) + ProfileOffers(NO_POLICIES, [calls[0]], id) + ProfileOffers(NO_POLICIES, calls[1..], id)
  {
    assert forall c :: c in calls <==> c == calls[0] || c in calls[1..];
  }

  lemma FirstCallFits(m: Policies, calls: seq<Call>)
    requires NoConflict(m, calls) && calls != []
    ensures Decide(m, calls[0]).Some?
  {
    var c := calls[0];
    assert c.worker in WorkerOffers(m, calls);
    if m.worker.Some? { assert m.worker.value in WorkerOffers(m, calls); }
    if c.profile.Some? {
      var id := c.profile.value.0;
      assert c.profile.value.1 in ProfileOffers(m, calls, id);
      if id in m.profiles { assert m.profiles[id] in ProfileOffers(m, calls, id); }
    }
  }

  lemma ProfileStep(m: Policies, calls: seq<Call>, id: string, p: Option<Policy>)
    requires calls != [] && Decide(m, calls[0]).Some?
    ensures var next := Decide(m, calls[0]).value;
            && ProfileOffers(next, calls[1..], id) <= ProfileOffers(m, calls, id)
            && (Highest(p, ProfileOffers(next, calls[1..], id)) ==> Highest(p, ProfileOffers(m, calls, id)))
  {
    var next, c := Decide(m, calls[0]).value, calls[0];
    var rest := ProfileOffers(NO_POLICIES, calls[1..], id);
    OffersAhead(m, calls, id);
    if c.profile.Some? && c.profile.value.0 == id {
      assert ProfileOffers(NO_POLICIES, [c], id) == {c.profile.value.1} by {
        assert c in [c];
      }
      if Highest(p, ProfileOffers(next, calls[1..], id)) {
        ChooseKeepsHighest(ProfileAt(m, id), c.profile.value.1, rest, p);
      }
    } else {
      assert ProfileOffers(NO_POLICIES, [c], id) == {};
    }
  }

  /**
   Whatever the order and however often, non-conflicting calls leave the highest
   version offered for the Worker and for every Profile.
   */
  lemma {:induction false} HighestWins(m: Policies, calls: seq<Call>)
    requires NoConflict(m, calls)
    ensures DecideAll(m, calls).Some?
    ensures var r := DecideAll(m, calls).value;
            && Highest(r.worker, WorkerOffers(m, calls))
            && forall id :: Highest(ProfileAt(r, id), ProfileOffers(m, calls, id))
    decreases |calls|
  {
    if calls != [] {
      FirstCallFits(m, calls);
      var next := Decide(m, calls[0]).value;
      var r := DecideAll(next, calls[1..]);
      forall id
        ensures Consistent(ProfileOffers(next, calls[1..], id))
      {
        ProfileStep(m, calls, id, None);
        assert Consistent(ProfileOffers(m, calls, id));
      }
      OffersAhead(m, calls, "");
      HighestWins(next, calls[1..]);
      ChooseKeepsHighest(m.worker, calls[0].worker, WorkerOffers(NO_POLICIES, calls[1..]), r.value.worker);
      forall id
        ensures Highest(ProfileAt(r.value, id), ProfileOffers(m, calls, id))
      {
        ProfileStep(m, calls, id, ProfileAt(r.value, id));
      }
    }
  }

  /** Reordering or repeating non-conflicting calls changes nothing. */
  lemma OrderDoesNotMatter(m: Policies, a: seq<Call>, b: seq<Call>)
    requires NoConflict(m, a) && (forall c :: c in a <==> c in b)
    ensures DecideAll(m, a).Some? && DecideAll(m, a) == DecideAll(m, b)
  {
    assert WorkerOffers(m, a) == WorkerOffers(m, b);
    assert forall id :: ProfileOffers(m, a, id) == ProfileOffers(m, b, id);
    HighestWins(m, a);
    HighestWins(m, b);
    var x, y := DecideAll(m, a).value, DecideAll(m, b).value;
    HighestIsOne(x.worker, y.worker, WorkerOffers(m, a));
    forall id
      ensures ProfileAt(x, id) == ProfileAt(y, id)
    {
      assert Consistent(ProfileOffers(m, a, id));
      HighestIsOne(ProfileAt(x, id), ProfileAt(y, id), ProfileOffers(m, a, id));
    }
    SamePolicies(x.profiles, y.profiles, x, y);
  }

  lemma SamePolicies(a: map<string, Policy>, b: map<string, Policy>, x: Policies, y: Policies)
    requires a == x.profiles && b == y.profiles && forall id :: ProfileAt(x, id) == ProfileAt(y, id)
    ensures a == b
  {
    forall id
      ensures (id in a <==> id in b) && (id in a ==> a[id] == b[id])
    {
      assert ProfileAt(x, id) == ProfileAt(y, id);
    }
  }

  // ---- Restarts ----

  /** Memory, and the policy file: None while it does not exist. */
  datatype Store = Store(memory: Policies, file: Option<Policies>, closed: bool)

  /** How far persisting gets: the rename may not happen, or happen and the call still fail. */
  datatype Persisting = NotRenamed | RenamedThenFailed | Persisted

  datatype Outcome = Applied | Stale | Closed | PersistFailed

  datatype Event =
    | Apply(call: Call, persisting: Persisting)
    | Forget(id: string, persisting: Persisting)
    | Close
    | Restart

  function Persist(s: Store, next: Policies, p: Persisting): Store {
    match p
    case NotRenamed => s
    case RenamedThenFailed => s.(file := Some(next))
    case Persisted => s.(file := Some(next), memory := next)
  }

  function ApplyPolicy(s: Store, c: Call, p: Persisting): (Store, Outcome) {
    if s.closed then (s, Closed)
    else match Decide(s.memory, c)
      case None => (s, Stale)
      case Some(next) =>
        if next == s.memory then (s, Applied)
        else (Persist(s, next, p), if p.Persisted? then Applied else PersistFailed)
  }

  function ForgetProfile(s: Store, id: string, p: Persisting): (Store, Outcome) {
    if s.closed then (s, Closed)
    else if id !in s.memory.profiles then (s, Applied)
    else (Persist(s, s.memory.(profiles := s.memory.profiles - {id}), p), if p.Persisted? then Applied else PersistFailed)
  }

  /** A conflict about the Worker or about the Profile refuses the whole call, and nothing else is stale. */
  lemma ConflictChangesNothing(s: Store, c: Call, p: Persisting)
    requires !s.closed
    ensures ApplyPolicy(s, c, p).1.Stale? <==>
            Conflicts(s.memory.worker, c.worker)
            || (c.profile.Some? && Conflicts(ProfileAt(s.memory, c.profile.value.0), c.profile.value.1))
    ensures ApplyPolicy(s, c, p).1.Stale? ==> ApplyPolicy(s, c, p).0 == s
  {}

  function Loaded(file: Option<Policies>): Policies {
    match file case None => NO_POLICIES case Some(p) => p
  }

  function Step(s: Store, e: Event): Store {
    match e
    case Apply(c, p) => ApplyPolicy(s, c, p).0
    case Forget(id, p) => ForgetProfile(s, id, p).0
    case Close => s.(closed := true)
    case Restart => Store(Loaded(s.file), s.file, false)
  }

  function Run(s: Store, run: seq<Event>): Store
    decreases |run|
  {
    if run == [] then s else Run(Step(s, run[0]), run[1..])
  }

  /** No lower version, and under the same version the same quota. */
  predicate NotLower(was: Option<Policy>, now: Option<Policy>) {
    was.None? || (now.Some? && (now == was || now.value.version > was.value.version))
  }

  /** The file is never behind memory, about the Worker and about one Profile. */
  predicate FileKeepsUp(s: Store, id: string) {
    && NotLower(s.memory.worker, Loaded(s.file).worker)
    && NotLower(ProfileAt(s.memory, id), ProfileAt(Loaded(s.file), id))
  }

  predicate WorkerKeepsUp(s: Store) {
    NotLower(s.memory.worker, Loaded(s.file).worker)
  }

  lemma StepNeverLowers(s: Store, e: Event)
    requires WorkerKeepsUp(s)
    ensures WorkerKeepsUp(Step(s, e)) && NotLower(s.memory.worker, Step(s, e).memory.worker)
  {}

  /**
   Whatever calls arrive, fail half-way, or are cut short by a restart, the Worker's
   policy version never goes down, and its quota never changes under one version.
   */
  lemma {:induction false} WorkerVersionNeverLowers(s: Store, run: seq<Event>)
    requires WorkerKeepsUp(s)
    ensures WorkerKeepsUp(Run(s, run)) && NotLower(s.memory.worker, Run(s, run).memory.worker)
    decreases |run|
  {
    if run != [] {
      StepNeverLowers(s, run[0]);
      WorkerVersionNeverLowers(Step(s, run[0]), run[1..]);
    }
  }

  lemma ProfileStepNeverLowers(s: Store, e: Event, id: string)
    requires FileKeepsUp(s, id) && !(e.Forget? && e.id == id)
    ensures FileKeepsUp(Step(s, e), id) && NotLower(ProfileAt(s.memory, id), ProfileAt(Step(s, e).memory, id))
  {}

  /** The same for a Profile, as long as that Profile is not forgotten. */
  lemma {:induction false} ProfileVersionNeverLowers(s: Store, run: seq<Event>, id: string)
    requires FileKeepsUp(s, id) && (forall i :: 0 <= i < |run| ==> !(run[i].Forget? && run[i].id == id))
    ensures FileKeepsUp(Run(s, run), id) && NotLower(ProfileAt(s.memory, id), ProfileAt(Run(s, run).memory, id))
    decreases |run|
  {
    if run != [] {
      ProfileStepNeverLowers(s, run[0], id);
      ProfileVersionNeverLowers(Step(s, run[0]), run[1..], id);
    }
  }

  // ---- The file alone ----

  /** The second policy is an older version of the first, or missing. */
  predicate Lower(was: Option<Policy>, now: Option<Policy>) {
    was.Some? && (now.None? || now.value.version < was.value.version)
  }

  /** The call gets as far as renaming its file over the old one. */
  predicate Renames(s: Store, c: Call, p: Persisting) {
    !s.closed && !p.NotRenamed? && Decide(s.memory, c).Some? && Decide(s.memory, c).value != s.memory
  }

  /**
   A call takes the policy file back to an older Worker version exactly if it renames, and
   both what the Worker holds and what it is given are older than the file.
   */
  lemma FileStepsBackExactly(s: Store, c: Call, p: Persisting)
    ensures var was := Loaded(s.file).worker;
            Lower(was, Loaded(ApplyPolicy(s, c, p).0.file).worker) <==>
              Renames(s, c, p) && Lower(was, s.memory.worker) && Lower(was, Some(c.worker))
  {}

  /** For a newer Worker version than the one held: exactly if that version lies between the two. */
  lemma NewVersionStepsBackExactly(s: Store, c: Call)
    requires !s.closed && Decide(s.memory, c).Some? && Lower(Some(c.worker), s.memory.worker)
    ensures var was := Loaded(s.file).worker;
            Lower(was, Loaded(ApplyPolicy(s, c, Persisted).0.file).worker) <==> Lower(was, Some(c.worker))
  {}

  /** Forgetting a Profile takes it back exactly if the Worker holds an older version than the file. */
  lemma ForgettingStepsBackExactly(s: Store, id: string, p: Persisting)
    ensures var was := Loaded(s.file).worker;
            Lower(was, Loaded(ForgetProfile(s, id, p).0.file).worker) <==>
              !s.closed && id in s.memory.profiles && !p.NotRenamed? && Lower(was, s.memory.worker)
  {}

  /** What the Worker holds is older than the file only because a call failed behind its rename. */
  lemma BehindTheFileExactly(s: Store, c: Call, p: Persisting)
    requires s.memory == Loaded(s.file)
    ensures var t := ApplyPolicy(s, c, p).0;
            t.memory != Loaded(t.file) <==> Renames(s, c, p) && p.RenamedThenFailed?
  {}

  /** Such a run from nothing: version five fails behind its rename, then version three is applied. */
  lemma FileMayStepBack()
    ensures var first, second := Call(Policy(5, None), None), Call(Policy(3, None), None);
            var s := Run(Store(NO_POLICIES, None, false), [Apply(first, RenamedThenFailed)]);
            Lower(Loaded(s.file).worker, Loaded(Run(s, [Apply(second, Persisted)]).file).worker)
  {
    var start := Store(NO_POLICIES, None, false);
    var first, second := Apply(Call(Policy(5, None), None), RenamedThenFailed), Apply(Call(Policy(3, None), None), Persisted);
    RunOne(start, first);
    RunOne(Step(start, first), second);
    FileStepsBackExactly(Step(start, first), second.call, Persisted);
  }

  lemma RunOne(s: Store, e: Event)
    ensures Run(s, [e]) == Step(s, e)
  {
    assert [e][1..] == [];
  }

  // ---- What each call answers, written out ----

  /** The higher version wins; at equal versions the one in force stays. */
  function Higher(current: Option<Policy>, next: Policy): Policy {
    match current
    case None => next
    case Some(held) => if held.version < next.version then next else held
  }

  /** The same version in force with another quota. */
  predicate Contradicts(current: Option<Policy>, next: Policy) {
    match current case None => false case Some(held) => held.version == next.version && held.quota != next.quota
  }

  function InForce(s: Store, id: string): Option<Policy> {
    if id in s.memory.profiles then Some(s.memory.profiles[id]) else None
  }

  /**
   A call is refused if the Worker is closed or a policy contradicts the one in force. Otherwise
   the higher versions are what is wanted; if that is what the Worker holds there is nothing to
   do, and else they are written, and held exactly if writing succeeds to the end.
   */
  lemma AppliedExactly(s: Store, c: Call, p: Persisting)
    ensures var (t, outcome) := ApplyPolicy(s, c, p);
            if s.closed then (t, outcome) == (s, Closed)
            else if Contradicts(s.memory.worker, c.worker)
                    || (c.profile.Some? && Contradicts(InForce(s, c.profile.value.0), c.profile.value.1)) then (t, outcome) == (s, Stale)
            else
              var wanted := Policies(Some(Higher(s.memory.worker, c.worker)),
                                     match c.profile
                                     case None => s.memory.profiles
                                     case Some((id, next)) => s.memory.profiles[id := Higher(InForce(s, id), next)]);
              if wanted == s.memory then (t, outcome) == (s, Applied)
              else
                && outcome == (if p == Persisted then Applied else PersistFailed)
                && t.memory == (if p == Persisted then wanted else s.memory)
                && t.file == (if p == NotRenamed then s.file else Some(wanted))
                && !t.closed
  {}

  /** Forgetting a Profile the Worker holds a policy for writes the rest, and forgets exactly if that succeeds. */
  lemma ForgottenExactly(s: Store, id: string, p: Persisting)
    ensures var (t, outcome) := ForgetProfile(s, id, p);
            if s.closed then (t, outcome) == (s, Closed)
            else if id !in s.memory.profiles then (t, outcome) == (s, Applied)
            else
              var rest := Policies(s.memory.worker, s.memory.profiles - {id});
              && outcome == (if p == Persisted then Applied else PersistFailed)
              && t.memory == (if p == Persisted then rest else s.memory)
              && t.file == (if p == NotRenamed then s.file else Some(rest))
              && !t.closed
  {}

  /** From closing to the next restart, every call is refused and nothing changes; a restart holds what the file has. */
  lemma {:induction false} ClosedUntilRestart(s: Store, run: seq<Event>)
    requires s.closed && Restart !in run
    ensures Run(s, run) == s
    ensures Step(s, Restart) == Store(match s.file case None => Policies(None, map[]) case Some(f) => f, s.file, false)
    decreases |run|
  {
    if run != [] { ClosedUntilRestart(Step(s, run[0]), run[1..]); }
  }

  lemma ClosingCloses(s: Store)
    ensures Step(s, Close) == Store(s.memory, s.file, true)
  {}

  /** The Worker's policies as it keeps them; calls are queued, so each runs alone. */
  class PolicyStore {
    var worker: Option<Policy>
    var profiles: map<string, Policy>
    var file: Option<Policies>
    var closed: bool

    function Model(): Store
      reads this
    {
      Store(Policies(worker, profiles), file, closed)
    }

    /** Starting up reads whatever file the last Worker left. */
    constructor (found: Option<Policies>)
      ensures Model() == Store(Loaded(found), found, false)
      ensures WorkerKeepsUp(Model()) && forall id :: FileKeepsUp(Model(), id)
    {
      worker, profiles := Loaded(found).worker, Loaded(found).profiles;
      file, closed := found, false;
    }

    /** Write a temporary file, rename it over the policy file, remove the temporary. */
    method PersistPolicies(next: Policies, persisting: Persisting) returns (ok: bool)
      modifies this`file
      ensures file == if persisting.NotRenamed? then old(file) else Some(next)
      ensures ok == persisting.Persisted?
    {
      if !persisting.NotRenamed? { file := Some(next); }
      ok := persisting.Persisted?;
    }

    method ApplyPolicies(c: Call, persisting: Persisting) returns (outcome: Outcome)
      modifies this
      ensures (Model(), outcome) == ApplyPolicy(old(Model()), c, persisting)
    {
      if closed { return Closed; }
      if Conflicts(worker, c.worker) { return Stale; }
      var nextWorker := Choose(worker, c.worker);
      var next := profiles;
      if c.profile.Some? {
        var (id, policy) := c.profile.value;
        var current := if id in next then Some(next[id]) else None;
        if Conflicts(current, policy) { return Stale; }
        next := next[id := Choose(current, policy)];
      }
      if Some(nextWorker) == worker && next == profiles { return Applied; }
      var ok := PersistPolicies(Policies(Some(nextWorker), next), persisting);
      if !ok { return PersistFailed; }
      worker, profiles := Some(nextWorker), next;
      return Applied;
    }

    method ForgetProfilePolicy(id: string, persisting: Persisting) returns (outcome: Outcome)
      modifies this
      ensures (Model(), outcome) == ForgetProfile(old(Model()), id, persisting)
    {
      if closed { return Closed; }
      if id in profiles {
        var ok := PersistPolicies(Policies(worker, profiles - {id}), persisting);
        if !ok { return PersistFailed; }
        profiles := profiles - {id};
      }
      return Applied;
    }
  }
}

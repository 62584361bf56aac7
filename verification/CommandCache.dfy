/** The Worker's idempotency cache: a command received twice is answered twice and run once. */
module CommandCaching {
  import opened Basics

  const LIMIT := 256
  const TTL := 60 * 60 * 1000

  datatype Done = Done(result: nat, at: int)

  /** One cached command, in the order of arrival; results and acknowledgements are numbered. */
  datatype Slot = Slot(id: string, content: string, acknowledgement: nat, done: Option<Done>)

  /** `started` are the commands run so far. */
  datatype Cache = Cache(slots: seq<Slot>, now: int, nextAcknowledgement: nat, started: seq<string>)

  datatype Reply =
    | WrongWorker
    | WrongInstance
    | Reconciling
    | IdReused
    | Replayed(acknowledgement: nat, result: Option<nat>)
    | CapacityExceeded
    | Accepted(acknowledgement: nat)

  /** What the checks before the cache say about a message. */
  datatype Admission = Admitted | OtherWorker | OtherInstance | NotReconciled

  datatype Event =
    | Tick(to: int)
    | Receive(id: string, content: string, admission: Admission)
    | Complete(id: string, result: nat)

  // ---- Pruning ----

  predicate Stale(slot: Slot, now: int) {
    slot.done.Some? && slot.done.value.at < now - TTL
  }

  function Fresh(slots: seq<Slot>, now: int): seq<Slot> {
    if slots == [] then []
    else (if Stale(slots[0], now) then [] else [slots[0]]) + Fresh(slots[1..], now)
  }

  /** The completed command that completed first; among equals, the one that arrived first. */
  function Oldest(slots: seq<Slot>): (o: Option<nat>)
    ensures o.Some? ==> o.value < |slots| && slots[o.value].done.Some?
    ensures o.None? ==> forall i :: 0 <= i < |slots| ==> slots[i].done.None?
    ensures o.Some? ==> forall i :: 0 <= i < |slots| && slots[i].done.Some? ==>
              slots[o.value].done.value.at <= slots[i].done.value.at
    ensures o.Some? ==> forall i :: 0 <= i < o.value && slots[i].done.Some? ==>
              slots[o.value].done.value.at < slots[i].done.value.at
  {
    if slots == [] then None else
      var n := |slots| - 1;
      var o := Oldest(slots[..n]);
      if slots[n].done.Some? && (o.None? || slots[n].done.value.at < slots[o.value].done.value.at) then Some(n) else o
  }

  /** Oldest first, until there is room. */
  function Evicted(slots: seq<Slot>): seq<Slot>
    decreases |slots|
  {
    if |slots| < LIMIT || Oldest(slots).None? then slots else Evicted(Without(slots, Oldest(slots).value))
  }

  function Pruned(slots: seq<Slot>, now: int): seq<Slot> {
    Evicted(Fresh(slots, now))
  }

  // ---- Receiving and completing ----

  function Find(slots: seq<Slot>, id: string): (i: Option<nat>)
    ensures i.Some? ==> i.value < |slots| && slots[i.value].id == id
    ensures i.None? ==> forall k :: 0 <= k < |slots| ==> slots[k].id != id
  {
    if slots == [] then None
    else if slots[0].id == id then Some(0)
    else match Find(slots[1..], id) case None => None case Some(i) => Some(i + 1)
  }

  function ResultOf(slot: Slot): Option<nat> {
    match slot.done case None => None case Some(d) => Some(d.result)
  }

  function ReceiveCommand(c: Cache, id: string, content: string, admission: Admission): (Cache, Reply) {
    match admission
    case OtherWorker => (c, WrongWorker)
    case OtherInstance => (c, WrongInstance)
    case NotReconciled => (c, Reconciling)
    case Admitted =>
      match Find(c.slots, id)
      case Some(i) =>
        if c.slots[i].content != content then (c, IdReused)
        else (c, Replayed(c.slots[i].acknowledgement, ResultOf(c.slots[i])))
      case None =>
        var slots := Pruned(c.slots, c.now);
        if |slots| >= LIMIT then (c.(slots := slots), CapacityExceeded)
        else
          var acknowledgement := c.nextAcknowledgement;
          (c.(slots := slots + [Slot(id, content, acknowledgement, None)],
              nextAcknowledgement := acknowledgement + 1,
              started := c.started + [id]),
           Accepted(acknowledgement))
  }

  /** The result is recorded with its time. */
  function Recorded(c: Cache, id: string, result: nat): Cache {
    match Find(c.slots, id)
    case None => c
    case Some(i) =>
      if c.slots[i].done.Some? then c
      else c.(slots := c.slots[i := c.slots[i].(done := Some(Done(result, c.now)))])
  }

  /** A command completes: its result is recorded and sent, then the cache is pruned. */
  function CompleteCommand(c: Cache, id: string, result: nat): Cache {
    var r := Recorded(c, id, result);
    r.(slots := Pruned(r.slots, r.now))
  }

  function Step(c: Cache, e: Event): Cache {
    match e
    case Tick(to) => if to >= c.now then c.(now := to) else c
    case Receive(id, content, admission) => ReceiveCommand(c, id, content, admission).0
    case Complete(id, result) => CompleteCommand(c, id, result)
  }

  function Run(c: Cache, run: seq<Event>): Cache
    decreases |run|
  {
    if run == [] then c else Run(Step(c, run[0]), run[1..])
  }

  // ---- What pruning takes ----

  lemma {:induction false} FreshKeeps(slots: seq<Slot>, now: int)
    ensures |Fresh(slots, now)| <= |slots|
    ensures forall s :: s in Fresh(slots, now) <==> s in slots && !Stale(s, now)
    decreases |slots|
  {
    if slots != [] { FreshKeeps(slots[1..], now); }
  }

  lemma WithoutKeeps(slots: seq<Slot>, i: nat)
    requires i < |slots|
    ensures forall s :: s in Without(slots, i) ==> s in slots
    ensures forall s :: s in slots && s != slots[i] ==> s in Without(slots, i)
  {
    var rest := Without(slots, i);
    forall s | s in slots && s != slots[i]
      ensures s in rest
    {
      var k :| 0 <= k < |slots| && slots[k] == s;
      assert rest[if k < i then k else k - 1] == s;
    }
  }

  /** Eviction takes no command that is still running, and none that completed after one it keeps. */
  lemma {:induction false} EvictedOldestFirst(slots: seq<Slot>)
    ensures var kept := Evicted(slots);
            && |kept| <= |slots|
            && (forall s :: s in kept ==> s in slots)
            && (forall s :: s in slots && s.done.None? ==> s in kept)
            && (forall s, k :: s in slots && s !in kept && k in kept && s.done.Some? && k.done.Some? ==>
                  s.done.value.at <= k.done.value.at)
    decreases |slots|
  {
    if |slots| >= LIMIT && Oldest(slots).Some? {
      var i := Oldest(slots).value;
      var rest := Without(slots, i);
      WithoutKeeps(slots, i);
      EvictedOldestFirst(rest);
      forall s, k | s in slots && s !in Evicted(slots) && k in Evicted(slots) && s.done.Some? && k.done.Some?
        ensures s.done.value.at <= k.done.value.at
      {
        if s == slots[i] {
          assert k in slots;
        } else {
          assert s in rest;
        }
      }
    }
  }

  /** It stops as soon as there is room, and leaves no room only if every command left is running. */
  lemma {:induction false} EvictsNoMoreThanNeeded(slots: seq<Slot>)
    ensures |slots| < LIMIT ==> Evicted(slots) == slots
    ensures |slots| >= LIMIT ==> |Evicted(slots)| >= LIMIT - 1
    ensures |Evicted(slots)| >= LIMIT ==> forall s :: s in Evicted(slots) ==> s.done.None?
    decreases |slots|
  {
    if |slots| >= LIMIT && Oldest(slots).Some? {
      EvictsNoMoreThanNeeded(Without(slots, Oldest(slots).value));
    }
  }

  // ---- The cache over whole runs ----

  ghost predicate Distinct(slots: seq<Slot>) {
    forall i, j :: 0 <= i < j < |slots| ==> slots[i].id != slots[j].id
  }

  ghost predicate Inv(c: Cache) {
    Distinct(c.slots) && |c.slots| <= LIMIT
  }

  lemma {:induction false} FreshDistinct(slots: seq<Slot>, now: int)
    requires Distinct(slots)
    ensures Distinct(Fresh(slots, now))
    decreases |slots|
  {
    if slots != [] {
      FreshDistinct(slots[1..], now);
      FreshKeeps(slots[1..], now);
      var rest := Fresh(slots[1..], now);
      forall j | 0 <= j < |rest|
        ensures rest[j].id != slots[0].id
      {
        assert rest[j] in slots[1..];
      }
    }
  }

  lemma {:induction false} EvictedDistinct(slots: seq<Slot>)
    requires Distinct(slots)
    ensures Distinct(Evicted(slots))
    decreases |slots|
  {
    if |slots| >= LIMIT && Oldest(slots).Some? { EvictedDistinct(Without(slots, Oldest(slots).value)); }
  }

  lemma PrunedKeeps(slots: seq<Slot>, now: int)
    requires Distinct(slots)
    ensures var kept := Pruned(slots, now);
            && Distinct(kept) && |kept| <= |slots|
            && (forall s :: s in kept ==> s in slots)
            && (forall s :: s in slots && s.done.None? ==> s in kept)
  {
    FreshKeeps(slots, now);
    FreshDistinct(slots, now);
    EvictedDistinct(Fresh(slots, now));
    EvictedOldestFirst(Fresh(slots, now));
  }

  lemma RecordedFits(c: Cache, id: string, result: nat)
    requires Inv(c)
    ensures Inv(Recorded(c, id, result))
    ensures forall s :: s in c.slots && s.id != id ==> s in Recorded(c, id, result).slots
    ensures forall s :: s in Recorded(c, id, result).slots ==>
              s in c.slots || (s.id == id && exists o :: o in c.slots && o.done.None? && s == o.(done := Some(Done(result, c.now))))
  {
    var r := Recorded(c, id, result);
    if r != c {
      var i := Find(c.slots, id).value;
      assert c.slots[i] in c.slots;
      forall s | s in c.slots && s.id != id
        ensures s in r.slots
      {
        var k :| 0 <= k < |c.slots| && c.slots[k] == s;
        assert r.slots[k] == s;
      }
    }
  }

  lemma StepKeeps(c: Cache, e: Event)
    requires Inv(c)
    ensures Inv(Step(c, e))
  {
    hide Pruned, Recorded;
    if e.Receive? && Find(c.slots, e.id).None? {
      PrunedKeeps(c.slots, c.now);
      var kept := Pruned(c.slots, c.now);
      assert forall k :: 0 <= k < |kept| ==> kept[k] in c.slots;
    }
    if e.Complete? {
      RecordedFits(c, e.id, e.result);
      PrunedKeeps(Recorded(c, e.id, e.result).slots, Recorded(c, e.id, e.result).now);
    }
  }

  /** The cache never holds more than its limit. */
  lemma {:induction false} SizeIsBounded(c: Cache, run: seq<Event>)
    requires Inv(c)
    ensures Inv(Run(c, run)) && |Run(c, run).slots| <= 256
    decreases |run|
  {
    if run != [] {
      StepKeeps(c, run[0]);
      SizeIsBounded(Step(c, run[0]), run[1..]);
    }
  }

  lemma FindsIt(slots: seq<Slot>, slot: Slot)
    requires Distinct(slots) && slot in slots
    ensures Find(slots, slot.id).Some? && slots[Find(slots, slot.id).value] == slot
  {
    var i :| 0 <= i < |slots| && slots[i] == slot;
  }

  lemma StillRunning(c: Cache, e: Event, slot: Slot)
    requires Inv(c) && slot in c.slots && slot.done.None? && !(e.Complete? && e.id == slot.id)
    ensures slot in Step(c, e).slots
  {
    hide Pruned, Recorded;
    if e.Receive? && Find(c.slots, e.id).None? { PrunedKeeps(c.slots, c.now); }
    if e.Complete? {
      RecordedFits(c, e.id, e.result);
      PrunedKeeps(Recorded(c, e.id, e.result).slots, Recorded(c, e.id, e.result).now);
    }
  }

  /** A command that is running stays cached until it completes, and is replayed, not run again. */
  lemma {:induction false} RunningIsNeverEvicted(c: Cache, run: seq<Event>, slot: Slot)
    requires Inv(c) && slot in c.slots && slot.done.None?
    requires forall e :: e in run ==> !(e.Complete? && e.id == slot.id)
    ensures var t := Run(c, run);
            && slot in t.slots
            && ReceiveCommand(t, slot.id, slot.content, Admitted) == (t, Replayed(slot.acknowledgement, None))
    decreases |run|
  {
    if run == [] {
      FindsIt(c.slots, slot);
    } else {
      StepKeeps(c, run[0]);
      StillRunning(c, run[0], slot);
      RunningIsNeverEvicted(Step(c, run[0]), run[1..], slot);
    }
  }

  /** A slot never changes but once, when its command completes. */
  lemma SlotChangesOnce(c: Cache, e: Event, slot: Slot)
    requires Inv(c) && slot in c.slots && Find(Step(c, e).slots, slot.id).Some?
    ensures var now := Step(c, e).slots[Find(Step(c, e).slots, slot.id).value];
            || now == slot
            || (slot.done.None? && e.Complete? && e.id == slot.id && now == slot.(done := Some(Done(e.result, c.now))))
            || (e.Receive? && e.id == slot.id && Find(c.slots, slot.id).None?)
  {
    hide Pruned;
    FindsIt(c.slots, slot);
    StepKeeps(c, e);
    var next := Step(c, e).slots;
    if e.Receive? && Find(c.slots, e.id).None? {
      PrunedKeeps(c.slots, c.now);
      var now := next[Find(next, slot.id).value];
      if now in Pruned(c.slots, c.now) { FindsIt(c.slots, now); }
    } else if e.Complete? {
      RecordedFits(c, e.id, e.result);
      var r := Recorded(c, e.id, e.result);
      PrunedKeeps(r.slots, r.now);
      var now := next[Find(next, slot.id).value];
      assert now in r.slots;
      if now in c.slots {
        FindsIt(c.slots, now);
      } else {
        var o :| o in c.slots && o.done.None? && now == o.(done := Some(Done(e.result, c.now)));
        FindsIt(c.slots, o);
      }
    }
  }

  // ---- For an hour ----

  /** A completed command whose result is older than an hour, in milliseconds. */
  predicate HourOld(slot: Slot, now: int) {
    slot.done.Some? && slot.done.value.at + 3600000 < now
  }

  /** With room in the cache, pruning takes exactly what completed more than an hour ago. */
  lemma PrunedExactly(slots: seq<Slot>, now: int)
    requires |slots| < 256
    ensures forall s :: s in Pruned(slots, now) <==> s in slots && !HourOld(s, now)
  {
    FreshKeeps(slots, now);
    assert forall s :: HourOld(s, now) == Stale(s, now);
  }

  /** A message is answered so, and only an accepted one enters the cache. */
  lemma ReceivedExactly(c: Cache, id: string, content: string, admission: Admission)
    ensures var (t, reply) := ReceiveCommand(c, id, content, admission);
            && t == Step(c, Receive(id, content, admission))
            && (admission == OtherWorker ==> (t, reply) == (c, WrongWorker))
            && (admission == OtherInstance ==> (t, reply) == (c, WrongInstance))
            && (admission == NotReconciled ==> (t, reply) == (c, Reconciling))
            && (admission == Admitted && Find(c.slots, id).Some? ==>
                  var slot := c.slots[Find(c.slots, id).value];
                  t == c && reply == if slot.content != content then IdReused
                                     else Replayed(slot.acknowledgement, if slot.done.None? then None else Some(slot.done.value.result)))
            && (admission == Admitted && Find(c.slots, id).None? && |c.slots| < 256 ==>
                  && reply == Accepted(c.nextAcknowledgement)
                  && Slot(id, content, c.nextAcknowledgement, None) in t.slots
                  && t.started == c.started + [id] && t.nextAcknowledgement == c.nextAcknowledgement + 1)
  {
    hide Pruned;
    AtMostAsMany(c.slots, c.now);
  }

  lemma AtMostAsMany(slots: seq<Slot>, now: int)
    ensures |Pruned(slots, now)| <= |slots|
  {
    FreshKeeps(slots, now);
    EvictedOldestFirst(Fresh(slots, now));
  }

  /** The cache is never full before a step of the run. */
  ghost predicate NeverFull(c: Cache, run: seq<Event>)
    decreases |run|
  {
    run == [] || (|c.slots| < 256 && NeverFull(Step(c, run[0]), run[1..]))
  }

  lemma KeptForNow(c: Cache, e: Event, slot: Slot)
    requires Inv(c) && slot in c.slots && slot.done.Some? && |c.slots| < 256 && !HourOld(slot, c.now)
    ensures slot in Step(c, e).slots
  {
    hide Pruned, Recorded;
    FindsIt(c.slots, slot);
    match e
    case Tick(_) =>
    case Receive(id, content, admission) => if Find(c.slots, id).None? { PrunedExactly(c.slots, c.now); }
    case Complete(id, result) =>
      RecordedFits(c, id, result);
      RecordedOthers(c, id, result, slot);
      PrunedExactly(Recorded(c, id, result).slots, c.now);
  }

  lemma RecordedOthers(c: Cache, id: string, result: nat, slot: Slot)
    requires Inv(c) && slot in c.slots && slot.done.Some?
    ensures slot in Recorded(c, id, result).slots
    ensures |Recorded(c, id, result).slots| == |c.slots| && Recorded(c, id, result).now == c.now
  {
    FindsIt(c.slots, slot);
    if id != slot.id { RecordedFits(c, id, result); }
  }

  lemma {:induction false} TimeOnlyPasses(c: Cache, run: seq<Event>)
    ensures c.now <= Run(c, run).now
    decreases |run|
  {
    if run != [] {
      TimeStep(c, run[0]);
      TimeOnlyPasses(Step(c, run[0]), run[1..]);
    }
  }

  lemma TimeStep(c: Cache, e: Event)
    ensures c.now <= Step(c, e).now
  {
    hide Pruned;
  }

  /** As long as the cache is never full, a completed command is answered from it for an hour: whatever arrives or completes. */
  lemma {:induction false} AnsweredForAnHour(c: Cache, run: seq<Event>, slot: Slot)
    requires Inv(c) && slot in c.slots && slot.done.Some? && NeverFull(c, run)
    requires Run(c, run).now <= slot.done.value.at + 3600000
    ensures var t := Run(c, run);
            && slot in t.slots
            && ReceiveCommand(t, slot.id, slot.content, Admitted) == (t, Replayed(slot.acknowledgement, Some(slot.done.value.result)))
    decreases |run|
  {
    if run == [] {
      FindsIt(c.slots, slot);
    } else {
      TimeOnlyPasses(c, run);
      StepKeeps(c, run[0]);
      KeptForNow(c, run[0], slot);
      AnsweredForAnHour(Step(c, run[0]), run[1..], slot);
    }
  }

  /** After that hour the next new command, or completion, takes it out. */
  lemma ForgottenAfterAnHour(c: Cache, slot: Slot, id: string, content: string)
    requires Inv(c) && slot in c.slots && HourOld(slot, c.now) && |c.slots| < 256 && Find(c.slots, id).None?
    ensures slot !in ReceiveCommand(c, id, content, Admitted).0.slots
  {
    hide Pruned;
    PrunedExactly(c.slots, c.now);
    AtMostAsMany(c.slots, c.now);
  }

  // ---- Completing in a full cache ----

  /** Another command completed before `now`, or at `now` having arrived before. */
  predicate GoesBefore(slots: seq<Slot>, k: nat, i: nat, now: int)
    requires k < |slots|
  {
    k != i && slots[k].done.Some? && if k < i then slots[k].done.value.at <= now else slots[k].done.value.at < now
  }

  /** The cache is full, and no other command goes before. */
  predicate FirstToGo(slots: seq<Slot>, i: nat, now: int) {
    |slots| == 256 && forall k :: 0 <= k < |slots| ==> !GoesBefore(slots, k, i, now)
  }

  /**
   A command that completes is forgotten at once exactly if it is the first to go in a full
   cache. Then a repetition runs again; otherwise it is answered with the result.
   */
  lemma ForgottenAtOnceExactly(c: Cache, i: nat, result: nat)
    requires Inv(c) && i < |c.slots| && c.slots[i].done.None?
    ensures var slot := c.slots[i];
            var t := CompleteCommand(c, slot.id, result);
            var reply := ReceiveCommand(t, slot.id, slot.content, Admitted).1;
            && (Find(t.slots, slot.id).None? <==> FirstToGo(c.slots, i, c.now))
            && (if FirstToGo(c.slots, i, c.now) then reply.Accepted? else reply == Replayed(slot.acknowledgement, Some(result)))
  {
    hide Pruned, Recorded, Fresh, Evicted;
    var slot := c.slots[i];
    var done, r := slot.(done := Some(Done(result, c.now))), Recorded(c, slot.id, result);
    JustCompleted(c, i, result);
    PrunedKeeps(r.slots, r.now);
    var t := CompleteCommand(c, slot.id, result);
    assert forall k :: 0 <= k < |c.slots| ==> GoesBefore(r.slots, k, i, c.now) == GoesBefore(c.slots, k, i, c.now);
    if FirstToGo(c.slots, i, c.now) {
      GoesFirst(r.slots, i, r.now);
      RoomForOne(t, slot.id, slot.content);
    } else {
      Stays(r.slots, i, r.now);
      FindsIt(t.slots, done);
    }
  }

  lemma JustCompleted(c: Cache, i: nat, result: nat)
    requires Inv(c) && i < |c.slots| && c.slots[i].done.None?
    ensures var r := Recorded(c, c.slots[i].id, result);
            && r.now == c.now && Distinct(r.slots)
            && r.slots == c.slots[i := c.slots[i].(done := Some(Done(result, c.now)))]
  {
    assert c.slots[i] in c.slots;
    FindsIt(c.slots, c.slots[i]);
  }

  lemma GoesFirst(slots: seq<Slot>, i: nat, now: int)
    requires Distinct(slots) && i < |slots| && slots[i].done.Some? && slots[i].done.value.at == now
    requires FirstToGo(slots, i, now)
    ensures |Pruned(slots, now)| == LIMIT - 1 && Find(Pruned(slots, now), slots[i].id).None?
  {
    forall s | s in slots
      ensures !Stale(s, now)
    {
      var k :| 0 <= k < |slots| && slots[k] == s;
      assert !GoesBefore(slots, k, i, now);
    }
    NothingStale(slots, now);
    FirstIsOldest(slots, i, now);
    assert Oldest(slots) == Some(i);
    EvictsOne(slots);
  }

  lemma FirstIsOldest(slots: seq<Slot>, i: nat, now: int)
    requires i < |slots| && slots[i].done.Some? && slots[i].done.value.at == now
    requires forall k :: 0 <= k < |slots| ==> !GoesBefore(slots, k, i, now)
    ensures Oldest(slots) == Some(i)
  {
    assert !GoesBefore(slots, Oldest(slots).value, i, now);
  }

  /** With one slot too many, exactly the oldest goes. */
  lemma EvictsOne(slots: seq<Slot>)
    requires |slots| == LIMIT && Oldest(slots).Some?
    ensures Evicted(slots) == Without(slots, Oldest(slots).value)
  {
    assert |Without(slots, Oldest(slots).value)| == LIMIT - 1;
  }

  lemma Stays(slots: seq<Slot>, i: nat, now: int)
    requires Distinct(slots) && |slots| <= LIMIT && i < |slots| && slots[i].done.Some? && slots[i].done.value.at == now
    requires !FirstToGo(slots, i, now)
    ensures slots[i] in Pruned(slots, now)
  {
    hide Oldest;
    var young := Fresh(slots, now);
    FreshKeeps(slots, now);
    assert slots[i] in slots && !Stale(slots[i], now);
    if |young| == LIMIT {
      AllFresh(slots, now);
      EvictsAnother(slots, i, now);
    }
  }

  lemma EvictsAnother(slots: seq<Slot>, i: nat, now: int)
    requires |slots| == LIMIT && i < |slots| && slots[i].done.Some? && slots[i].done.value.at == now
    requires !FirstToGo(slots, i, now)
    ensures slots[i] in Evicted(slots)
  {
    var o := Oldest(slots).value;
    var k :| 0 <= k < |slots| && GoesBefore(slots, k, i, now);
    EvictsOne(slots);
    assert o != i;
    assert Without(slots, o)[if i < o then i else i - 1] == slots[i];
  }

  /** An instance: all others are running. */
  lemma CompletingInAFullCache(c: Cache, i: nat, result: nat)
    requires Inv(c) && i < |c.slots| && forall s :: s in c.slots ==> s.done.None?
    ensures Find(CompleteCommand(c, c.slots[i].id, result).slots, c.slots[i].id).None? <==> |c.slots| == LIMIT
  {
    assert forall k :: 0 <= k < |c.slots| ==> c.slots[k] in c.slots;
    ForgottenAtOnceExactly(c, i, result);
  }

  /** Another: two that arrived one after the other complete in the same millisecond, the later one first. */
  lemma CompletingInTheSameMillisecond(c: Cache, result: nat)
    requires Inv(c) && |c.slots| == LIMIT && c.slots[0].done.None?
    requires c.slots[1].done.Some? && c.slots[1].done.value.at == c.now
    requires forall k :: 1 < k < LIMIT ==> c.slots[k].done.None?
    ensures Find(CompleteCommand(c, c.slots[0].id, result).slots, c.slots[0].id).None?
  {
    ForgottenAtOnceExactly(c, 0, result);
  }

  lemma RoomForOne(c: Cache, id: string, content: string)
    requires Inv(c) && |c.slots| < LIMIT && Find(c.slots, id).None?
    ensures ReceiveCommand(c, id, content, Admitted).1.Accepted?
  {
    hide Pruned;
    PrunedKeeps(c.slots, c.now);
  }

  lemma {:induction false} NothingStale(slots: seq<Slot>, now: int)
    requires forall s :: s in slots ==> !Stale(s, now)
    ensures Fresh(slots, now) == slots
    decreases |slots|
  {
    if slots != [] { NothingStale(slots[1..], now); }
  }

  /** A replay runs nothing, changes nothing, and repeats the first answer. */
  lemma ReplayRepeats(c: Cache, slot: Slot)
    requires Inv(c) && slot in c.slots
    ensures ReceiveCommand(c, slot.id, slot.content, Admitted) == (c, Replayed(slot.acknowledgement, ResultOf(slot)))
    ensures forall other :: other != slot.content ==> ReceiveCommand(c, slot.id, other, Admitted) == (c, IdReused)
  {
    FindsIt(c.slots, slot);
  }

  /** Capacity is refused exactly when a new command meets a cache full of running ones. */
  lemma CapacityIsAllRunning(c: Cache, id: string, content: string)
    requires Inv(c)
    ensures ReceiveCommand(c, id, content, Admitted).1.CapacityExceeded? <==>
            Find(c.slots, id).None? && |c.slots| == 256 && forall s :: s in c.slots ==> s.done.None?
  {
    FreshKeeps(c.slots, c.now);
    EvictsNoMoreThanNeeded(Fresh(c.slots, c.now));
    EvictedOldestFirst(Fresh(c.slots, c.now));
    if |Pruned(c.slots, c.now)| >= LIMIT {
      AllFresh(c.slots, c.now);
      assert Fresh(c.slots, c.now) == c.slots;
      NothingToEvict(c.slots);
    } else if forall s :: s in c.slots ==> s.done.None? {
      NothingStale(c.slots, c.now);
      NothingToEvict(c.slots);
    }
  }

  lemma {:induction false} AllFresh(slots: seq<Slot>, now: int)
    ensures |Fresh(slots, now)| <= |slots|
    ensures |Fresh(slots, now)| == |slots| ==> Fresh(slots, now) == slots
    decreases |slots|
  {
    if slots != [] { AllFresh(slots[1..], now); }
  }

  lemma {:induction false} NothingToEvict(slots: seq<Slot>)
    ensures |Evicted(slots)| <= |slots|
    ensures |Evicted(slots)| == |slots| ==> Evicted(slots) == slots
    ensures (forall s :: s in slots ==> s.done.None?) ==> Evicted(slots) == slots
    decreases |slots|
  {
    if |slots| >= LIMIT && Oldest(slots).Some? {
      assert slots[Oldest(slots).value] in slots;
      NothingToEvict(Without(slots, Oldest(slots).value));
    }
  }

  /** Commands run once for every time they are accepted, and only then. */
  lemma StartedOnlyWhenAccepted(c: Cache, e: Event)
    ensures Step(c, e).started ==
            if e.Receive? && ReceiveCommand(c, e.id, e.content, e.admission).1.Accepted? then c.started + [e.id] else c.started
  {
    hide Pruned;
  }

  // ---- In place ----

  /** The first i slots as they are, the rest without the stale ones. */
  function FreshFrom(slots: seq<Slot>, i: nat, now: int): seq<Slot>
    requires i <= |slots|
  {
    slots[..i] + Fresh(slots[i..], now)
  }

  lemma FreshBounds(slots: seq<Slot>, now: int)
    ensures FreshFrom(slots, 0, now) == Fresh(slots, now) && FreshFrom(slots, |slots|, now) == slots
  {
    assert slots[0..] == slots && slots[|slots|..] == [];
  }

  lemma FreshOne(slots: seq<Slot>, i: nat, now: int)
    requires i < |slots|
    ensures |Without(slots, i)| == |slots| - 1
    ensures if Stale(slots[i], now) then FreshFrom(Without(slots, i), i, now) == FreshFrom(slots, i, now)
            else FreshFrom(slots, i + 1, now) == FreshFrom(slots, i, now)
  {
    var tail, rest := slots[i..], Without(slots, i);
    assert tail[0] == slots[i] && tail[1..] == slots[i + 1..];
    assert rest[..i] == slots[..i] && rest[i..] == tail[1..];
    assert slots[..i + 1] == slots[..i] + [slots[i]];
  }

  class CommandCache {
    var slots: seq<Slot>
    var clock: int
    var nextAcknowledgement: nat
    ghost var started: seq<string>

    ghost function Model(): Cache
      reads this
    {
      Cache(slots, clock, nextAcknowledgement, started)
    }

    constructor (clock: int)
      ensures Model() == Cache([], clock, 0, []) && Inv(Model())
    {
      slots, this.clock, nextAcknowledgement, started := [], clock, 0, [];
    }

    method DropStale()
      modifies this`slots
      ensures slots == Fresh(old(slots), clock)
    {
      hide Stale, Fresh, Without, FreshFrom;
      var i := 0;
      FreshBounds(slots, clock);
      while i < |slots|
        invariant i <= |slots| && FreshFrom(slots, i, clock) == Fresh(old(slots), clock)
        decreases |slots| - i
      {
        FreshOne(slots, i, clock);
        if Stale(slots[i], clock) { slots := Without(slots, i); } else { i := i + 1; }
      }
      FreshBounds(slots, clock);
    }

    method PruneCommands()
      modifies this`slots
      ensures slots == Pruned(old(slots), clock)
    {
      DropStale();
      while |slots| >= LIMIT
        invariant Evicted(slots) == Evicted(Fresh(old(slots), clock))
        decreases |slots|
      {
        var oldest := Oldest(slots);
        if oldest.None? { break; }
        slots := Without(slots, oldest.value);
      }
    }

    method AcceptCommand(id: string, content: string, admission: Admission) returns (reply: Reply)
      modifies this
      ensures (Model(), reply) == ReceiveCommand(old(Model()), id, content, admission)
    {
      if admission.OtherWorker? { return WrongWorker; }
      if admission.OtherInstance? { return WrongInstance; }
      if admission.NotReconciled? { return Reconciling; }
      var cached := Find(slots, id);
      if cached.Some? {
        var slot := slots[cached.value];
        if slot.content != content { return IdReused; }
        return Replayed(slot.acknowledgement, ResultOf(slot));
      }
      PruneCommands();
      if |slots| >= LIMIT { return CapacityExceeded; }
      slots := slots + [Slot(id, content, nextAcknowledgement, None)];
      reply := Accepted(nextAcknowledgement);
      nextAcknowledgement := nextAcknowledgement + 1;
      started := started + [id];
    }

    method FinishCommand(id: string, result: nat)
      modifies this`slots
      ensures Model() == CompleteCommand(old(Model()), id, result)
    {
      var i := Find(slots, id);
      if i.Some? && slots[i.value].done.None? {
        slots := slots[i.value := slots[i.value].(done := Some(Done(result, clock)))];
      }
      PruneCommands();
    }
  }
}

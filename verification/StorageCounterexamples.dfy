/** Runs from an empty ledger, under a quota of ten, that end with twenty bytes or count twenty. */
module StorageCounterexamples {
  import opened Basics
  import opened StorageObservation
  import opened StorageUsage
  import opened StorageQuota
  import opened StorageRuns
  import opened Totals

  const NOTHING: Sizes := map[]

  function At(disk: Sizes, files: Sizes, rs: seq<Reservation>, scan: Option<Sizes>, releases: seq<Releasing>): World {
    World(disk, Ledger(Some(files), rs, Some(10), DiskOk, [[]], [], map[]), scan, releases)
  }

  function Empty(): World {
    At(NOTHING, NOTHING, [], None, [])
  }

  // ---- Small sums ----

  lemma NothingHeld(paths: set<Path>)
    ensures Held(NOTHING, paths) == 0 && NOTHING - paths == NOTHING && Sum(NOTHING) == 0
  {
    assert On(NOTHING, paths) == NOTHING;
  }

  lemma ChargeOfNothing(rs: seq<Reservation>)
    requires |rs| <= 2
    ensures Charge(NOTHING, rs) == (if |rs| > 0 then rs[0].bytes else 0) + if |rs| > 1 then rs[1].bytes else 0
  {
    NothingHeld({});
    if |rs| > 0 {
      NothingHeld(rs[0].paths);
      if |rs| > 1 {
        NothingHeld(rs[1].paths);
        assert rs[1..][0] == rs[1] && rs[1..][1..] == [];
      } else {
        assert rs[1..] == [];
      }
    }
  }

  lemma OneFile(p: Path, n: nat, paths: set<Path>)
    ensures var m: Sizes := map[p := n];
            && Held(m, paths) == (if p in paths then n else 0)
            && Sum(m) == n && m - paths == if p in paths then NOTHING else m
  {
    var m: Sizes := map[p := n];
    SumOne(p, n);
    NothingHeld(paths);
    if p in paths { assert On(m, paths) == m; } else { assert On(m, paths) == NOTHING && m - paths == m; }
  }

  lemma {:induction false} ChargeOfOneFile(p: Path, n: nat, rs: seq<Reservation>)
    requires |rs| <= 2 && forall i :: 0 < i < |rs| ==> p !in rs[i].paths
    ensures var m: Sizes := map[p := n];
            Charge(m, rs) == (if |rs| == 0 then n else if p in rs[0].paths then Max(rs[0].bytes, n) else rs[0].bytes + n)
                             + if |rs| > 1 then rs[1].bytes else 0
    decreases |rs|
  {
    OneFile(p, n, {});
    if |rs| > 0 {
      OneFile(p, n, rs[0].paths);
      if p in rs[0].paths { ChargeOfNothing(rs[1..]); } else { ChargeOfOneFile(p, n, rs[1..]); }
    }
  }

  // ---- Steps of the runs ----

  /** While nothing is observed, a reservation is granted if the bytes reserved stay within ten. */
  lemma Granted(w: World, key: string, bytes: nat, paths: set<Path>)
    requires w.ledger == At(w.disk, NOTHING, w.ledger.rs, None, []).ledger && bytes <= 10
    requires forall p :: p in paths ==> Canonical(p)
    requires var next := Put(w.ledger.rs, Extended(w.ledger.rs, key, bytes, paths));
             |w.ledger.rs| <= 1 && |next| <= 2 && Charge(NOTHING, next) <= 10
    requires Find(w.ledger.rs, key).None? ==> Charge(NOTHING, w.ledger.rs) < 10
    ensures Step(w, Reserved(key, "p", bytes, paths)) ==
            w.(ledger := w.ledger.(rs := Put(w.ledger.rs, Extended(w.ledger.rs, key, bytes, paths))))
    ensures Reserve(w.ledger, key, "p", bytes, paths).Success?
  {
    forall p | p in paths
      ensures ContainsPath([], p)
    {
      ContainsIsPrefix([], p);
    }
    var root: Path := [];
    assert root in [root];
    assert InRoots([[]], paths);
    hide Charge, ContainsPath;
  }

  /** The worlds a run goes through. */
  ghost predicate Passes(worlds: seq<World>, run: seq<Event>) {
    && |worlds| == |run| + 1
    && forall i :: 0 <= i < |run| ==> Fair(worlds[i], run[i]) && Step(worlds[i], run[i]) == worlds[i + 1]
  }

  lemma {:induction false} RunAlong(worlds: seq<World>, run: seq<Event>)
    requires Passes(worlds, run)
    ensures FairRun(worlds[0], run) && Run(worlds[0], run) == worlds[|run|]
    decreases |run|
  {
    if run != [] {
      hide Fair, Step;
      assert forall i :: 0 <= i < |run[1..]| ==> run[1..][i] == run[i + 1] && worlds[1..][i] == worlds[i + 1];
      RunAlong(worlds[1..], run[1..]);
    }
  }

  lemma AlwaysFair(w: World, e: Event)
    requires !e.Wrote? && !e.Reserved? && !e.Retained?
    ensures Fair(w, e)
  {}

  lemma EmptyIsSound()
    ensures Sound(Empty(), 10) && AllTrack(Empty())
  {
    ChargeOfNothing([]);
    assert AllPaths([]) == {};
    assert NOTHING - {} == NOTHING;
  }

  lemma FirstGrant(key: string, paths: set<Path>)
    requires forall p :: p in paths ==> Canonical(p)
    ensures Fair(Empty(), Reserved(key, "p", 10, paths))
    ensures Step(Empty(), Reserved(key, "p", 10, paths)) == At(NOTHING, NOTHING, [Reservation(key, 10, paths)], None, [])
  {
    var r := Reservation(key, 10, paths);
    assert {} + paths == paths;
    assert Put([], r) == [r];
    ChargeOfNothing([]);
    ChargeOfNothing([r]);
    Granted(Empty(), key, 10, paths);
  }

  lemma FirstWrite(w: World, p: Path)
    requires w.disk == NOTHING && |w.ledger.rs| == 1 && p in w.ledger.rs[0].paths && w.ledger.rs[0].bytes == 10
    ensures Fair(w, Wrote(0, map[p := 10])) && Step(w, Wrote(0, map[p := 10])) == w.(disk := map[p := 10])
  {
    OneFile(p, 10, w.ledger.rs[0].paths);
    NothingHeld(w.ledger.rs[0].paths);
  }

  lemma SecondGrant(disk: Sizes, rs: seq<Reservation>, b: Path)
    requires Canonical(b) && |rs| <= 1 && (|rs| == 1 ==> rs[0].bytes == 0 && rs[0].key == "a" && b !in rs[0].paths)
    ensures var w, next := At(disk, NOTHING, rs, None, []), rs + [Reservation("b", 10, {b})];
            Fair(w, Reserved("b", "p", 10, {b})) && Step(w, Reserved("b", "p", 10, {b})) == At(disk, NOTHING, next, None, [])
  {
    var w, r := At(disk, NOTHING, rs, None, []), Reservation("b", 10, {b});
    assert {} + {b} == {b};
    assert Find(rs, "b").None?;
    ChargeOfNothing(rs);
    ChargeOfNothing(rs + [r]);
    Granted(w, "b", 10, {b});
  }

  // ---- A reservation that shrinks below its bytes ----

  function ShrinkRun(a: Path, b: Path): seq<Event> {
    [Reserved("a", "p", 10, {a}), Wrote(0, map[a := 10]), Reserved("a", "p", 0, {}), Reserved("b", "p", 10, {b})]
  }

  lemma Shrinks(a: Path)
    ensures var w := At(map[a := 10], NOTHING, [Reservation("a", 10, {a})], None, []);
            Fair(w, Reserved("a", "p", 0, {})) && Step(w, Reserved("a", "p", 0, {})) ==
              At(map[a := 10], NOTHING, [Reservation("a", 0, {a})], None, [])
  {
    var w := At(map[a := 10], NOTHING, [Reservation("a", 10, {a})], None, []);
    var r := Reservation("a", 0, {a});
    assert {a} + {} == {a};
    assert Extended(w.ledger.rs, "a", 0, {}) == r && Put(w.ledger.rs, r) == [r];
    ChargeOfNothing([r]);
    Granted(w, "a", 0, {});
  }

  /** Every step but the shrinking one is careful; it lets the quota be passed. */
  lemma ShrinkingBelowTheDisk(a: Path, b: Path)
    requires a != b && Canonical(a) && Canonical(b)
    ensures Sound(Empty(), 10) && FairRun(Empty(), ShrinkRun(a, b))
    ensures var t := Run(Empty(), ShrinkRun(a, b)); Charge(t.disk, t.ledger.rs) == 20
    ensures !CarefulRun(Empty(), ShrinkRun(a, b))
  {
    hide Step, Fair, Charge, Sound, FairRun, CarefulRun;
    var run := ShrinkRun(a, b);
    var ra := Reservation("a", 10, {a});
    var w1, w2, w3 := At(NOTHING, NOTHING, [ra], None, []), At(map[a := 10], NOTHING, [ra], None, []),
      At(map[a := 10], NOTHING, [Reservation("a", 0, {a})], None, []);
    var w4 := At(map[a := 10], NOTHING, [Reservation("a", 0, {a}), Reservation("b", 10, {b})], None, []);
    EmptyIsSound();
    FirstGrant("a", {a});
    FirstWrite(w1, a);
    Shrinks(a);
    SecondGrant(w3.disk, w3.ledger.rs, b);
    ChargeOfOneFile(a, 10, w4.ledger.rs);
    RunAlong([Empty(), w1, w2, w3, w4], run);
    OverQuotaIsCareless(run);
  }

  lemma OverQuotaIsCareless(run: seq<Event>)
    requires Sound(Empty(), 10) && FairRun(Empty(), run)
    requires var t := Run(Empty(), run); Charge(t.disk, t.ledger.rs) > 10
    ensures !CarefulRun(Empty(), run)
  {
    if CarefulRun(Empty(), run) { QuotaHolds(Empty(), 10, run); }
  }

  // ---- A release that looked too early ----

  function StaleRun(a: Path, b: Path): seq<Event> {
    [Reserved("a", "p", 10, {a}), ReleaseCalled("a"), ReleaseLooked(0, a), Wrote(0, map[a := 10]), ReleaseDone(0),
     Reserved("b", "p", 10, {b})]
  }

  lemma CallsAndLooks(a: Path)
    ensures var w := At(NOTHING, NOTHING, [Reservation("a", 10, {a})], None, []);
            && Step(w, ReleaseCalled("a")) == w.(releases := [Releasing("a", {a}, {a}, NOTHING)])
            && Step(w.(releases := [Releasing("a", {a}, {a}, NOTHING)]), ReleaseLooked(0, a)) ==
                 w.(releases := [Releasing("a", {a}, {}, NOTHING)])
  {
    assert {a} - {a} == {};
    assert NOTHING - {a} == NOTHING;
  }

  lemma EndsStale(a: Path)
    ensures Step(At(map[a := 10], NOTHING, [Reservation("a", 10, {a})], None, [Releasing("a", {a}, {}, NOTHING)]),
                 ReleaseDone(0)) == At(map[a := 10], NOTHING, [], None, [])
  {
    assert Restat(NOTHING, {a}, NOTHING) == NOTHING;
  }

  /** Every step but the end of the release is careful; it lets the quota be passed. */
  lemma StaleRelease(a: Path, b: Path)
    requires a != b && Canonical(a) && Canonical(b)
    ensures Sound(Empty(), 10) && FairRun(Empty(), StaleRun(a, b))
    ensures var t := Run(Empty(), StaleRun(a, b)); Charge(t.disk, t.ledger.rs) == 20
    ensures !CarefulRun(Empty(), StaleRun(a, b))
  {
    hide Step, Fair, Charge, Sound;
    var run := StaleRun(a, b);
    var ra, f := [Reservation("a", 10, {a})], Releasing("a", {a}, {}, NOTHING);
    var w1 := At(NOTHING, NOTHING, ra, None, []);
    var w2, w3 := w1.(releases := [Releasing("a", {a}, {a}, NOTHING)]), w1.(releases := [f]);
    var w4, w5 := At(map[a := 10], NOTHING, ra, None, [f]), At(map[a := 10], NOTHING, [], None, []);
    var w6 := At(map[a := 10], NOTHING, [Reservation("b", 10, {b})], None, []);
    EmptyIsSound();
    FirstGrant("a", {a});
    CallsAndLooks(a);
    FirstWrite(w3, a);
    EndsStale(a);
    SecondGrant(w5.disk, [], b);
    assert [] + [Reservation("b", 10, {b})] == w6.ledger.rs;
    ChargeOfOneFile(a, 10, w6.ledger.rs);
    AlwaysFair(w1, run[1]);
    AlwaysFair(w2, run[2]);
    AlwaysFair(w4, run[4]);
    RunAlong([Empty(), w1, w2, w3, w4, w5, w6], run);
    OverQuotaIsCareless(run);
  }

  // ---- A scan during a rename ----

  function RenameRun(a: Path, b: Path): seq<Event> {
    [Reserved("k", "p", 10, {a, b}), Wrote(0, map[a := 10]), ScanBegun, Wrote(0, map[b := 10]), ScanLooked(b), ScanEnded]
  }

  lemma Renames(w: World, a: Path, b: Path)
    requires a != b && w.disk == map[a := 10] && |w.ledger.rs| == 1 && {a, b} <= w.ledger.rs[0].paths
    requires w.ledger.rs[0].bytes == 10
    ensures Fair(w, Wrote(0, map[b := 10])) && Step(w, Wrote(0, map[b := 10])) == w.(disk := map[b := 10])
  {
    OneFile(a, 10, w.ledger.rs[0].paths);
    OneFile(b, 10, w.ledger.rs[0].paths);
  }

  lemma Scans(a: Path, b: Path, rs: seq<Reservation>)
    requires a != b
    ensures var w, both := At(map[a := 10], NOTHING, rs, None, []), map[a := 10, b := 10];
            && Step(w, ScanBegun) == w.(scan := Some(map[a := 10]))
            && Step(At(map[b := 10], NOTHING, rs, Some(map[a := 10]), []), ScanLooked(b)) ==
                 At(map[b := 10], NOTHING, rs, Some(both), [])
            && Step(At(map[b := 10], NOTHING, rs, Some(both), []), ScanEnded) == At(map[b := 10], both, rs, None, [])
  {
    assert Look(map[a := 10], map[b := 10], b) == map[a := 10, b := 10];
  }

  lemma TwoFiles(a: Path, b: Path)
    requires a != b
    ensures Charge(map[a := 10, b := 10], [Reservation("k", 10, {a, b})]) == 20
  {
    var m: Sizes := map[a := 10, b := 10];
    SumRemove(m, a);
    assert m - {a} == map[b := 10];
    SumOne(b, 10);
    assert On(m, {a, b}) == m && m - {a, b} == NOTHING;
    NothingHeld({});
    assert [Reservation("k", 10, {a, b})][1..] == [];
  }

  /** A scan under way while a transfer renames its file may count the bytes twice. */
  lemma ScanMayCountTwice(a: Path, b: Path)
    requires a != b && Canonical(a) && Canonical(b)
    ensures FairRun(Empty(), RenameRun(a, b))
    ensures var t := Run(Empty(), RenameRun(a, b));
            t.ledger.files.Some? && Charge(t.ledger.files.value, t.ledger.rs) == 20 && Charge(t.disk, t.ledger.rs) == 10
  {
    hide Step, Fair, Charge;
    var run, rs := RenameRun(a, b), [Reservation("k", 10, {a, b})];
    var both: Sizes := map[a := 10, b := 10];
    var w1, w2 := At(NOTHING, NOTHING, rs, None, []), At(map[a := 10], NOTHING, rs, None, []);
    var w3, w4 := w2.(scan := Some(map[a := 10])), At(map[b := 10], NOTHING, rs, Some(map[a := 10]), []);
    var w5, w6 := w4.(scan := Some(both)), At(map[b := 10], both, rs, None, []);
    FirstGrant("k", {a, b});
    FirstWrite(w1, a);
    Renames(w3, a, b);
    TwoFiles(a, b);
    ChargeOfOneFile(b, 10, rs);
    Scans(a, b, rs);
    AlwaysFair(w2, run[2]);
    AlwaysFair(w4, run[4]);
    AlwaysFair(w5, run[5]);
    RunAlong([Empty(), w1, w2, w3, w4, w5, w6], run);
  }
}

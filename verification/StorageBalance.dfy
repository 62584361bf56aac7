/** What a step does to the gap between what is observed and what lies on disk, and when that breaks a quota. */
module StorageBalance {
  import opened Basics
  import opened StorageObservation
  import opened StorageUsage
  import opened StorageQuota
  import opened StorageRuns
  import opened Totals

  /** The observation counts no less than the disk. */
  ghost predicate Honest(disk: Sizes, files: Sizes, rs: seq<Reservation>) {
    Charge(disk, rs) <= Charge(files, rs)
  }

  // ---- A grant is as safe as the observation is honest ----

  lemma ChargeOfFirst(m: Sizes, rs: seq<Reservation>, r: Reservation)
    requires Disjoint(rs) && Disjoint(rs + [r]) && On(m, r.paths) == map[]
    ensures Charge(m, rs + [r]) == Charge(m, rs) + r.bytes
  {
    UsageFormula(m, rs);
    UsageFormula(m, rs + [r]);
    UnfilledAppended(m, rs, r);
  }

  /** All that the ledger believes is left can be granted to a fresh key, and not a byte more. */
  lemma LargestGrant(l: Ledger, key: string, profile: string, p: Path, n: nat)
    requires l.quota.Some? && l.quota.value < MAX_SAFE_INTEGER && l.files.Some? && p !in l.files.value
    requires Find(l.rs, key).None? && Admission(l, profile).None? && InRoots(l.roots, {p})
    requires Disjoint(l.rs) && Disjoint(l.rs + [Reservation(key, n, {p})])
    ensures Reserve(l, key, profile, n, {p}).Success? <==> n <= l.quota.value - Charge(l.files.value, l.rs)
    ensures Reserve(l, key, profile, n, {p}).Success? ==>
              Reserve(l, key, profile, n, {p}).value == l.(rs := l.rs + [Reservation(key, n, {p})])
  {
    hide Admission;
    assert {} + {p} == {p};
    assert On(l.files.value, {p}) == map[];
    ChargeOfFirst(l.files.value, l.rs, Reservation(key, n, {p}));
  }

  lemma AdmissionLeavesRoom(l: Ledger, profile: string)
    requires l.quota.Some? && l.quota.value < MAX_SAFE_INTEGER && l.files.Some? && Admission(l, profile).None?
    ensures Charge(l.files.value, l.rs) < l.quota.value
  {}

  /** Granting it keeps the disk within the quota exactly if the observation is honest. */
  lemma LargestGrantIsSafeExactly(disk: Sizes, l: Ledger, key: string, profile: string, p: Path)
    requires l.quota.Some? && l.quota.value < MAX_SAFE_INTEGER && l.files.Some? && p !in l.files.value && p !in disk
    requires Find(l.rs, key).None? && Admission(l, profile).None? && InRoots(l.roots, {p})
    requires Disjoint(l.rs) && forall i :: 0 <= i < |l.rs| ==> p !in l.rs[i].paths
    ensures Charge(l.files.value, l.rs) < l.quota.value
    ensures var n := l.quota.value - Charge(l.files.value, l.rs);
            && Reserve(l, key, profile, n, {p}).Success?
            && (Charge(disk, Reserve(l, key, profile, n, {p}).value.rs) <= l.quota.value <==>
                  Honest(disk, l.files.value, l.rs))
  {
    AdmissionLeavesRoom(l, profile);
    hide Admission, Reserve, Charge;
    var n := l.quota.value - Charge(l.files.value, l.rs);
    var r := Reservation(key, n, {p});
    assert Disjoint(l.rs + [r]);
    LargestGrant(l, key, profile, p, n);
    assert On(disk, {p}) == map[];
    ChargeOfFirst(disk, l.rs, r);
  }

  // ---- What one step does to the gap ----

  /** A reservation changes; each side changes by what that reservation lacks on it. */
  lemma PutBalance(m: Sizes, rs: seq<Reservation>, r: Reservation)
    requires Disjoint(rs) && Disjoint(Put(rs, r))
    ensures Charge(m, Put(rs, r)) == Charge(m, rs) + Unfilled(m, r)
              - match Find(rs, r.key) case None => 0 case Some(i) => Unfilled(m, rs[i])
  {
    UsageFormula(m, rs);
    UsageFormula(m, Put(rs, r));
    match Find(rs, r.key)
    case None => UnfilledAppended(m, rs, r);
    case Some(i) => UnfilledReplaced(m, rs, i, r);
  }

  /**
   Re-reserving a key on its own paths keeps the observation honest exactly if what it
   then counts too little for that key is made up for elsewhere.
   */
  lemma ReReserveExact(disk: Sizes, files: Sizes, rs: seq<Reservation>, i: nat, bytes: nat)
    requires Disjoint(rs) && i < |rs| && Find(rs, rs[i].key) == Some(i)
    ensures var r := Reservation(rs[i].key, bytes, rs[i].paths);
            var (d, f) := (Held(disk, rs[i].paths), Held(files, rs[i].paths));
            Honest(disk, files, Put(rs, r)) <==>
              Max(bytes, d) - Max(bytes, f) <=
                (Charge(files, rs) - Max(rs[i].bytes, f)) - (Charge(disk, rs) - Max(rs[i].bytes, d))
  {
    var r := Reservation(rs[i].key, bytes, rs[i].paths);
    assert Disjoint(Put(rs, r));
    PutBalance(disk, rs, r);
    PutBalance(files, rs, r);
  }

  /**
   While nothing is miscounted and the key's bytes are inside its reservation, that is
   exactly if the bytes on its paths fit what is asked for, or were observed.
   */
  lemma ShrinkExact(disk: Sizes, files: Sizes, rs: seq<Reservation>, i: nat, bytes: nat)
    requires Disjoint(rs) && i < |rs| && Find(rs, rs[i].key) == Some(i)
    requires Charge(disk, rs) == Charge(files, rs)
    requires Held(disk, rs[i].paths) <= rs[i].bytes && Held(files, rs[i].paths) <= rs[i].bytes
    ensures Honest(disk, files, Put(rs, Reservation(rs[i].key, bytes, rs[i].paths))) <==>
            Held(disk, rs[i].paths) <= Max(bytes, Held(files, rs[i].paths))
  {
    ReReserveExact(disk, files, rs, i, bytes);
  }

  lemma WithoutBalance(m: Sizes, rs: seq<Reservation>, i: nat)
    requires Disjoint(rs) && i < |rs|
    ensures Disjoint(Without(rs, i)) && Charge(m, Without(rs, i)) == Charge(m, rs) - Unfilled(m, rs[i])
  {
    RestMembers(rs, i);
    UsageFormula(m, rs);
    UsageFormula(m, Without(rs, i));
    UnfilledWithout(m, rs, i);
  }

  /** A release ends: each side loses the reservation, and the observation takes what was found for what was there. */
  lemma ReleaseBalance(disk: Sizes, files: Sizes, rs: seq<Reservation>, i: nat, found: Sizes)
    requires Disjoint(rs) && i < |rs|
    ensures var (paths, rest) := (rs[i].paths, Without(rs, i));
            && Charge(disk, rest) == Charge(disk, rs) - Max(rs[i].bytes, Held(disk, paths)) + Held(disk, paths)
            && Charge(Restat(files, paths, found), rest) ==
                 Charge(files, rs) - Max(rs[i].bytes, Held(files, paths)) + Held(found, paths)
  {
    hide Restat, On, Held, Disjoint, Charge, Without;
    var paths, rest := rs[i].paths, Without(rs, i);
    var after := Restat(files, paths, found);
    WithoutBalance(disk, rs, i);
    WithoutBalance(files, rs, i);
    UsageFormula(files, rest);
    UsageFormula(after, rest);
    RestatSum(files, paths, found);
    OthersApart(rs, i);
    UnfilledElsewhere(files, paths, rest);
    UnfilledElsewhere(after, paths, rest);
  }

  lemma OthersApart(rs: seq<Reservation>, i: nat)
    requires Disjoint(rs) && i < |rs|
    ensures forall j :: 0 <= j < |Without(rs, i)| ==> rs[i].paths !! Without(rs, i)[j].paths
  {
    RestMembers(rs, i);
  }

  lemma RestatSum(files: Sizes, paths: set<Path>, found: Sizes)
    ensures Sum(Restat(files, paths, found)) + Held(files, paths) == Sum(files) + Held(found, paths)
    ensures Restat(files, paths, found) - paths == files - paths
  {
    var after := Restat(files, paths, found);
    SumSplit(files, paths);
    SumSplit(after, paths);
    assert On(after, paths) == On(found, paths) && after - paths == files - paths;
  }

  /**
   A release keeps the observation honest exactly if what it then counts too little on the
   key's paths is made up for elsewhere.
   */
  lemma ReleaseHonestExactly(disk: Sizes, files: Sizes, rs: seq<Reservation>, i: nat, found: Sizes)
    requires Disjoint(rs) && i < |rs|
    ensures var (d, f) := (Held(disk, rs[i].paths), Held(files, rs[i].paths));
            Honest(disk, Restat(files, rs[i].paths, found), Without(rs, i)) <==>
              d - Held(found, rs[i].paths) <=
                (Charge(files, rs) - Max(rs[i].bytes, f)) - (Charge(disk, rs) - Max(rs[i].bytes, d))
  {
    ReleaseBalance(disk, files, rs, i, found);
  }

  /** Whatever was reserved under a key while it was being released is gone when the release ends. */
  lemma LaterReservationIsLost(w: World, call: nat)
    requires OneEach(w.ledger.rs) && MayFinish(w, call)
    ensures Find(Step(w, ReleaseDone(call)).ledger.rs, w.releases[call].key).None?
  {
    var rs, key := w.ledger.rs, w.releases[call].key;
    if Find(rs, key).Some? { RestMembers(rs, Find(rs, key).value); }
  }

  // ---- When two sides count the same ----

  lemma SumOfLess(less: Sizes, more: Sizes, p: Path)
    requires forall x :: x in less ==> less[x] <= SizeAt(more, x)
    requires SizeAt(less, p) < SizeAt(more, p)
    ensures Sum(less) < Sum(more)
  {
    SumRemove(more, p);
    if p in less { SumRemove(less, p); } else { assert less - {p} == less; }
    SumOfNoLess(less - {p}, more - {p});
  }

  lemma TailsBehind(a: Sizes, b: Sizes, rs: seq<Reservation>)
    requires Disjoint(rs) && rs != [] && Lags(a, b, rs[0]) && Behind(a - rs[0].paths, b - rs[0].paths, rs[1..])
    ensures Behind(a, b, rs)
  {
    var paths := rs[0].paths;
    SplitPaths(rs, 0);
    assert Without(rs, 0) == rs[1..];
    forall p | p in a && p !in AllPaths(rs)
      ensures a[p] <= SizeAt(b, p)
    {
      assert p in a - paths && p !in AllPaths(rs[1..]);
    }
    forall i | 0 < i < |rs|
      ensures Lags(a, b, rs[i])
    {
      HeldElsewhere(a, paths, rs[i].paths);
      HeldElsewhere(b, paths, rs[i].paths);
      assert rs[1..][i - 1] == rs[i];
    }
  }

  /** Where nothing counts less, the totals are equal exactly if nothing counts more either. */
  lemma {:induction false} SameChargeExactly(a: Sizes, b: Sizes, rs: seq<Reservation>)
    requires Disjoint(rs) && Behind(a, b, rs)
    ensures Charge(b, rs) <= Charge(a, rs) <==> Behind(b, a, rs)
    decreases |rs|
  {
    if Behind(b, a, rs) {
      BehindCharges(b, a, rs);
    } else if rs == [] {
      var p :| p in b && SizeAt(a, p) < b[p];
      SumOfLess(a, b, p);
    } else {
      var paths := rs[0].paths;
      assert Lags(a, b, rs[0]);
      BehindTail(a, b, rs);
      BehindCharges(a - paths, b - paths, rs[1..]);
      SameChargeExactly(a - paths, b - paths, rs[1..]);
      if Lags(b, a, rs[0]) && Behind(b - paths, a - paths, rs[1..]) { TailsBehind(b, a, rs); }
    }
  }

  // ---- A scan that overlaps with writes ----

  lemma RestatFollows(disk: Sizes, scan: Sizes, rs: seq<Reservation>, again: set<Path>)
    requires Follows(disk, scan, rs)
    ensures Follows(disk, Restat(scan, again, disk), rs)
  {
    forall i | 0 <= i < |rs|
      ensures Seen(disk, Restat(scan, again, disk), rs[i])
    {
      assert Seen(disk, scan, rs[i]);
    }
  }

  /** The scan as it would be had everything but one path been looked at again. */
  lemma AllButOne(disk: Sizes, scan: Sizes, rs: seq<Reservation>, p: Path)
    requires Disjoint(rs) && p in disk && SizeAt(scan, p) < disk[p]
    requires p in AllPaths(rs) ==> exists i :: 0 <= i < |rs| && p in rs[i].paths && rs[i].bytes < Held(disk, rs[i].paths)
    ensures !Honest(disk, Restat(scan, (disk.Keys + scan.Keys) - {p}, disk), rs)
  {
    var mix := Restat(scan, (disk.Keys + scan.Keys) - {p}, disk);
    assert forall x :: x != p ==> SizeAt(mix, x) == SizeAt(disk, x);
    assert SizeAt(mix, p) == SizeAt(scan, p);
    assert forall paths :: NoLess(mix, disk, paths);
    forall i | 0 <= i < |rs|
      ensures Lags(mix, disk, rs[i])
    {
      HeldOfNoLess(mix, disk, rs[i].paths);
    }
    if p in AllPaths(rs) {
      var i :| 0 <= i < |rs| && p in rs[i].paths && rs[i].bytes < Held(disk, rs[i].paths);
      SumOfLess(On(mix, rs[i].paths), On(disk, rs[i].paths), p);
      assert !Lags(disk, mix, rs[i]);
    }
    SameChargeExactly(mix, disk, rs);
  }

  /**
   What is asked of a scan under way is exactly that it would end as an honest observation
   whatever it looks at again.
   */
  lemma ScanEndsHonestExactly(disk: Sizes, scan: Sizes, rs: seq<Reservation>)
    requires Disjoint(rs)
    ensures Follows(disk, scan, rs) <==> forall again :: Honest(disk, Restat(scan, again, disk), rs)
  {
    hide Restat, Honest, Seen, Held, NoLessOff;
    if Follows(disk, scan, rs) {
      forall again
        ensures Honest(disk, Restat(scan, again, disk), rs)
      {
        FollowedIsHonest(disk, scan, rs, again);
      }
    } else {
      var p := MissedPath(disk, scan, rs);
      AllButOne(disk, scan, rs, p);
    }
  }

  lemma FollowedIsHonest(disk: Sizes, scan: Sizes, rs: seq<Reservation>, again: set<Path>)
    requires Disjoint(rs) && Follows(disk, scan, rs)
    ensures Honest(disk, Restat(scan, again, disk), rs)
  {
    RestatFollows(disk, scan, rs, again);
    FollowsIsBehind(disk, Restat(scan, again, disk), rs);
    BehindCharges(disk, Restat(scan, again, disk), rs);
  }

  lemma MissedPath(disk: Sizes, scan: Sizes, rs: seq<Reservation>) returns (p: Path)
    requires Disjoint(rs) && !Follows(disk, scan, rs)
    ensures p in disk && SizeAt(scan, p) < disk[p]
    ensures p in AllPaths(rs) ==> exists i :: 0 <= i < |rs| && p in rs[i].paths && rs[i].bytes < Held(disk, rs[i].paths)
  {
    if !NoLessOff(disk, scan, AllPaths(rs)) {
      p :| p in disk && p !in AllPaths(rs) && SizeAt(scan, p) < disk[p];
    } else {
      var i :| 0 <= i < |rs| && !Seen(disk, scan, rs[i]);
      p :| p in rs[i].paths && p in disk && SizeAt(scan, p) < disk[p];
    }
  }

  /** Off all reservations a scan has seen what is there. */
  ghost predicate SeesOutside(w: World) {
    w.scan.Some? ==> SameElsewhere(w.disk, w.scan.value, AllPaths(w.ledger.rs))
  }

  lemma PutOutside(w: World, r: Reservation)
    requires SeesOutside(w) && Previous(w.ledger.rs, r.key) <= r.paths
    ensures SeesOutside(WithPut(w, r))
  {
    PutPaths(w.ledger.rs, r);
    var less, more := AllPaths(w.ledger.rs), AllPaths(Put(w.ledger.rs, r));
    assert w.disk - more == (w.disk - less) - more;
    if w.scan.Some? { assert w.scan.value - more == (w.scan.value - less) - more; }
  }

  lemma WriteOutside(was: Sizes, now: Sizes, paths: set<Path>, all: set<Path>)
    requires SameElsewhere(was, now, paths) && paths <= all
    ensures was - all == now - all
  {
    assert was - all == (was - paths) - all && now - all == (now - paths) - all;
  }

  lemma LookOutside(disk: Sizes, scan: Sizes, p: Path, out: set<Path>)
    requires SameElsewhere(disk, scan, out)
    ensures SameElsewhere(disk, Look(scan, disk, p), out)
  {
    forall x | x !in out
      ensures (x in disk <==> x in Look(scan, disk, p)) && (x in disk ==> disk[x] == Look(scan, disk, p)[x])
    {
      SameOff(disk, scan, x, out);
    }
  }

  lemma StepSeesOutside(w: World, e: Event)
    requires SeesOutside(w) && Fair(w, e)
    ensures SeesOutside(Step(w, e))
  {
    hide SameElsewhere, Admission;
    var rs := w.ledger.rs;
    match e
    case Wrote(i, disk) => WroteSeesOutside(w, i, disk);
    case Reserved(key, profile, bytes, paths) =>
      if Reserve(w.ledger, key, profile, bytes, paths).Success? { PutOutside(w, Extended(rs, key, bytes, paths)); }
    case Retained(key, bytes, paths) => PutOutside(w, Extended(rs, key, bytes, paths));
    case ScanBegun => SameAsItself(w.disk, AllPaths(rs));
    case ScanLooked(p) => if w.scan.Some? { LookOutside(w.disk, w.scan.value, p, AllPaths(rs)); }
    case _ =>
  }

  lemma SameAsItself(m: Sizes, out: set<Path>)
    ensures SameElsewhere(m, m, out)
  {}

  lemma WroteSeesOutside(w: World, i: nat, disk: Sizes)
    requires SeesOutside(w) && Fair(w, Wrote(i, disk))
    ensures SeesOutside(Step(w, Wrote(i, disk)))
  {
    assert w.ledger.rs[i].paths <= AllPaths(w.ledger.rs);
    WriteOutside(w.disk, disk, w.ledger.rs[i].paths, AllPaths(w.ledger.rs));
  }

  lemma {:induction false} RunSeesOutside(w: World, run: seq<Event>)
    requires SeesOutside(w) && FairRun(w, run)
    ensures SeesOutside(Run(w, run))
    decreases |run|
  {
    if run != [] {
      hide Fair, Step, SeesOutside;
      StepSeesOutside(w, run[0]);
      RunSeesOutside(Step(w, run[0]), run[1..]);
    }
  }

  /**
   At any moment of a careful run, a scan under way has counted more than lies there
   exactly if it has seen more for some reservation than both its bytes and what lies
   on its paths.
   */
  lemma ScanCountsMoreExactly(w: World, q: nat, run: seq<Event>)
    requires Sound(w, q) && q < MAX_SAFE_INTEGER && SeesOutside(w) && FairRun(w, run) && CarefulRun(w, run)
    requires Run(w, run).scan.Some?
    ensures var t := Run(w, run);
            Charge(t.disk, t.ledger.rs) < Charge(t.scan.value, t.ledger.rs) <==>
              exists i :: 0 <= i < |t.ledger.rs| && !Lags(t.scan.value, t.disk, t.ledger.rs[i])
  {
    hide Charge, Lags, FairRun, CarefulRun;
    QuotaHolds(w, q, run);
    RunSeesOutside(w, run);
    ScanExact(Run(w, run), q);
  }

  lemma ScanExact(w: World, q: nat)
    requires Sound(w, q) && w.scan.Some? && SeesOutside(w)
    ensures Charge(w.scan.value, w.ledger.rs) <= Charge(w.disk, w.ledger.rs) <==>
            forall i :: 0 <= i < |w.ledger.rs| ==> Lags(w.scan.value, w.disk, w.ledger.rs[i])
  {
    hide Lags, Charge;
    var scan, rs := w.scan.value, w.ledger.rs;
    FollowsIsBehind(w.disk, scan, rs);
    SameChargeExactly(w.disk, scan, rs);
    forall p | p in scan && p !in AllPaths(rs)
      ensures scan[p] <= SizeAt(w.disk, p)
    {
      SameOff(w.disk, scan, p, AllPaths(rs));
    }
  }
}

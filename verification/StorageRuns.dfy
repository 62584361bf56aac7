/**
 The Worker's ledger beside the real disk, over whole runs. Scans and releases take
 time: between their first look at the disk and their last word about it, transfers
 write, reserve and retain.
 */
module StorageRuns {
  import opened Basics
  import opened StorageObservation
  import opened StorageUsage
  import opened StorageQuota
  import opened Totals

  /** A release under way: the paths its key had when it was called, and what lstat has said so far. */
  datatype Releasing = Releasing(key: string, paths: set<Path>, todo: set<Path>, found: Sizes)

  /** `scan` is what a scan under way has seen; it ends as the new observation. */
  datatype World = World(disk: Sizes, ledger: Ledger, scan: Option<Sizes>, releases: seq<Releasing>)

  datatype Event =
    | Wrote(index: nat, disk: Sizes)  // files on one reservation's paths change
    | ScanBegun
    | ScanLooked(path: Path)
    | ScanEnded
    | ScanFailed
    | Reserved(key: string, profile: string, bytes: int, paths: set<Path>)
    | Retained(key: string, size: nat, paths: set<Path>)
    | ReleaseCalled(key: string)
    | ReleaseLooked(call: nat, path: Path)
    | ReleaseDone(call: nat)

  /** What one look at a path changes in what has been seen. */
  function Look(seen: Sizes, disk: Sizes, p: Path): Sizes {
    if p in disk then seen[p := disk[p]] else seen - {p}
  }

  /** A release waits for all its looks, and for the scan that may be under way. */
  predicate MayFinish(w: World, call: nat) {
    call < |w.releases| && w.releases[call].todo == {} && w.scan.None?
  }

  ghost function Step(w: World, e: Event): World {
    var l := w.ledger;
    match e
    case Wrote(_, disk) => w.(disk := disk)
    case ScanBegun => if w.scan.Some? then w else w.(scan := Some(w.disk))
    case ScanLooked(p) => if w.scan.Some? then w.(scan := Some(Look(w.scan.value, w.disk, p))) else w
    case ScanEnded => if w.scan.Some? then w.(ledger := l.(files := w.scan), scan := None) else w
    case ScanFailed => if w.scan.Some? then w.(ledger := l.(files := None), scan := None) else w
    case Reserved(key, profile, bytes, paths) =>
      var r := Reserve(l, key, profile, bytes, paths);
      if r.Success? then w.(ledger := r.value) else w
    case Retained(key, bytes, paths) => w.(ledger := Retain(l, key, bytes, paths))
    case ReleaseCalled(key) =>
      (match Find(l.rs, key)
       case None => w
       case Some(i) => w.(releases := w.releases + [Releasing(key, l.rs[i].paths, l.rs[i].paths, map[])]))
    case ReleaseLooked(call, p) =>
      if call < |w.releases| && p in w.releases[call].todo then
        var f := w.releases[call];
        w.(releases := w.releases[call := f.(todo := f.todo - {p}, found := Look(f.found, w.disk, p))])
      else w
    case ReleaseDone(call) =>
      if MayFinish(w, call) then
        var f := w.releases[call];
        w.(ledger := FinishRelease(l, f.key, f.paths, f.found), releases := Without(w.releases, call))
      else w
  }

  // ---- What keeps the quota ----

  ghost function AllPaths(rs: seq<Reservation>): set<Path> {
    set i, p | 0 <= i < |rs| && p in rs[i].paths :: p
  }

  ghost predicate SameElsewhere(a: Sizes, b: Sizes, paths: set<Path>) {
    a - paths == b - paths
  }

  /** The observation counts no less for a reservation than the disk does. */
  ghost predicate Lags(disk: Sizes, files: Sizes, r: Reservation) {
    Max(r.bytes, Held(disk, r.paths)) <= Max(r.bytes, Held(files, r.paths))
  }

  /** Path by path, what was seen counts no less than the disk. */
  ghost predicate NoLess(disk: Sizes, seen: Sizes, paths: set<Path>) {
    forall p :: p in paths && p in disk ==> disk[p] <= SizeAt(seen, p)
  }

  /** The same on every path but some. */
  ghost predicate NoLessOff(disk: Sizes, seen: Sizes, out: set<Path>) {
    forall p :: p in disk && p !in out ==> disk[p] <= SizeAt(seen, p)
  }

  /** The observation counts no less than the disk: for each reservation, and on each path outside them. */
  ghost predicate Behind(disk: Sizes, files: Sizes, rs: seq<Reservation>) {
    && NoLessOff(disk, files, AllPaths(rs))
    && forall i :: 0 <= i < |rs| ==> Lags(disk, files, rs[i])
  }

  /** What a scan may look at again without counting less: bytes within the reservation, or seen path by path. */
  ghost predicate Seen(disk: Sizes, scan: Sizes, r: Reservation) {
    Held(disk, r.paths) <= r.bytes || NoLess(disk, scan, r.paths)
  }

  ghost predicate Follows(disk: Sizes, scan: Sizes, rs: seq<Reservation>) {
    && NoLessOff(disk, scan, AllPaths(rs))
    && forall i :: 0 <= i < |rs| ==> Seen(disk, scan, rs[i])
  }

  /** Releases under way are for paths that no other key has. */
  ghost predicate Apart(releases: seq<Releasing>, rs: seq<Reservation>) {
    forall f, i :: 0 <= f < |releases| && 0 <= i < |rs| && rs[i].key != releases[f].key ==>
      rs[i].paths !! releases[f].paths
  }

  ghost predicate OneEach(rs: seq<Reservation>) {
    forall i, j :: 0 <= i < j < |rs| ==> rs[i].key != rs[j].key
  }

  /**
   The bytes on disk and in reservations are within the quota, and the observation counts
   no less for any reservation or on any path outside. A scan under way has seen enough to
   end that way, whatever it looks at again.
   */
  ghost predicate Sound(w: World, q: nat) {
    var l := w.ledger;
    && Disjoint(l.rs) && OneEach(l.rs) && Apart(w.releases, l.rs)
    && l.quota == Some(q)
    && Charge(w.disk, l.rs) <= q
    && (l.files.Some? ==> Behind(w.disk, l.files.value, l.rs))
    && (w.scan.Some? ==> Follows(w.disk, w.scan.value, l.rs))
  }

  /** The reservation a key would have is for paths of its own. */
  ghost predicate OwnPaths(w: World, r: Reservation) {
    && Disjoint(Put(w.ledger.rs, r))
    && forall f :: 0 <= f < |w.releases| && w.releases[f].key != r.key ==> r.paths !! w.releases[f].paths
  }

  /**
   The bytes on the reservation's paths fit it, or the observation already has as many
   there; and a scan under way has seen them if they do not fit.
   */
  ghost predicate Counted(w: World, r: Reservation) {
    && (w.ledger.files.Some? ==> Held(w.disk, r.paths) <= Max(r.bytes, Held(w.ledger.files.value, r.paths)))
    && (w.scan.Some? ==> Seen(w.disk, w.scan.value, r))
  }

  /** Each path of the release holds no more than was found there, and paths added since no more than was observed. */
  ghost predicate NoMoreThanFound(w: World, f: Releasing) {
    w.ledger.files.Some? ==>
      && NoLess(w.disk, f.found, f.paths)
      && NoLess(w.disk, w.ledger.files.value, Previous(w.ledger.rs, f.key) - f.paths)
  }

  /** Retaining adds nothing to what the key already counts, or to its files. */
  ghost predicate RetainsItsSize(sizes: Sizes, rs: seq<Reservation>, r: Reservation) {
    match Find(rs, r.key)
    case None => r.bytes <= Held(sizes, r.paths)
    case Some(i) => Unfilled(sizes, r) <= Unfilled(sizes, rs[i])
  }

  /** Writes stay inside reservations, and files are retained under the size they have. */
  ghost predicate Honours(w: World, e: Event) {
    var l := w.ledger;
    match e
    case Wrote(i, disk) =>
      i < |l.rs| && SameElsewhere(w.disk, disk, l.rs[i].paths) && Held(disk, l.rs[i].paths) <= l.rs[i].bytes
    case Retained(key, bytes, paths) => RetainsItsSize(w.disk, l.rs, Extended(l.rs, key, bytes, paths))
    case _ => true
  }

  /** Reservations have paths of their own. */
  ghost predicate OnOwnPaths(w: World, e: Event) {
    var l := w.ledger;
    match e
    case Reserved(key, profile, bytes, paths) =>
      Reserve(l, key, profile, bytes, paths).Success? && bytes >= 0 ==> OwnPaths(w, Extended(l.rs, key, bytes, paths))
    case Retained(key, bytes, paths) => OwnPaths(w, Extended(l.rs, key, bytes, paths))
    case _ => true
  }

  /** The runs the quota is about. */
  ghost predicate Fair(w: World, e: Event) {
    Honours(w, e) && OnOwnPaths(w, e)
  }

  /** What the step that could do harm has to heed: a reservation covers its bytes, a release found what is there. */
  ghost predicate Careful(w: World, e: Event) {
    var l := w.ledger;
    match e
    case Reserved(key, profile, bytes, paths) =>
      Reserve(l, key, profile, bytes, paths).Success? && bytes >= 0 ==> Counted(w, Extended(l.rs, key, bytes, paths))
    case Retained(key, bytes, paths) => Counted(w, Extended(l.rs, key, bytes, paths))
    case ReleaseDone(call) => MayFinish(w, call) ==> NoMoreThanFound(w, w.releases[call])
    case _ => true
  }

  // ---- Every step ----

  /** What counts no less on every path adds up to no less. */
  lemma {:induction false} SumOfNoLess(less: Sizes, more: Sizes)
    requires forall p :: p in less ==> less[p] <= SizeAt(more, p)
    ensures Sum(less) <= Sum(more)
    decreases |less|
  {
    if less != map[] {
      var p: Path :| p in less;
      assert (less - {p}).Keys == less.Keys - {p};
      SumRemove(less, p);
      if p in more { SumRemove(more, p); } else { assert more - {p} == more; }
      SumOfNoLess(less - {p}, more - {p});
    }
  }

  lemma HeldOfNoLess(disk: Sizes, seen: Sizes, paths: set<Path>)
    requires NoLess(disk, seen, paths)
    ensures Held(disk, paths) <= Held(seen, paths)
  {
    SumOfNoLess(On(disk, paths), On(seen, paths));
  }

  lemma BehindTail(disk: Sizes, files: Sizes, rs: seq<Reservation>)
    requires Disjoint(rs) && rs != [] && Behind(disk, files, rs)
    ensures Behind(disk - rs[0].paths, files - rs[0].paths, rs[1..])
  {
    var paths := rs[0].paths;
    var d, f := disk - paths, files - paths;
    assert AllPaths(rs) == paths + AllPaths(rs[1..]) by {
      assert forall i :: 0 <= i < |rs[1..]| ==> rs[1..][i] == rs[i + 1];
      forall p | p in AllPaths(rs)
        ensures p in paths || p in AllPaths(rs[1..])
      {
        var i :| 0 <= i < |rs| && p in rs[i].paths;
        if i > 0 { assert p in rs[1..][i - 1].paths; }
      }
    }
    assert NoLessOff(d, f, AllPaths(rs[1..])) by {
      forall p | p in d && p !in AllPaths(rs[1..])
        ensures d[p] <= SizeAt(f, p)
      {
        assert p in disk && p !in AllPaths(rs);
      }
    }
    forall i | 0 <= i < |rs[1..]|
      ensures Lags(d, f, rs[1..][i])
    {
      HeldElsewhere(disk, paths, rs[i + 1].paths);
      HeldElsewhere(files, paths, rs[i + 1].paths);
      assert Lags(disk, files, rs[i + 1]);
    }
  }

  lemma {:induction false} BehindCharges(disk: Sizes, files: Sizes, rs: seq<Reservation>)
    requires Disjoint(rs) && Behind(disk, files, rs)
    ensures Charge(disk, rs) <= Charge(files, rs)
    decreases |rs|
  {
    if rs == [] {
      SumOfNoLess(disk, files);
    } else {
      assert Lags(disk, files, rs[0]);
      BehindTail(disk, files, rs);
      BehindCharges(disk - rs[0].paths, files - rs[0].paths, rs[1..]);
    }
  }

  lemma SameOff(a: Sizes, b: Sizes, p: Path, out: set<Path>)
    requires SameElsewhere(a, b, out) && p !in out
    ensures (p in a <==> p in b) && (p in a ==> a[p] == b[p])
  {
    assert p in a - out <==> p in b - out;
    if p in a { assert (a - out)[p] == (b - out)[p]; }
  }

  lemma WriteOff(was: Sizes, disk: Sizes, seen: Sizes, paths: set<Path>, out: set<Path>)
    requires SameElsewhere(was, disk, paths) && paths <= out && NoLessOff(was, seen, out)
    ensures NoLessOff(disk, seen, out)
  {
    forall p | p in disk && p !in out
      ensures disk[p] <= SizeAt(seen, p)
    {
      SameOff(was, disk, p, paths);
    }
  }

  lemma WriteBehind(was: Sizes, disk: Sizes, files: Sizes, rs: seq<Reservation>, i: nat)
    requires Disjoint(rs) && i < |rs| && SameElsewhere(was, disk, rs[i].paths) && Held(disk, rs[i].paths) <= rs[i].bytes
    requires Behind(was, files, rs)
    ensures Behind(disk, files, rs)
  {
    hide Held;
    var paths := rs[i].paths;
    assert paths <= AllPaths(rs);
    WriteOff(was, disk, files, paths, AllPaths(rs));
    forall j | 0 <= j < |rs|
      ensures Lags(disk, files, rs[j])
    {
      assert Lags(was, files, rs[j]);
      if j != i {
        HeldElsewhere(disk, paths, rs[j].paths);
        HeldElsewhere(was, paths, rs[j].paths);
      }
    }
  }

  lemma SplitPaths(rs: seq<Reservation>, i: nat)
    requires i < |rs|
    ensures AllPaths(rs) == rs[i].paths + AllPaths(Without(rs, i))
  {
    var rest := Without(rs, i);
    forall p | p in AllPaths(rs)
      ensures p in rs[i].paths || p in AllPaths(rest)
    {
      var j :| 0 <= j < |rs| && p in rs[j].paths;
      if j != i { assert rest[if j < i then j else j - 1] == rs[j]; }
    }
    assert forall j :: 0 <= j < |rest| ==> rest[j] == rs[if j < i then j else j + 1];
  }

  lemma FollowsIsBehind(disk: Sizes, scan: Sizes, rs: seq<Reservation>)
    requires Follows(disk, scan, rs)
    ensures Behind(disk, scan, rs)
  {
    forall i | 0 <= i < |rs|
      ensures Lags(disk, scan, rs[i])
    {
      assert Seen(disk, scan, rs[i]);
      if NoLess(disk, scan, rs[i].paths) { HeldOfNoLess(disk, scan, rs[i].paths); }
    }
  }

  lemma WriteFollows(was: Sizes, disk: Sizes, scan: Sizes, rs: seq<Reservation>, i: nat)
    requires Disjoint(rs) && i < |rs| && SameElsewhere(was, disk, rs[i].paths) && Held(disk, rs[i].paths) <= rs[i].bytes
    requires Follows(was, scan, rs)
    ensures Follows(disk, scan, rs)
  {
    hide Held;
    var paths := rs[i].paths;
    assert paths <= AllPaths(rs);
    WriteOff(was, disk, scan, paths, AllPaths(rs));
    forall j | 0 <= j < |rs|
      ensures Seen(disk, scan, rs[j])
    {
      assert Seen(was, scan, rs[j]);
      if j != i {
        HeldElsewhere(disk, paths, rs[j].paths);
        HeldElsewhere(was, paths, rs[j].paths);
        if NoLess(was, scan, rs[j].paths) { WriteNoLess(was, disk, scan, paths, rs[j].paths); }
      }
    }
  }

  lemma WriteNoLess(was: Sizes, disk: Sizes, seen: Sizes, written: set<Path>, paths: set<Path>)
    requires SameElsewhere(was, disk, written) && written !! paths && NoLess(was, seen, paths)
    ensures NoLess(disk, seen, paths)
  {
    forall p | p in paths && p in disk
      ensures disk[p] <= SizeAt(seen, p)
    {
      SameOff(was, disk, p, written);
    }
  }

  lemma OnElsewhere(m: Sizes, removed: set<Path>, paths: set<Path>)
    requires removed !! paths
    ensures On(m - removed, paths) == On(m, paths)
  {}

  /** Writing inside a reservation never changes usage. */
  lemma WriteNeverChangesUsage(was: Sizes, now: Sizes, rs: seq<Reservation>, i: nat)
    requires Disjoint(rs) && i < |rs| && SameElsewhere(was, now, rs[i].paths)
    requires Held(was, rs[i].paths) <= rs[i].bytes && Held(now, rs[i].paths) <= rs[i].bytes
    ensures Charge(now, rs) == Charge(was, rs)
  {
    WriteBehind(was, now, was, rs, i);
    BehindCharges(now, was, rs);
    WriteBehind(now, was, now, rs, i);
    BehindCharges(was, now, rs);
  }

  /** Writing inside a reservation keeps the accounting sound, whether or not it has been observed. */
  lemma WriteKeeps(w: World, q: nat, i: nat, disk: Sizes)
    requires Sound(w, q) && Fair(w, Wrote(i, disk))
    ensures Sound(Step(w, Wrote(i, disk)), q)
  {
    var l := w.ledger;
    assert Behind(w.disk, w.disk, l.rs);
    WriteBehind(w.disk, disk, w.disk, l.rs, i);
    BehindCharges(disk, w.disk, l.rs);
    if l.files.Some? { WriteBehind(w.disk, disk, l.files.value, l.rs, i); }
    if w.scan.Some? { WriteFollows(w.disk, disk, w.scan.value, l.rs, i); }
  }

  lemma LookFollows(disk: Sizes, scan: Sizes, rs: seq<Reservation>, p: Path)
    requires Follows(disk, scan, rs)
    ensures Follows(disk, Look(scan, disk, p), rs)
  {
    forall i | 0 <= i < |rs|
      ensures Seen(disk, Look(scan, disk, p), rs[i])
    {
      assert Seen(disk, scan, rs[i]);
    }
  }

  /** A scan, however long it takes, ends with an observation that hides nothing. */
  lemma ScanKeeps(w: World, q: nat, e: Event)
    requires Sound(w, q) && (e.ScanBegun? || e.ScanLooked? || e.ScanEnded? || e.ScanFailed?)
    ensures Sound(Step(w, e), q)
  {
    if e.ScanLooked? && w.scan.Some? { LookFollows(w.disk, w.scan.value, w.ledger.rs, e.path); }
    if e.ScanEnded? && w.scan.Some? { FollowsIsBehind(w.disk, w.scan.value, w.ledger.rs); }
  }

  // ---- Reserving and retaining ----

  lemma PutMembers(rs: seq<Reservation>, r: Reservation) returns (at: nat)
    requires OneEach(rs)
    ensures var next := Put(rs, r);
            && OneEach(next) && at < |next| && next[at] == r
            && forall i :: 0 <= i < |next| && i != at ==> i < |rs| && next[i] == rs[i] && rs[i].key != r.key
  {
    at := match Find(rs, r.key) case None => |rs| case Some(i) => i;
  }

  lemma PutPaths(rs: seq<Reservation>, r: Reservation)
    requires Previous(rs, r.key) <= r.paths
    ensures AllPaths(rs) <= AllPaths(Put(rs, r))
  {
    var next := Put(rs, r);
    forall p | p in AllPaths(rs)
      ensures p in AllPaths(next)
    {
      var i :| 0 <= i < |rs| && p in rs[i].paths;
      assert p in next[i].paths;
    }
  }

  /** A new or changed reservation leaves the observation counting no less exactly if its bytes fit or were observed. */
  lemma PutBehind(disk: Sizes, files: Sizes, rs: seq<Reservation>, r: Reservation)
    requires OneEach(rs) && Behind(disk, files, rs) && Previous(rs, r.key) <= r.paths
    ensures Behind(disk, files, Put(rs, r)) <==> Held(disk, r.paths) <= Max(r.bytes, Held(files, r.paths))
  {
    hide Held;
    var next := Put(rs, r);
    var at := PutMembers(rs, r);
    PutPaths(rs, r);
    if Held(disk, r.paths) <= Max(r.bytes, Held(files, r.paths)) {
      forall i | 0 <= i < |next|
        ensures Lags(disk, files, next[i])
      {
        if i != at { assert Lags(disk, files, rs[i]); }
      }
    } else {
      assert !Lags(disk, files, next[at]);
    }
  }

  lemma PutFollows(disk: Sizes, scan: Sizes, rs: seq<Reservation>, r: Reservation)
    requires OneEach(rs) && Follows(disk, scan, rs) && Previous(rs, r.key) <= r.paths
    ensures Follows(disk, scan, Put(rs, r)) <==> Seen(disk, scan, r)
  {
    hide Held;
    var next := Put(rs, r);
    var at := PutMembers(rs, r);
    PutPaths(rs, r);
    if Seen(disk, scan, r) {
      forall i | 0 <= i < |next|
        ensures Seen(disk, scan, next[i])
      {
        if i != at { assert Seen(disk, scan, rs[i]); }
      }
    } else {
      assert !Seen(disk, scan, next[at]);
    }
  }

  ghost function WithPut(w: World, r: Reservation): World {
    w.(ledger := w.ledger.(rs := Put(w.ledger.rs, r)))
  }

  lemma PutExact(w: World, q: nat, r: Reservation)
    requires Sound(w, q) && OwnPaths(w, r) && Previous(w.ledger.rs, r.key) <= r.paths
    requires Counted(w, r) ==> Charge(w.disk, Put(w.ledger.rs, r)) <= q
    ensures Sound(WithPut(w, r), q) <==> Counted(w, r)
  {
    hide Seen, Held, Charge;
    var l := w.ledger;
    var at := PutMembers(l.rs, r);
    if l.files.Some? { PutBehind(w.disk, l.files.value, l.rs, r); }
    if w.scan.Some? { PutFollows(w.disk, w.scan.value, l.rs, r); }
  }

  lemma RetainCharge(sizes: Sizes, rs: seq<Reservation>, r: Reservation)
    requires Disjoint(rs) && Disjoint(Put(rs, r)) && RetainsItsSize(sizes, rs, r)
    ensures Charge(sizes, Put(rs, r)) <= Charge(sizes, rs)
  {
    UsageFormula(sizes, rs);
    UsageFormula(sizes, Put(rs, r));
    match Find(rs, r.key)
    case None => UnfilledAppended(sizes, rs, r);
    case Some(i) => UnfilledReplaced(sizes, rs, i, r);
  }

  /** An accepted reservation never takes the disk over the quota by itself. */
  lemma GrantedOnDisk(w: World, q: nat, key: string, profile: string, bytes: int, paths: set<Path>)
    requires Sound(w, q) && q < MAX_SAFE_INTEGER && bytes >= 0
    requires Reserve(w.ledger, key, profile, bytes, paths).Success?
    requires OwnPaths(w, Extended(w.ledger.rs, key, bytes, paths))
    ensures Charge(w.disk, Put(w.ledger.rs, Extended(w.ledger.rs, key, bytes, paths))) <= q
  {
    hide Admission;
    var l := w.ledger;
    var r := Extended(l.rs, key, bytes, paths);
    var current := Find(l.rs, key);
    if current.Some? && bytes <= l.rs[current.value].bytes {
      ShrinkingNeverRaises(w.disk, l.rs, key, bytes, paths);
    } else if Held(w.disk, r.paths) <= Max(bytes, Held(l.files.value, r.paths)) {
      PutBehind(w.disk, l.files.value, l.rs, r);
      BehindCharges(w.disk, l.files.value, Put(l.rs, r));
    } else {
      RetainCharge(w.disk, l.rs, r);
    }
  }

  /** An accepted reservation keeps the accounting sound exactly if the bytes on its paths fit it or were observed there. */
  lemma ReserveExact(w: World, q: nat, key: string, profile: string, bytes: int, paths: set<Path>)
    requires Sound(w, q) && q < MAX_SAFE_INTEGER && bytes >= 0
    requires Reserve(w.ledger, key, profile, bytes, paths).Success?
    requires OwnPaths(w, Extended(w.ledger.rs, key, bytes, paths))
    ensures Sound(Step(w, Reserved(key, profile, bytes, paths)), q) <==>
            Counted(w, Extended(w.ledger.rs, key, bytes, paths))
  {
    hide Sound, Counted, OwnPaths, Admission;
    var r := Extended(w.ledger.rs, key, bytes, paths);
    GrantedOnDisk(w, q, key, profile, bytes, paths);
    PutExact(w, q, r);
  }

  /** The same for a file retained under the size it has. */
  lemma RetainExact(w: World, q: nat, key: string, bytes: nat, paths: set<Path>)
    requires Sound(w, q)
    requires var r := Extended(w.ledger.rs, key, bytes, paths); OwnPaths(w, r) && RetainsItsSize(w.disk, w.ledger.rs, r)
    ensures Sound(Step(w, Retained(key, bytes, paths)), q) <==> Counted(w, Extended(w.ledger.rs, key, bytes, paths))
  {
    hide Sound, Counted, OwnPaths, RetainsItsSize, Charge;
    var r := Extended(w.ledger.rs, key, bytes, paths);
    RetainedOnDisk(w, q, r);
    PutExact(w, q, r);
  }

  lemma RetainedOnDisk(w: World, q: nat, r: Reservation)
    requires Sound(w, q) && OwnPaths(w, r) && RetainsItsSize(w.disk, w.ledger.rs, r)
    ensures Charge(w.disk, Put(w.ledger.rs, r)) <= q
  {
    RetainCharge(w.disk, w.ledger.rs, r);
  }

  lemma SoundCharge(w: World, q: nat)
    requires Sound(w, q)
    ensures Charge(w.disk, w.ledger.rs) <= q
  {}

  /** A key's first reservation, on paths nobody has, is always counted. */
  lemma FirstReservationIsCounted(w: World, q: nat, r: Reservation)
    requires Sound(w, q) && OwnPaths(w, r) && Find(w.ledger.rs, r.key).None?
    ensures Counted(w, r)
  {
    var rs := w.ledger.rs;
    assert r.paths !! AllPaths(rs) by {
      forall i | 0 <= i < |rs|
        ensures rs[i].paths !! r.paths
      {
        assert Put(rs, r)[i] == rs[i] && Put(rs, r)[|rs|] == r;
      }
    }
    if w.ledger.files.Some? {
      assert NoLess(w.disk, w.ledger.files.value, r.paths);
      HeldOfNoLess(w.disk, w.ledger.files.value, r.paths);
    }
  }

  /** Asking for no less than before, with the bytes so far inside the reservation, is always counted. */
  lemma GrowingIsCounted(w: World, r: Reservation, i: nat)
    requires Find(w.ledger.rs, r.key) == Some(i) && r.paths == w.ledger.rs[i].paths
    requires Held(w.disk, r.paths) <= w.ledger.rs[i].bytes <= r.bytes
    ensures Counted(w, r)
  {}

  // ---- Releasing ----

  lemma RestMembers(rs: seq<Reservation>, i: nat)
    requires i < |rs|
    ensures forall j :: 0 <= j < |Without(rs, i)| ==> Without(rs, i)[j] == rs[if j < i then j else j + 1]
  {}

  /** The reservations that stay, and where the paths of the others were. */
  lemma DeleteSplits(rs: seq<Reservation>, key: string)
    requires Disjoint(rs) && OneEach(rs)
    ensures var rest := Delete(rs, key);
            && Disjoint(rest) && OneEach(rest)
            && AllPaths(rs) == Previous(rs, key) + AllPaths(rest) && Previous(rs, key) !! AllPaths(rest)
            && (forall j :: 0 <= j < |rest| ==> rest[j].key != key && exists i :: 0 <= i < |rs| && rs[i] == rest[j])
  {
    if Find(rs, key).Some? {
      var i := Find(rs, key).value;
      SplitPaths(rs, i);
      RestMembers(rs, i);
      hide Without;
      var rest := Without(rs, i);
      forall p | p in AllPaths(rest)
        ensures p !in rs[i].paths
      {
        var j :| 0 <= j < |rest| && p in rest[j].paths;
      }
    }
  }

  lemma DeleteCharges(m: Sizes, rs: seq<Reservation>, key: string)
    requires Disjoint(rs) && OneEach(rs)
    ensures Charge(m, Delete(rs, key)) <= Charge(m, rs)
  {
    DeleteSplits(rs, key);
    UsageFormula(m, rs);
    UsageFormula(m, Delete(rs, key));
    if Find(rs, key).Some? { UnfilledWithout(m, rs, Find(rs, key).value); }
  }

  /** Whether the new observation counts no less where the key's reservation was. */
  lemma RestatNoLess(disk: Sizes, files: Sizes, found: Sizes, paths: set<Path>, gone: set<Path>, rest: set<Path>)
    requires NoLessOff(disk, files, gone + rest) && rest !! paths && rest !! gone
    ensures NoLessOff(disk, Restat(files, paths, found), rest) <==>
            NoLess(disk, found, paths) && NoLess(disk, files, gone - paths)
  {
    var after := Restat(files, paths, found);
    assert forall p :: SizeAt(after, p) == if p in paths then SizeAt(found, p) else SizeAt(files, p);
  }

  lemma RestatElsewhere(files: Sizes, paths: set<Path>, found: Sizes, other: set<Path>)
    requires paths !! other
    ensures Held(Restat(files, paths, found), other) == Held(files, other)
  {
    assert On(Restat(files, paths, found), other) == On(files, other);
  }

  lemma ReleaseBehind(disk: Sizes, files: Sizes, rs: seq<Reservation>, f: Releasing)
    requires Disjoint(rs) && OneEach(rs) && Behind(disk, files, rs)
    requires forall i :: 0 <= i < |rs| && rs[i].key != f.key ==> rs[i].paths !! f.paths
    ensures var more := Previous(rs, f.key) - f.paths;
            Behind(disk, Restat(files, f.paths, f.found), Delete(rs, f.key)) <==>
              NoLess(disk, f.found, f.paths) && NoLess(disk, files, more)
  {
    hide Held, Restat, On, Charge, NoLess, NoLessOff;
    var rest := Delete(rs, f.key);
    DeleteSplits(rs, f.key);
    assert AllPaths(rest) !! f.paths by {
      forall i | 0 <= i < |rest|
        ensures rest[i].paths !! f.paths
      {
        var j :| 0 <= j < |rs| && rs[j] == rest[i];
      }
    }
    RestatNoLess(disk, files, f.found, f.paths, Previous(rs, f.key), AllPaths(rest));
    forall i | 0 <= i < |rest|
      ensures Lags(disk, Restat(files, f.paths, f.found), rest[i])
    {
      var j :| 0 <= j < |rs| && rs[j] == rest[i];
      assert Lags(disk, files, rs[j]);
      RestatElsewhere(files, f.paths, f.found, rest[i].paths);
    }
  }

  lemma ReleasedApart(w: World, call: nat)
    requires Disjoint(w.ledger.rs) && OneEach(w.ledger.rs) && Apart(w.releases, w.ledger.rs) && call < |w.releases|
    ensures Apart(Without(w.releases, call), Delete(w.ledger.rs, w.releases[call].key))
  {
    var key := w.releases[call].key;
    var left, rest := Without(w.releases, call), Delete(w.ledger.rs, key);
    DeleteSplits(w.ledger.rs, key);
    forall f, i | 0 <= f < |left| && 0 <= i < |rest| && rest[i].key != left[f].key
      ensures rest[i].paths !! left[f].paths
    {
      assert left[f] == w.releases[if f < call then f else f + 1];
      var j :| 0 <= j < |w.ledger.rs| && w.ledger.rs[j] == rest[i];
    }
  }

  /** A release keeps all that exactly if each of its paths holds no more than was found when it ends. */
  lemma ReleaseExact(w: World, q: nat, call: nat)
    requires Sound(w, q) && MayFinish(w, call)
    ensures Sound(Step(w, ReleaseDone(call)), q) <==> NoMoreThanFound(w, w.releases[call])
  {
    hide Held, Restat, On, Charge, Behind;
    var f, rs := w.releases[call], w.ledger.rs;
    DeleteSplits(rs, f.key);
    DeleteCharges(w.disk, rs, f.key);
    ReleasedApart(w, call);
    if w.ledger.files.Some? { ReleaseBehind(w.disk, w.ledger.files.value, rs, f); }
  }

  lemma LookKeeps(w: World, q: nat, e: Event)
    requires Sound(w, q) && (e.ReleaseCalled? || e.ReleaseLooked?)
    ensures Sound(Step(w, e), q)
  {}

  /** A fair step keeps the accounting sound exactly if it is careful. */
  lemma StepExact(w: World, q: nat, e: Event)
    requires Sound(w, q) && q < MAX_SAFE_INTEGER && Fair(w, e)
    ensures Sound(Step(w, e), q) <==> Careful(w, e)
  {
    hide Sound, Counted, OwnPaths, NoMoreThanFound;
    match e
    case Wrote(i, disk) => WriteKeeps(w, q, i, disk);
    case Reserved(key, profile, bytes, paths) =>
      if Reserve(w.ledger, key, profile, bytes, paths).Success? { ReserveExact(w, q, key, profile, bytes, paths); }
    case Retained(key, size, paths) => RetainExact(w, q, key, size, paths);
    case ReleaseCalled(_) => LookKeeps(w, q, e);
    case ReleaseLooked(_, _) => LookKeeps(w, q, e);
    case ReleaseDone(call) => if MayFinish(w, call) { ReleaseExact(w, q, call); }
    case _ => ScanKeeps(w, q, e);
  }

  /** What a careless step costs is the honesty of the observation: no fair step takes the disk over the quota by itself. */
  lemma DiskStaysWithin(w: World, q: nat, e: Event)
    requires Sound(w, q) && q < MAX_SAFE_INTEGER && Fair(w, e)
    ensures Charge(Step(w, e).disk, Step(w, e).ledger.rs) <= q
  {
    match e
    case Reserved(key, profile, bytes, paths) =>
      hide Admission, Charge, Behind, Follows;
      if Reserve(w.ledger, key, profile, bytes, paths).Success? { GrantedOnDisk(w, q, key, profile, bytes, paths); }
    case Retained(key, size, paths) => RetainCharge(w.disk, w.ledger.rs, Extended(w.ledger.rs, key, size, paths));
    case ReleaseDone(call) => if MayFinish(w, call) { DeleteCharges(w.disk, w.ledger.rs, w.releases[call].key); }
    case _ =>
      StepExact(w, q, e);
      assert Sound(Step(w, e), q);
  }

  // ---- Every run ----

  ghost function Run(w: World, run: seq<Event>): World
    decreases |run|
  {
    if run == [] then w else Run(Step(w, run[0]), run[1..])
  }

  ghost predicate FairRun(w: World, run: seq<Event>)
    decreases |run|
  {
    run == [] || (Fair(w, run[0]) && FairRun(Step(w, run[0]), run[1..]))
  }

  ghost predicate CarefulRun(w: World, run: seq<Event>)
    decreases |run|
  {
    run == [] || (Careful(w, run[0]) && CarefulRun(Step(w, run[0]), run[1..]))
  }

  /** The accounting is sound before and after every step. */
  ghost predicate AlwaysSound(w: World, q: nat, run: seq<Event>)
    decreases |run|
  {
    Sound(w, q) && (run != [] ==> AlwaysSound(Step(w, run[0]), q, run[1..]))
  }

  /**
   A Worker whose accounting starts sound, and that writes only inside reservations, keeps
   it sound at every moment exactly if every step is careful, with every scan and release
   taking its time.
   */
  lemma {:induction false} StaysSoundExactly(w: World, q: nat, run: seq<Event>)
    requires Sound(w, q) && q < MAX_SAFE_INTEGER && FairRun(w, run)
    ensures AlwaysSound(w, q, run) <==> CarefulRun(w, run)
    decreases |run|
  {
    if run != [] {
      hide Sound, Fair, Careful, Step;
      StepExact(w, q, run[0]);
      if Sound(Step(w, run[0]), q) { StaysSoundExactly(Step(w, run[0]), q, run[1..]); }
    }
  }

  lemma {:induction false} AtTheEnd(w: World, q: nat, run: seq<Event>)
    requires AlwaysSound(w, q, run)
    ensures Sound(Run(w, run), q)
    decreases |run|
  {
    if run != [] { AtTheEnd(Step(w, run[0]), q, run[1..]); }
  }

  /** Then the disk is within the quota, and no observation counts less than the disk holds. */
  lemma QuotaHolds(w: World, q: nat, run: seq<Event>)
    requires Sound(w, q) && q < MAX_SAFE_INTEGER && FairRun(w, run) && CarefulRun(w, run)
    ensures var t := Run(w, run);
            && Sound(t, q)
            && Charge(t.disk, t.ledger.rs) <= q
            && (t.ledger.files.Some? ==> Charge(t.disk, t.ledger.rs) <= Charge(t.ledger.files.value, t.ledger.rs))
  {
    StaysSoundExactly(w, q, run);
    AtTheEnd(w, q, run);
    var t := Run(w, run);
    if t.ledger.files.Some? { BehindCharges(t.disk, t.ledger.files.value, t.ledger.rs); }
  }

  // ---- Releases that are left alone ----

  /** What a release has found so far is there, and its key has no other paths. */
  ghost predicate Tracks(w: World, f: Releasing) {
    && f.todo <= f.paths
    && On(w.disk, f.paths - f.todo) == On(f.found, f.paths - f.todo)
    && Previous(w.ledger.rs, f.key) <= f.paths
  }

  ghost predicate AllTrack(w: World) {
    forall f :: 0 <= f < |w.releases| ==> Tracks(w, w.releases[f])
  }

  /** Nothing is written on, reserved under or retained under a key that is being released. */
  ghost predicate LeavesReleasesAlone(w: World, e: Event) {
    forall f :: 0 <= f < |w.releases| ==>
      match e
      case Wrote(i, _) => i < |w.ledger.rs| ==> w.ledger.rs[i].key != w.releases[f].key
      case Reserved(key, _, _, _) => key != w.releases[f].key
      case Retained(key, _, _) => key != w.releases[f].key
      case _ => true
  }

  lemma TrackedIsThere(w: World, call: nat)
    requires AllTrack(w) && call < |w.releases| && w.releases[call].todo == {}
    ensures NoMoreThanFound(w, w.releases[call])
  {
    var f := w.releases[call];
    assert Tracks(w, f) && f.paths - f.todo == f.paths;
    assert Previous(w.ledger.rs, f.key) - f.paths == {};
    forall p | p in f.paths && p in w.disk
      ensures w.disk[p] <= SizeAt(f.found, p)
    {
      assert p in On(w.disk, f.paths) && On(w.disk, f.paths)[p] == w.disk[p];
    }
  }

  lemma PreviousAfterPut(rs: seq<Reservation>, r: Reservation, key: string)
    requires key != r.key
    ensures Previous(Put(rs, r), key) == Previous(rs, key)
  {
    FindAfterPut(rs, r, key);
  }

  lemma {:induction false} FindAfterPut(rs: seq<Reservation>, r: Reservation, key: string)
    requires key != r.key
    ensures Find(Put(rs, r), key) == Find(rs, key)
    decreases |rs|
  {
    if rs != [] && rs[0].key != r.key {
      FindAfterPut(rs[1..], r, key);
      assert Put(rs, r) == [rs[0]] + Put(rs[1..], r) && Put(rs, r)[1..] == Put(rs[1..], r);
    } else if rs != [] {
      assert Put(rs, r)[1..] == rs[1..];
    } else {
      assert Put(rs, r)[1..] == [];
    }
  }

  lemma PreviousAfterDelete(rs: seq<Reservation>, gone: string, key: string)
    requires OneEach(rs)
    ensures Previous(Delete(rs, gone), key) <= Previous(rs, key)
  {
    if Find(rs, gone).Some? {
      var i := Find(rs, gone).value;
      var rest := Delete(rs, gone);
      RestMembers(rs, i);
      if Find(rest, key).Some? {
        var j := Find(rest, key).value;
        var at := if j < i then j else j + 1;
        assert rest[j] == rs[at] && rs[at].key == key;
      }
    }
  }

  lemma LookTracks(disk: Sizes, f: Releasing, p: Path)
    requires p in f.todo && f.todo <= f.paths && On(disk, f.paths - f.todo) == On(f.found, f.paths - f.todo)
    ensures On(disk, f.paths - (f.todo - {p})) == On(Look(f.found, disk, p), f.paths - (f.todo - {p}))
  {
    var was, now := f.paths - f.todo, f.paths - (f.todo - {p});
    forall x | x in now
      ensures x in disk <==> x in Look(f.found, disk, p)
      ensures x in disk ==> disk[x] == Look(f.found, disk, p)[x]
    {
      if x != p {
        assert x in On(disk, was) <==> x in On(f.found, was);
        if x in disk { assert On(disk, was)[x] == On(f.found, was)[x]; }
      }
    }
  }

  lemma WriteElsewhere(was: Sizes, now: Sizes, written: set<Path>, paths: set<Path>)
    requires SameElsewhere(was, now, written) && written !! paths
    ensures On(was, paths) == On(now, paths)
  {
    OnElsewhere(was, written, paths);
    OnElsewhere(now, written, paths);
  }

  /** What happens to other keys changes nothing for a release under way. */
  lemma TracksOn(w: World, q: nat, e: Event, g: nat)
    requires Sound(w, q) && Fair(w, e) && LeavesReleasesAlone(w, e) && g < |w.releases| && Tracks(w, w.releases[g])
    requires !e.ReleaseCalled? && !e.ReleaseLooked? && !e.ReleaseDone?
    ensures Step(w, e).releases == w.releases && Tracks(Step(w, e), w.releases[g])
  {
    hide Reserve, Behind, Follows, Charge, Disjoint, On, Counted, OwnPaths, RetainsItsSize;
    var f := w.releases[g];
    match e
    case Wrote(i, disk) => WriteElsewhere(w.disk, disk, w.ledger.rs[i].paths, f.paths - f.todo);
    case Reserved(key, profile, bytes, paths) => ReserveTracks(w, f, key, profile, bytes, paths);
    case Retained(key, bytes, paths) => PreviousAfterPut(w.ledger.rs, Extended(w.ledger.rs, key, bytes, paths), f.key);
    case _ =>
  }

  /** Nor do other releases. */
  lemma ReleasesTrack(w: World, e: Event, g: nat)
    requires OneEach(w.ledger.rs) && AllTrack(w) && (e.ReleaseCalled? || e.ReleaseLooked? || e.ReleaseDone?)
    requires g < |Step(w, e).releases|
    ensures Tracks(Step(w, e), Step(w, e).releases[g])
  {
    hide On;
    var t := Step(w, e);
    if e.ReleaseDone? && MayFinish(w, e.call) {
      var f := w.releases[if g < e.call then g else g + 1];
      assert t.releases[g] == f && Tracks(w, f);
      PreviousAfterDelete(w.ledger.rs, w.releases[e.call].key, f.key);
    } else if g < |w.releases| {
      assert Tracks(w, w.releases[g]);
      if e.ReleaseLooked? && g == e.call && e.path in w.releases[g].todo { LookTracks(w.disk, w.releases[g], e.path); }
    } else {
      CalledTracks(w, t.releases[g]);
    }
  }

  lemma StepTracks(w: World, q: nat, e: Event)
    requires Sound(w, q) && Fair(w, e) && LeavesReleasesAlone(w, e) && AllTrack(w)
    ensures AllTrack(Step(w, e))
  {
    if e.ReleaseCalled? || e.ReleaseLooked? || e.ReleaseDone? {
      forall g | 0 <= g < |Step(w, e).releases|
        ensures Tracks(Step(w, e), Step(w, e).releases[g])
      {
        ReleasesTrack(w, e, g);
      }
    } else {
      hide Sound, Fair, LeavesReleasesAlone, Tracks, Step;
      forall g | 0 <= g < |w.releases|
        ensures Step(w, e).releases == w.releases && Tracks(Step(w, e), w.releases[g])
      {
        TracksOn(w, q, e, g);
      }
      if w.releases == [] { NoReleases(w, e); }
    }
  }

  lemma NoReleases(w: World, e: Event)
    requires w.releases == [] && !e.ReleaseCalled?
    ensures Step(w, e).releases == []
  {}

  lemma CalledTracks(w: World, f: Releasing)
    requires f.todo == f.paths && Previous(w.ledger.rs, f.key) == f.paths
    ensures Tracks(w, f)
  {
    assert f.paths - f.todo == {};
    assert On(w.disk, {}) == map[] && On(f.found, {}) == map[];
  }

  lemma ReserveTracks(w: World, f: Releasing, key: string, profile: string, bytes: int, paths: set<Path>)
    requires Tracks(w, f) && key != f.key
    ensures Tracks(Step(w, Reserved(key, profile, bytes, paths)), f)
  {
    hide Admission;
    if Reserve(w.ledger, key, profile, bytes, paths).Success? {
      PreviousAfterPut(w.ledger.rs, Extended(w.ledger.rs, key, bytes, paths), f.key);
    }
  }

  ghost predicate QuietRun(w: World, run: seq<Event>)
    decreases |run|
  {
    run == [] || (LeavesReleasesAlone(w, run[0]) && (run[0].ReleaseDone? || Careful(w, run[0])) && QuietRun(Step(w, run[0]), run[1..]))
  }

  /**
   A release is careful by itself when nothing is written on, reserved under or retained
   under its key between its call and its end.
   */
  lemma {:induction false} QuietReleasesAreCareful(w: World, q: nat, run: seq<Event>)
    requires Sound(w, q) && q < MAX_SAFE_INTEGER && AllTrack(w) && FairRun(w, run) && QuietRun(w, run)
    ensures CarefulRun(w, run)
    decreases |run|
  {
    if run != [] {
      if run[0].ReleaseDone? && MayFinish(w, run[0].call) { TrackedIsThere(w, run[0].call); }
      hide Sound, Fair, Step, AllTrack, LeavesReleasesAlone;
      assert Careful(w, run[0]);
      StepExact(w, q, run[0]);
      StepTracks(w, q, run[0]);
      QuietReleasesAreCareful(Step(w, run[0]), q, run[1..]);
    }
  }
}

/** Admission against the Worker quota, and what it guarantees over whole runs. */
module StorageQuota {
  import opened Basics
  import opened StorageObservation
  import opened StorageUsage
  import opened Totals

  datatype DiskState = DiskOk | LowDisk | CriticalDisk | UnknownDisk

  /** The state `reserve` looks at; `files` is None while the last scan failed. */
  datatype Ledger = Ledger(
    files: Option<Sizes>,
    rs: seq<Reservation>,
    quota: Option<nat>,
    disk: DiskState,
    roots: seq<Path>,
    profileRoot: Path,
    profileQuotas: map<string, Option<nat>>)

  datatype Refusal = Invalid | Unavailable | DiskCritical | WorkerQuota | ProfileQuota

  /** #usage for a known observation: capped at the largest safe integer. */
  ghost function Usage(files: Sizes, rs: seq<Reservation>): nat {
    Min(MAX_SAFE_INTEGER, Charge(files, rs))
  }

  ghost function ProfileUsed(l: Ledger, files: Sizes, profile: string): nat {
    Sum(map p | p in files && ContainsPath(l.profileRoot + [profile], p) :: files[p])
  }

  ghost predicate Exceeded(quota: Option<nat>, used: nat) {
    quota.Some? && used >= quota.value
  }

  /** #assertAdmission for a transfer. */
  ghost function Admission(l: Ledger, profile: string): Option<Refusal> {
    if l.disk.UnknownDisk? || l.files.None? then Some(Unavailable)
    else if l.disk.CriticalDisk? then Some(DiskCritical)
    else if Exceeded(l.quota, Usage(l.files.value, l.rs)) then Some(WorkerQuota)
    else if profile in l.profileQuotas && Exceeded(l.profileQuotas[profile], ProfileUsed(l, l.files.value, profile))
      then Some(ProfileQuota)
    else None
  }

  predicate InRoots(roots: seq<Path>, paths: set<Path>) {
    forall p :: p in paths ==> exists r :: r in roots && ContainsPath(r, p)
  }

  /** reserve, on canonical paths. */
  ghost function Reserve(l: Ledger, key: string, profile: string, bytes: int, paths: set<Path>): Result<Ledger, Refusal> {
    var current := Find(l.rs, key);
    if !IsSafeInteger(bytes) || bytes < 0 || !InRoots(l.roots, paths) then Failure(Invalid)
    else if current.None? && Admission(l, profile).Some? then Failure(Admission(l, profile).value)
    else if l.files.None? then Failure(Unavailable)
    else
      var next := Put(l.rs, Extended(l.rs, key, bytes, paths));
      if (current.None? || bytes > l.rs[current.value].bytes) && l.quota.Some? && Usage(l.files.value, next) > l.quota.value
      then Failure(WorkerQuota)
      else Success(l.(rs := next))
  }

  /** retain: files that already exist cannot be refused. */
  function Retain(l: Ledger, key: string, bytes: nat, paths: set<Path>): Ledger {
    l.(rs := Put(l.rs, Extended(l.rs, key, bytes, paths)))
  }

  /** The observation with the sizes found on some paths replaced by what lstat found. */
  function Restat(files: Sizes, paths: set<Path>, disk: Sizes): Sizes {
    (files - paths) + On(disk, paths)
  }

  /**
   The end of a release: what was found on the paths it had when it was called counts as
   files, and whatever reservation the key has by now is gone.
   */
  function FinishRelease(l: Ledger, key: string, paths: set<Path>, found: Sizes): Ledger {
    l.(files := if l.files.None? then None else Some(Restat(l.files.value, paths, found)), rs := Delete(l.rs, key))
  }

  predicate Valid(l: Ledger, bytes: int, paths: set<Path>) {
    IsSafeInteger(bytes) && bytes >= 0 && InRoots(l.roots, paths)
  }

  /** An admitted reservation leaves usage within the quota, or no higher than it was. */
  lemma AdmittedWithinQuota(l: Ledger, key: string, profile: string, bytes: int, paths: set<Path>)
    requires Reserve(l, key, profile, bytes, paths).Success?
    requires Disjoint(l.rs) && Disjoint(Reserve(l, key, profile, bytes, paths).value.rs)
    ensures l.files.Some?
    ensures var after := Charge(l.files.value, Reserve(l, key, profile, bytes, paths).value.rs);
            l.quota.Some? && l.quota.value < MAX_SAFE_INTEGER ==>
              after <= l.quota.value || after <= Charge(l.files.value, l.rs)
  {
    var current := Find(l.rs, key);
    if current.Some? && bytes <= l.rs[current.value].bytes {
      ShrinkingNeverRaises(l.files.value, l.rs, key, bytes, paths);
    }
  }

  /**
   The bound cannot be wider: usage is capped at the largest safe integer, so a quota of
   that size or more refuses no size, only new keys once usage has reached it.
   */
  lemma QuotaAtCapRefusesNoSize(l: Ledger, key: string, profile: string, bytes: int, paths: set<Path>)
    requires l.quota.Some? && l.quota.value >= MAX_SAFE_INTEGER
    ensures Reserve(l, key, profile, bytes, paths).Success? <==>
            Valid(l, bytes, paths) && l.files.Some? && (Find(l.rs, key).Some? || Admission(l, profile).None?)
  {}

  /** A smaller one refuses a new size exactly if usage would pass it. */
  lemma QuotaBelowCapIsExact(l: Ledger, key: string, profile: string, bytes: int, paths: set<Path>)
    requires l.quota.Some? && l.quota.value < MAX_SAFE_INTEGER && l.files.Some? && Valid(l, bytes, paths)
    requires Find(l.rs, key).Some? || Admission(l, profile).None?
    requires Find(l.rs, key).Some? ==> bytes > l.rs[Find(l.rs, key).value].bytes
    ensures Reserve(l, key, profile, bytes, paths).Success? <==>
            Charge(l.files.value, Put(l.rs, Extended(l.rs, key, bytes, paths))) <= l.quota.value
  {}

  // ---- What reserve answers, written out ----

  /** Usage as #usage reports it: capped at 2^53 - 1. */
  ghost function Reported(files: Sizes, rs: seq<Reservation>): nat {
    if Charge(files, rs) > 9007199254740991 then 9007199254740991 else Charge(files, rs)
  }

  /** Bytes of the files at or below a directory. */
  ghost function BytesBelow(files: Sizes, directory: Path): nat {
    Sum(map p | p in files && directory <= p :: files[p])
  }

  ghost predicate BelowRoots(roots: seq<Path>, paths: set<Path>) {
    forall p :: p in paths ==> exists r :: r in roots && r <= p
  }

  lemma InRootsIsBelow(roots: seq<Path>, paths: set<Path>)
    requires forall p :: p in paths ==> Canonical(p)
    ensures InRoots(roots, paths) <==> BelowRoots(roots, paths)
  {
    forall r, p | p in paths
      ensures ContainsPath(r, p) <==> r <= p
    {
      ContainsIsPrefix(r, p);
    }
    hide ContainsPath;
    if InRoots(roots, paths) {
      forall p | p in paths
        ensures exists r :: r in roots && r <= p
      {
        var r :| r in roots && ContainsPath(r, p);
      }
    }
    if BelowRoots(roots, paths) {
      forall p | p in paths
        ensures exists r :: r in roots && ContainsPath(r, p)
      {
        var r :| r in roots && r <= p;
      }
    }
  }

  lemma ProfileUsedIsBelow(l: Ledger, files: Sizes, profile: string)
    requires forall p :: p in files ==> Canonical(p)
    ensures ProfileUsed(l, files, profile) == BytesBelow(files, l.profileRoot + [profile])
  {
    var root := l.profileRoot + [profile];
    forall p | p in files
      ensures ContainsPath(root, p) <==> root <= p
    {
      ContainsIsPrefix(root, p);
    }
    hide ContainsPath;
    assert (map p | p in files && ContainsPath(root, p) :: files[p]) == (map p | p in files && root <= p :: files[p]);
  }

  /** The first thing that stands in the way of a new transfer, in the order it is looked for. */
  ghost function FirstObstacle(l: Ledger, profile: string, bytes: int, paths: set<Path>, next: seq<Reservation>): Option<Refusal> {
    if bytes < 0 || bytes > 9007199254740991 || !BelowRoots(l.roots, paths) then Some(Invalid)
    else if l.disk == UnknownDisk || l.files == None then Some(Unavailable)
    else if l.disk == CriticalDisk then Some(DiskCritical)
    else if l.quota.Some? && l.quota.value <= Reported(l.files.value, l.rs) then Some(WorkerQuota)
    else if profile in l.profileQuotas && l.profileQuotas[profile].Some?
            && l.profileQuotas[profile].value <= BytesBelow(l.files.value, l.profileRoot + [profile]) then Some(ProfileQuota)
    else if l.quota.Some? && l.quota.value < Reported(l.files.value, next) then Some(WorkerQuota)
    else None
  }

  /**
   A new transfer is granted exactly if nothing stands in the way: it is valid, the disk is
   known and not critical, there is an observation, usage is below the Worker's quota and the
   Profile's bytes below its own, and usage with the transfer is within the Worker's quota.
   Otherwise the first obstacle is reported and the ledger stays as it is.
   */
  lemma NewTransferExactly(l: Ledger, key: string, profile: string, bytes: int, paths: set<Path>)
    requires forall i :: 0 <= i < |l.rs| ==> l.rs[i].key != key
    requires forall p :: p in paths ==> Canonical(p)
    requires l.files.Some? ==> forall p :: p in l.files.value ==> Canonical(p)
    ensures var r := Reserve(l, key, profile, bytes, paths);
            var next := l.rs + [Reservation(key, if bytes < 0 then 0 else bytes, paths)];
            match FirstObstacle(l, profile, bytes, paths, next)
            case Some(obstacle) => r == Failure(obstacle)
            case None => r == Success(l.(rs := next))
  {
    InRootsIsBelow(l.roots, paths);
    if l.files.Some? { ProfileUsedIsBelow(l, l.files.value, profile); }
    hide InRoots, BelowRoots, ProfileUsed, BytesBelow, Canonical;
    assert {} + paths == paths;
  }

  /** Granted means, in particular, on a disk that is not critical and not unknown. */
  lemma GrantedOnGoodDisk(l: Ledger, key: string, profile: string, bytes: int, paths: set<Path>)
    requires Reserve(l, key, profile, bytes, paths).Success? && forall i :: 0 <= i < |l.rs| ==> l.rs[i].key != key
    ensures l.disk == DiskOk || l.disk == LowDisk
  {}

  /**
   A transfer that has its reservation is granted another size exactly if that is valid, there
   is an observation, and it asks for no more or usage with it is within the Worker's quota.
   */
  lemma KnownTransferExactly(l: Ledger, i: nat, profile: string, bytes: int, paths: set<Path>)
    requires i < |l.rs| && forall j :: 0 <= j < i ==> l.rs[j].key != l.rs[i].key
    requires forall p :: p in paths ==> Canonical(p)
    ensures var r := Reserve(l, l.rs[i].key, profile, bytes, paths);
            var next := l.rs[i := Reservation(l.rs[i].key, if bytes < 0 then 0 else bytes, l.rs[i].paths + paths)];
            if bytes < 0 || bytes > 9007199254740991 || !BelowRoots(l.roots, paths) then r == Failure(Invalid)
            else if l.files == None then r == Failure(Unavailable)
            else if bytes > l.rs[i].bytes && l.quota.Some? && l.quota.value < Reported(l.files.value, next) then r == Failure(WorkerQuota)
            else r == Success(l.(rs := next))
  {
    InRootsIsBelow(l.roots, paths);
    FindsFirst(l.rs, i);
    hide InRoots, BelowRoots, Admission, Canonical, Find;
  }

  lemma {:induction false} FindsFirst(rs: seq<Reservation>, i: nat)
    requires i < |rs| && forall j :: 0 <= j < i ==> rs[j].key != rs[i].key
    ensures Find(rs, rs[i].key) == Some(i)
    decreases |rs|
  {
    if i > 0 { FindsFirst(rs[1..], i - 1); }
  }

  /**
   After a release each of its paths counts with the size found there, or not at all; other
   paths count as before, and the key has no reservation left.
   */
  lemma ReleasedExactly(l: Ledger, key: string, paths: set<Path>, found: Sizes, p: Path)
    requires forall i, j :: 0 <= i < j < |l.rs| ==> l.rs[i].key != l.rs[j].key
    ensures var t := FinishRelease(l, key, paths, found);
            && t.files.Some? == l.files.Some?
            && (l.files.Some? ==>
                  var was := if p in paths then found else l.files.value;
                  (p in t.files.value <==> p in was) && (p in was ==> t.files.value[p] == was[p]))
            && (forall r :: r in t.rs <==> r in l.rs && r.key != key)
  {
    var at := Find(l.rs, key);
    if at.Some? {
      var rest := Without(l.rs, at.value);
      assert forall j :: 0 <= j < |rest| ==> rest[j] == l.rs[if j < at.value then j else j + 1];
      forall r | r in l.rs && r.key != key
        ensures r in rest
      {
        var j :| 0 <= j < |l.rs| && l.rs[j] == r;
        assert rest[if j < at.value then j else j - 1] == r;
      }
    }
  }
}

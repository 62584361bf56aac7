/** The Worker's storage accounting as it runs: the ledger of StorageQuota, updated in place. */
module StorageProtectionLedger {
  import opened Basics
  import opened StorageObservation
  import opened StorageUsage
  import opened Totals
  import opened StorageQuota

  lemma HeldOneMore(m: Sizes, paths: set<Path>, p: Path)
    requires p !in paths
    ensures Held(m, paths + {p}) == Held(m, paths) + SizeAt(m - paths, p)
    ensures m - (paths + {p}) == (m - paths) - {p}
  {
    var on := On(m, paths + {p});
    if p in m {
      SumRemove(on, p);
      assert on - {p} == On(m, paths);
    } else {
      assert on == On(m, paths);
    }
  }

  /** One reservation's turn: its files leave the working copy of the map. */
  method TakeFiles(files: Sizes, paths: set<Path>) returns (actual: nat, rest: Sizes)
    ensures actual == Held(files, paths) && rest == files - paths
  {
    actual, rest := 0, files;
    var pending := paths;
    assert files - {} == files && On(files, {}) == map[];
    while pending != {}
      invariant pending <= paths
      invariant actual == Held(files, paths - pending) && rest == files - (paths - pending)
      decreases |pending|
    {
      var p := Pick(pending);
      HeldOneMore(files, paths - pending, p);
      assert (paths - pending) + {p} == paths - (pending - {p});
      actual := actual + SizeAt(rest, p);
      rest := rest - {p};
      pending := pending - {p};
    }
    assert paths - pending == paths;
  }

  lemma RestatNone(files: Sizes, found: Sizes)
    ensures Restat(files, {}, found) == files
  {}

  lemma RestatOneMore(files: Sizes, paths: set<Path>, p: Path, found: Sizes)
    ensures Restat(files, paths + {p}, found) ==
            if p in found then Restat(files, paths, found)[p := found[p]] else Restat(files, paths, found) - {p}
  {}

  /** release, for each path in turn: set to the size found, or deleted. */
  method ApplyFound(files: Sizes, paths: set<Path>, found: Sizes) returns (observed: Sizes)
    ensures observed == Restat(files, paths, found)
  {
    hide Restat, On;
    observed := files;
    var pending := paths;
    RestatNone(files, found);
    assert paths - pending == {};
    while pending != {}
      invariant pending <= paths && observed == Restat(files, paths - pending, found)
      decreases |pending|
    {
      var p := Pick(pending);
      RestatOneMore(files, paths - pending, p, found);
      assert (paths - pending) + {p} == paths - (pending - {p});
      observed := if p in found then observed[p := found[p]] else observed - {p};
      pending := pending - {p};
    }
    assert paths - pending == paths;
  }

  class StorageProtection {
    var files: Option<Sizes>
    var reservations: seq<Reservation>
    var quota: Option<nat>
    var disk: DiskState
    var roots: seq<Path>
    var profileRoot: Path
    var profileQuotas: map<string, Option<nat>>

    function Model(): Ledger
      reads this
    {
      Ledger(files, reservations, quota, disk, roots, profileRoot, profileQuotas)
    }

    constructor (roots: seq<Path>, profileRoot: Path)
      ensures Model() == Ledger(None, [], None, UnknownDisk, roots, profileRoot, map[])
    {
      this.files, this.reservations := None, [];
      this.quota, this.profileQuotas := None, map[];
      this.disk, this.roots, this.profileRoot := UnknownDisk, roots, profileRoot;
    }

    /** #usage with a replacement already in the list of reservations. */
    method MeasureUsage(rs: seq<Reservation>) returns (used: Option<nat>)
      ensures used == if files.None? then None else Some(Usage(files.value, rs))
    {
      if files.None? { return None; }
      var rest, bytes, i := files.value, 0, 0;
      while i < |rs|
        invariant i <= |rs|
        invariant bytes + Charge(rest, rs[i..]) == Charge(files.value, rs)
      {
        var actual, left := TakeFiles(rest, rs[i].paths);
        assert rs[i..][0] == rs[i] && rs[i..][1..] == rs[i + 1..];
        bytes := bytes + Max(rs[i].bytes, actual);
        rest := left;
        i := i + 1;
      }
      var unreserved := AddUp(rest);
      return Some(Min(MAX_SAFE_INTEGER, bytes + unreserved));
    }

    /** The bytes found under one Profile's directory. */
    method MeasureProfile(profile: string) returns (used: nat)
      requires files.Some?
      ensures used == ProfileUsed(Model(), files.value, profile)
    {
      var root := profileRoot + [profile];
      var inside: Sizes := map p | p in files.value && ContainsPath(root, p) :: files.value[p];
      used := AddUp(inside);
    }

    method AssertAdmission(profile: string) returns (refusal: Option<Refusal>)
      ensures refusal == Admission(Model(), profile)
    {
      if disk.UnknownDisk? || files.None? { return Some(Unavailable); }
      if disk.CriticalDisk? { return Some(DiskCritical); }
      var used := MeasureUsage(reservations);
      if quota.Some? && used.value >= quota.value { return Some(WorkerQuota); }
      var inProfile := MeasureProfile(profile);
      if profile in profileQuotas && profileQuotas[profile].Some? && inProfile >= profileQuotas[profile].value {
        return Some(StorageQuota.ProfileQuota);
      }
      return None;
    }

    method ReserveTransfer(key: string, profile: string, bytes: int, paths: set<Path>)
      returns (refusal: Option<Refusal>)
      modifies this`reservations
      ensures var r := Reserve(old(Model()), key, profile, bytes, paths);
              match r
              case Success(l) => refusal.None? && Model() == l
              case Failure(e) => refusal == Some(e) && Model() == old(Model())
    {
      var current := Find(reservations, key);
      if !IsSafeInteger(bytes) || bytes < 0 || !InRoots(roots, paths) { return Some(Invalid); }
      if current.None? {
        refusal := AssertAdmission(profile);
        if refusal.Some? { return; }
      }
      var next := Put(reservations, Extended(reservations, key, bytes, paths));
      var projected := MeasureUsage(next);
      if projected.None? { return Some(Unavailable); }
      if (current.None? || bytes > reservations[current.value].bytes) && quota.Some? && projected.value > quota.value {
        return Some(WorkerQuota);
      }
      reservations := next;
      return None;
    }

    /** Files that already exist change hands; there is nothing left to refuse. */
    method RetainFiles(key: string, bytes: nat, paths: set<Path>)
      modifies this`reservations
      ensures Model() == Retain(old(Model()), key, bytes, paths)
    {
      reservations := Put(reservations, Extended(reservations, key, bytes, paths));
    }

    /** Up to the first await: the paths the key has now, whose sizes will be looked up. */
    method BeginRelease(key: string) returns (paths: Option<set<Path>>)
      ensures paths == match Find(reservations, key) case None => None case Some(i) => Some(reservations[i].paths)
    {
      var at := Find(reservations, key);
      paths := if at.None? then None else Some(reservations[at.value].paths);
    }

    /** After the awaits: `found` is what lstat reported, and a path missing from it was gone. */
    method EndRelease(key: string, paths: set<Path>, found: Sizes)
      modifies this`reservations, this`files
      ensures Model() == FinishRelease(old(Model()), key, paths, found)
    {
      if files.Some? {
        var observed := ApplyFound(files.value, paths, found);
        files := Some(observed);
      }
      reservations := Delete(reservations, key);
    }

    /** A scan of the roots ends: it found these files, or it failed. */
    method Observe(found: Option<Sizes>, state: DiskState)
      modifies this`files, this`disk
      ensures Model() == old(Model()).(files := found, disk := state)
    {
      files, disk := found, state;
    }
  }
}

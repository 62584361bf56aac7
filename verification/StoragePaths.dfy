/** Where transfers keep their bytes: fresh ids give every transfer a key and paths of its own. */
module StoragePaths {
  import opened Basics
  import opened StorageObservation
  import opened StorageUsage
  import opened StorageQuota
  import opened StorageRuns
  import opened Totals

  /** An upload has a directory of its own; a download an id of its own and the browser's id for it. */
  datatype Transfer = Upload(session: string, directory: string) | Download(id: string, browserId: string)

  function KeyOf(t: Transfer): string {
    match t
    case Upload(session, directory) => "upload:" + session + ":" + directory
    case Download(id, _) => "download:" + id
  }

  /** Where a transfer's bytes may lie below the temporary root. */
  predicate Owns(root: Path, t: Transfer, p: Path) {
    match t
    case Upload(session, directory) => |p| == |root| + 4 && root + ["sessions", session, directory] <= p
    case Download(id, browserId) =>
      || p == root + [".browser-downloads", browserId]
      || p == root + [".browser-downloads", browserId + ".crdownload"]
      || p == root + ["retained-downloads", ".staging-" + id, "data"]
      || p == root + ["retained-downloads", id, "data"]
  }

  predicate Plain(s: string) {
    '.' !in s && ':' !in s
  }

  /** Ids are plain, and no two downloads share either of theirs. */
  ghost predicate FreshIds(ts: set<Transfer>) {
    && (forall t :: t in ts ==>
          match t
          case Upload(session, directory) => Plain(session) && Plain(directory)
          case Download(id, browserId) => Plain(id) && Plain(browserId))
    && (forall t, u :: t in ts && u in ts && t != u && t.Download? && u.Download? ==>
          t.id != u.id && t.browserId != u.browserId)
  }

  lemma ColonSplits(a: string, b: string, c: string, d: string)
    requires ':' !in a && ':' !in c && a + ":" + b == c + ":" + d
    ensures a == c && b == d
  {
    var x := a + ":" + b;
    assert x[|a|] == ':' && x[|c|] == (c + ":" + d)[|c|] == ':';
    assert forall i :: 0 <= i < |a| ==> x[i] == a[i] && a[i] in a;
    assert forall i :: 0 <= i < |c| ==> x[i] == (c + ":" + d)[i] == c[i] && c[i] in c;
    assert |a| == |c|;
    assert a == x[..|a|] == c && b == x[|a| + 1..] == d;
  }

  /** A key tells whose it is. */
  lemma KeysTell(t: Transfer, u: Transfer)
    requires KeyOf(t) == KeyOf(u) && (t.Upload? ==> Plain(t.session)) && (u.Upload? ==> Plain(u.session))
    ensures t.Upload? <==> u.Upload?
    ensures t.Upload? && u.Upload? ==> t == u
    ensures t.Download? && u.Download? ==> t.id == u.id
  {
    assert KeyOf(t)[0] == (if t.Upload? then 'u' else 'd') && KeyOf(u)[0] == if u.Upload? then 'u' else 'd';
    if t.Upload? {
      var x, y := t.session + ":" + t.directory, u.session + ":" + u.directory;
      assert KeyOf(t) == "upload:" + x && KeyOf(u) == "upload:" + y;
      assert x == KeyOf(t)[7..] && y == KeyOf(u)[7..];
      ColonSplits(t.session, t.directory, u.session, u.directory);
    } else {
      assert t.id == KeyOf(t)[9..] && u.id == KeyOf(u)[9..];
    }
  }

  /** Different transfers have different keys. */
  lemma KeysDiffer(ts: set<Transfer>, t: Transfer, u: Transfer)
    requires FreshIds(ts) && t in ts && u in ts && t != u
    ensures KeyOf(t) != KeyOf(u)
  {
    if KeyOf(t) == KeyOf(u) { KeysTell(t, u); }
  }

  lemma SameMiddle(prefix: string, a: string, b: string, suffix: string)
    requires prefix + a + suffix == prefix + b + suffix
    ensures a == b
  {
    var x := prefix + a + suffix;
    assert a == x[|prefix|..|x| - |suffix|] && b == (prefix + b + suffix)[|prefix|..|x| - |suffix|];
  }

  lemma DottedDiffers(s: string, prefix: string, t: string, suffix: string)
    requires '.' !in s && ('.' in prefix || '.' in suffix)
    ensures s != prefix + t + suffix
  {
    assert forall c :: c in prefix || c in suffix ==> c in prefix + t + suffix;
  }

  /** Different transfers have no path in common. */
  lemma AreasApart(root: Path, ts: set<Transfer>, t: Transfer, u: Transfer, p: Path)
    requires FreshIds(ts) && t in ts && u in ts && t != u
    ensures !(Owns(root, t, p) && Owns(root, u, p))
  {
    if Owns(root, t, p) && Owns(root, u, p) {
      var rest := p[|root|..];
      assert p == root + rest;
      if t.Upload? {
        UploadTail(root, t, p);
        if u.Upload? { UploadTail(root, u, p); } else { DownloadTail(root, u, p); }
      } else {
        DownloadTail(root, t, p);
        if u.Upload? { UploadTail(root, u, p); } else { DownloadsApart(root, t, u, p); }
      }
    }
  }

  lemma UploadTail(root: Path, t: Transfer, p: Path)
    requires t.Upload? && Owns(root, t, p)
    ensures |p| == |root| + 4 && p[|root|] == "sessions" && p[|root| + 1] == t.session && p[|root| + 2] == t.directory
  {
    var front := root + ["sessions", t.session, t.directory];
    assert front[|root|] == "sessions" && front[|root| + 1] == t.session && front[|root| + 2] == t.directory;
  }

  lemma DownloadTail(root: Path, t: Transfer, p: Path)
    requires t.Download? && Owns(root, t, p)
    ensures |root| + 2 <= |p| <= |root| + 3 && (p[|root|] == ".browser-downloads" || p[|root|] == "retained-downloads")
    ensures p[|root|] == ".browser-downloads" ==> p[|root| + 1] in {t.browserId, t.browserId + ".crdownload"}
    ensures p[|root|] == "retained-downloads" ==> p[|root| + 1] in {t.id, ".staging-" + t.id}
  {
    assert ".browser-downloads"[0] == '.' && "retained-downloads"[0] == 'r';
  }

  lemma DownloadsApart(root: Path, t: Transfer, u: Transfer, p: Path)
    requires t.Download? && u.Download? && Owns(root, t, p) && t.id != u.id && t.browserId != u.browserId
    requires Plain(t.id) && Plain(u.id) && Plain(t.browserId) && Plain(u.browserId)
    ensures !Owns(root, u, p)
  {
    DownloadTail(root, t, p);
    if Owns(root, u, p) {
      DownloadTail(root, u, p);
      NamesApart(t.browserId, u.browserId, "", ".crdownload");
      NamesApart(t.id, u.id, ".staging-", "");
    }
  }

  /** Plain names that differ still differ with the same dotted affix, on either or both. */
  lemma NamesApart(a: string, b: string, prefix: string, suffix: string)
    requires a != b && '.' !in a && '.' !in b && ('.' in prefix || '.' in suffix)
    ensures a != prefix + b + suffix && b != prefix + a + suffix && prefix + a + suffix != prefix + b + suffix
    ensures prefix == "" ==> prefix + a + suffix == a + suffix && prefix + b + suffix == b + suffix
    ensures suffix == "" ==> prefix + a + suffix == prefix + a && prefix + b + suffix == prefix + b
  {
    DottedDiffers(a, prefix, b, suffix);
    DottedDiffers(b, prefix, a, suffix);
    if prefix + a + suffix == prefix + b + suffix { SameMiddle(prefix, a, b, suffix); }
  }

  // ---- Reservations of transfers ----

  ghost predicate IsFor(root: Path, t: Transfer, key: string, paths: set<Path>) {
    key == KeyOf(t) && forall p :: p in paths ==> Owns(root, t, p)
  }

  ghost predicate HasOwner(root: Path, ts: set<Transfer>, key: string, paths: set<Path>) {
    exists t :: t in ts && IsFor(root, t, key, paths)
  }

  /** Every reservation and every release under way belongs to a transfer. */
  ghost predicate Owned(root: Path, ts: set<Transfer>, w: World) {
    && OneEach(w.ledger.rs)
    && (forall i :: 0 <= i < |w.ledger.rs| ==> HasOwner(root, ts, w.ledger.rs[i].key, w.ledger.rs[i].paths))
    && (forall f :: 0 <= f < |w.releases| ==> HasOwner(root, ts, w.releases[f].key, w.releases[f].paths))
  }

  lemma DifferentKeysApart(root: Path, ts: set<Transfer>, k: string, ps: set<Path>, l: string, qs: set<Path>)
    requires FreshIds(ts) && HasOwner(root, ts, k, ps) && HasOwner(root, ts, l, qs) && k != l
    ensures ps !! qs
  {
    var t :| t in ts && IsFor(root, t, k, ps);
    var u :| u in ts && IsFor(root, u, l, qs);
    forall p | p in ps
      ensures p !in qs
    {
      AreasApart(root, ts, t, u, p);
    }
  }

  /** So reservations are always on disjoint paths, and releases under way apart from other keys. */
  lemma OwnedIsDisjoint(root: Path, ts: set<Transfer>, w: World)
    requires FreshIds(ts) && Owned(root, ts, w)
    ensures Disjoint(w.ledger.rs) && Apart(w.releases, w.ledger.rs)
  {
    var rs := w.ledger.rs;
    forall i, j | 0 <= i < j < |rs|
      ensures rs[i].paths !! rs[j].paths
    {
      DifferentKeysApart(root, ts, rs[i].key, rs[i].paths, rs[j].key, rs[j].paths);
    }
    forall f, i | 0 <= f < |w.releases| && 0 <= i < |rs| && rs[i].key != w.releases[f].key
      ensures rs[i].paths !! w.releases[f].paths
    {
      DifferentKeysApart(root, ts, rs[i].key, rs[i].paths, w.releases[f].key, w.releases[f].paths);
    }
  }

  /** Reserving and retaining is done by transfers, each under its key and on its paths. */
  ghost predicate ByTransfers(root: Path, ts: set<Transfer>, e: Event) {
    match e
    case Reserved(key, _, _, paths) => HasOwner(root, ts, key, paths)
    case Retained(key, _, paths) => HasOwner(root, ts, key, paths)
    case _ => true
  }

  lemma ExtendedHasOwner(root: Path, ts: set<Transfer>, w: World, key: string, bytes: nat, paths: set<Path>)
    requires FreshIds(ts) && Owned(root, ts, w) && HasOwner(root, ts, key, paths)
    ensures HasOwner(root, ts, key, Extended(w.ledger.rs, key, bytes, paths).paths)
  {
    var t :| t in ts && IsFor(root, t, key, paths);
    if Find(w.ledger.rs, key).Some? {
      var r := w.ledger.rs[Find(w.ledger.rs, key).value];
      var u :| u in ts && IsFor(root, u, r.key, r.paths);
      if t != u { KeysDiffer(ts, t, u); }
    }
    assert IsFor(root, t, key, Extended(w.ledger.rs, key, bytes, paths).paths);
  }

  lemma PutOwned(root: Path, ts: set<Transfer>, w: World, key: string, bytes: nat, paths: set<Path>)
    requires FreshIds(ts) && Owned(root, ts, w) && HasOwner(root, ts, key, paths)
    ensures Owned(root, ts, WithPut(w, Extended(w.ledger.rs, key, bytes, paths)))
  {
    hide HasOwner, FreshIds;
    ExtendedHasOwner(root, ts, w, key, bytes, paths);
    var r := Extended(w.ledger.rs, key, bytes, paths);
    var at := PutMembers(w.ledger.rs, r);
  }

  /** What the quota's runs ask of reservations holds of every transfer: its paths are its own. */
  lemma TransfersHaveOwnPaths(root: Path, ts: set<Transfer>, w: World, key: string, bytes: nat, paths: set<Path>)
    requires FreshIds(ts) && Owned(root, ts, w) && HasOwner(root, ts, key, paths)
    ensures OwnPaths(w, Extended(w.ledger.rs, key, bytes, paths))
  {
    var r := Extended(w.ledger.rs, key, bytes, paths);
    PutOwned(root, ts, w, key, bytes, paths);
    OwnedIsDisjoint(root, ts, WithPut(w, r));
    var at := PutMembers(w.ledger.rs, r);
    assert Put(w.ledger.rs, r)[at] == r;
  }

  lemma OwnedStep(root: Path, ts: set<Transfer>, w: World, e: Event)
    requires FreshIds(ts) && Owned(root, ts, w) && ByTransfers(root, ts, e)
    ensures Owned(root, ts, Step(w, e))
  {
    hide HasOwner, FreshIds, Admission;
    match e
    case Reserved(key, profile, bytes, paths) =>
      if Reserve(w.ledger, key, profile, bytes, paths).Success? { PutOwned(root, ts, w, key, bytes, paths); }
    case Retained(key, bytes, paths) => PutOwned(root, ts, w, key, bytes, paths);
    case ReleaseDone(call) =>
      if MayFinish(w, call) {
        var rs, key := w.ledger.rs, w.releases[call].key;
        if Find(rs, key).Some? { RestMembers(rs, Find(rs, key).value); }
      }
    case _ =>
  }

  /** Whatever transfers do, no two reservations ever share a path. */
  lemma {:induction false} ReservationsNeverOverlap(root: Path, ts: set<Transfer>, w: World, run: seq<Event>)
    requires FreshIds(ts) && Owned(root, ts, w) && forall e :: e in run ==> ByTransfers(root, ts, e)
    ensures Owned(root, ts, Run(w, run)) && Disjoint(Run(w, run).ledger.rs)
    decreases |run|
  {
    if run == [] {
      OwnedIsDisjoint(root, ts, w);
    } else {
      OwnedStep(root, ts, w, run[0]);
      ReservationsNeverOverlap(root, ts, Step(w, run[0]), run[1..]);
    }
  }

  // ---- The quota, for transfers ----

  /** A run of transfers that write inside their reservations. */
  ghost predicate TransferRun(root: Path, ts: set<Transfer>, w: World, run: seq<Event>)
    decreases |run|
  {
    run == [] || (ByTransfers(root, ts, run[0]) && Honours(w, run[0]) && TransferRun(root, ts, Step(w, run[0]), run[1..]))
  }

  lemma TransferIsFair(root: Path, ts: set<Transfer>, w: World, e: Event)
    requires FreshIds(ts) && Owned(root, ts, w) && ByTransfers(root, ts, e) && Honours(w, e)
    ensures Fair(w, e)
  {
    hide HasOwner, FreshIds, Owned, OwnPaths, Honours, Reserve;
    match e
    case Reserved(key, profile, bytes, paths) => if bytes >= 0 { TransfersHaveOwnPaths(root, ts, w, key, bytes, paths); }
    case Retained(key, bytes, paths) => TransfersHaveOwnPaths(root, ts, w, key, bytes, paths);
    case _ =>
  }

  lemma {:induction false} TransfersAreFair(root: Path, ts: set<Transfer>, w: World, run: seq<Event>)
    requires FreshIds(ts) && Owned(root, ts, w) && TransferRun(root, ts, w, run)
    ensures FairRun(w, run)
    decreases |run|
  {
    if run != [] {
      hide FreshIds, Owned, ByTransfers, Honours, Fair, Step;
      TransferIsFair(root, ts, w, run[0]);
      OwnedStep(root, ts, w, run[0]);
      TransfersAreFair(root, ts, Step(w, run[0]), run[1..]);
    }
  }

  /** A Worker that has just started: nothing reserved, and what lies on disk was observed or not. */
  ghost predicate JustStarted(w: World, q: nat) {
    && w.ledger.rs == [] && w.releases == [] && w.scan.None? && w.ledger.quota == Some(q)
    && Sum(w.disk) <= q && (w.ledger.files.Some? ==> w.ledger.files.value == w.disk)
  }

  lemma StartsSound(root: Path, ts: set<Transfer>, w: World, q: nat)
    requires JustStarted(w, q)
    ensures Sound(w, q) && Owned(root, ts, w)
  {}

  /**
   From its start, a Worker whose uploads and downloads have fresh ids and write inside
   their reservations keeps to its quota, with an observation that hides nothing, at every
   moment exactly if every step is careful.
   */
  lemma TransfersStaySoundExactly(root: Path, ts: set<Transfer>, w: World, q: nat, run: seq<Event>)
    requires FreshIds(ts) && JustStarted(w, q) && q < MAX_SAFE_INTEGER && TransferRun(root, ts, w, run)
    ensures AlwaysSound(w, q, run) <==> CarefulRun(w, run)
    ensures CarefulRun(w, run) ==> Charge(Run(w, run).disk, Run(w, run).ledger.rs) <= q
  {
    hide FreshIds, JustStarted, TransferRun, FairRun, CarefulRun, AlwaysSound, Charge, Owned, Run;
    StartsSound(root, ts, w, q);
    TransfersAreFair(root, ts, w, run);
    StaysSoundExactly(w, q, run);
    if CarefulRun(w, run) { QuotaHolds(w, q, run); }
  }
}

/** The scan of the storage roots, on a file system that changes while it runs. */
module StorageScan {
  import opened Basics
  import opened StorageObservation

  // ---- Paths and what they cover ----

  function Children(path: Path, names: seq<string>): (r: seq<Path>)
    ensures |r| == |names|
  {
    seq(|names|, i requires 0 <= i < |names| => path + [names[i]])
  }

  lemma CoveredIsBelow(path: Path, names: seq<string>, p: Path)
    requires Covers(Children(path, names), p)
    ensures path <= p && p != path
  {
    var q :| q in Children(path, names) && q <= p;
    assert |q| == |path| + 1 && q[..|path|] == path;
    assert p[..|path|] == q[..|path|];
  }

  /** No entry of an independent list lies above another. */
  lemma NotAbove(rest: seq<Path>, path: Path)
    requires Independent(rest + [path])
    ensures !Covers(rest, path)
    ensures forall q :: q in rest ==> !(path <= q)
  {
    var all := rest + [path];
    assert all[|rest|] == path;
    forall q | q in rest
      ensures !(q <= path) && !(path <= q)
    {
      var i :| 0 <= i < |rest| && rest[i] == q;
      assert all[i] == q;
    }
  }

  lemma CoversOne(path: Path, p: Path)
    ensures Covers([path], p) <==> path <= p
  {
    assert path in [path];
  }

  lemma CoversUnion(a: seq<Path>, b: seq<Path>, p: Path)
    ensures Covers(a + b, p) <==> Covers(a, p) || Covers(b, p)
  {
    if Covers(a, p) {
      var q :| q in a && q <= p;
      assert q in a + b;
    }
    if Covers(b, p) {
      var q :| q in b && q <= p;
      assert q in a + b;
    }
  }

  lemma AboveChild(q: Path, path: Path, name: string)
    requires q <= path + [name]
    ensures q <= path || q == path + [name]
  {
    assert (path + [name])[..|path|] == path;
  }

  lemma BelowChild(q: Path, path: Path, name: string)
    requires path + [name] <= q
    ensures path <= q
  {
    assert q[..|path|] == (path + [name])[..|path|] == path;
  }

  lemma PrefixOfChild(q: Path, path: Path, name: string)
    requires !(q <= path) && !(path <= q)
    ensures !(q <= path + [name]) && !(path + [name] <= q)
  {
    if q <= path + [name] {
      AboveChild(q, path, name);
    } else if path + [name] <= q {
      BelowChild(q, path, name);
    }
  }

  lemma ExpandIndependent(rest: seq<Path>, path: Path, names: seq<string>)
    requires Independent(rest + [path]) && Distinct(names)
    ensures Independent(rest + Children(path, names))
  {
    var all, next := rest + [path], rest + Children(path, names);
    NotAbove(rest, path);
    assert forall i :: 0 <= i < |rest| ==> all[i] == next[i];
    forall i, j | 0 <= i < j < |next|
      ensures !(next[i] <= next[j]) && !(next[j] <= next[i])
    {
      if j >= |rest| {
        assert next[j] == path + [names[j - |rest|]];
        if i < |rest| {
          assert next[i] in rest;
          assert !(next[i] <= path) by { assert next[i] <= path ==> Covers(rest, path); }
          PrefixOfChild(next[i], path, names[j - |rest|]);
        } else {
          assert next[i] == path + [names[i - |rest|]];
          assert next[i][|path|] != next[j][|path|];
        }
      }
    }
  }

  // ---- readStorageFiles ----

  /** What lstat and opendir say of one path; a removed directory is listed as far as it was read. */
  datatype Sight = Gone | Found(size: nat) | Listing(names: seq<string>)

  function Pushed(pending: seq<Path>, sight: Sight): (r: seq<Path>)
    requires pending != []
  {
    var path, rest := pending[|pending| - 1], pending[..|pending| - 1];
    if sight.Listing? then rest + Children(path, sight.names) else rest
  }

  function Noted(sizes: map<Path, nat>, path: Path, sight: Sight): map<Path, nat> {
    if sight.Found? then sizes[path := sight.size] else sizes
  }

  /**
   The walk over what it sees, look by look. The tree may change between looks.
   Sights run out when the scan is cancelled, late, or meets another error.
   */
  function Walk(sights: seq<Sight>, pending: seq<Path>, sizes: map<Path, nat>): Option<map<Path, nat>>
    decreases |sights|
  {
    if pending == [] then Some(sizes)
    else if sights == [] then None
    else Walk(sights[1..], Pushed(pending, sights[0]), Noted(sizes, pending[|pending| - 1], sights[0]))
  }

  /** The stack-based walk. */
  method ReadStorageFiles(sights: seq<Sight>, roots: seq<Path>) returns (result: Option<map<Path, nat>>)
    ensures result == Walk(sights, roots, map[])
  {
    var sizes: map<Path, nat> := map[];
    var pending := roots;
    var i := 0;
    assert sights[0..] == sights;
    while |pending| > 0
      invariant 0 <= i <= |sights|
      invariant Walk(sights, roots, map[]) == Walk(sights[i..], pending, sizes)
      decreases |sights| - i
    {
      if i == |sights| { return None; }
      var path, rest := pending[|pending| - 1], pending[..|pending| - 1];
      assert sights[i..][1..] == sights[i + 1..];
      match sights[i] {
        case Gone =>
          // removed between directory enumeration and lstat
          pending := rest;
        case Found(size) =>
          sizes := sizes[path := size];
          pending := rest;
        case Listing(names) =>
          pending := PushChildren(rest, path, names);
      }
      i := i + 1;
    }
    return Some(sizes);
  }

  method PushChildren(rest: seq<Path>, path: Path, names: seq<string>) returns (pending: seq<Path>)
    ensures pending == rest + Children(path, names)
  {
    pending := rest;
    for i := 0 to |names|
      invariant pending == rest + Children(path, names[..i])
    {
      pending := pending + [path + [names[i]]];
      assert Children(path, names[..i + 1]) == Children(path, names[..i]) + [path + [names[i]]];
    }
    assert names[..|names|] == names;
  }

  // ---- A scan of a tree that changes under it ----

  /**
   What was seen of a path while the tree went through the given states. A
   listing has every name that was there all the time; others come and go.
   */
  ghost predicate Saw(sight: Sight, path: Path, during: seq<map<Path, Node>>) {
    match sight
    case Gone => exists t :: 0 <= t < |during| && path !in during[t]
    case Found(size) => exists t :: 0 <= t < |during| && path in during[t] && during[t][path] == File(size)
    case Listing(names) =>
      && (exists t :: 0 <= t < |during| && path in during[t] && during[t][path].Directory?)
      && (forall name :: (forall t :: 0 <= t < |during| ==> path + [name] in during[t]) ==> name in names)
  }

  /** Each look saw what was there during it. */
  ghost predicate Watched(sights: seq<Sight>, pending: seq<Path>, during: seq<seq<map<Path, Node>>>)
    requires |during| == |sights|
    decreases |sights|
  {
    sights == [] || pending == [] ||
    (Saw(sights[0], pending[|pending| - 1], during[0]) && Watched(sights[1..], Pushed(pending, sights[0]), during[1..]))
  }

  /** The file had that size at some time. */
  ghost predicate WasThere(p: Path, size: nat, during: seq<seq<map<Path, Node>>>) {
    exists i, t :: 0 <= i < |during| && 0 <= t < |during[i]| && p in during[i][t] && during[i][t][p] == File(size)
  }

  /** The file was there, in a well-formed tree, at all times. */
  ghost predicate Stood(p: Path, during: seq<seq<map<Path, Node>>>) {
    forall i, t :: 0 <= i < |during| && 0 <= t < |during[i]| ==>
      Tree(during[i][t]) && p in during[i][t] && during[i][t][p].File?
  }

  lemma WasThereLater(p: Path, size: nat, during: seq<seq<map<Path, Node>>>)
    requires during != [] && WasThere(p, size, during[1..])
    ensures WasThere(p, size, during)
  {
    var i, t :| 0 <= i < |during[1..]| && 0 <= t < |during[1..][i]| && p in during[1..][i][t] && during[1..][i][t][p] == File(size);
    assert during[i + 1] == during[1..][i];
  }

  lemma WasThereNow(p: Path, size: nat, during: seq<seq<map<Path, Node>>>)
    requires during != [] && Saw(Found(size), p, during[0])
    ensures WasThere(p, size, during)
  {}

  lemma PushedCovers(pending: seq<Path>, sight: Sight, p: Path)
    requires pending != []
    ensures Covers(Pushed(pending, sight), p) ==> Covers(pending, p)
  {
    hide Covers;
    var path, rest := pending[|pending| - 1], pending[..|pending| - 1];
    assert pending == rest + [path];
    CoversUnion(rest, [path], p);
    CoversOne(path, p);
    if sight.Listing? {
      CoversUnion(rest, Children(path, sight.names), p);
      if Covers(Children(path, sight.names), p) {
        CoveredIsBelow(path, sight.names, p);
      }
    }
  }

  /** Whatever is reported lies under a root and was there, with that size, at some time. */
  lemma {:induction false} FoundWasThere(sights: seq<Sight>, pending: seq<Path>, sizes: map<Path, nat>,
                                         during: seq<seq<map<Path, Node>>>, p: Path)
    requires |during| == |sights| && Watched(sights, pending, during)
    requires Walk(sights, pending, sizes).Some? && p in Walk(sights, pending, sizes).value
    ensures var size := Walk(sights, pending, sizes).value[p];
            (p in sizes && size == sizes[p]) || (Covers(pending, p) && WasThere(p, size, during))
    decreases |sights|
  {
    hide Covers, WasThere, Saw, Pushed;
    if pending != [] {
      var sight, path, size := sights[0], pending[|pending| - 1], Walk(sights, pending, sizes).value[p];
      FoundWasThere(sights[1..], Pushed(pending, sight), Noted(sizes, path, sight), during[1..], p);
      PushedCovers(pending, sight, p);
      if WasThere(p, size, during[1..]) {
        WasThereLater(p, size, during);
      }
      if sight.Found? && p == path && size == sight.size {
        WasThereNow(p, size, during);
        LastIsCovered(pending);
      }
    }
  }

  lemma LastIsCovered(pending: seq<Path>)
    requires pending != []
    ensures Covers(pending, pending[|pending| - 1])
  {
    assert pending[|pending| - 1] in pending;
  }

  /** A look above a file that stands leads on to it, and a look at it finds it. */
  lemma LeadsOn(pending: seq<Path>, sight: Sight, states: seq<map<Path, Node>>, p: Path)
    requires pending != [] && Covers(pending, p)
    requires Saw(sight, pending[|pending| - 1], states)
    requires forall t :: 0 <= t < |states| ==> Tree(states[t]) && p in states[t] && states[t][p].File?
    ensures Covers(Pushed(pending, sight), p) || (sight.Found? && p == pending[|pending| - 1])
  {
    hide Tree, Covers;
    var path, rest := pending[|pending| - 1], pending[..|pending| - 1];
    assert pending == rest + [path];
    CoversUnion(rest, [path], p);
    CoversOne(path, p);
    if !Covers(rest, p) && path != p {
      assert p[..|path|] == path;
      forall t | 0 <= t < |states|
        ensures path in states[t] && states[t][path].Directory? && path + [p[|path|]] in states[t]
      {
        Above(states[t], path, p);
      }
      assert sight.Listing?;
      ChildCovers(path, sight.names, p);
      CoversUnion(rest, Children(path, sight.names), p);
    } else if sight.Listing? {
      CoversUnion(rest, Children(path, sight.names), p);
    }
  }

  lemma Above(fs: map<Path, Node>, path: Path, p: Path)
    requires Tree(fs) && p in fs && path <= p && path != p
    ensures path in fs && fs[path].Directory? && path + [p[|path|]] in fs
  {
    hide Tree;
    Ancestors(fs, p, |path|);
    assert p[..|path|] == path && p[..|path| + 1] == path + [p[|path|]];
    if |path| + 1 < |p| {
      Ancestors(fs, p, |path| + 1);
    } else {
      assert p[..|path| + 1] == p;
    }
  }

  lemma ChildCovers(path: Path, names: seq<string>, p: Path)
    requires path <= p && path != p && p[|path|] in names
    ensures Covers(Children(path, names), p)
  {
    var i :| 0 <= i < |names| && names[i] == p[|path|];
    var q := Children(path, names)[i];
    assert q == p[..|path| + 1];
    assert q in Children(path, names);
  }

  /** A file that is there throughout is found. */
  lemma {:induction false} StandingIsFound(sights: seq<Sight>, pending: seq<Path>, sizes: map<Path, nat>,
                                           during: seq<seq<map<Path, Node>>>, p: Path)
    requires |during| == |sights| && Watched(sights, pending, during) && Stood(p, during)
    requires Walk(sights, pending, sizes).Some? && (p in sizes || Covers(pending, p))
    ensures p in Walk(sights, pending, sizes).value
    decreases |sights|
  {
    hide Covers, Saw, Pushed;
    if pending == [] {
      NothingCovers(p);
    } else {
      var sight, path := sights[0], pending[|pending| - 1];
      if p !in sizes {
        assert forall t :: 0 <= t < |during[0]| ==> Tree(during[0][t]) && p in during[0][t] && during[0][t][p].File?;
        LeadsOn(pending, sight, during[0], p);
      }
      StoodLater(p, during);
      StandingIsFound(sights[1..], Pushed(pending, sight), Noted(sizes, path, sight), during[1..], p);
    }
  }

  lemma NothingCovers(p: Path)
    ensures !Covers([], p)
  {}

  lemma StoodLater(p: Path, during: seq<seq<map<Path, Node>>>)
    requires during != [] && Stood(p, during)
    ensures Stood(p, during[1..])
  {
    assert forall i :: 0 <= i < |during[1..]| ==> during[1..][i] == during[i + 1];
  }

  /**
   However the tree changes during it, a scan that ends reports only files under
   the roots, with a size they had at some time, and misses none that stayed.
   */
  lemma ScanOfMovingTree(sights: seq<Sight>, roots: seq<Path>, during: seq<seq<map<Path, Node>>>, p: Path)
    requires |during| == |sights| && Watched(sights, roots, during)
    requires Walk(sights, roots, map[]).Some?
    ensures var sizes := Walk(sights, roots, map[]).value;
            && (p in sizes ==> Covers(roots, p) && WasThere(p, sizes[p], during))
            && (Covers(roots, p) && Stood(p, during) ==> p in sizes)
  {
    hide Covers, WasThere, Stood, Watched;
    var sizes := Walk(sights, roots, map[]).value;
    if p in sizes {
      FoundWasThere(sights, roots, map[], during, p);
    }
    if Covers(roots, p) && Stood(p, during) {
      StandingIsFound(sights, roots, map[], during, p);
    }
  }

  // ---- Looking once, and coming to an end ----

  /** The paths looked at. */
  ghost function Looks(sights: seq<Sight>, pending: seq<Path>): seq<Path>
    decreases |sights|
  {
    if pending == [] || sights == [] then []
    else [pending[|pending| - 1]] + Looks(sights[1..], Pushed(pending, sights[0]))
  }

  /** No listing repeats a name. */
  ghost predicate Plain(sights: seq<Sight>) {
    forall i :: 0 <= i < |sights| && sights[i].Listing? ==> Distinct(sights[i].names)
  }

  lemma {:induction false} LooksAreCovered(sights: seq<Sight>, pending: seq<Path>, p: Path)
    requires p in Looks(sights, pending)
    ensures Covers(pending, p)
    decreases |sights|
  {
    hide Covers, Pushed;
    LastIsCovered(pending);
    if p != pending[|pending| - 1] {
      LooksAreCovered(sights[1..], Pushed(pending, sights[0]), p);
      PushedCovers(pending, sights[0], p);
    }
  }

  /** From independent roots no path is looked at twice, so no file is counted at two sizes. */
  lemma {:induction false} LooksOnce(sights: seq<Sight>, pending: seq<Path>)
    requires Independent(pending) && Plain(sights)
    ensures Distinct(Looks(sights, pending))
    decreases |sights|
  {
    hide Covers, Independent, Pushed, Distinct;
    if pending == [] || sights == [] {
      NoneTwice();
    } else {
      var path, rest, next := pending[|pending| - 1], pending[..|pending| - 1], Pushed(pending, sights[0]);
      PushedIndependent(pending, sights[0]);
      LooksOnce(sights[1..], next);
      if path in Looks(sights[1..], next) {
        LooksAreCovered(sights[1..], next, path);
      }
      DistinctTail(path, Looks(sights[1..], next));
    }
  }

  lemma NoneTwice()
    ensures Distinct<Path>([])
  {}

  lemma PushedIndependent(pending: seq<Path>, sight: Sight)
    requires pending != [] && Independent(pending) && (sight.Listing? ==> Distinct(sight.names))
    ensures Independent(Pushed(pending, sight)) && !Covers(Pushed(pending, sight), pending[|pending| - 1])
  {
    hide Covers, Independent;
    var path, rest := pending[|pending| - 1], pending[..|pending| - 1];
    assert pending == rest + [path];
    IndependentFront(rest, path);
    NotAbove(rest, path);
    if sight.Listing? {
      ExpandIndependent(rest, path, sight.names);
      CoversUnion(rest, Children(path, sight.names), path);
      if Covers(Children(path, sight.names), path) {
        CoveredIsBelow(path, sight.names, path);
      }
    }
  }

  lemma IndependentFront(rest: seq<Path>, path: Path)
    requires Independent(rest + [path])
    ensures Independent(rest)
  {
    assert forall i :: 0 <= i < |rest| ==> (rest + [path])[i] == rest[i];
  }

  function SightOf(fs: map<Path, Node>, path: Path): Sight {
    if path !in fs then Gone
    else match fs[path] case File(size) => Found(size) case Directory(names) => Listing(names)
  }

  ghost function Covered(fs: map<Path, Node>, paths: seq<Path>): set<Path> {
    set p | p in fs && Covers(paths, p)
  }

  /** One look at a tree that stays as it is leaves less of it, or fewer paths. */
  lemma LookShrinks(fs: map<Path, Node>, pending: seq<Path>)
    requires Tree(fs) && Independent(pending) && pending != []
    ensures var path := pending[|pending| - 1];
            var next := Pushed(pending, SightOf(fs, path));
            && Independent(next)
            && (path in fs ==> |Covered(fs, next)| < |Covered(fs, pending)|)
            && (path !in fs ==> |next| < |pending|)
            && |Covered(fs, next)| <= |Covered(fs, pending)|
  {
    hide Covers, Independent, Pushed;
    var path := pending[|pending| - 1];
    var sight := SightOf(fs, path);
    var next := Pushed(pending, sight);
    PushedIndependent(pending, sight);
    forall p | p in Covered(fs, next)
      ensures p in Covered(fs, pending)
    {
      PushedCovers(pending, sight, p);
    }
    Subset(Covered(fs, next), Covered(fs, pending));
    if path in fs {
      LastIsCovered(pending);
      assert path in Covered(fs, pending) && path !in Covered(fs, next);
      Subset(Covered(fs, next) + {path}, Covered(fs, pending));
    } else {
      assert next == pending[..|pending| - 1] by { PushedRest(pending, sight); }
    }
  }

  lemma PushedRest(pending: seq<Path>, sight: Sight)
    requires pending != [] && !sight.Listing?
    ensures Pushed(pending, sight) == pending[..|pending| - 1]
  {}

  lemma {:induction false} Subset<T>(a: set<T>, b: set<T>)
    requires a <= b
    ensures |a| <= |b|
  {
    assert b == a + (b - a);
  }

  /** What a scan sees of a tree that does not change. */
  ghost function Sights(fs: map<Path, Node>, pending: seq<Path>): seq<Sight>
    requires Tree(fs) && Independent(pending)
    decreases |Covered(fs, pending)|, |pending|
  {
    if pending == [] then [] else
      var sight := SightOf(fs, pending[|pending| - 1]);
      LookShrinks(fs, pending);
      [sight] + Sights(fs, Pushed(pending, sight))
  }

  /** A tree that does not change, once for each look. */
  ghost function Still(fs: map<Path, Node>, n: nat): seq<seq<map<Path, Node>>> {
    seq(n, i => [fs])
  }

  lemma {:induction false} StillEnds(fs: map<Path, Node>, pending: seq<Path>, sizes: map<Path, nat>)
    requires Tree(fs) && Independent(pending)
    ensures var sights := Sights(fs, pending);
            Walk(sights, pending, sizes).Some? && Watched(sights, pending, Still(fs, |sights|))
    decreases |Covered(fs, pending)|, |pending|
  {
    hide Tree, Independent, Pushed, Covered;
    if pending != [] {
      var path := pending[|pending| - 1];
      var sight := SightOf(fs, path);
      var next := Pushed(pending, sight);
      LookShrinks(fs, pending);
      StillEnds(fs, next, Noted(sizes, path, sight));
      var sights := Sights(fs, pending);
      assert sights == [sight] + Sights(fs, next) && sights[1..] == Sights(fs, next);
      assert Still(fs, |sights|)[1..] == Still(fs, |sights| - 1);
      SawStill(fs, path);
    }
  }

  lemma SawStill(fs: map<Path, Node>, path: Path)
    requires Tree(fs)
    ensures Saw(SightOf(fs, path), path, [fs])
  {
    var during := [fs];
    assert during[0] == fs;
    forall name | path + [name] in during[0]
      ensures path in fs && fs[path].Directory? && name in fs[path].names
    {
      assert Listed(fs, path + [name]);
      assert (path + [name])[..|path|] == path;
    }
  }

  /** A scan of a tree that does not change ends, and finds exactly the files under the roots. */
  lemma ScanOfStillTree(fs: map<Path, Node>, roots: seq<Path>)
    requires Tree(fs) && Independent(roots)
    ensures Walk(Sights(fs, roots), roots, map[]) == Some(FilesUnder(fs, roots))
  {
    hide Tree, Independent, Watched, Covers, Sights, Walk;
    var sights := Sights(fs, roots);
    var during := Still(fs, |sights|);
    StillEnds(fs, roots, map[]);
    var sizes := Walk(sights, roots, map[]).value;
    forall p
      ensures p in sizes <==> p in FilesUnder(fs, roots)
      ensures p in sizes ==> sizes[p] == FilesUnder(fs, roots)[p]
    {
      ScanOfMovingTree(sights, roots, during, p);
    }
    assert sizes == FilesUnder(fs, roots);
  }
}

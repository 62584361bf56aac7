/** Which directories the Worker scans, and what a scan of them finds. */
module StorageObservation {
  import opened Basics

  /** An absolute path as its components. */
  type Path = seq<string>

  /** What realpath returns: no component steps up or stays. */
  predicate Canonical(p: Path) {
    forall i :: 0 <= i < |p| ==> p[i] != ".." && p[i] != "." && p[i] != ""
  }

  // ---- containsPath ----

  /** Length of the longest common prefix. */
  function Common(a: Path, b: Path): (k: nat)
    ensures k <= |a| && k <= |b| && a[..k] == b[..k]
    ensures k < |a| && k < |b| ==> a[k] != b[k]
  {
    if a == [] || b == [] || a[0] != b[0] then 0 else
      var k := 1 + Common(a[1..], b[1..]);
      assert a[..k] == [a[0]] + a[1..][..k - 1];
      assert b[..k] == [b[0]] + b[1..][..k - 1];
      k
  }

  /** path.relative: up to the common ancestor, then down. */
  function Relative(from: Path, to: Path): Path {
    var k := Common(from, to);
    seq(|from| - k, i => "..") + to[k..]
  }

  predicate ContainsPath(parent: Path, path: Path) {
    var child := Relative(parent, path);
    child == [] || child[0] != ".."
  }

  lemma ContainsIsPrefix(parent: Path, path: Path)
    requires Canonical(path)
    ensures ContainsPath(parent, path) <==> parent <= path
  {
    var k := Common(parent, path);
    assert parent <= path ==> forall i :: 0 <= i < |parent| ==> parent[i] == path[i];
    if k == |parent| {
      assert Relative(parent, path) == path[k..];
    }
  }

  // ---- independentRoots ----

  ghost predicate Distinct<T>(s: seq<T>) {
    forall i, j :: 0 <= i < |s| && 0 <= j < |s| && s[i] == s[j] ==> i == j
  }

  lemma DistinctTail<T>(x: T, s: seq<T>)
    ensures Distinct([x] + s) <==> Distinct(s) && x !in s
  {
    var all := [x] + s;
    if Distinct(all) {
      forall i, j | 0 <= i < |s| && 0 <= j < |s| && s[i] == s[j]
        ensures i == j
      {
        assert all[i + 1] == all[j + 1];
      }
      forall i | 0 <= i < |s|
        ensures s[i] != x
      {
        assert all[i + 1] == s[i] && all[0] == x;
      }
    }
  }

  /** new Set(paths), in order of first appearance. */
  function Unique(paths: seq<Path>): (r: seq<Path>)
    ensures forall p :: p in r <==> p in paths
    ensures Distinct(r)
    decreases |paths|
  {
    if paths == [] then [] else
      var front, last := paths[..|paths| - 1], paths[|paths| - 1];
      assert paths == front + [last];
      var r := Unique(front);
      if last in r then r else r + [last]
  }

  predicate Inside(all: seq<Path>, p: Path) {
    exists other :: other in all && other != p && ContainsPath(other, p)
  }

  function Outermost(candidates: seq<Path>, all: seq<Path>): seq<Path> {
    if candidates == [] then [] else
      (if Inside(all, candidates[0]) then [] else [candidates[0]]) + Outermost(candidates[1..], all)
  }

  function IndependentRoots(canonical: seq<Path>): seq<Path> {
    Outermost(Unique(canonical), Unique(canonical))
  }

  ghost predicate Independent(paths: seq<Path>) {
    forall i, j :: 0 <= i < j < |paths| ==> !(paths[i] <= paths[j]) && !(paths[j] <= paths[i])
  }

  ghost predicate Covers(paths: seq<Path>, p: Path) {
    exists q :: q in paths && q <= p
  }

  lemma {:induction false} OutermostMembers(candidates: seq<Path>, all: seq<Path>)
    requires Distinct(candidates)
    ensures forall p :: p in Outermost(candidates, all) <==> p in candidates && !Inside(all, p)
    ensures Distinct(Outermost(candidates, all))
    decreases |candidates|
  {
    if candidates != [] {
      assert candidates == [candidates[0]] + candidates[1..];
      DistinctTail(candidates[0], candidates[1..]);
      OutermostMembers(candidates[1..], all);
      DistinctTail(candidates[0], Outermost(candidates[1..], all));
      assert [] + Outermost(candidates[1..], all) == Outermost(candidates[1..], all);
    }
  }

  /** Above every path there is one that nothing else contains. */
  lemma {:induction false} SomeOutermost(all: seq<Path>, p: Path)
    requires p in all && forall q :: q in all ==> Canonical(q)
    ensures exists top :: top in all && !Inside(all, top) && top <= p
    decreases |p|
  {
    if Inside(all, p) {
      var other :| other in all && other != p && ContainsPath(other, p);
      ContainsIsPrefix(other, p);
      SomeOutermost(all, other);
      var top :| top in all && !Inside(all, top) && top <= other;
      assert top <= p;
    }
  }

  lemma NotInside(all: seq<Path>, p: Path, other: Path)
    requires !Inside(all, p) && other in all && other != p
    ensures !ContainsPath(other, p)
  {}

  /** No root contains another, each is one of the inputs, and every input lies in a root. */
  lemma RootsAreIndependent(paths: seq<Path>)
    requires forall q :: q in paths ==> Canonical(q)
    ensures Independent(IndependentRoots(paths))
    ensures forall r :: r in IndependentRoots(paths) ==> r in paths
    ensures forall p :: p in paths ==> Covers(IndependentRoots(paths), p)
  {
    var all, roots := Unique(paths), IndependentRoots(paths);
    OutermostMembers(all, all);
    forall i, j | 0 <= i < |roots| && 0 <= j < |roots| && i != j
      ensures !(roots[i] <= roots[j])
    {
      assert roots[j] in roots && roots[i] in roots;
      ContainsIsPrefix(roots[i], roots[j]);
      NotInside(all, roots[j], roots[i]);
    }
    forall p | p in paths
      ensures Covers(roots, p)
    {
      SomeOutermost(all, p);
    }
  }

  // ---- The file system ----

  datatype Node = File(size: nat) | Directory(names: seq<string>)

  /** A snapshot: whatever exists is listed by its parent; a listed name may be gone again. */
  ghost predicate Tree(fs: map<Path, Node>) {
    && (forall p :: p in fs && p != [] ==> Listed(fs, p))
    && (forall p :: p in fs && fs[p].Directory? ==> Distinct(fs[p].names))
  }

  ghost predicate Listed(fs: map<Path, Node>, p: Path)
    requires p != []
  {
    var parent := p[..|p| - 1];
    parent in fs && fs[parent].Directory? && p[|p| - 1] in fs[parent].names
  }

  lemma {:induction false} Ancestors(fs: map<Path, Node>, p: Path, k: nat)
    requires Tree(fs) && p in fs && k < |p|
    ensures p[..k] in fs && fs[p[..k]].Directory? && p[k] in fs[p[..k]].names
    decreases |p|
  {
    assert Listed(fs, p);
    if k < |p| - 1 {
      var parent := p[..|p| - 1];
      Ancestors(fs, parent, k);
      assert parent[..k] == p[..k] && parent[k] == p[k];
    }
  }

  /** Sizes of all files at or below the given paths, each file once. */
  ghost function FilesUnder(fs: map<Path, Node>, paths: seq<Path>): map<Path, nat> {
    map p | p in fs && fs[p].File? && Covers(paths, p) :: fs[p].size
  }

  lemma SameCover(fs: map<Path, Node>, a: seq<Path>, b: seq<Path>)
    requires forall p :: p in fs ==> (Covers(a, p) <==> Covers(b, p))
    ensures FilesUnder(fs, a) == FilesUnder(fs, b)
  {}

  /** Scanning the independent roots finds exactly the files under all the configured roots. */
  lemma RootsLoseNothing(fs: map<Path, Node>, paths: seq<Path>)
    requires forall q :: q in paths ==> Canonical(q)
    ensures FilesUnder(fs, IndependentRoots(paths)) == FilesUnder(fs, paths)
  {
    hide Independent, IndependentRoots;
    RootsAreIndependent(paths);
    var roots := IndependentRoots(paths);
    forall p | p in fs
      ensures Covers(roots, p) <==> Covers(paths, p)
    {
      RootAbove(roots, paths, p);
    }
    SameCover(fs, roots, paths);
  }

  lemma RootAbove(roots: seq<Path>, paths: seq<Path>, p: Path)
    requires forall r :: r in roots ==> r in paths
    requires forall q :: q in paths ==> Covers(roots, q)
    ensures Covers(roots, p) <==> Covers(paths, p)
  {
    if Covers(paths, p) {
      var q :| q in paths && q <= p;
      assert Covers(roots, q);
      var r :| r in roots && r <= q;
      assert r <= p;
    }
  }
}

/**
 Storage accounting. Observed files and reservations overlap: a reservation
 counts at least its declared bytes, and the files on its paths count inside it.
 */
module StorageUsage {
  import opened Basics
  import opened StorageObservation
  import opened Totals

  type Sizes = map<Path, nat>

  /** A transfer's share of the quota. The paths are where its bytes may lie. */
  datatype Reservation = Reservation(key: string, bytes: nat, paths: set<Path>)

  // ---- Bytes on some paths ----

  function On(m: Sizes, paths: set<Path>): Sizes {
    map p | p in m && p in paths :: m[p]
  }

  function SizeAt(m: Sizes, p: Path): nat {
    if p in m then m[p] else 0
  }

  /** Bytes lying on some paths. */
  ghost function Held(m: Sizes, paths: set<Path>): nat {
    Sum(On(m, paths))
  }

  /** Taking one path out of a map, seen on and off some paths. */
  lemma OnWithout(m: Sizes, p: Path, paths: set<Path>)
    requires p in m
    ensures p in paths ==> On(m, paths) - {p} == On(m - {p}, paths) && (m - {p}) - paths == m - paths
    ensures p !in paths ==> On(m - {p}, paths) == On(m, paths) && (m - {p}) - paths == (m - paths) - {p}
  {}

  lemma {:induction false} SumSplit(m: Sizes, paths: set<Path>)
    ensures Sum(m) == Held(m, paths) + Sum(m - paths)
    decreases |m|
  {
    if m == map[] {
      assert On(m, paths) == m && m - paths == m;
    } else {
      var p: Path :| p in m;
      assert (m - {p}).Keys == m.Keys - {p};
      SumSplit(m - {p}, paths);
      SumRemove(m, p);
      OnWithout(m, p, paths);
      if p in paths {
        SumRemove(On(m, paths), p);
      } else {
        SumRemove(m - paths, p);
      }
    }
  }

  lemma HeldOfMore(m: Sizes, paths: set<Path>, more: set<Path>)
    requires paths <= more
    ensures Held(m, paths) <= Held(m, more)
  {
    SumSplit(On(m, more), paths);
    assert On(On(m, more), paths) == On(m, paths);
  }

  lemma HeldElsewhere(m: Sizes, removed: set<Path>, paths: set<Path>)
    requires removed !! paths
    ensures Held(m - removed, paths) == Held(m, paths)
  {
    assert On(m - removed, paths) == On(m, paths);
  }

  // ---- #usage ----

  /** The loop of #usage: each reservation takes its files out of the map. */
  ghost function Charge(files: Sizes, rs: seq<Reservation>): nat
    decreases |rs|
  {
    if rs == [] then Sum(files) else
      Max(rs[0].bytes, Held(files, rs[0].paths)) + Charge(files - rs[0].paths, rs[1..])
  }

  ghost predicate Disjoint(rs: seq<Reservation>) {
    forall i, j :: 0 <= i < j < |rs| ==> rs[i].paths !! rs[j].paths
  }

  /** The part of a reservation that is not on disk yet. */
  ghost function Unfilled(files: Sizes, r: Reservation): nat {
    Max(0, r.bytes - Held(files, r.paths))
  }

  ghost function AllUnfilled(files: Sizes, rs: seq<Reservation>): nat
    decreases |rs|
  {
    if rs == [] then 0 else Unfilled(files, rs[0]) + AllUnfilled(files, rs[1..])
  }

  lemma {:induction false} UnfilledElsewhere(files: Sizes, removed: set<Path>, rs: seq<Reservation>)
    requires forall i :: 0 <= i < |rs| ==> removed !! rs[i].paths
    ensures AllUnfilled(files - removed, rs) == AllUnfilled(files, rs)
    decreases |rs|
  {
    if rs != [] {
      HeldElsewhere(files, removed, rs[0].paths);
      UnfilledElsewhere(files, removed, rs[1..]);
    }
  }

  /** With disjoint reservations, usage is the observed bytes plus what the reservations still lack. */
  lemma {:induction false} UsageFormula(files: Sizes, rs: seq<Reservation>)
    requires Disjoint(rs)
    ensures Charge(files, rs) == Sum(files) + AllUnfilled(files, rs)
    decreases |rs|
  {
    if rs != [] {
      var paths := rs[0].paths;
      SumSplit(files, paths);
      UsageFormula(files - paths, rs[1..]);
      UnfilledElsewhere(files, paths, rs[1..]);
    }
  }

  lemma {:induction false} UnfilledWithout(files: Sizes, rs: seq<Reservation>, i: nat)
    requires i < |rs|
    ensures AllUnfilled(files, rs) == Unfilled(files, rs[i]) + AllUnfilled(files, Without(rs, i))
    decreases i
  {
    var rest := Without(rs, i);
    if i == 0 {
      assert rest == rs[1..];
    } else {
      UnfilledWithout(files, rs[1..], i - 1);
      assert rest[0] == rs[0] && rest[1..] == Without(rs[1..], i - 1);
    }
  }

  lemma {:induction false} UnfilledPermuted(files: Sizes, a: seq<Reservation>, b: seq<Reservation>)
    requires multiset(a) == multiset(b)
    ensures AllUnfilled(files, a) == AllUnfilled(files, b)
    decreases |a|
  {
    if a == [] {
      assert |multiset(b)| == |b|;
    } else {
      var i := SamePartner(a, b);
      UnfilledWithout(files, b, i);
      UnfilledPermuted(files, a[1..], Without(b, i));
    }
  }

  /** The order in which reservations were made does not matter while their paths are disjoint. */
  lemma UsageInAnyOrder(files: Sizes, a: seq<Reservation>, b: seq<Reservation>)
    requires Disjoint(a) && Disjoint(b) && multiset(a) == multiset(b)
    ensures Charge(files, a) == Charge(files, b)
  {
    UsageFormula(files, a);
    UsageFormula(files, b);
    UnfilledPermuted(files, a, b);
  }

  // ---- Reservations that share paths ----

  /** How many of n shared bytes a reservation takes in beside the bytes on paths it does not share. */
  ghost function Absorbs(r: Reservation, own: nat, n: nat): nat {
    Min(n, Max(0, r.bytes - own))
  }

  lemma HeldInTwo(m: Sizes, paths: set<Path>, part: set<Path>)
    ensures Held(m, paths) == Held(m, paths * part) + Held(m, paths - part)
    ensures Held(m - part, paths) == Held(m, paths - part)
  {
    SumSplit(On(m, paths), part);
    assert On(On(m, paths), part) == On(m, paths * part) && On(m, paths) - part == On(m, paths - part);
    assert On(m - part, paths) == On(m, paths - part);
  }

  lemma ChargeOfTwo(files: Sizes, a: Reservation, b: Reservation, rest: seq<Reservation>)
    ensures var shared := Held(files, a.paths * b.paths);
            Charge(files, [a, b] + rest) ==
              Max(a.bytes, Held(files, a.paths - b.paths) + shared) + Max(b.bytes, Held(files, b.paths - a.paths))
              + Charge(files - (a.paths + b.paths), rest)
  {
    var both := [a, b] + rest;
    HeldInTwo(files, a.paths, b.paths);
    HeldInTwo(files, b.paths, a.paths);
    assert both[1..] == [b] + rest && both[1..][1..] == rest;
    assert files - a.paths - b.paths == files - (a.paths + b.paths);
  }

  /** Two neighbours change places without a difference exactly if both take in as many of the bytes they share. */
  lemma NeighboursExact(files: Sizes, a: Reservation, b: Reservation, rest: seq<Reservation>)
    ensures var shared := Held(files, a.paths * b.paths);
            Charge(files, [a, b] + rest) == Charge(files, [b, a] + rest) <==>
              Absorbs(a, Held(files, a.paths - b.paths), shared) == Absorbs(b, Held(files, b.paths - a.paths), shared)
  {
    ChargeOfTwo(files, a, b, rest);
    ChargeOfTwo(files, b, a, rest);
    assert a.paths * b.paths == b.paths * a.paths && a.paths + b.paths == b.paths + a.paths;
  }

  function PathsOf(rs: seq<Reservation>): set<Path>
    decreases |rs|
  {
    if rs == [] then {} else rs[0].paths + PathsOf(rs[1..])
  }

  lemma {:induction false} ChargeAfter(files: Sizes, first: seq<Reservation>, x: seq<Reservation>, y: seq<Reservation>)
    ensures Charge(files, first + x) == Charge(files, first + y) <==>
            Charge(files - PathsOf(first), x) == Charge(files - PathsOf(first), y)
    decreases |first|
  {
    if first == [] {
      assert first + x == x && first + y == y && files - {} == files;
    } else {
      assert (first + x)[1..] == first[1..] + x && (first + y)[1..] == first[1..] + y;
      ChargeAfter(files - first[0].paths, first[1..], x, y);
      assert files - first[0].paths - PathsOf(first[1..]) == files - PathsOf(first);
    }
  }

  /** The same in the middle of the list: only the files left over by the reservations before them matter. */
  lemma OrderMattersExactly(files: Sizes, first: seq<Reservation>, a: Reservation, b: Reservation, rest: seq<Reservation>)
    ensures var left := files - PathsOf(first);
            var shared := Held(left, a.paths * b.paths);
            Charge(files, first + ([a, b] + rest)) == Charge(files, first + ([b, a] + rest)) <==>
              Absorbs(a, Held(left, a.paths - b.paths), shared) == Absorbs(b, Held(left, b.paths - a.paths), shared)
  {
    ChargeAfter(files, first, [a, b] + rest, [b, a] + rest);
    NeighboursExact(files - PathsOf(first), a, b, rest);
  }

  lemma SumOne(p: Path, n: nat)
    ensures Sum(map[p := n]) == n
  {
    SumRemove(map[p := n], p);
    assert map[p := n] - {p} == map[];
  }

  /** One shared file of five bytes, and reservations of ten and of none: in one order they count ten, in the other fifteen. */
  lemma OverlapDependsOnOrder(p: Path)
    ensures var files := map[p := 5];
            var a, b := Reservation("a", 10, {p}), Reservation("b", 0, {p});
            Charge(files, [a, b]) == 10 && Charge(files, [b, a]) == 15
  {
    var files, none: Sizes := map[p := 5], map[];
    var a, b := Reservation("a", 10, {p}), Reservation("b", 0, {p});
    SumOne(p, 5);
    assert {p} * {p} == {p} && {p} - {p} == {} && {p} + {p} == {p};
    assert On(files, {p}) == files && On(files, {}) == none && files - {p} == none;
    assert [a, b] + [] == [a, b] && [b, a] + [] == [b, a];
    ChargeOfTwo(files, a, b, []);
    ChargeOfTwo(files, b, a, []);
  }

  // ---- Reservations by key ----

  function Find(rs: seq<Reservation>, key: string): (i: Option<nat>)
    ensures i.Some? ==> i.value < |rs| && rs[i.value].key == key
    ensures i.None? ==> forall j :: 0 <= j < |rs| ==> rs[j].key != key
  {
    if rs == [] then None
    else if rs[0].key == key then Some(0)
    else match Find(rs[1..], key) case None => None case Some(i) => Some(i + 1)
  }

  /** Map.set: replace in place or append. */
  function Put(rs: seq<Reservation>, r: Reservation): (out: seq<Reservation>)
    ensures Find(rs, r.key).Some? ==> out == rs[Find(rs, r.key).value := r]
    ensures Find(rs, r.key).None? ==> out == rs + [r]
  {
    match Find(rs, r.key) case None => rs + [r] case Some(i) => rs[i := r]
  }

  /** Map.delete. */
  function Delete(rs: seq<Reservation>, key: string): seq<Reservation> {
    match Find(rs, key) case None => rs case Some(i) => Without(rs, i)
  }

  function Previous(rs: seq<Reservation>, key: string): set<Path> {
    match Find(rs, key) case None => {} case Some(i) => rs[i].paths
  }

  /** A reservation for a key keeps the paths it already had. */
  function Extended(rs: seq<Reservation>, key: string, bytes: nat, paths: set<Path>): Reservation {
    Reservation(key, bytes, Previous(rs, key) + paths)
  }

  lemma UnfilledReplaced(files: Sizes, rs: seq<Reservation>, i: nat, r: Reservation)
    requires i < |rs|
    ensures AllUnfilled(files, rs[i := r]) + Unfilled(files, rs[i]) == AllUnfilled(files, rs) + Unfilled(files, r)
  {
    UnfilledWithout(files, rs, i);
    UnfilledWithout(files, rs[i := r], i);
    assert Without(rs[i := r], i) == Without(rs, i);
  }

  lemma UnfilledAppended(files: Sizes, rs: seq<Reservation>, r: Reservation)
    ensures AllUnfilled(files, rs + [r]) == AllUnfilled(files, rs) + Unfilled(files, r)
  {
    UnfilledWithout(files, rs + [r], |rs|);
    assert Without(rs + [r], |rs|) == rs;
  }

  /** A reservation that does not ask for more bytes never raises usage. */
  lemma ShrinkingNeverRaises(files: Sizes, rs: seq<Reservation>, key: string, bytes: nat, paths: set<Path>)
    requires Disjoint(rs) && Disjoint(Put(rs, Extended(rs, key, bytes, paths)))
    requires Find(rs, key).Some? && bytes <= rs[Find(rs, key).value].bytes
    ensures Charge(files, Put(rs, Extended(rs, key, bytes, paths))) <= Charge(files, rs)
  {
    var i := Find(rs, key).value;
    var r := Extended(rs, key, bytes, paths);
    HeldOfMore(files, rs[i].paths, r.paths);
    UnfilledReplaced(files, rs, i, r);
    UsageFormula(files, rs);
    UsageFormula(files, rs[i := r]);
  }
}

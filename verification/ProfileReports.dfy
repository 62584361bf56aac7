/** Rotating Profile usage reports: at most a hundred Profiles a call, and none forgotten. */
module ProfileReports {
  import opened Basics

  const BATCH := 100

  /** Which of n Profiles one call reports, from a cursor that may be out of date. */
  function Batch(n: nat, cursor: nat): seq<nat> {
    if n == 0 then [] else seq(Min(BATCH, n), i requires i >= 0 => (cursor + i) % n)
  }

  function NextCursor(n: nat, cursor: nat): nat {
    if n == 0 then cursor else (cursor + Min(BATCH, n)) % n
  }

  function CursorAfter(n: nat, cursor: nat, calls: nat): nat {
    if calls == 0 then cursor else NextCursor(n, CursorAfter(n, cursor, calls - 1))
  }

  /** Calls needed to go once round: n / 100, rounded up. */
  function RoundTrip(n: nat): nat {
    (n + BATCH - 1) / BATCH
  }

  lemma AtLeastOnce(n: nat, k: int)
    requires k >= 1
    ensures k * n >= n
  {
    assert k * n == (k - 1) * n + n;
  }

  lemma MultipleBelow(n: nat, q: int, r: int)
    requires n > 0 && 0 <= r < n && 0 <= q * n + r < n
    ensures q == 0
  {
    if q >= 1 { AtLeastOnce(n, q); }
    if 0 - q >= 1 { AtLeastOnce(n, 0 - q); }
  }

  lemma Remainder(a: nat, n: nat, q: int, r: nat)
    requires n > 0 && r < n && a == q * n + r
    ensures a % n == r
  {
    assert a == (a / n) * n + a % n;
    assert (q - a / n) * n + r == a % n;
    MultipleBelow(n, q - a / n, r);
  }

  lemma ModThenAdd(a: nat, b: nat, n: nat)
    requires n > 0
    ensures (a % n + b) % n == (a + b) % n
  {
    var sum := a % n + b;
    var q := sum / n;
    assert (a / n + q) * n == (a / n) * n + q * n;
    Remainder(a + b, n, a / n + q, sum % n);
  }

  lemma Apart(cursor: nat, i: nat, j: nat, n: nat)
    requires i < j < n
    ensures (cursor + i) % n != (cursor + j) % n
  {
    if (cursor + i) % n == (cursor + j) % n {
      var p, q := (cursor + i) / n, (cursor + j) / n;
      assert (q - p) * n == j - i;
      MultipleBelow(n, q - p, 0);
    }
  }

  /** One call never reports a Profile twice. */
  lemma NoDuplicates(n: nat, cursor: nat)
    ensures var b := Batch(n, cursor);
            |b| == (if n < 100 then n else 100) && (forall i :: 0 <= i < |b| ==> b[i] < n) && forall i, j :: 0 <= i < j < |b| ==> b[i] != b[j]
  {
    var b := Batch(n, cursor);
    forall i, j | 0 <= i < j < |b|
      ensures b[i] != b[j]
    {
      Apart(cursor, i, j, n);
    }
  }

  /** A batch is the Profiles from the cursor on, and the next one starts where it ends. */
  lemma BatchExactly(n: nat, cursor: nat, i: nat)
    requires 0 < n && i < |Batch(n, cursor)|
    ensures Batch(n, cursor)[i] == (cursor + i) % n
    ensures NextCursor(n, cursor) == (cursor + |Batch(n, cursor)|) % n
  {}

  lemma {:induction false} CursorFrom(n: nat, cursor: nat, calls: nat)
    requires n > BATCH
    ensures CursorAfter(n, cursor, calls) % n == (cursor + calls * BATCH) % n
    decreases calls
  {
    if calls > 0 {
      CursorFrom(n, cursor, calls - 1);
      var before := CursorAfter(n, cursor, calls - 1);
      ModThenAdd(before, BATCH, n);
      ModThenAdd(cursor + (calls - 1) * BATCH, BATCH, n);
      ModThenAdd(before + BATCH, 0, n);
    }
  }

  /** How far round profile i is from the cursor. */
  lemma Distance(n: nat, cursor: nat, i: nat) returns (d: nat)
    requires i < n
    ensures d < n && (cursor + d) % n == i
  {
    var c := cursor % n;
    d := if i >= c then i - c else i + n - c;
    ModThenAdd(cursor, d, n);
    Remainder(c + d, n, if i >= c then 0 else 1, i);
  }

  /** The call and the place in its batch at which a Profile is reported. */
  lemma EveryProfileIsReported(n: nat, cursor: nat, i: nat) returns (call: nat, place: nat)
    requires i < n
    ensures call < RoundTrip(n)
    ensures place < |Batch(n, CursorAfter(n, cursor, call))| && Batch(n, CursorAfter(n, cursor, call))[place] == i
  {
    var d := Distance(n, cursor, i);
    if n <= BATCH {
      call, place := 0, d;
    } else {
      call, place := d / BATCH, d % BATCH;
      var at := CursorAfter(n, cursor, call);
      CursorFrom(n, cursor, call);
      ModThenAdd(at, place, n);
      ModThenAdd(cursor + call * BATCH, place, n);
      assert cursor + call * BATCH + place == cursor + d;
    }
  }

  predicate Reports(n: nat, cursor: nat, call: nat, i: nat) {
    i in Batch(n, CursorAfter(n, cursor, call))
  }

  /** Any ceil(n / 100) consecutive calls report every Profile, from whatever cursor they start. */
  lemma RoundTripCoversAll(n: nat, cursor: nat, start: nat, i: nat)
    requires i < n
    ensures exists call: nat :: start <= call < start + (n + 99) / 100 && Reports(n, cursor, call, i)
  {
    var k, place := EveryProfileIsReported(n, CursorAfter(n, cursor, start), i);
    LaterCalls(n, cursor, start, k);
    assert Reports(n, cursor, start + k, i);
  }

  lemma {:induction false} LaterCalls(n: nat, cursor: nat, start: nat, more: nat)
    ensures CursorAfter(n, CursorAfter(n, cursor, start), more) == CursorAfter(n, cursor, start + more)
    decreases more
  {
    if more > 0 {
      LaterCalls(n, cursor, start, more - 1);
    }
  }

  class ProfileReporter {
    var cursor: nat

    constructor ()
      ensures cursor == 0
    {
      cursor := 0;
    }

    method ProfileUsages(ids: seq<string>) returns (batch: seq<string>)
      modifies this
      ensures cursor == NextCursor(|ids|, old(cursor))
      ensures |batch| == |Batch(|ids|, old(cursor))|
      ensures forall i :: 0 <= i < |batch| ==> Batch(|ids|, old(cursor))[i] < |ids| && batch[i] == ids[Batch(|ids|, old(cursor))[i]]
    {
      batch := [];
      if |ids| == 0 { return; }
      var count := Min(BATCH, |ids|);
      for index := 0 to count
        invariant |batch| == index && cursor == old(cursor)
        invariant forall i :: 0 <= i < index ==> batch[i] == ids[(cursor + i) % |ids|]
      {
        batch := batch + [ids[(cursor + index) % |ids|]];
      }
      cursor := (cursor + count) % |ids|;
    }
  }
}

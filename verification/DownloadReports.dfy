/** Reporting downloads to the Backend in batches, and forgetting what it has reconciled. */
module DownloadReports {
  import opened Basics
  import D = RetainedDownloadsModel
  import P = RetainedDownloadsProofs
  import O = RetainedDownloadsOutcomes

  const BATCH_SIZE := 100

  /** One download in a report; terminal ones are claimed or expired. */
  datatype Entry = Entry(id: string, terminal: bool)

  datatype Reply = Interrupted | Acknowledged(ids: seq<string>)

  ghost predicate Unique(files: seq<Entry>) {
    forall i, j :: 0 <= i < j < |files| ==> files[i].id != files[j].id
  }

  function TerminalIds(files: seq<Entry>): seq<string> {
    if files == [] then []
    else (if files[0].terminal then [files[0].id] else []) + TerminalIds(files[1..])
  }

  function Elements(ids: seq<string>): set<string> {
    set id | id in ids
  }

  /** The check on an acknowledgement: as many ids as expected, all different, all expected. */
  predicate Matches(report: seq<Entry>, ids: seq<string>) {
    var expected := Elements(TerminalIds(report));
    |ids| == |expected| && |Elements(ids)| == |expected| && forall id :: id in ids ==> id in expected
  }

  // ---- What the check means ----

  lemma {:induction false} ElementsOfLonger(ids: seq<string>)
    ensures |Elements(ids)| <= |ids|
    ensures |Elements(ids)| == |ids| ==> multiset(ids) == multiset(Elements(ids))
    decreases |ids|
  {
    if ids != [] {
      var rest := ids[1..];
      ElementsOfLonger(rest);
      assert ids == [ids[0]] + rest;
      assert Elements(ids) == Elements(rest) + {ids[0]};
      if ids[0] in Elements(rest) {
        assert Elements(ids) == Elements(rest);
      }
    }
  }

  lemma SubsetOfSameSize(a: set<string>, b: set<string>)
    requires a <= b && |a| == |b|
    ensures a == b
  {
    assert a - b == {} && a + b == b && a * b == a;
    assert |b - a| == 0;
  }

  lemma {:induction false} TerminalIdsUnique(files: seq<Entry>)
    requires Unique(files)
    ensures |Elements(TerminalIds(files))| == |TerminalIds(files)|
    ensures forall id :: id in TerminalIds(files) ==> exists i :: 0 <= i < |files| && files[i].id == id && files[i].terminal
    decreases |files|
  {
    if files != [] {
      var rest := files[1..];
      TerminalIdsUnique(rest);
      forall id | id in TerminalIds(rest)
        ensures exists i :: 0 <= i < |files| && files[i].id == id && files[i].terminal && id != files[0].id
      {
        var i :| 0 <= i < |rest| && rest[i].id == id && rest[i].terminal;
        assert files[i + 1] == rest[i];
      }
      if files[0].terminal {
        assert files[0].id !in Elements(TerminalIds(rest));
        assert Elements(TerminalIds(files)) == {files[0].id} + Elements(TerminalIds(rest));
      } else {
        assert TerminalIds(files) == TerminalIds(rest);
      }
    }
  }

  /** An acknowledgement is accepted exactly when it lists the report's terminal downloads, in some order. */
  lemma AcceptedExactly(report: seq<Entry>, ids: seq<string>)
    requires Unique(report)
    ensures Matches(report, ids) <==> multiset(ids) == multiset(TerminalIds(report))
  {
    var terminal := TerminalIds(report);
    TerminalIdsUnique(report);
    ElementsOfLonger(ids);
    ElementsOfLonger(terminal);
    if Matches(report, ids) {
      assert Elements(ids) <= Elements(terminal);
      SubsetOfSameSize(Elements(ids), Elements(terminal));
    }
    if multiset(ids) == multiset(terminal) {
      assert |ids| == |multiset(ids)| == |multiset(terminal)| == |terminal|;
      SameElements(ids, terminal);
    }
  }

  lemma SameElements(a: seq<string>, b: seq<string>)
    requires multiset(a) == multiset(b)
    ensures Elements(a) == Elements(b)
  {
    assert forall id :: id in a <==> id in multiset(a);
    assert forall id :: id in b <==> id in multiset(b);
  }

  // ---- A whole report ----

  function Terminals(files: seq<Entry>): multiset<string> {
    multiset(TerminalIds(files))
  }

  lemma {:induction false} TerminalsSplit(a: seq<Entry>, b: seq<Entry>)
    ensures TerminalIds(a + b) == TerminalIds(a) + TerminalIds(b)
    ensures Terminals(a + b) == Terminals(a) + Terminals(b)
    decreases |a|
  {
    if a == [] {
      assert a + b == b;
    } else {
      assert (a + b)[1..] == a[1..] + b;
      TerminalsSplit(a[1..], b);
    }
  }

  lemma SliceUnique(files: seq<Entry>, i: nat, j: nat)
    requires Unique(files) && i <= j <= |files|
    ensures Unique(files[i..j])
  {}

  /** The store forgets one download after another, until one cannot be removed. */
  method AcknowledgeAll(ids: seq<string>, stuck: set<string>) returns (forgotten: seq<string>, ok: bool)
    ensures forgotten <= ids && (forall id :: id in forgotten ==> id !in stuck)
    ensures if ok then forgotten == ids else |forgotten| < |ids| && ids[|forgotten|] in stuck
  {
    var i := 0;
    while i < |ids|
      invariant i <= |ids|
      invariant forall k :: 0 <= k < i ==> ids[k] !in stuck
    {
      if ids[i] in stuck { return ids[..i], false; }
      i := i + 1;
    }
    return ids[..i], true;
  }

  function BatchEnd(files: seq<Entry>, offset: nat): nat {
    Min(|files|, offset + BATCH_SIZE)
  }

  /** The batches sent so far: the list cut into pieces of a hundred, from its start. */
  ghost predicate SentInOrder(files: seq<Entry>, sent: seq<seq<Entry>>) {
    forall k :: 0 <= k < |sent| ==>
      k * BATCH_SIZE < |files| && sent[k] == files[k * BATCH_SIZE..BatchEnd(files, k * BATCH_SIZE)]
  }

  /** Each batch sent is the next hundred downloads, or those that are left. */
  lemma SentExactly(files: seq<Entry>, sent: seq<seq<Entry>>, k: nat)
    requires SentInOrder(files, sent) && k < |sent|
    ensures 100 * k < |files|
    ensures sent[k] == files[100 * k..if |files| < 100 * k + 100 then |files| else 100 * k + 100]
  {}

  /** The acknowledgement matches the report, and every download it lists can be removed. */
  predicate Settles(batch: seq<Entry>, reply: Reply, stuck: set<string>) {
    reply.Acknowledged? && Matches(batch, reply.ids) && forall id :: id in reply.ids ==> id !in stuck
  }

  function ReplyTo(replies: seq<Reply>, k: nat): Reply {
    if k < |replies| then replies[k] else Interrupted
  }

  /** One batch: forgets what its acknowledgement lists, if that matches the report. */
  method Settle(batch: seq<Entry>, reply: Reply, stuck: set<string>) returns (forgotten: seq<string>, ok: bool)
    requires Unique(batch)
    ensures multiset(forgotten) <= Terminals(batch)
    ensures ok == Settles(batch, reply, stuck)
    ensures ok ==> multiset(forgotten) == Terminals(batch)
    ensures reply.Acknowledged? && Matches(batch, reply.ids) && !ok ==>
              forgotten < reply.ids && reply.ids[|forgotten|] in stuck
  {
    if reply.Interrupted? || !Matches(batch, reply.ids) { return [], false; }
    AcceptedExactly(batch, reply.ids);
    forgotten, ok := AcknowledgeAll(reply.ids, stuck);
    assert reply.ids == forgotten + reply.ids[|forgotten|..];
  }

  lemma SplitAt(files: seq<Entry>, offset: nat, end: nat)
    requires offset <= end <= |files|
    ensures Terminals(files[..end]) == Terminals(files[..offset]) + Terminals(files[offset..end])
    ensures Terminals(files[..end]) <= Terminals(files)
  {
    hide Terminals;
    assert files[..end] == files[..offset] + files[offset..end];
    TerminalsSplit(files[..offset], files[offset..end]);
    assert files == files[..end] + files[end..];
    TerminalsSplit(files[..end], files[end..]);
  }

  lemma SentOneMore(files: seq<Entry>, sent: seq<seq<Entry>>, offset: nat)
    requires SentInOrder(files, sent) && offset == |sent| * BATCH_SIZE < |files|
    ensures SentInOrder(files, sent + [files[offset..BatchEnd(files, offset)]])
  {}

  /** How a report ends: done, stopped between two batches, or failed. */
  datatype Ending = Completed | Cancelled | Failed

  /**
   Sends the downloads in batches of at most a hundred, in order, and forgets what each
   acknowledgement lists. Only terminal downloads are forgotten, none of them twice. A
   report that completes has sent every download and forgotten every terminal one; a
   cancelled one has settled every batch it sent and sends no more; a failed one failed
   at the last batch it sent. `cancelledAt` is the batch before which it is cancelled.
   */
  method Report(files: seq<Entry>, replies: seq<Reply>, stuck: set<string>, cancelledAt: Option<nat>)
    returns (sent: seq<seq<Entry>>, forgotten: seq<string>, ending: Ending)
    requires Unique(files)
    ensures SentInOrder(files, sent)
    ensures multiset(forgotten) <= Terminals(files)
    ensures forall k :: 0 <= k < |sent| ==>
              Settles(sent[k], ReplyTo(replies, k), stuck) || (k == |sent| - 1 && ending.Failed?)
    ensures ending.Completed? ==> |files| <= |sent| * BATCH_SIZE && multiset(forgotten) == Terminals(files)
    ensures ending.Cancelled? <==> cancelledAt == Some(|sent|) && |sent| * BATCH_SIZE < |files| && !ending.Failed?
    ensures ending.Cancelled? ==> multiset(forgotten) == Terminals(files[..|sent| * BATCH_SIZE])
    ensures ending.Failed? ==> sent != [] && !Settles(sent[|sent| - 1], ReplyTo(replies, |sent| - 1), stuck)
  {
    hide SentInOrder, Terminals, Unique, Settles;
    sent, forgotten := [], [];
    var offset := 0;
    NothingYet(files);
    while offset < |files|
      invariant offset == |sent| * BATCH_SIZE && SentInOrder(files, sent)
      invariant forall k :: 0 <= k < |sent| ==> Settles(sent[k], ReplyTo(replies, k), stuck)
      invariant multiset(forgotten) == Terminals(files[..Min(|files|, offset)])
    {
      var end := BatchEnd(files, offset);
      SplitAt(files, offset, end);
      if cancelledAt == Some(|sent|) {
        SplitAt(files, offset, offset);
        return sent, forgotten, Cancelled;
      }
      SliceUnique(files, offset, end);
      SentOneMore(files, sent, offset);
      var settled, ok := Settle(files[offset..end], ReplyTo(replies, |sent|), stuck);
      sent, forgotten := sent + [files[offset..end]], forgotten + settled;
      if !ok { return sent, forgotten, Failed; }
      offset := offset + BATCH_SIZE;
    }
    assert files[..|files|] == files;
    ending := Completed;
  }

  lemma NothingYet(files: seq<Entry>)
    ensures SentInOrder(files, []) && Terminals(files[..0]) == multiset([])
  {}

  /**
   What a report lists as terminal is still terminal, or gone, whenever the
   acknowledgement arrives: the store never refuses to forget it.
   */
  lemma AcknowledgedStaysTerminal(s: D.Store, run: seq<D.Event>, id: string)
    requires P.Inv(s) && id in s.files && !s.files[id].status.Available?
    ensures var t := D.Run(s, run); id in t.files ==> t.files[id].status == s.files[id].status
  {
    O.FileIsKnown(s, id);
    O.FinalStatusIsFinal(s, run, id, s.files[id].status);
  }
}

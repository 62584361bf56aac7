/** One uploaded file on disk: chunks accepted in order, whatever the disk does. */
module StoredUpload {
  import opened Basics

  type Byte = bv8

  datatype State = Open | Committed | Aborted

  /** `file` is what is on disk; `offset` how much of it has been accepted. */
  datatype Upload = Upload(file: seq<Byte>, offset: nat, state: State, declared: nat)

  /**
   A write reaches the disk in pieces. `landed` bytes of the chunk got there before
   it was complete, or before the disk accepted nothing or failed.
   */
  datatype Event =
    | Write(at: nat, chunk: seq<Byte>, landed: nat, failed: bool)
    | Commit(closeFails: bool)
    | Abort(closeFails: bool)

  predicate Legal(e: Event) {
    e.Write? ==> e.landed <= |e.chunk| && (!e.failed ==> e.landed == |e.chunk|)
  }

  /** Bytes written at a position inside the file or at its end. */
  function Overwrite(file: seq<Byte>, at: nat, bytes: seq<Byte>): seq<Byte>
    requires at <= |file|
  {
    file[..at] + bytes + if at + |bytes| <= |file| then file[at + |bytes|..] else []
  }

  predicate Acceptable(u: Upload, at: nat, chunk: seq<Byte>) {
    u.state.Open? && at == u.offset && at + |chunk| <= u.declared
  }

  function Step(u: Upload, e: Event): Upload
    requires u.offset <= |u.file| && Legal(e)
  {
    match e
    case Write(at, chunk, landed, failed) =>
      if !Acceptable(u, at, chunk) then u else
        u.(file := Overwrite(u.file, at, chunk[..landed]), offset := u.offset + if failed then 0 else |chunk|)
    case Commit(closeFails) =>
      if u.state.Open? && u.offset == u.declared && !closeFails then u.(state := Committed) else u
    case Abort(closeFails) =>
      if u.state.Open? && closeFails then u else u.(state := Aborted)
  }

  predicate Accepts(u: Upload, e: Event) {
    e.Write? && Acceptable(u, e.at, e.chunk) && !e.failed
  }

  /** The chunks whose write succeeded, joined. */
  function Accepted(u: Upload, run: seq<Event>): seq<Byte>
    requires Inv(u) && forall e :: e in run ==> Legal(e)
    decreases |run|
  {
    if run == [] then [] else
      StepKeeps(u, run[0]);
      (if Accepts(u, run[0]) then run[0].chunk else []) + Accepted(Step(u, run[0]), run[1..])
  }

  function Run(u: Upload, run: seq<Event>): Upload
    requires Inv(u) && forall e :: e in run ==> Legal(e)
    decreases |run|
  {
    if run == [] then u else
      StepKeeps(u, run[0]);
      Run(Step(u, run[0]), run[1..])
  }

  predicate Inv(u: Upload) {
    u.offset <= |u.file| <= u.declared && (u.state.Committed? ==> u.offset == u.declared)
  }

  lemma StepKeeps(u: Upload, e: Event)
    requires Inv(u) && Legal(e)
    ensures Inv(Step(u, e))
  {}

  lemma StepContents(u: Upload, e: Event)
    requires Inv(u) && Legal(e)
    ensures var v := Step(u, e);
            u.offset <= v.offset <= |v.file| &&
            v.file[..v.offset] == u.file[..u.offset] + if Accepts(u, e) then e.chunk else []
  {
    var v := Step(u, e);
    if Accepts(u, e) {
      assert e.chunk[..e.landed] == e.chunk;
      assert v.file[..u.offset] == u.file[..u.offset] && v.file[u.offset..v.offset] == e.chunk;
      assert v.file[..v.offset] == v.file[..u.offset] + v.file[u.offset..v.offset];
    } else {
      assert v.file[..u.offset] == u.file[..u.offset];
    }
  }

  /**
   After any chunks, partial writes, failures and retries the accepted part of the
   file is exactly the accepted chunks, and the file is never larger than declared.
   */
  lemma {:induction false} FileIsAcceptedChunks(u: Upload, run: seq<Event>)
    requires Inv(u) && forall e :: e in run ==> Legal(e)
    ensures var v := Run(u, run);
            Inv(v) && v.declared == u.declared && v.file[..v.offset] == u.file[..u.offset] + Accepted(u, run)
    decreases |run|
  {
    if run == [] {
      assert u.file[..u.offset] + [] == u.file[..u.offset];
    } else {
      StepKeeps(u, run[0]);
      StepContents(u, run[0]);
      var next := Step(u, run[0]);
      FileIsAcceptedChunks(next, run[1..]);
      var first := if Accepts(u, run[0]) then run[0].chunk else [];
      assert (u.file[..u.offset] + first) + Accepted(next, run[1..]) == u.file[..u.offset] + (first + Accepted(next, run[1..]));
    }
  }

  /** A committed upload is the accepted chunks and nothing else, of the declared size. */
  lemma CommittedFile(declared: nat, run: seq<Event>)
    requires forall e :: e in run ==> Legal(e)
    requires var end := Run(Upload([], 0, Open, declared), run); end.state.Committed?
    ensures var end := Run(Upload([], 0, Open, declared), run);
            end.file == Accepted(Upload([], 0, Open, declared), run) && |end.file| == declared
  {
    var start := Upload([], 0, Open, declared);
    FileIsAcceptedChunks(start, run);
    var end := Run(start, run);
    assert end.file[..end.offset] == end.file && [] + Accepted(start, run) == Accepted(start, run);
  }

  /**
   A chunk is taken exactly if the file is open, the chunk starts where the last one ended, and
   it ends no later than the declared size. Then what landed is on disk, and the chunk counts
   as accepted if all of it did; any other chunk changes nothing.
   */
  lemma WrittenExactly(u: Upload, at: nat, chunk: seq<Byte>, landed: nat, failed: bool)
    requires Inv(u) && landed <= |chunk| && (!failed ==> landed == |chunk|)
    ensures var v := Step(u, Write(at, chunk, landed, failed));
            if u.state == Open && at == u.offset && u.offset + |chunk| <= u.declared then
              && v.offset == (if failed then u.offset else u.offset + |chunk|)
              && v.state == Open && v.declared == u.declared
              && |v.file| == (if |u.file| < at + landed then at + landed else |u.file|)
              && forall i :: 0 <= i < |v.file| ==> v.file[i] == if at <= i < at + landed then chunk[i - at] else u.file[i]
            else v == u
  {}

  /** A commit succeeds exactly on an open file with all its bytes accepted that can be closed; an abort unless closing fails. */
  lemma EndedExactly(u: Upload, closeFails: bool)
    requires Inv(u)
    ensures Step(u, Commit(closeFails)) ==
            if u.state == Open && u.offset == u.declared && !closeFails then Upload(u.file, u.offset, Committed, u.declared) else u
    ensures Step(u, Abort(closeFails)) ==
            if u.state == Open && closeFails then u else Upload(u.file, u.offset, Aborted, u.declared)
  {}

  /** An upload that meets no failure is taken whole: any bytes of the declared size, in one chunk or in two. */
  lemma WholeUploadCommits(bytes: seq<Byte>, cut: nat)
    requires cut <= |bytes|
    ensures var run := [Write(0, bytes[..cut], cut, false), Write(cut, bytes[cut..], |bytes| - cut, false), Commit(false)];
            var end := Run(Upload([], 0, Open, |bytes|), run);
            end.state == Committed && end.file == bytes
  {
    var u := Upload([], 0, Open, |bytes|);
    var run := [Write(0, bytes[..cut], cut, false), Write(cut, bytes[cut..], |bytes| - cut, false), Commit(false)];
    WrittenExactly(u, 0, bytes[..cut], cut, false);
    var u1 := Step(u, run[0]);
    assert u1.file == bytes[..cut];
    WrittenExactly(u1, cut, bytes[cut..], |bytes| - cut, false);
    var u2 := Step(u1, run[1]);
    assert u2.file == bytes;
    EndedExactly(u2, false);
    hide Step;
    StepKeeps(u, run[0]);
    StepKeeps(u1, run[1]);
    StepKeeps(u2, run[2]);
    assert run[1..] == [run[1], run[2]] && run[1..][1..] == [run[2]] && run[1..][1..][1..] == [];
    assert Run(u2, [run[2]]) == Step(u2, run[2]);
    assert Run(u1, [run[1], run[2]]) == Run(u2, [run[2]]);
    assert Run(u, run) == Run(u1, run[1..]);
  }

  lemma OverwriteNothing(file: seq<Byte>, at: nat, chunk: seq<Byte>)
    requires at <= |file|
    ensures Overwrite(file, at, chunk[..0]) == file
  {}

  lemma OverwriteTwice(file: seq<Byte>, at: nat, chunk: seq<Byte>, written: nat, more: nat)
    requires at <= |file| && written + more <= |chunk|
    ensures at + written <= |Overwrite(file, at, chunk[..written])|
    ensures Overwrite(Overwrite(file, at, chunk[..written]), at + written, chunk[written..][..more]) ==
            Overwrite(file, at, chunk[..written + more])
  {}

  /** An open file: each write lands a prefix of what it was given, or fails after one. */
  class FileHandle {
    var bytes: seq<Byte>

    constructor ()
      ensures bytes == []
    {
      bytes := [];
    }

    /** The disk decides; callers may rely on nothing but this contract. */
    method WriteAt(chunk: seq<Byte>, position: nat) returns (written: nat, threw: bool)
      requires position <= |bytes|
      modifies this
      ensures written <= |chunk| && bytes == Overwrite(old(bytes), position, chunk[..written])
    {
      written :| written <= |chunk|;
      threw :| threw || !threw;
      bytes := Overwrite(bytes, position, chunk[..written]);
    }

    /** The write loop: until the whole chunk is down, or a write fails or takes nothing. */
    method WriteAll(chunk: seq<Byte>, at: nat) returns (landed: nat, failed: bool)
      requires at <= |bytes|
      modifies this
      ensures landed <= |chunk| && (!failed ==> landed == |chunk|)
      ensures bytes == Overwrite(old(bytes), at, chunk[..landed])
    {
      hide Overwrite;
      landed := 0;
      OverwriteNothing(bytes, at, chunk);
      while landed < |chunk|
        invariant landed <= |chunk| && bytes == Overwrite(old(bytes), at, chunk[..landed])
      {
        OverwriteTwice(old(bytes), at, chunk, landed, 0);
        var written, threw := WriteAt(chunk[landed..], at + landed);
        OverwriteTwice(old(bytes), at, chunk, landed, written);
        landed := landed + written;
        if threw || written == 0 { return landed, true; }
      }
      failed := false;
    }
  }

  datatype Outcome = Done | Refused | Broken

  class StoredReservation {
    const handle: FileHandle
    const declaredSize: nat
    var offset: nat
    var state: State

    ghost predicate Valid()
      reads this, handle
    {
      Inv(Model())
    }

    ghost function Model(): Upload
      reads this, handle
    {
      Upload(handle.bytes, offset, state, declaredSize)
    }

    constructor (handle: FileHandle, declaredSize: nat)
      requires handle.bytes == []
      ensures Valid() && this.handle == handle && Model() == Upload([], 0, Open, declaredSize)
    {
      this.handle, this.declaredSize := handle, declaredSize;
      offset, state := 0, Open;
    }

    method Write(at: nat, chunk: seq<Byte>) returns (outcome: Outcome, landed: nat)
      requires Valid()
      modifies this`offset, handle
      ensures Valid() && Legal(Event.Write(at, chunk, landed, !outcome.Done?))
      ensures Model() == Step(old(Model()), Event.Write(at, chunk, landed, !outcome.Done?))
      ensures outcome.Refused? <==> !Acceptable(old(Model()), at, chunk)
    {
      if !state.Open? || at != offset || at + |chunk| > declaredSize { return Refused, 0; }
      var failed;
      landed, failed := handle.WriteAll(chunk, at);
      if failed { return Broken, landed; }
      offset := offset + landed;
      return Done, landed;
    }

    method Finish(closeFails: bool) returns (outcome: Outcome)
      requires Valid()
      modifies this`state
      ensures Valid() && Model() == Step(old(Model()), Commit(closeFails))
      ensures outcome.Done? ==> handle.bytes == old(handle.bytes) && |handle.bytes| == declaredSize && state.Committed?
    {
      if !state.Open? || offset != declaredSize { return Refused; }
      if closeFails { return Broken; }
      state := Committed;
      return Done;
    }

    /** Closes the file if it is open; removing it is the owner's business. */
    method Discard(closeFails: bool) returns (outcome: Outcome)
      requires Valid()
      modifies this`state
      ensures Valid() && Model() == Step(old(Model()), Abort(closeFails))
      ensures outcome.Done? <==> state.Aborted? && !(old(state).Open? && closeFails)
    {
      if state.Open? && closeFails { return Broken; }
      state := Aborted;
      return Done;
    }
  }
}

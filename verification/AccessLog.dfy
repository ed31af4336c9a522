/**
 `AccessLogWriter`: append-only receipts with rollback of partial writes, and a
 damage latch for the case where even the rollback fails. The operating system
 answers every call with an arbitrary outcome; `files` is the content behind
 every inode the writer has opened.
 */
module AccessLog {
  import opened Prelude

  type Bytes = seq<bv8>

  /** What one `os.write` does: takes n bytes (n may be short, or zero), or raises. */
  datatype WriteOutcome = Wrote(n: int) | Raised

  /** One `write` call: whether the record serialises and fstat succeeds, the
      record's bytes, the outcomes of the successive `os.write` calls (past the
      end of the list a call takes everything) and of `os.ftruncate`. */
  datatype Attempt = Attempt(serialises: bool, statOk: bool, data: Bytes, writes: seq<WriteOutcome>, truncateOk: bool)

  /** What `os.open` and its checks do: fail, or give an inode. A new inode comes
      with whatever regular file was found at the path. Closing the previous
      descriptor may then fail. */
  datatype OpenOutcome = OpenFails | Opened(inode: nat, found: Bytes, closeFails: bool)

  datatype Writer = Writer(
    off: bool, closed: bool, damaged: bool, fd: Option<nat>, failures: nat, files: map<nat, Bytes>)

  predicate Sound(w: Writer) {
    && (w.fd.Some? ==> w.fd.value in w.files)
    && (w.damaged ==> w.fd.None?)
  }

  /** The bytes of `remaining` that reach the file, and whether all of them do. */
  function Drive(remaining: Bytes, writes: seq<WriteOutcome>): (r: (Bytes, bool))
    ensures r.0 <= remaining
    ensures r.1 <==> r.0 == remaining
    decreases |writes|
  {
    if remaining == [] then ([], true)
    else if writes == [] then (remaining, true)
    else match writes[0]
      case Raised => ([], false)
      case Wrote(n) =>
        if n <= 0 then ([], false)
        else
          var m := if n <= |remaining| then n else |remaining|;
          var rest := Drive(remaining[m..], writes[1..]);
          assert remaining == remaining[..m] + remaining[m..];
          (remaining[..m] + rest.0, rest.1)
  }

  lemma DriveNothing(writes: seq<WriteOutcome>)
    ensures Drive([], writes) == ([], true)
  {
  }

  /** One `os.write` call. */
  lemma DriveStep(remaining: Bytes, writes: seq<WriteOutcome>)
    requires remaining != []
    ensures var outcome := if writes == [] then Wrote(|remaining|) else writes[0];
            var rest := if writes == [] then [] else writes[1..];
            if outcome.Raised? || outcome.n <= 0 then Drive(remaining, writes) == ([], false)
            else
              var n := if outcome.n <= |remaining| then outcome.n else |remaining|;
              Drive(remaining, writes).0 == remaining[..n] + Drive(remaining[n..], rest).0 &&
              Drive(remaining, writes).1 == Drive(remaining[n..], rest).1
  {
  }

  predicate Progresses(o: WriteOutcome) { o.Wrote? && o.n > 0 }

  /** How many bytes the calls before the first failing one can take. */
  function Reach(writes: seq<WriteOutcome>): nat {
    if writes == [] || !Progresses(writes[0]) then 0 else writes[0].n + Reach(writes[1..])
  }

  /** How far a write gets, counted: all the way if no call fails, and otherwise as far as
      the calls before the failing one reach. */
  lemma {:induction false} DriveLength(data: Bytes, writes: seq<WriteOutcome>)
    ensures |Drive(data, writes).0| ==
            if (forall i | 0 <= i < |writes| :: Progresses(writes[i])) || |data| <= Reach(writes) then |data|
            else Reach(writes)
    decreases |writes|
  {
    if data != [] && writes != [] && Progresses(writes[0]) {
      DriveStep(data, writes);
      var n := if writes[0].n <= |data| then writes[0].n else |data|;
      DriveLength(data[n..], writes[1..]);
      assert forall i | 1 <= i < |writes| :: writes[i] == writes[1..][i - 1];
    }
  }

  predicate Ready(w: Writer, a: Attempt) {
    w.fd.Some? && a.serialises && a.statOk
  }

  /** The write went through to the last byte. */
  predicate Completes(w: Writer, a: Attempt) {
    !w.off && !w.closed && Ready(w, a) && Drive(a.data, a.writes).1
  }

  function Written(w: Writer, a: Attempt): Writer
    requires Sound(w)
  {
    if w.off || w.closed then w
    else if !Ready(w, a) then w.(failures := w.failures + 1)
    else
      var i := w.fd.value;
      if Drive(a.data, a.writes).1 then w.(files := w.files[i := w.files[i] + a.data])
      else if a.truncateOk then w.(failures := w.failures + 1)
      else w.(files := w.files[i := w.files[i] + Drive(a.data, a.writes).0],
              damaged := true, fd := None, failures := w.failures + 1)
  }

  /** `reopen` leaves everything alone when damaged or when the open fails; otherwise
      it has moved to the new inode, even if closing the old descriptor then raises. */
  function Reopened(w: Writer, outcome: OpenOutcome): Writer {
    if w.off || w.closed || w.damaged || outcome.OpenFails? then w
    else w.(files := if outcome.inode in w.files then w.files else w.files[outcome.inode := outcome.found],
            fd := Some(outcome.inode))
  }

  function Closed(w: Writer): Writer {
    w.(closed := true, fd := None)
  }

  class AccessLogWriter {
    var off: bool
    var closed: bool
    var damaged: bool
    var fd: Option<nat>
    var failures: nat
    var files: map<nat, Bytes>

    function State(): Writer
      reads this
    {
      Writer(off, closed, damaged, fd, failures, files)
    }

    predicate Valid()
      reads this
    {
      Sound(State())
    }

    constructor (off: bool, disk: map<nat, Bytes>, outcome: OpenOutcome)
      ensures Valid()
      ensures State() == Reopened(Writer(off, false, false, None, 0, disk), outcome)
    {
      this.off, closed, damaged, fd, failures, files := off, false, false, None, 0, disk;
      new;
      if !off {
        var _ := Reopen(outcome);
      }
    }

    method Reopen(outcome: OpenOutcome) returns (raised: bool)
      requires Valid()
      modifies this
      ensures Valid()
      ensures State() == Reopened(old(State()), outcome)
      ensures raised <==> !old(off) && !old(closed) &&
                          (old(damaged) || outcome.OpenFails? || (outcome.closeFails && old(fd).Some?))
    {
      if off || closed { return false; }
      if damaged { return true; }
      if outcome.OpenFails? { return true; }
      if outcome.inode !in files {
        files := files[outcome.inode := outcome.found];
      }
      var previous := fd;
      fd := Some(outcome.inode);
      raised := previous.Some? && outcome.closeFails;
    }

    /** `write`: never raises; loops while bytes remain, and on any failure puts the
        file back to its old length, or latches the damage. */
    method Write(a: Attempt)
      requires Valid()
      modifies this
      ensures Valid()
      ensures State() == Written(old(State()), a)
    {
      if off || closed { return; }
      if fd.None? || !a.serialises || !a.statOk {
        failures := failures + 1;
        return;
      }
      var offset := |files[fd.value]|;
      var complete := WriteRemaining(fd.value, a.data, a.writes);
      if !complete {
        if a.truncateOk {
          files := files[fd.value := files[fd.value][..offset]];
          assert files == old(files);
        } else {
          damaged := true;
          fd := None;
        }
        failures := failures + 1;
      }
    }

    /** The `while remaining` loop of `write`, up to the last byte or the first failure. */
    method WriteRemaining(i: nat, data: Bytes, writes: seq<WriteOutcome>) returns (complete: bool)
      requires i in files
      modifies this`files
      ensures files == old(files)[i := old(files)[i] + Drive(data, writes).0]
      ensures complete == Drive(data, writes).1
    {
      hide Drive;
      var remaining, pending := data, writes;
      ghost var taken: Bytes := [];
      assert taken + Drive(data, writes).0 == Drive(data, writes).0;
      while remaining != []
        invariant files.Keys == old(files).Keys && files[i] == old(files)[i] + taken
        invariant forall j | j in files && j != i :: files[j] == old(files)[j]
        invariant Drive(data, writes).0 == taken + Drive(remaining, pending).0
        invariant Drive(data, writes).1 == Drive(remaining, pending).1
        decreases |remaining|
      {
        DriveStep(remaining, pending);
        var outcome := if pending == [] then Wrote(|remaining|) else pending[0];
        pending := if pending == [] then [] else pending[1..];
        if outcome.Raised? || outcome.n <= 0 {
          assert taken + [] == taken;
          return false;
        }
        var n := if outcome.n <= |remaining| then outcome.n else |remaining|;
        files := files[i := files[i] + remaining[..n]];
        assert old(files)[i] + taken + remaining[..n] == old(files)[i] + (taken + remaining[..n]);
        assert taken + (remaining[..n] + Drive(remaining[n..], pending).0) ==
               (taken + remaining[..n]) + Drive(remaining[n..], pending).0;
        taken := taken + remaining[..n];
        remaining := remaining[n..];
      }
      DriveNothing(pending);
      assert taken + [] == taken;
      return true;
    }

    method Close()
      requires Valid()
      modifies this
      ensures Valid()
      ensures State() == Closed(old(State()))
    {
      closed := true;
      fd := None;
    }
  }

  /** The three ends of a write on an open log: appended whole, undone and counted, or
      torn and latched. Without a descriptor, or before the first byte, it is only counted. */
  lemma WriteMeans(w: Writer, a: Attempt)
    requires Sound(w) && !w.off && !w.closed
    ensures var v := Written(w, a);
            if w.fd.None? || !a.serialises || !a.statOk then v == w.(failures := w.failures + 1)
            else
              var i := w.fd.value;
              && v.files.Keys == w.files.Keys && (forall j | j in w.files && j != i :: v.files[j] == w.files[j])
              && !v.off && !v.closed
              && if Drive(a.data, a.writes).1 then
                   v.files[i] == w.files[i] + a.data && v.failures == w.failures &&
                   v.fd == w.fd && v.damaged == w.damaged
                 else if a.truncateOk then
                   v.files[i] == w.files[i] && v.failures == w.failures + 1 && v.fd == w.fd && v.damaged == w.damaged
                 else
                   v.damaged && v.fd == None && v.failures == w.failures + 1 && w.files[i] <= v.files[i] &&
                   v.files[i][|w.files[i]|..] < a.data
  {
  }

  lemma CloseMeans(w: Writer)
    ensures var v := Closed(w); v.closed && v.fd == None && v.(closed := w.closed, fd := w.fd) == w
  {
  }

  /** A reopen of a working log moves to the inode now at the path, keeping every file. */
  lemma ReopenMeans(w: Writer, outcome: OpenOutcome)
    requires Sound(w)
    ensures var v := Reopened(w, outcome);
            if outcome.Opened? && !w.off && !w.closed && !w.damaged then
              && v.fd == Some(outcome.inode) && outcome.inode in v.files
              && (forall j | j in w.files :: j in v.files && v.files[j] == w.files[j])
              && (outcome.inode !in w.files ==> v.files[outcome.inode] == outcome.found)
              && v.failures == w.failures && !v.damaged && !v.closed && !v.off
            else v == w
  {
  }

  // ---------------------------------------------------------------------
  // Whole lives of a writer, under any schedule of faults
  // ---------------------------------------------------------------------

  datatype Op = WriteOp(attempt: Attempt) | ReopenOp(outcome: OpenOutcome) | CloseOp

  function Next(w: Writer, op: Op): (v: Writer)
    requires Sound(w)
    ensures Sound(v)
    ensures w.files.Keys <= v.files.Keys
  {
    match op
    case WriteOp(a) => Written(w, a)
    case ReopenOp(outcome) => Reopened(w, outcome)
    case CloseOp => Closed(w)
  }

  function Run(w: Writer, ops: seq<Op>): (v: Writer)
    requires Sound(w)
    ensures Sound(v)
    ensures w.files.Keys <= v.files.Keys
  {
    if ops == [] then w else Next(Run(w, ops[..|ops|-1]), ops[|ops|-1])
  }

  /** The records completed on one inode, in order, as one byte string. */
  function Receipts(w: Writer, ops: seq<Op>, inode: nat): Bytes
    requires Sound(w)
  {
    if ops == [] then []
    else
      var before, op := Run(w, ops[..|ops|-1]), ops[|ops|-1];
      Receipts(w, ops[..|ops|-1], inode) +
      (if Records(before, op, inode) then op.attempt.data else [])
  }

  /** The write fails half-way, on this inode, and so does its rollback. */
  predicate Tears(w: Writer, op: Op, inode: nat) {
    op.WriteOp? && !w.off && !w.closed && Ready(w, op.attempt) && w.fd.value == inode &&
    !Drive(op.attempt.data, op.attempt.writes).1 && !op.attempt.truncateOk
  }

  predicate Records(w: Writer, op: Op, inode: nat) {
    op.WriteOp? && Completes(w, op.attempt) && w.fd == Some(inode)
  }

  /** One call's effect on one known file. */
  lemma FileStep(w: Writer, op: Op, inode: nat)
    requires Sound(w) && inode in w.files
    ensures Next(w, op).files[inode] ==
            w.files[inode] +
            (if Records(w, op, inode) then op.attempt.data
             else if Tears(w, op, inode) then Drive(op.attempt.data, op.attempt.writes).0
             else [])
  {
  }

  /** A file the writer does not know yet appears only by being opened, as it was found. */
  lemma FirstOpen(w: Writer, op: Op, inode: nat)
    requires Sound(w) && inode !in w.files
    ensures !Records(w, op, inode) && !Tears(w, op, inode)
    ensures inode in Next(w, op).files ==> Next(w, op).files[inode] == Found(op, inode)
  {
  }

  lemma DamageStep(w: Writer, op: Op, inode: nat)
    requires Sound(w)
    ensures Tears(w, op, inode) ==> Next(w, op).damaged
    ensures w.damaged ==> Next(w, op).damaged && !Tears(w, op, inode) && !Records(w, op, inode)
  {
  }

  function Found(op: Op, inode: nat): Bytes {
    if op.ReopenOp? && op.outcome.Opened? && op.outcome.inode == inode then op.outcome.found else []
  }

  /** What a file held before this writer: known at the start, or found at its first open. */
  function Base(w: Writer, ops: seq<Op>, inode: nat): Bytes
    requires Sound(w)
  {
    if inode in w.files then w.files[inode]
    else if ops == [] then []
    else if inode in Run(w, ops[..|ops|-1]).files then Base(w, ops[..|ops|-1], inode)
    else Found(ops[|ops|-1], inode)
  }

  /** What the last failed rollback left behind on one inode. */
  function Torn(w: Writer, ops: seq<Op>, inode: nat): Bytes
    requires Sound(w)
  {
    if ops == [] then []
    else
      var before, op := Run(w, ops[..|ops|-1]), ops[|ops|-1];
      if Tears(before, op, inode) then Drive(op.attempt.data, op.attempt.writes).0
      else Torn(w, ops[..|ops|-1], inode)
  }

  /** It is a proper prefix of one record of the run, and only a damaged writer has it. */
  lemma {:induction false} TornIsPrefix(w: Writer, ops: seq<Op>, inode: nat)
    requires Sound(w) && !w.damaged
    ensures Torn(w, ops, inode) != [] ==> Run(w, ops).damaged
    ensures Torn(w, ops, inode) == [] ||
            exists k :: 0 <= k < |ops| && ops[k].WriteOp? && Torn(w, ops, inode) < ops[k].attempt.data
  {
    if ops != [] {
      var early, op := ops[..|ops|-1], ops[|ops|-1];
      TornIsPrefix(w, early, inode);
      DamageStep(Run(w, early), op, inode);
    }
  }

  /** Nothing is recorded or torn on a file before it is opened. */
  lemma {:induction false} UnknownIsUntouched(w: Writer, ops: seq<Op>, inode: nat)
    requires Sound(w) && inode !in Run(w, ops).files
    ensures Receipts(w, ops, inode) == [] && Torn(w, ops, inode) == []
  {
    if ops != [] {
      UnknownIsUntouched(w, ops[..|ops|-1], inode);
      FirstOpen(Run(w, ops[..|ops|-1]), ops[|ops|-1], inode);
    }
  }

  lemma Joined(base: Bytes, receipts: Bytes, more: Bytes)
    ensures base + receipts + [] + more == base + receipts + more
    ensures base + receipts + [] + more == base + (receipts + more) + []
  {
  }

  /** For every fault schedule and every file the writer ever opened, log rotation
      included: the file is what it held before plus exactly the completed records in
      order, plus the torn prefix of a damaged writer. */
  lemma {:induction false} FileIsReceipts(w: Writer, ops: seq<Op>, inode: nat)
    requires Sound(w) && !w.damaged && inode in Run(w, ops).files
    ensures Run(w, ops).files[inode] == Base(w, ops, inode) + Receipts(w, ops, inode) + Torn(w, ops, inode)
  {
    if ops == [] {
      assert w.files[inode] + [] + [] == w.files[inode];
    } else {
      var early, op := ops[..|ops|-1], ops[|ops|-1];
      var before := Run(w, early);
      if inode in before.files {
        FileIsReceipts(w, early, inode);
        FileGrows(w, early, op, inode);
      } else {
        UnknownIsUntouched(w, early, inode);
        FirstOpen(before, op, inode);
        hide Next, Records, Tears;
        assert Found(op, inode) + ([] + []) + [] == Found(op, inode);
      }
    }
  }

  lemma FileGrows(w: Writer, early: seq<Op>, op: Op, inode: nat)
    requires Sound(w) && !w.damaged && inode in Run(w, early).files
    requires Run(w, early).files[inode] == Base(w, early, inode) + Receipts(w, early, inode) + Torn(w, early, inode)
    ensures var ops := early + [op];
            Next(Run(w, early), op).files[inode] == Base(w, ops, inode) + Receipts(w, ops, inode) + Torn(w, ops, inode)
  {
    var ops, before := early + [op], Run(w, early);
    assert ops[..|ops|-1] == early;
    TornIsPrefix(w, early, inode);
    DamageStep(before, op, inode);
    FileStep(before, op, inode);
    hide Next, Run, Drive, Sound, Records, Tears;
    var more := if op.WriteOp? then op.attempt.data else [];
    Joined(Base(w, early, inode), Receipts(w, early, inode), more);
    var torn := if op.WriteOp? then Drive(op.attempt.data, op.attempt.writes).0 else [];
    Joined(Base(w, early, inode), Receipts(w, early, inode), torn);
    assert Receipts(w, early, inode) + [] == Receipts(w, early, inode);
  }

  /** After a failed rollback nothing the process does can touch the log again:
      writes and reopens alike leave every file as it is. */
  lemma {:induction false} DamageIsFinal(w: Writer, ops: seq<Op>)
    requires Sound(w) && w.damaged
    ensures Run(w, ops).damaged && Run(w, ops).fd == None && Run(w, ops).files == w.files
  {
    if ops != [] { DamageIsFinal(w, ops[..|ops|-1]); }
  }

  predicate Counted(w: Writer, op: Op) {
    op.WriteOp? && !w.off && !w.closed
  }

  /** Write calls made while the log was on and open. */
  function Calls(w: Writer, ops: seq<Op>): nat
    requires Sound(w)
  {
    if ops == [] then 0
    else Calls(w, ops[..|ops|-1]) + (if Counted(Run(w, ops[..|ops|-1]), ops[|ops|-1]) then 1 else 0)
  }

  function Completions(w: Writer, ops: seq<Op>): nat
    requires Sound(w)
  {
    if ops == [] then 0
    else
      var before, op := Run(w, ops[..|ops|-1]), ops[|ops|-1];
      Completions(w, ops[..|ops|-1]) + (if op.WriteOp? && Completes(before, op.attempt) then 1 else 0)
  }

  /** Every gap in the log is counted: calls = completed records + failures. */
  lemma {:induction false} GapsAreCounted(w: Writer, ops: seq<Op>)
    requires Sound(w)
    ensures w.failures + Calls(w, ops) == Completions(w, ops) + Run(w, ops).failures
  {
    if ops != [] { GapsAreCounted(w, ops[..|ops|-1]); }
  }
}

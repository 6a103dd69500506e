// Runs of a guestbd server: any interleaving of reads, writes and trims on any number of
// snapshots over one base image and one page cache behaves as private flat byte arrays.
module SnapshotRuns {
  import opened Pages
  import opened Bytes
  import opened BaseImages
  import opened Snapshots

  // An operation, and the files that may fail during it.
  datatype Op =
    | Read(snap: nat, off: nat, length: nat, disks: Disks)
    | Write(snap: nat, off: nat, data: seq<Byte>, disks: Disks)
    | Trim(snap: nat, off: nat, length: nat, disks: Disks)

  // What an operation reported. A failed trim does not report how far it came;
  // headZeroed records it.
  datatype Outcome =
    | DidRead(data: seq<Byte>, ok: bool)
    | DidWrite(n: nat, ok: bool)
    | DidTrim(ok: bool, headZeroed: bool)

  // What an operation with its outcome does to the flat array of its snapshot.
  function Effect(base: seq<Byte>, ps: nat, op: Op, outcome: Outcome, i: nat, was: Byte): Byte
    requires ps > 0
  {
    match (op, outcome)
    case (Write(_, off, data, _), DidWrite(n, _)) =>
      if off <= i < off + n && i - off < |data| then data[i - off] else was
    case (Trim(_, off, length, _), DidTrim(ok, headZeroed)) =>
      if ok then TrimmedByte(base, ps, off, length, i, was)
      else if headZeroed && InHead(ps, off, length, i) then 0
      else was
    case _ => was
  }

  // The reference device: byte i of snapshot snap after a history, with no pages,
  // no slots, no cache and no other snapshots.
  function FlatByte(base: seq<Byte>, ps: nat, snap: nat, ops: seq<Op>, log: seq<Outcome>, i: nat): Byte
    requires ps > 0 && |ops| == |log|
  {
    if ops == [] then ZeroExtended(base, i)
    else
      var last := |ops| - 1;
      var was := FlatByte(base, ps, snap, ops[..last], log[..last], i);
      if ops[last].snap == snap then Effect(base, ps, ops[last], log[last], i, was) else was
  }

  predicate Sound(disks: Disks) {
    !disks.baseFails && !disks.dirtyFails
  }

  // Reads return what the flat array holds; a write reports how much of it happened. No
  // operation fails but for a file that may.
  ghost predicate Answers(base: seq<Byte>, ps: nat, ops: seq<Op>, log: seq<Outcome>, op: Op, outcome: Outcome)
    requires ps > 0 && |ops| == |log|
  {
    match op
    case Read(s, off, length, disks) =>
      && outcome.DidRead? && (Sound(disks) ==> outcome.ok)
      && |outcome.data| <= length && (outcome.ok <==> |outcome.data| == length)
      && forall j: nat :: j < |outcome.data| ==>
                            outcome.data[j] == FlatByte(base, ps, s, ops, log, off + j)
    case Write(_, _, data, disks) =>
      outcome.DidWrite? && (Sound(disks) ==> outcome.ok) && outcome.n <= |data| && (outcome.ok <==> outcome.n == |data|)
    case Trim(_, _, _, disks) =>
      outcome.DidTrim? && (Sound(disks) ==> outcome.ok)
  }

  // Every operation of a history is answered as the flat arrays before it demand.
  ghost predicate AllAnswer(base: seq<Byte>, ps: nat, ops: seq<Op>, log: seq<Outcome>)
    requires ps > 0
  {
    |ops| == |log| && forall k :: 0 <= k < |ops| ==> Answers(base, ps, ops[..k], log[..k], ops[k], log[k])
  }

  lemma AnswerOneMore(base: seq<Byte>, ps: nat, ops: seq<Op>, log: seq<Outcome>, op: Op, outcome: Outcome)
    requires ps > 0 && AllAnswer(base, ps, ops, log) && Answers(base, ps, ops, log, op, outcome)
    ensures AllAnswer(base, ps, ops + [op], log + [outcome])
  {
    var ops', log' := ops + [op], log + [outcome];
    forall k | 0 <= k < |ops'| ensures Answers(base, ps, ops'[..k], log'[..k], ops'[k], log'[k]) {
      assert ops'[..k] == ops[..k] && log'[..k] == log[..k];
      if k == |ops| {
        assert ops[..k] == ops && log[..k] == log;
      }
    }
  }

  lemma FlatByteOneMore(base: seq<Byte>, ps: nat, snap: nat, ops: seq<Op>, log: seq<Outcome>, op: Op, outcome: Outcome, i: nat)
    requires ps > 0 && |ops| == |log|
    ensures var was := FlatByte(base, ps, snap, ops, log, i);
            FlatByte(base, ps, snap, ops + [op], log + [outcome], i) ==
            if op.snap == snap then Effect(base, ps, op, outcome, i, was) else was
  {
  }

  // The snapshots read as the flat arrays of a history.
  ghost predicate Refines(snaps: seq<Snapshot>, ro: BaseImageState, ops: seq<Op>, log: seq<Outcome>)
    requires |ops| == |log| && ro.srv.pageSize > 0
    requires forall s :: 0 <= s < |snaps| ==> snaps[s].server == ro.srv
    reads snaps
  {
    forall s, i: nat :: 0 <= s < |snaps| ==>
      snaps[s].ByteAt(i) == FlatByte(ro.base.content, ro.srv.pageSize, s, ops, log, i)
  }

  ghost predicate Fleet(snaps: seq<Snapshot>, ro: BaseImageState)
    reads snaps, ro, ro.srv.cache
  {
    && (forall s :: 0 <= s < |snaps| ==> snaps[s].roFile == ro && snaps[s].server == ro.srv && snaps[s].Valid())
    && (forall s, t :: 0 <= s < t < |snaps| ==> snaps[s] != snaps[t])
  }

  method Step(snaps: seq<Snapshot>, ro: BaseImageState, op: Op) returns (ghost outcome: Outcome)
    requires ro.srv.Valid() && Fleet(snaps, ro) && op.snap < |snaps|
    modifies snaps, ro, ro.srv.cache
    ensures ro.srv.Valid() && Fleet(snaps, ro)
    ensures forall s, i: nat :: 0 <= s < |snaps| ==>
              snaps[s].ByteAt(i) ==
              if s == op.snap then Effect(ro.base.content, ro.srv.pageSize, op, outcome, i, old(snaps[s].ByteAt(i)))
              else old(snaps[s].ByteAt(i))
    ensures op.Read? ==>
              && outcome.DidRead? && (Sound(op.disks) ==> outcome.ok)
              && |outcome.data| <= op.length && (outcome.ok <==> |outcome.data| == op.length)
              && forall j: nat :: j < |outcome.data| ==> outcome.data[j] == old(snaps[op.snap].ByteAt(op.off + j))
    ensures op.Write? ==>
              outcome.DidWrite? && (Sound(op.disks) ==> outcome.ok) && outcome.n <= |op.data| && (outcome.ok <==> outcome.n == |op.data|)
    ensures op.Trim? ==> outcome.DidTrim? && (Sound(op.disks) ==> outcome.ok)
  {
    var snap := snaps[op.snap];
    match op {
      case Read(_, off, length, disks) =>
        var buf := new Byte[length];
        var n, ok := snap.ReadAt(buf, off, disks);
        outcome := DidRead(buf[..n], ok);
      case Write(_, off, data, disks) =>
        var n, ok := snap.WriteAt(data, off, disks);
        outcome := DidWrite(n, ok);
      case Trim(_, off, length, disks) =>
        ghost var headZeroed;
        var ok;
        ok, headZeroed := snap.HandleTrim(off, length, disks);
        outcome := DidTrim(ok, headZeroed);
    }
  }

  // The refinement theorem: run any operations on any of the snapshots.
  method Run(snaps: seq<Snapshot>, ro: BaseImageState, ops: seq<Op>) returns (ghost log: seq<Outcome>)
    requires ro.srv.Valid() && Fleet(snaps, ro)
    requires forall k :: 0 <= k < |ops| ==> ops[k].snap < |snaps|
    requires forall s, i: nat :: 0 <= s < |snaps| ==> snaps[s].ByteAt(i) == ZeroExtended(ro.base.content, i)
    modifies snaps, ro, ro.srv.cache
    ensures ro.srv.Valid() && Fleet(snaps, ro)
    ensures AllAnswer(ro.base.content, ro.srv.pageSize, ops, log)
    ensures Refines(snaps, ro, ops, log)
  {
    log := [];
    assert ops[..0] == [];
    for k := 0 to |ops|
      invariant ro.srv.Valid() && Fleet(snaps, ro) && |log| == k
      invariant AllAnswer(ro.base.content, ro.srv.pageSize, ops[..k], log)
      invariant Refines(snaps, ro, ops[..k], log)
    {
      log := StepLogged(snaps, ro, ops[..k], log, ops[k]);
      assert ops[..k + 1] == ops[..k] + [ops[k]];
    }
    assert ops[..|ops|] == ops;
  }

  method StepLogged(snaps: seq<Snapshot>, ro: BaseImageState, ghost ops: seq<Op>, ghost log: seq<Outcome>, op: Op)
    returns (ghost log': seq<Outcome>)
    requires ro.srv.Valid() && Fleet(snaps, ro) && op.snap < |snaps|
    requires AllAnswer(ro.base.content, ro.srv.pageSize, ops, log) && Refines(snaps, ro, ops, log)
    modifies snaps, ro, ro.srv.cache
    ensures ro.srv.Valid() && Fleet(snaps, ro)
    ensures |log'| == |log| + 1
    ensures AllAnswer(ro.base.content, ro.srv.pageSize, ops + [op], log') && Refines(snaps, ro, ops + [op], log')
  {
    ghost var outcome := Step(snaps, ro, op);
    log' := log + [outcome];
    AnswerOneMore(ro.base.content, ro.srv.pageSize, ops, log, op, outcome);
    forall s, i: nat | 0 <= s < |snaps|
      ensures snaps[s].ByteAt(i) == FlatByte(ro.base.content, ro.srv.pageSize, s, ops + [op], log', i)
    {
      FlatByteOneMore(ro.base.content, ro.srv.pageSize, s, ops, log, op, outcome, i);
    }
  }
}

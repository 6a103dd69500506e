// What becomes of a PUT: it is accepted, copied if need be, committed as its own row and
// cleared away, whatever else goes on, unless too many of its own steps fail or the server
// crashes. And every GET comes to an end.
module PutProgress {
  import opened Wrappers
  import opened Pages
  import opened BlobFormat
  import opened PutPipeline
  import opened PutPipelineSafety
  import opened PutPipelineRuns

  // ---- a PUT's own steps ----

  predicate Own(step: Step, id: PutId) {
    step.JobTo? && step.id == id
  }

  // An attempt to copy its blob fails.
  predicate FailedAttempt(step: Step, id: PutId) {
    Own(step, id) && ((step.job.WriteIntent? && !step.job.ok) || (step.job.Copy? && !step.job.ok))
  }

  function OwnSteps(steps: seq<Step>, id: PutId, i: nat, j: nat): nat
    requires i <= j <= |steps|
    decreases j - i
  {
    if i == j then 0 else OwnSteps(steps, id, i, j - 1) + if Own(steps[j - 1], id) then 1 else 0
  }

  function FailedAttempts(steps: seq<Step>, id: PutId, i: nat, j: nat): nat
    requires i <= j <= |steps|
    decreases j - i
  {
    if i == j then 0 else FailedAttempts(steps, id, i, j - 1) + if FailedAttempt(steps[j - 1], id) then 1 else 0
  }

  // The server stays up, and the PUT is not dropped.
  predicate Undisturbed(steps: seq<Step>, id: PutId, i: nat, j: nat) {
    i <= j <= |steps| && forall m {:trigger steps[m]} :: i <= m < j ==> !steps[m].Crash? && steps[m] != JobTo(id, Abandon)
  }

  // A request's entry goes into the pending map if its key is not there; else the request
  // was a duplicate, and nothing is left of it.
  lemma InsertDecides(s: State, id: PutId)
    requires Enabled(s, JobTo(id, Insert))
    ensures var (key, s') := (s.log.puts[id].key, Do(s, JobTo(id, Insert)));
            if key in s.queue.pending then
              s'.queue.pending == s.queue.pending && id !in s'.queue.jobs && id !in s'.queue.spool && s'.log == s.log
            else
              s'.queue.pending == s.queue.pending[key := id] && id in s'.queue.jobs && s'.queue.jobs[id].stage.Entered?
  {
  }

  // ---- the way to the batch ----

  // The steps of its own that a PUT has left, if nothing fails.
  function Left(small: bool, stage: Stage): nat {
    match stage
    case Entered => if small then 2 else 7
    case AtMover => 6
    case Stating(_) => 5
    case Recording(_) => 4
    case Copying(_) => 3
    case Failed(_) => 6
    case Settled => 2
    case AtFlusher => 1
    case _ => 0
  }

  // The attempts made agree with those that failed.
  predicate Tried(stage: Stage, failed: nat) {
    match stage
    case Entered => failed == 0
    case AtMover => failed == 0
    case Stating(try) => try == failed + 1 && try <= PutCopyRetries
    case Recording(try) => try == failed + 1 && try <= PutCopyRetries
    case Copying(try) => try == failed + 1 && try <= PutCopyRetries
    case Failed(try) => try == failed && 1 <= try <= PutCopyRetries
    case _ => failed < PutCopyRetries
  }

  predicate Small(s: State, id: PutId)
    requires id in s.log.puts
  {
    |s.log.puts[id].content| <= 1024
  }

  // Not there yet.
  predicate OnItsWay(s: State, id: PutId, failed: nat) {
    && id in s.log.puts && id in s.queue.jobs
    && var stage := s.queue.jobs[id].stage;
       && (stage.Entered? || stage.AtFlusher? || (!Small(s, id) && WithMover(stage)))
       && Tried(stage, failed) && (Small(s, id) ==> failed == 0)
  }

  // In the batch, or committed: its key is in the tables.
  predicate Arrived(s: State, id: PutId) {
    && id in s.log.puts
    && if id in s.queue.jobs && s.queue.jobs[id].stage.Batched? then true
       else s.log.puts[id].key in s.disk.actions &&
            (id in s.queue.jobs ==> s.queue.jobs[id].stage.Committed? || s.queue.jobs[id].stage == Retired(true))
  }

  lemma OthersLeaveJob(s: State, step: Step, id: PutId)
    requires Enabled(s, step) && !Own(step, id) && !step.Crash? && id in s.log.puts
    ensures id in Do(s, step).log.puts && Do(s, step).log.puts[id] == s.log.puts[id]
    ensures if step.Commit? && id in step.batch then id in Do(s, step).queue.jobs && Do(s, step).queue.jobs[id].stage.Committed?
            else if id in s.queue.jobs then id in Do(s, step).queue.jobs && Do(s, step).queue.jobs[id] == s.queue.jobs[id]
            else id !in Do(s, step).queue.jobs
    ensures if id in s.queue.spool then id in Do(s, step).queue.spool else id !in Do(s, step).queue.spool
  {
    hide CommitAll, DoJob, SweepOne, PendingShas, DoRead;
    match step
    case Commit(batch) => CommitMoves(s, batch, id);
    case JobTo(other, job) => OtherJobLeaves(s, other, job, id);
    case _ =>
  }

  lemma OtherJobLeaves(s: State, other: PutId, step: JobStep, id: PutId)
    requires Enabled(s, JobTo(other, step)) && other != id
    ensures var s' := DoJob(s, other, step);
            && s'.log.puts == s.log.puts && (id in s.queue.jobs <==> id in s'.queue.jobs) && (id in s.queue.spool <==> id in s'.queue.spool)
            && (id in s.queue.jobs ==> s'.queue.jobs[id] == s.queue.jobs[id])
  {
  }

  lemma {:induction false} CommitMoves(s: State, batch: seq<PutId>, id: PutId)
    requires Enabled(s, Commit(batch)) && id in s.log.puts
    ensures var s' := CommitAll(s, batch);
            && s'.log.puts == s.log.puts && s'.queue.jobs.Keys == s.queue.jobs.Keys && s'.queue.spool == s.queue.spool
            && (id in s.queue.jobs ==> s'.queue.jobs[id] == if id in batch then s.queue.jobs[id].(stage := Committed) else s.queue.jobs[id])
            && (id in batch ==> s.log.puts[id].key in s'.disk.actions)
    decreases batch
  {
    if batch != [] {
      var s' := CommitOne(s, batch[0]);
      hide PutRows;
      assert s.log.puts[batch[0]].key in s'.disk.actions by { PutRowsHave(s.lz, s.disk, s.log.puts[batch[0]]); }
      assert forall other :: other in batch[1..] ==> other != batch[0] && other in batch;
      CommitMoves(s', batch[1..], id);
      CommitRowsKept(s', batch[1..]);
      assert batch == [batch[0]] + batch[1..];
    }
  }

  lemma PutRowsHave(lz: Codec, d: Disk, put: Put)
    ensures put.key in PutRows(lz, d, put).actions
  {
  }

  // One step of a PUT on its way, or of anyone else, uses up what it has left.
  lemma OneStepOn(s: State, step: Step, id: PutId, failed: nat)
    requires Inv(s) && Enabled(s, step) && OnItsWay(s, id, failed)
    requires !step.Crash? && step != JobTo(id, Abandon)
    ensures var (s', failed') := (Do(s, step), failed + if FailedAttempt(step, id) then 1 else 0);
            if OnItsWay(s', id, failed') then
              Left(Small(s, id), s'.queue.jobs[id].stage) + (if Own(step, id) then 1 else 0) <=
              Left(Small(s, id), s.queue.jobs[id].stage) + 4 * (failed' - failed)
            else Arrived(s', id) && Left(Small(s, id), s.queue.jobs[id].stage) == 1 && Own(step, id)
  {
    hide Do, Enabled, Inv;
    if !Own(step, id) {
      OthersLeaveJob(s, step, id);
      if step.Commit? {
        OnlyBatchedCommit(s, step, id);
      }
    } else {
      DoIsDoJob(s, id, step.job);
      OwnStepOn(s, id, step.job, failed);
    }
  }

  lemma OnlyBatchedCommit(s: State, step: Step, id: PutId)
    requires Enabled(s, step) && step.Commit? && id in s.queue.jobs && !s.queue.jobs[id].stage.Batched?
    ensures id !in step.batch
  {
  }

  lemma DoIsDoJob(s: State, id: PutId, step: JobStep)
    requires Enabled(s, JobTo(id, step))
    ensures id in s.queue.jobs && id in s.log.puts && JobEnabled(s, id, step) && Do(s, JobTo(id, step)) == DoJob(s, id, step)
  {
  }

  lemma OwnStepOn(s: State, id: PutId, step: JobStep, failed: nat)
    requires Inv(s) && Enabled(s, JobTo(id, step)) && OnItsWay(s, id, failed) && !step.Abandon?
    ensures var (s', failed') := (DoJob(s, id, step), failed + if FailedAttempt(JobTo(id, step), id) then 1 else 0);
            if OnItsWay(s', id, failed') then
              Left(Small(s, id), s'.queue.jobs[id].stage) + 1 <= Left(Small(s, id), s.queue.jobs[id].stage) + 4 * (failed' - failed)
            else Arrived(s', id) && Left(Small(s, id), s.queue.jobs[id].stage) == 1
  {
    hide DiskSound, QueueSound, ReadsSound;
  }

  lemma StaysArrived(s: State, step: Step, id: PutId)
    requires Inv(s) && Enabled(s, step) && Arrived(s, id)
    requires !step.Crash? && step != JobTo(id, Abandon)
    ensures Arrived(Do(s, step), id)
  {
    DiskRowsKept(s, step);
    if Own(step, id) {
      OwnStaysArrived(s, id, step.job);
    } else {
      hide Do, Inv;
      OthersLeaveJob(s, step, id);
      if step.Commit? {
        CommitsKey(s, step.batch, id);
      }
    }
  }

  lemma CommitsKey(s: State, batch: seq<PutId>, id: PutId)
    requires Enabled(s, Commit(batch)) && id in s.log.puts
    ensures id in batch ==> s.log.puts[id].key in Do(s, Commit(batch)).disk.actions
  {
    CommitMoves(s, batch, id);
  }

  lemma OwnStaysArrived(s: State, id: PutId, step: JobStep)
    requires Inv(s) && Enabled(s, JobTo(id, step)) && Arrived(s, id) && !step.Abandon?
    ensures Arrived(DoJob(s, id, step), id)
  {
    hide DiskSound, QueueSound, ReadsSound;
  }

  // Entered at i, a PUT is on its way or has arrived, and what it has left and its own
  // steps so far are together at most 2, or 7 and 4 more for every failed attempt.
  lemma {:induction false} Advances(run: seq<State>, steps: seq<Step>, i: nat, j: nat, id: PutId)
    requires IsRun(run, steps) && Initial(run[0]) && i < j < |run| && Undisturbed(steps, id, i, j)
    requires steps[i] == JobTo(id, Insert) && id in run[i].log.puts && run[i].log.puts[id].key !in run[i].queue.pending
    ensures id in run[j].log.puts && run[j].log.puts[id] == run[i].log.puts[id]
    ensures var failed := FailedAttempts(steps, id, i + 1, j);
            if OnItsWay(run[j], id, failed) then
              OwnSteps(steps, id, i + 1, j) + Left(Small(run[j], id), run[j].queue.jobs[id].stage) <=
              (if Small(run[j], id) then 2 else 7 + 4 * failed)
            else Arrived(run[j], id)
    decreases j
  {
    hide Do, Enabled, Inv, OnItsWay, Arrived, DoJob;
    assert Enabled(run[i], steps[i]) && run[i + 1] == Do(run[i], steps[i]);
    if j == i + 1 {
      EnteredIsOnItsWay(run[i], id);
    } else {
      var s, step := run[j - 1], steps[j - 1];
      Advances(run, steps, i, j - 1, id);
      RunKeepsInv(run, steps, j - 1);
      assert Enabled(s, step) && run[j] == Do(s, step);
      DiskRowsKept(s, step);
      if OnItsWay(s, id, FailedAttempts(steps, id, i + 1, j - 1)) {
        OnItsWayOnly(s, id, FailedAttempts(steps, id, i + 1, j - 1));
        OneStepOn(s, step, id, FailedAttempts(steps, id, i + 1, j - 1));
      } else {
        StaysArrived(s, step, id);
      }
    }
    ArrivedOnly(run[j], id);
    if OnItsWay(run[j], id, FailedAttempts(steps, id, i + 1, j)) {
      OnItsWayOnly(run[j], id, FailedAttempts(steps, id, i + 1, j));
    }
  }

  lemma EnteredIsOnItsWay(s: State, id: PutId)
    requires Enabled(s, JobTo(id, Insert)) && s.log.puts[id].key !in s.queue.pending
    ensures var s' := Do(s, JobTo(id, Insert));
            && OnItsWay(s', id, 0) && id in s'.queue.jobs && s'.queue.jobs[id].stage.Entered?
            && id in s'.log.puts && s'.log.puts[id] == s.log.puts[id]
  {
  }

  lemma OnItsWayOnly(s: State, id: PutId, failed: nat)
    requires OnItsWay(s, id, failed)
    ensures id in s.log.puts && id in s.queue.jobs && !Arrived(s, id) && (Small(s, id) ==> failed == 0)
  {
  }

  lemma ArrivedOnly(s: State, id: PutId)
    ensures Arrived(s, id) ==> id in s.log.puts && forall failed :: !OnItsWay(s, id, failed)
  {
  }

  // A PUT whose key was free gets into the batch, or is committed already: a small one with
  // its second step after that, a bigger one with its seventh, or its eleventh, or its
  // fifteenth, if one attempt to copy fails, or two.
  lemma ReachesBatch(run: seq<State>, steps: seq<Step>, i: nat, j: nat, id: PutId)
    requires IsRun(run, steps) && Initial(run[0]) && i < j < |run| && Undisturbed(steps, id, i, j)
    requires steps[i] == JobTo(id, Insert) && id in run[i].log.puts && run[i].log.puts[id].key !in run[i].queue.pending
    requires OwnSteps(steps, id, i + 1, j) >=
             if |run[i].log.puts[id].content| <= 1024 then 2 else 7 + 4 * FailedAttempts(steps, id, i + 1, j)
    ensures (id in run[j].queue.jobs && run[j].queue.jobs[id].stage.Batched?) || run[i].log.puts[id].key in run[j].disk.actions
    ensures id in run[j].queue.jobs ==>
              var stage := run[j].queue.jobs[id].stage; stage.Batched? || stage.Committed? || stage == Retired(true)
  {
    Advances(run, steps, i, j, id);
  }

  // Until then there always is a step for it to take that need not fail, unless three
  // attempts have; and only then, or from the batch, is a PUT dropped.
  lemma NextOwnStep(run: seq<State>, steps: seq<Step>, i: nat, j: nat, id: PutId) returns (step: JobStep)
    requires IsRun(run, steps) && Initial(run[0]) && i < j < |run| && Undisturbed(steps, id, i, j)
    requires steps[i] == JobTo(id, Insert) && id in run[i].log.puts && run[i].log.puts[id].key !in run[i].queue.pending
    requires id in run[j].queue.jobs && Waiting(run[j].queue.jobs[id].stage)
    requires !run[j].queue.jobs[id].stage.Batched? && FailedAttempts(steps, id, i + 1, j) < 3
    ensures Enabled(run[j], JobTo(id, step)) && !FailedAttempt(JobTo(id, step), id) && !step.Abandon?
  {
    Advances(run, steps, i, j, id);
    RunKeepsInv(run, steps, j);
    var stage := run[j].queue.jobs[id].stage;
    step := match stage
      case Entered => Send
      case AtMover => Take
      case Stating(_) => Stat(true)
      case Recording(_) => WriteIntent(true, true)
      case Copying(_) => Copy(true, true)
      case Failed(_) => Retry
      case Settled => HandOver
      case AtFlusher => Collect
      case _ => JobStep.Retire;
  }

  lemma DroppedOnlyAfter(run: seq<State>, steps: seq<Step>, i: nat, j: nat, id: PutId)
    requires IsRun(run, steps) && Initial(run[0]) && i < j < |run| && Undisturbed(steps, id, i, j)
    requires steps[i] == JobTo(id, Insert) && id in run[i].log.puts && run[i].log.puts[id].key !in run[i].queue.pending
    requires Enabled(run[j], JobTo(id, Abandon))
    ensures run[j].queue.jobs[id].stage.Batched? || (FailedAttempts(steps, id, i + 1, j) == 3 && |run[i].log.puts[id].content| > 1024)
  {
    Advances(run, steps, i, j, id);
  }

  predicate PastCopying(s: State, id: PutId) {
    id in s.log.puts && (id in s.queue.jobs ==> PastMain(s.queue.jobs[id].stage) || s.queue.jobs[id].stage.Retired?)
  }

  lemma StaysPastCopying(s: State, step: Step, id: PutId)
    requires Enabled(s, step) && PastCopying(s, id)
    ensures PastCopying(Do(s, step), id)
  {
    if !Own(step, id) && !step.Crash? {
      hide Do;
      OthersLeaveJob(s, step, id);
    }
  }

  // A blob that a mover finds in the main directory it does not copy, and writes no intent for.
  lemma {:induction false} PresentBlobNotCopied(run: seq<State>, steps: seq<Step>, i: nat, j: nat, id: PutId, step: JobStep)
    requires IsRun(run, steps) && Initial(run[0]) && i < j < |run| && steps[i] == JobTo(id, Stat(true))
    requires id in run[i].log.puts && NameOf(run[i].log.puts[id].content) in run[i].disk.main
    requires step.WriteIntent? || step.Copy?
    ensures PastCopying(run[j], id) && !Enabled(run[j], JobTo(id, step))
    decreases j
  {
    hide Do, Inv, PastCopying;
    assert Enabled(run[j - 1], steps[j - 1]) && run[j] == Do(run[j - 1], steps[j - 1]);
    if i + 1 < j {
      PresentBlobNotCopied(run, steps, i, j - 1, id, step);
      StaysPastCopying(run[j - 1], steps[j - 1], id);
    } else {
      RunKeepsInv(run, steps, i);
      FoundIsPastCopying(run[i], id);
    }
    NothingToCopy(run[j], id, step);
  }

  lemma NothingToCopy(s: State, id: PutId, step: JobStep)
    requires PastCopying(s, id) && (step.WriteIntent? || step.Copy?)
    ensures !Enabled(s, JobTo(id, step))
  {
  }

  lemma FoundIsPastCopying(s: State, id: PutId)
    requires Inv(s) && Enabled(s, JobTo(id, Stat(true))) && NameOf(s.log.puts[id].content) in s.disk.main
    ensures PastCopying(Do(s, JobTo(id, Stat(true))), id)
  {
    hide QueueSound, ReadsSound;
  }

  // A small PUT is never with a mover, so no attempt to copy it can fail, and it never has
  // an intent.
  lemma SmallNeverWithMover(run: seq<State>, steps: seq<Step>, k: nat, id: PutId)
    requires IsRun(run, steps) && Initial(run[0]) && k < |run|
    requires id in run[k].queue.jobs && id in run[k].log.puts && |run[k].log.puts[id].content| <= 1024
    ensures var job := run[k].queue.jobs[id];
            && !job.stage.AtMover? && !job.stage.Stating? && !job.stage.Recording? && !job.stage.Copying? && !job.stage.Failed?
            && job.intentPath.None?
  {
    RunKeepsInv(run, steps, k);
    assert JobSound(run[k].queue.jobs[id], run[k].log.puts[id], run[k].disk);
  }

  // ---- the commit ----

  // Every PUT of a batch ends up with its key in the tables, and as its own row unless one
  // was there: with its digest, its output ID, and a Blobs row of its sizes and bytes.
  lemma BatchCommits(run: seq<State>, steps: seq<Step>, i: nat, id: PutId)
    requires IsRun(run, steps) && Initial(run[0]) && i < |steps| && steps[i].Commit? && id in steps[i].batch
    ensures id in run[i].log.puts
    ensures var (put, d) := (run[i].log.puts[id], run[i + 1].disk);
            && put.key in d.actions && d.actions[put.key].sha in d.blobs
            && (put.key in run[i].disk.actions ==> d.actions[put.key] == run[i].disk.actions[put.key])
            && (put.key !in run[i].disk.actions ==> Says(d.actions[put.key], put))
            && Sha256(put.content) in d.blobs
            && d.blobs[Sha256(put.content)].uncompressedSize == |put.content|
            && d.blobs[Sha256(put.content)].storedSize ==
               (if |put.content| < 1026 then |put.content| else |run[i].lz.compress(put.content)|)
            && d.blobs[Sha256(put.content)].smallData == if |put.content| <= 1024 then Some(put.content) else None
  {
    var s := run[i];
    assert Enabled(s, steps[i]) && run[i + 1] == Do(s, steps[i]);
    RunKeepsInv(run, steps, i);
    RunKeepsInv(run, steps, i + 1);
    hide CommitAll, ReadsSound, FilesSound, Accounted;
    CommitMoves(s, steps[i].batch, id);
    CommitRowsKept(s, steps[i].batch);
    CommitWins(s, steps[i].batch, id);
  }

  lemma {:induction false} CommitWins(s: State, batch: seq<PutId>, id: PutId)
    requires PendingSound(s.queue.pending, s.queue.jobs, s.log.puts) && Enabled(s, Commit(batch)) && id in batch
    ensures s.log.puts[id].key in CommitAll(s, batch).disk.actions && Sha256(s.log.puts[id].content) in CommitAll(s, batch).disk.blobs
    ensures s.log.puts[id].key !in s.disk.actions ==> Says(CommitAll(s, batch).disk.actions[s.log.puts[id].key], s.log.puts[id])
    decreases batch
  {
    hide PutRows, CommitAll;
    var s' := CommitOne(s, batch[0]);
    AllFrom(s, batch);
    PutRowsWin(s.lz, s.disk, s.log.puts[batch[0]]);
    assert batch == [batch[0]] + batch[1..];
    assert forall other :: other in batch[1..] ==> other != batch[0] && other in batch;
    CommitRowsKept(s', batch[1..]);
    if id != batch[0] {
      assert s.log.puts[id].key != s.log.puts[batch[0]].key;
      CommitWins(s', batch[1..], id);
    }
  }

  lemma AllFrom(s: State, batch: seq<PutId>)
    requires Enabled(s, Commit(batch)) && batch != []
    ensures Enabled(CommitOne(s, batch[0]), Commit(batch[1..])) && CommitAll(s, batch) == CommitAll(CommitOne(s, batch[0]), batch[1..])
    ensures PendingSound(s.queue.pending, s.queue.jobs, s.log.puts) ==>
              var s' := CommitOne(s, batch[0]); PendingSound(s'.queue.pending, s'.queue.jobs, s'.log.puts)
  {
    hide PutRows, CommitAll;
    assert forall other :: other in batch[1..] ==> other != batch[0] && other in batch;
    CommitsFirst(s, batch);
  }

  lemma CommitsFirst(s: State, batch: seq<PutId>)
    requires Enabled(s, Commit(batch)) && batch != []
    ensures forall id :: id in batch[1..] ==> id in CommitOne(s, batch[0]).queue.jobs && id in CommitOne(s, batch[0]).log.puts
    ensures CommitAll(s, batch) == CommitAll(CommitOne(s, batch[0]), batch[1..])
  {
  }

  lemma PutRowsWin(lz: Codec, d: Disk, put: Put)
    ensures var d' := PutRows(lz, d, put);
            && put.key in d'.actions && Sha256(put.content) in d'.blobs
            && (put.key !in d.actions ==> Says(d'.actions[put.key], put))
            && (forall key :: key != put.key ==> (key in d.actions <==> key in d'.actions))
  {
  }

  // From then on, through crashes and whatever else is put, a GET of that key that goes to
  // the tables answers with exactly this PUT.
  lemma CommittedPutServed(run: seq<State>, steps: seq<Step>, i: nat, k: nat, id: PutId, r: ReadId)
    requires IsRun(run, steps) && Initial(run[0]) && Lossless(run[0].lz) && FramesDiffer(run[0].lz)
    requires i < k < |run| && steps[i].Commit? && id in steps[i].batch
    requires id in run[i].log.puts && run[i].log.puts[id].key !in run[i].disk.actions
    requires r in run[k].gets && run[k].gets[r].phase.Querying? && run[k].gets[r].global == run[i].log.puts[id].key
    ensures var put := run[i].log.puts[id];
            var queried := Do(run[k], ReadTo(r, Query));
            var phase := if queried.gets[r].phase.Opening? then Do(queried, ReadTo(r, OpenMain)).gets[r].phase
                         else queried.gets[r].phase;
            phase == Done(Hit(put.outputID, put.content))
  {
    BatchCommits(run, steps, i, id);
    FirstCommitWins(run, steps, i + 1, k);
    FirstCommitWins(run, steps, 0, k);
    RunKeepsInv(run, steps, k);
    hide Do, Inv;
    InvOfActions(run[k]);
    CommittedReadsBackExactlyWhen(run[k], r);
  }

  lemma InvOfActions(s: State)
    requires Inv(s)
    ensures ActionsSound(s.disk, s.log)
  {
  }

  // ---- after the commit ----

  // The flusher's steps after a commit, and the hand-off of the intent, which may be left out.
  function ClearingSteps(steps: seq<Step>, id: PutId, i: nat, j: nat): nat
    requires i <= j <= |steps|
    decreases j - i
  {
    if i == j then 0 else ClearingSteps(steps, id, i, j - 1) + if Own(steps[j - 1], id) && !steps[j - 1].job.HandOff? then 1 else 0
  }

  predicate Clearing(s: State, id: PutId, done: nat) {
    && id in s.log.puts
    && if done == 0 then id in s.queue.jobs && s.queue.jobs[id].stage.Committed?
       else if done == 1 then id in s.queue.jobs && s.queue.jobs[id].stage == Retired(true)
       else id !in s.queue.jobs && id !in s.queue.spool
  }

  lemma ClearsOn(s: State, step: Step, id: PutId, done: nat)
    requires Enabled(s, step) && !step.Crash? && Clearing(s, id, done)
    ensures Clearing(Do(s, step), id, done + if Own(step, id) && !step.job.HandOff? then 1 else 0)
  {
    if !Own(step, id) {
      OthersLeaveJob(s, step, id);
      hide Do, Enabled;
    }
  }

  // With two more steps of its own a committed PUT is gone from the pending map, which has
  // it no longer after the first, and from the spool.
  lemma {:induction false} ClearedAway(run: seq<State>, steps: seq<Step>, i: nat, j: nat, id: PutId)
    requires IsRun(run, steps) && Initial(run[0]) && i <= j < |run|
    requires id in run[i].log.puts && id in run[i].queue.jobs && run[i].queue.jobs[id].stage.Committed?
    requires forall m {:trigger steps[m]} :: i <= m < j ==> !steps[m].Crash?
    ensures Clearing(run[j], id, ClearingSteps(steps, id, i, j))
    ensures ClearingSteps(steps, id, i, j) >= 1 ==> forall k :: k in run[j].queue.pending ==> run[j].queue.pending[k] != id
    ensures ClearingSteps(steps, id, i, j) >= 2 ==> id !in run[j].queue.jobs && id !in run[j].queue.spool
    decreases j
  {
    hide Do, Enabled, Clearing, Inv;
    ClearingStarts(run[i], id);
    if i < j {
      ClearedAway(run, steps, i, j - 1, id);
      assert Enabled(run[j - 1], steps[j - 1]) && run[j] == Do(run[j - 1], steps[j - 1]);
      ClearsOn(run[j - 1], steps[j - 1], id, ClearingSteps(steps, id, i, j - 1));
    }
    RunKeepsInv(run, steps, j);
    ClearedMeans(run[j], id, ClearingSteps(steps, id, i, j));
  }

  lemma ClearingStarts(s: State, id: PutId)
    requires id in s.log.puts && id in s.queue.jobs && s.queue.jobs[id].stage.Committed?
    ensures Clearing(s, id, 0)
  {
  }

  lemma ClearedMeans(s: State, id: PutId, done: nat)
    requires Inv(s) && Clearing(s, id, done)
    ensures done >= 1 ==> forall k :: k in s.queue.pending ==> s.queue.pending[k] != id
    ensures done >= 2 ==> id !in s.queue.jobs && id !in s.queue.spool
  {
  }

  // The intent of a committed PUT that was handed off stays with the movers until one
  // deletes it.
  lemma {:induction false} HandedOffIntentGoes(run: seq<State>, steps: seq<Step>, i: nat, j: nat, id: PutId, path: Intent)
    requires IsRun(run, steps) && i < j < |run| && steps[i] == JobTo(id, HandOff)
    requires id in run[i].queue.jobs && run[i].queue.jobs[id].intentPath == Some(path)
    requires forall m {:trigger steps[m]} :: i < m < j ==> !steps[m].Crash? && !(steps[m].DeleteIntent? && steps[m].deleted == path)
    ensures Enabled(run[j], DeleteIntent(path, true)) && path !in Do(run[j], DeleteIntent(path, true)).disk.intents
    decreases j
  {
    assert Enabled(run[j - 1], steps[j - 1]) && run[j] == Do(run[j - 1], steps[j - 1]);
    if i < j - 1 {
      HandedOffIntentGoes(run, steps, i, j - 1, id, path);
      if steps[j - 1].Commit? {
        CommitKeepsDeletions(run[j - 1], steps[j - 1].batch);
      }
    }
  }

  lemma {:induction false} CommitKeepsDeletions(s: State, batch: seq<PutId>)
    requires forall id :: id in batch ==> id in s.queue.jobs && id in s.log.puts
    ensures CommitAll(s, batch).queue.intentDelCh == s.queue.intentDelCh
    decreases batch
  {
    if batch != [] {
      CommitKeepsDeletions(CommitOne(s, batch[0]), batch[1..]);
    }
  }

  // ---- intents and crashes ----

  // A first attempt's intent is due in an hour, and not before is it swept.
  lemma IntentGivesAnHour(s: State, id: PutId, ok: bool, later: State, removed: bool, unlinked: bool)
    requires Enabled(s, JobTo(id, WriteIntent(true, ok))) && s.queue.jobs[id].intentPath.None?
    ensures var s' := Do(s, JobTo(id, WriteIntent(true, ok)));
            && s'.queue.jobs[id].intentPath.Some?
            && var path := s'.queue.jobs[id].intentPath.value;
               && path.name == NameOf(s.log.puts[id].content) && s'.disk.intents == s.disk.intents + {path}
               && (Enabled(later, Sweep(path, removed, unlinked)) <==> path in later.disk.intents && later.now >= s.now + 3600)
  {
  }

  // A crash takes what is in memory and in the spool, and nothing of the main directory,
  // the intents and the tables; a sweep of every intent, when they are due, then leaves
  // the committed blobs and nothing else.
  lemma CrashLosesVolatileOnly(run: seq<State>, steps: seq<Step>, i: nat, k: nat, e: nat)
    requires IsRun(run, steps) && Initial(run[0]) && i < k <= e && OnePass(steps, k, e) && steps[i] == Crash
    requires forall m {:trigger steps[m]} :: i < m < k ==> Aside(steps[m])
    requires forall x :: x in run[i].disk.intents ==> x in Swept(steps, k, e)
    ensures run[i + 1].disk == run[i].disk && run[i + 1].queue == Queue(map[], map[], map[], {}) && run[i + 1].gets == map[]
    ensures var (before, after) := (run[i].disk, run[e].disk);
            && after.blobs == before.blobs && after.actions == before.actions && after.intents == {}
            && (forall n :: n in after.main <==> n in before.main && n.sha in before.blobs)
            && (forall n :: n in after.main ==> after.main[n] == before.main[n])
  {
    assert Enabled(run[i], steps[i]) && run[i + 1] == Do(run[i], steps[i]);
    NothingAside(run, steps, i + 1, k);
    QuietSweepLeavesCommitted(run, steps, k, e);
  }

  lemma {:induction false} NothingAside(run: seq<State>, steps: seq<Step>, i: nat, k: nat)
    requires IsRun(run, steps) && i <= k < |run|
    requires forall m {:trigger steps[m]} :: i <= m < k ==> Aside(steps[m])
    ensures run[k].disk == run[i].disk && run[k].queue == run[i].queue
    decreases k
  {
    if i < k {
      NothingAside(run, steps, i, k - 1);
      assert Enabled(run[k - 1], steps[k - 1]) && run[k] == Do(run[k - 1], steps[k - 1]);
      PassStep(run[k - 1], steps[k - 1]);
    }
  }

  // ---- GETs ----

  function ReadLeft(phase: Phase): nat {
    match phase
    case Asking => 5
    case AskingExtra => 4
    case Holding(_) => 3
    case Querying => 2
    case Opening(_, _, _) => 1
    case Done(_) => 0
  }

  function ReadSteps(steps: seq<Step>, r: ReadId, i: nat, j: nat): nat
    requires i <= j <= |steps|
    decreases j - i
  {
    if i == j then 0 else ReadSteps(steps, r, i, j - 1) + if steps[j - 1].ReadTo? && steps[j - 1].read == r then 1 else 0
  }

  lemma ReadsOn(s: State, step: Step, r: ReadId)
    requires Enabled(s, step) && !step.Crash? && r in s.gets
    ensures r in Do(s, step).gets && s.gets[r].global == Do(s, step).gets[r].global && s.gets[r].extra == Do(s, step).gets[r].extra
    ensures ReadLeft(Do(s, step).gets[r].phase) + (if step.ReadTo? && step.read == r then 1 else 0) <= ReadLeft(s.gets[r].phase)
  {
    if step.Commit? {
      CommitRowsKept(s, step.batch);
    }
  }

  // A GET is answered with its fifth step at the latest, and until then it always has one.
  lemma {:induction false} GetEnds(run: seq<State>, steps: seq<Step>, r: ReadId, global: ActionKey, extra: ActionKey, i: nat, j: nat)
    requires IsRun(run, steps) && Initial(run[0]) && i < j < |run| && steps[i] == StartGet(r, global, extra)
    requires forall m {:trigger steps[m]} :: i < m < j ==> !steps[m].Crash?
    ensures r in run[j].gets && run[j].gets[r].global == global && run[j].gets[r].extra == extra
    ensures ReadSteps(steps, r, i + 1, j) + ReadLeft(run[j].gets[r].phase) <= 5
    ensures ReadSteps(steps, r, i + 1, j) >= 5 ==> run[j].gets[r].phase.Done?
    ensures !run[j].gets[r].phase.Done? ==> exists step :: Enabled(run[j], ReadTo(r, step))
    decreases j
  {
    assert Enabled(run[j - 1], steps[j - 1]) && run[j] == Do(run[j - 1], steps[j - 1]);
    if i + 1 < j {
      GetEnds(run, steps, r, global, extra, i, j - 1);
      ReadsOn(run[j - 1], steps[j - 1], r);
    }
    RunKeepsInv(run, steps, j);
    NextReadStep(run[j], r);
  }

  lemma NextReadStep(s: State, r: ReadId)
    requires Inv(s) && r in s.gets
    ensures !s.gets[r].phase.Done? ==> exists step :: Enabled(s, ReadTo(r, step))
  {
    assert ReadSound(s.lz, s.gets[r], s.queue.pending, s.disk, s.log);
    var step := match s.gets[r].phase
      case Asking => LookGlobal
      case AskingExtra => LookExtra
      case Holding(_) => OpenSpool
      case Querying => Query
      case _ => OpenMain;
    assert !s.gets[r].phase.Done? ==> Enabled(s, ReadTo(r, step));
  }
}

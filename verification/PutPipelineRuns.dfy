// What the put queue promises over whole runs, crashes included.
module PutPipelineRuns {
  import opened Wrappers
  import opened Pages
  import opened BlobFormat
  import opened PutPipeline
  import opened PutPipelineSafety

  // ---- crash-safe accounting ----

  lemma EveryFileAccountedFor(run: seq<State>, steps: seq<Step>, k: nat)
    requires IsRun(run, steps) && Initial(run[0]) && k < |run|
    ensures forall n :: n in run[k].disk.main ==>
              n.sha in run[k].disk.blobs || exists i :: i in run[k].disk.intents && i.name == n
  {
    RunKeepsInv(run, steps, k);
  }

  // The bytes of every Blobs row, whether or not an action refers to it, and of every entry
  // on its way to being committed, are in the main directory, also when the entry's own
  // mover found them there.
  lemma CommittedBytesPresent(run: seq<State>, steps: seq<Step>, k: nat)
    requires IsRun(run, steps) && Initial(run[0]) && k < |run|
    ensures var s := run[k];
            && (forall a :: a in s.disk.actions ==> s.disk.actions[a].sha in s.disk.blobs)
            && (forall h :: h in s.disk.blobs && s.disk.blobs[h].smallData.None? ==>
                  NameOf(h.content) in s.disk.main && s.disk.main[NameOf(h.content)] == OnDisk(s.lz, h.content))
            && (forall id :: id in s.queue.jobs && id in s.log.puts && !Inline(s.log.puts[id].content) &&
                             (s.queue.jobs[id].stage.AtFlusher? || s.queue.jobs[id].stage.Batched? || s.queue.jobs[id].stage.Committed?) ==>
                  var content := s.log.puts[id].content;
                  NameOf(content) in s.disk.main && s.disk.main[NameOf(content)] == OnDisk(s.lz, content))
  {
    RunKeepsInv(run, steps, k);
    var s := run[k];
    forall id | id in s.queue.jobs && id in s.log.puts && PastMain(s.queue.jobs[id].stage) && !Inline(s.log.puts[id].content)
      ensures NameOf(s.log.puts[id].content) in s.disk.main
    {
      assert JobSound(s.queue.jobs[id], s.log.puts[id], s.disk);
    }
  }

  // ---- the sweep ----

  // One pass over a listing of due intents, nothing failing.
  function SweepAll(d: Disk, inFlight: set<Digest>, due: seq<Intent>): Disk
    decreases |due|
  {
    if due == [] then d else SweepAll(SweepOne(d, inFlight, due[0], true, true), inFlight, due[1..])
  }

  ghost predicate Named(due: seq<Intent>, n: BlobName) {
    exists k :: 0 <= k < |due| && due[k].name == n
  }

  // A pass deletes exactly the listed blobs nothing accounts for, and exactly the listed
  // intents except those of uncommitted content in flight.
  lemma {:induction false} SweepIsExact(d: Disk, inFlight: set<Digest>, due: seq<Intent>)
    ensures var after := SweepAll(d, inFlight, due);
            && after.blobs == d.blobs && after.actions == d.actions
            && (forall n :: n in after.main <==>
                  n in d.main && (n.sha in d.blobs || n.sha in inFlight || !Named(due, n)))
            && (forall n :: n in after.main ==> after.main[n] == d.main[n])
            && (forall i :: i in after.intents <==>
                  i in d.intents && (i !in due || (i.name.sha !in d.blobs && i.name.sha in inFlight)))
    decreases |due|
  {
    if due != [] {
      SweepIsExact(SweepOne(d, inFlight, due[0], true, true), inFlight, due[1..]);
      forall n ensures Named(due, n) <==> due[0].name == n || Named(due[1..], n) {
        if Named(due, n) && due[0].name != n {
          var k :| 0 <= k < |due| && due[k].name == n;
          assert due[1..][k - 1].name == n;
        }
        if Named(due[1..], n) {
          var k :| 0 <= k < |due[1..]| && due[1..][k].name == n;
          assert due[k + 1].name == n;
        }
      }
    }
  }

  // A GET or the clock; nothing a sweep looks at.
  predicate Aside(step: Step) {
    step.StartGet? || step.ReadTo? || step.Tick?
  }

  // The steps from k to e are those of one pass, nothing failing, with GETs in between.
  predicate OnePass(steps: seq<Step>, k: nat, e: nat) {
    k <= e <= |steps| && forall m {:trigger steps[m]} :: k <= m < e ==>
      Aside(steps[m]) || (steps[m].Sweep? && steps[m].removed && steps[m].unlinked)
  }

  // The intents that it handles.
  function Swept(steps: seq<Step>, k: nat, e: nat): seq<Intent>
    requires OnePass(steps, k, e)
    decreases e - k
  {
    if e == k then [] else Swept(steps, k, e - 1) + if steps[e - 1].Sweep? then [steps[e - 1].swept] else []
  }

  lemma {:induction false} SweepOneMore(d: Disk, inFlight: set<Digest>, due: seq<Intent>, i: Intent)
    ensures SweepAll(d, inFlight, due + [i]) == SweepOne(SweepAll(d, inFlight, due), inFlight, i, true, true)
    decreases |due|
  {
    if due == [] {
      assert SweepAll(d, inFlight, [i]) == SweepAll(SweepOne(d, inFlight, i, true, true), inFlight, []);
    } else {
      assert (due + [i])[1..] == due[1..] + [i];
      SweepOneMore(SweepOne(d, inFlight, due[0], true, true), inFlight, due[1..], i);
    }
  }

  lemma PassStep(s: State, step: Step)
    requires Enabled(s, step) && (Aside(step) || (step.Sweep? && step.removed && step.unlinked))
    ensures Do(s, step).queue == s.queue && Do(s, step).log == s.log && Do(s, step).lz == s.lz
    ensures Do(s, step).disk == if step.Sweep? then SweepOne(s.disk, PendingShas(s), step.swept, true, true) else s.disk
  {
  }

  // Its steps in a run do what the pass does.
  lemma {:induction false} PassIsSweepAll(run: seq<State>, steps: seq<Step>, k: nat, e: nat)
    requires IsRun(run, steps) && OnePass(steps, k, e)
    ensures run[e].disk == SweepAll(run[k].disk, PendingShas(run[k]), Swept(steps, k, e))
    ensures run[e].queue == run[k].queue && run[e].log == run[k].log && run[e].lz == run[k].lz
    decreases e - k
  {
    if k < e {
      PassIsSweepAll(run, steps, k, e - 1);
      assert Enabled(run[e - 1], steps[e - 1]) && run[e] == Do(run[e - 1], steps[e - 1]);
      PassStep(run[e - 1], steps[e - 1]);
      assert PendingShas(run[e - 1]) == PendingShas(run[k]);
      hide Do, SweepAll, SweepOne, PendingShas, Enabled;
      if steps[e - 1].Sweep? {
        SweepOneMore(run[k].disk, PendingShas(run[k]), Swept(steps, k, e - 1), steps[e - 1].swept);
      } else {
        assert Swept(steps, k, e) == Swept(steps, k, e - 1);
      }
    }
  }

  // With nothing pending, a pass of sweep steps over all intents, which must all be due for
  // that, leaves the committed blobs and nothing else.
  lemma QuietSweepLeavesCommitted(run: seq<State>, steps: seq<Step>, k: nat, e: nat)
    requires IsRun(run, steps) && Initial(run[0]) && OnePass(steps, k, e)
    requires run[k].queue.pending == map[]
    requires forall i :: i in run[k].disk.intents ==> i in Swept(steps, k, e)
    ensures var (before, after) := (run[k].disk, run[e].disk);
            && (forall n :: n in after.main <==> n in before.main && n.sha in before.blobs)
            && (forall n :: n in after.main ==> after.main[n] == before.main[n])
            && after.intents == {} && after.blobs == before.blobs && after.actions == before.actions
            && RowsSound(run[e].lz, after)
  {
    var due := Swept(steps, k, e);
    RunKeepsInv(run, steps, k);
    RunKeepsInv(run, steps, e);
    PassIsSweepAll(run, steps, k, e);
    var d := run[k].disk;
    SweepIsExact(d, PendingShas(run[k]), due);
    assert PendingShas(run[k]) == {};
    forall n | n in d.main && n.sha !in d.blobs ensures Named(due, n) {
      var i :| i in d.intents && i.name == n;
      var j :| 0 <= j < |due| && due[j] == i;
      assert due[j].name == n;
    }
  }

  // ---- committed metadata ----

  lemma DiskRowsKept(s: State, step: Step)
    requires Enabled(s, step)
    ensures Grows(s.disk.blobs, Do(s, step).disk.blobs) && Grows(s.disk.actions, Do(s, step).disk.actions)
    ensures Grows(s.log.puts, Do(s, step).log.puts) && Do(s, step).lz == s.lz
  {
    match step
    case Commit(batch) => CommitRowsKept(s, batch);
    case JobTo(id, job) => JobRowsKept(s, id, job);
    case _ =>
  }

  lemma JobRowsKept(s: State, id: PutId, step: JobStep)
    requires id in s.queue.jobs && id in s.log.puts && JobEnabled(s, id, step)
    ensures var s' := DoJob(s, id, step);
            s'.disk.blobs == s.disk.blobs && s'.disk.actions == s.disk.actions && s'.log.puts == s.log.puts && s'.lz == s.lz
  {
  }

  lemma {:induction false} CommitRowsKept(s: State, batch: seq<PutId>)
    requires forall id :: id in batch ==> id in s.queue.jobs && id in s.log.puts
    ensures var s' := CommitAll(s, batch);
            && Grows(s.disk.blobs, s'.disk.blobs) && Grows(s.disk.actions, s'.disk.actions)
            && s'.log.puts == s.log.puts && s'.log.acked == s.log.acked
            && s'.gets == s.gets && s'.lz == s.lz && s'.queue.pending == s.queue.pending
    decreases batch
  {
    if batch != [] {
      CommitRowsKept(CommitOne(s, batch[0]), batch[1..]);
    }
  }

  // The first PUT of an action to commit keeps its row through everything, crashes included.
  lemma {:induction false} FirstCommitWins(run: seq<State>, steps: seq<Step>, i: nat, j: nat)
    requires IsRun(run, steps) && i <= j < |run|
    ensures Grows(run[i].disk.actions, run[j].disk.actions) && Grows(run[i].disk.blobs, run[j].disk.blobs)
    ensures Grows(run[i].log.puts, run[j].log.puts) && run[j].lz == run[i].lz
    decreases j - i
  {
    if i < j {
      FirstCommitWins(run, steps, i, j - 1);
      DiskRowsKept(run[j - 1], steps[j - 1]);
    }
  }

  // ---- GETs never miss in between ----

  // The step abandons an entry of this key.
  predicate Abandons(s: State, step: Step, key: ActionKey) {
    step.JobTo? && step.job.Abandon? && step.id in s.log.puts && s.log.puts[step.id].key == key
  }

  // The step may take an acknowledged key away: only a key not yet committed can go.
  predicate Forgets(s: State, step: Step, key: ActionKey) {
    key !in s.disk.actions && (step.Crash? || Abandons(s, step, key))
  }

  lemma AckedKept(s: State, step: Step, key: ActionKey)
    requires Inv(s) && Enabled(s, step) && key in s.log.acked && !Forgets(s, step, key)
    ensures key in Do(s, step).log.acked
  {
    match step
    case Commit(batch) => CommitRowsKept(s, batch);
    case JobTo(id, job) => JobAcked(s, id, job, key);
    case _ =>
  }

  lemma JobAcked(s: State, id: PutId, step: JobStep, key: ActionKey)
    requires id in s.queue.jobs && id in s.log.puts && JobEnabled(s, id, step) && key in s.log.acked
    requires step.Abandon? ==> key in s.disk.actions || s.log.puts[id].key != key
    ensures key in DoJob(s, id, step).log.acked
  {
  }

  lemma {:induction false} StaysAcked(run: seq<State>, steps: seq<Step>, key: ActionKey, i: nat, j: nat)
    requires IsRun(run, steps) && Initial(run[0]) && i <= j < |run| && key in run[i].log.acked
    requires forall m {:trigger steps[m]} :: i <= m < j ==> !Forgets(run[m], steps[m], key)
    ensures key in run[j].log.acked
    decreases j - i
  {
    if i < j {
      StaysAcked(run, steps, key, i, j - 1);
      RunKeepsInv(run, steps, j - 1);
      AckedKept(run[j - 1], steps[j - 1], key);
    }
  }

  // A GET under way keeps its keys, and is sure of one of them until that is spoiled.
  ghost predicate SureOf(s: State, r: ReadId, global: ActionKey, extra: ActionKey, key: ActionKey) {
    r in s.gets && s.gets[r].global == global && s.gets[r].extra == extra && key in s.gets[r].sure
  }

  // The step abandons an uncommitted PUT of this key, or one of the global key while the
  // GET has it in hand; or it is a crash, which ends the GET.
  ghost predicate Spoils(s: State, step: Step, r: ReadId, global: ActionKey, key: ActionKey) {
    || step.Crash?
    || (key !in s.disk.actions && Abandons(s, step, key))
    || (global !in s.disk.actions && Abandons(s, step, global) && r in s.gets && s.gets[r].phase == Holding(step.id))
  }

  lemma SureKept(s: State, step: Step, r: ReadId, global: ActionKey, extra: ActionKey, key: ActionKey)
    requires Enabled(s, step) && SureOf(s, r, global, extra, key) && !Spoils(s, step, r, global, key)
    ensures SureOf(Do(s, step), r, global, extra, key)
  {
    match step
    case Commit(batch) => CommitRowsKept(s, batch);
    case JobTo(id, job) => JobSure(s, id, job, r, key);
    case _ =>
  }

  lemma JobSure(s: State, id: PutId, step: JobStep, r: ReadId, key: ActionKey)
    requires id in s.queue.jobs && id in s.log.puts && JobEnabled(s, id, step) && r in s.gets && key in s.gets[r].sure
    requires step.Abandon? && s.log.puts[id].key !in s.disk.actions ==>
               s.log.puts[id].key != key && !(s.gets[r].phase == Holding(id) && s.log.puts[id].key == s.gets[r].global)
    ensures r in DoJob(s, id, step).gets && key in DoJob(s, id, step).gets[r].sure
    ensures DoJob(s, id, step).gets[r].global == s.gets[r].global && DoJob(s, id, step).gets[r].extra == s.gets[r].extra
  {
  }

  lemma {:induction false} StaysSure(run: seq<State>, steps: seq<Step>, r: ReadId, global: ActionKey, extra: ActionKey,
                                     key: ActionKey, j: nat, k: nat)
    requires IsRun(run, steps) && j <= k < |run| && SureOf(run[j], r, global, extra, key)
    requires forall m {:trigger steps[m]} :: j <= m < k ==> !Spoils(run[m], steps[m], r, global, key)
    ensures SureOf(run[k], r, global, extra, key)
    decreases k - j
  {
    if j < k {
      StaysSure(run, steps, r, global, extra, key, j, k - 1);
      SureKept(run[k - 1], steps[k - 1], r, global, extra, key);
    }
  }

  // Whatever a GET answers with is one PUT's output ID and that same PUT's bytes.
  lemma AnswersAreOfOnePut(run: seq<State>, steps: seq<Step>, k: nat, r: ReadId)
    requires IsRun(run, steps) && Initial(run[0]) && Lossless(run[0].lz) && FramesDiffer(run[0].lz)
    requires k < |run| && r in run[k].gets && run[k].gets[r].phase.Done? && run[k].gets[r].phase.answer.Hit?
    ensures var read := run[k].gets[r];
            OfOnePut(run[k].log.puts, read.global, read.extra, read.phase.answer.outputID, read.phase.answer.body)
  {
    RunKeepsInv(run, steps, k);
    FirstCommitWins(run, steps, 0, k);
    assert ReadSound(run[k].lz, run[k].gets[r], run[k].queue.pending, run[k].disk, run[k].log);
  }

  // Once a PUT is in the pending map (step i), before it is even acknowledged, a GET begun
  // at any later step j finds the action, however its steps interleave with the rest, as
  // long as the key is not forgotten before j, nor spoiled during the GET: by abandoning an
  // uncommitted PUT of it, or of the global key while the GET has that PUT in hand.
  lemma NoReadabilityGap(run: seq<State>, steps: seq<Step>, i: nat, j: nat, k: nat,
                         id: PutId, r: ReadId, global: ActionKey, extra: ActionKey)
    requires IsRun(run, steps) && Initial(run[0]) && Lossless(run[0].lz) && FramesDiffer(run[0].lz)
    requires i < j < k < |run| && steps[i] == JobTo(id, Insert) && steps[j] == StartGet(r, global, extra)
    requires id in run[i].log.puts && run[i].log.puts[id].key in {global, extra}
    requires forall m {:trigger steps[m]} :: i < m < j ==> !Forgets(run[m], steps[m], run[i].log.puts[id].key)
    requires forall m {:trigger steps[m]} :: j < m < k ==>
               !Spoils(run[m], steps[m], r, global, run[i].log.puts[id].key)
    requires r in run[k].gets && run[k].gets[r].phase.Done?
    ensures run[k].gets[r].phase.answer.Hit?
    ensures OfOnePut(run[k].log.puts, global, extra, run[k].gets[r].phase.answer.outputID, run[k].gets[r].phase.answer.body)
  {
    var key := run[i].log.puts[id].key;
    InsertAcks(run, steps, i, id);
    StaysAcked(run, steps, key, i + 1, j);
    assert Enabled(run[j], steps[j]) && run[j + 1] == Do(run[j], steps[j]);
    StaysSure(run, steps, r, global, extra, key, j + 1, k);
    RunKeepsInv(run, steps, k);
    FirstCommitWins(run, steps, 0, k);
    assert ReadSound(run[k].lz, run[k].gets[r], run[k].queue.pending, run[k].disk, run[k].log);
  }

  lemma InsertAcks(run: seq<State>, steps: seq<Step>, i: nat, id: PutId)
    requires IsRun(run, steps) && Initial(run[0]) && i < |steps| && steps[i] == JobTo(id, Insert)
    ensures id in run[i].log.puts && run[i].log.puts[id].key in run[i + 1].log.acked
  {
    RunKeepsInv(run, steps, i);
    assert Enabled(run[i], steps[i]) && run[i + 1] == Do(run[i], steps[i]);
  }

  // ---- reading committed blobs back ----

  // A GET that goes to the tables and meets no other step there answers with the committed
  // PUT exactly when the content is inline, too short to be compressed, or its frame's
  // length differs from its own.
  lemma CommittedReadsBackExactlyWhen(s: State, r: ReadId)
    requires Inv(s) && Lossless(s.lz)
    requires r in s.gets && s.gets[r].phase.Querying? && s.gets[r].global in s.disk.actions
    ensures s.gets[r].global in s.log.winner && s.log.winner[s.gets[r].global] in s.log.puts
    ensures var put := s.log.puts[s.log.winner[s.gets[r].global]];
            var queried := Do(s, ReadTo(r, Query));
            var phase := if queried.gets[r].phase.Opening? then Do(queried, ReadTo(r, OpenMain)).gets[r].phase
                         else queried.gets[r].phase;
            phase == Done(Hit(put.outputID, put.content)) <==>
            (Inline(put.content) || |put.content| < LZ4CompressThreshold || |s.lz.compress(put.content)| != |put.content|)
  {
  }

  // A pending PUT of the global key comes before anything committed. A GET that meets no
  // other step answers with it exactly when the spool file is told apart by its length, or
  // is its own content.
  lemma PendingReadsBackExactlyWhen(s: State, r: ReadId)
    requires Inv(s) && Lossless(s.lz)
    requires r in s.gets && s.gets[r].phase.Asking? && s.gets[r].global in s.queue.pending
    ensures s.queue.pending[s.gets[r].global] in s.log.puts
    ensures var put := s.log.puts[s.queue.pending[s.gets[r].global]];
            var found := Do(s, ReadTo(r, LookGlobal));
            && put.key == s.gets[r].global && Enabled(found, ReadTo(r, OpenSpool))
            && (Do(found, ReadTo(r, OpenSpool)).gets[r].phase == Done(Hit(put.outputID, put.content)) <==>
                (|put.content| < LZ4CompressThreshold || |s.lz.compress(put.content)| != |put.content| ||
                 s.lz.compress(put.content) == put.content))
  {
    var id := s.queue.pending[s.gets[r].global];
    var put := s.log.puts[id];
    ReaderAgreesWithWriter(s.lz, put.content);
    assert Inline(put.content) || s.queue.spool[id] == OnDisk(s.lz, put.content);
  }
}

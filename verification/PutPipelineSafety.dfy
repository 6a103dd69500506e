// What every step of the put queue keeps: each blob file in the main directory is
// accounted for, committed blobs are there, and GETs answer from a single PUT.
module PutPipelineSafety {
  import opened Wrappers
  import opened Pages
  import opened BlobFormat
  import opened PutPipeline

  type Puts = map<PutId, Put>
  type Pending = map<ActionKey, PutId>

  // ---- the invariant, by the parts of the state it speaks of ----

  ghost predicate FilesSound(lz: Codec, main: map<BlobName, seq<Byte>>) {
    forall n :: n in main ==> n == NameOf(n.sha.content) && main[n] == OnDisk(lz, n.sha.content)
  }

  ghost predicate Intended(intents: set<Intent>, n: BlobName) {
    exists i :: i in intents && i.name == n
  }

  // Each file has a Blobs row or a surviving intent.
  ghost predicate Accounted(d: Disk) {
    forall n :: n in d.main ==> n.sha in d.blobs || Intended(d.intents, n)
  }

  // Each row that is not inline has its file.
  ghost predicate RowsSound(lz: Codec, d: Disk) {
    forall h :: h in d.blobs ==>
      d.blobs[h] == RowOf(lz, h.content) && (!Inline(h.content) ==> NameOf(h.content) in d.main)
  }

  // Put p is what action row a says.
  predicate Says(a: ActionRow, p: Put) {
    a.sha == Sha256(p.content) && Reported(a.sha, a.altOutputID) == p.outputID
  }

  ghost predicate ActionsSound(d: Disk, log: Log) {
    log.winner.Keys == d.actions.Keys &&
    forall k :: k in d.actions ==>
      && d.actions[k].sha in d.blobs && k in log.winner && log.winner[k] in log.puts
      && log.puts[log.winner[k]].key == k && Says(d.actions[k], log.puts[log.winner[k]])
  }

  ghost predicate DiskSound(lz: Codec, d: Disk, log: Log) {
    FilesSound(lz, d.main) && Accounted(d) && RowsSound(lz, d) && ActionsSound(d, log)
  }

  // The pending map and the entries' stages agree.
  ghost predicate PendingSound(pending: Pending, jobs: map<PutId, Job>, puts: Puts) {
    && (forall k :: k in pending ==> pending[k] in puts && pending[k] in jobs && Waiting(jobs[pending[k]].stage) && puts[pending[k]].key == k)
    && (forall id :: id in jobs ==> id in puts && (Waiting(jobs[id].stage) ==> puts[id].key in pending && pending[puts[id].key] == id))
  }

  ghost predicate SpoolSound(lz: Codec, spool: map<PutId, seq<Byte>>, jobs: map<PutId, Job>, puts: Puts) {
    && (forall id :: id in spool ==> id in puts && spool[id] == OnDisk(lz, puts[id].content))
    && (forall id :: id in jobs && id in puts && !Inline(puts[id].content) && !jobs[id].stage.Retired? ==> id in spool)
  }

  // What an entry's stage says of the disk.
  predicate JobSound(job: Job, put: Put, d: Disk) {
    var n := NameOf(put.content);
    && (job.intentPath.Some? ==> job.intentPath.value.name == n)
    && (job.stage.Copying? ==> job.intentPath.Some? && (job.intentPath.value in d.intents || n.sha in d.blobs))
    && (PastMain(job.stage) && !Inline(put.content) ==> n in d.main)
    && (Inline(put.content) ==> !WithMover(job.stage) && job.intentPath.None?)
    && (job.stage == Committed || job.stage == Retired(true) ==> n.sha in d.blobs && put.key in d.actions)
  }

  ghost predicate JobsSound(jobs: map<PutId, Job>, puts: Puts, d: Disk) {
    forall id :: id in jobs && id in puts ==> JobSound(jobs[id], puts[id], d)
  }

  ghost predicate DeletionsSound(intentDelCh: set<Intent>, blobs: map<Digest, BlobRow>) {
    forall i :: i in intentDelCh ==> i.name.sha in blobs
  }

  ghost predicate AckedSound(acked: set<ActionKey>, pending: Pending, actions: map<ActionKey, ActionRow>) {
    && (forall k :: k in acked ==> k in pending || k in actions)
    && (forall k :: k in pending ==> k in acked)
  }

  // The answer is the output ID and the bytes of one PUT of one of the two keys.
  ghost predicate OfOnePut(puts: Puts, global: ActionKey, extra: ActionKey, outputID: OutputID, body: seq<Byte>) {
    exists id :: id in puts && puts[id].key in {global, extra} && puts[id].outputID == outputID && puts[id].content == body
  }

  ghost predicate AnswerSound(puts: Puts, read: Read, answer: Answer) {
    match answer
    case Miss => read.sure == {}
    case Hit(outputID, body) => OfOnePut(puts, read.global, read.extra, outputID, body)
  }

  // What a GET knows of the keys it is sure of: the global one is committed by the time it
  // is not found pending, and so is the extra one.
  ghost predicate ReadSound(lz: Codec, read: Read, pending: Pending, d: Disk, log: Log) {
    read.sure <= {read.global, read.extra} &&
    match read.phase
    case Asking => read.sure <= log.acked
    case AskingExtra => (read.global in read.sure ==> read.global in d.actions) && (read.extra in read.sure ==> read.extra in log.acked)
    case Holding(id) =>
      && id in log.puts && log.puts[id].key in {read.global, read.extra}
      && var key := log.puts[id].key;
         && (key != read.global && read.global in read.sure ==> read.global in d.actions)
         && (|| key in d.actions || (key in pending && pending[key] == id)
             || (if key == read.global then read.sure == {} else key !in read.sure))
    case Querying => read.sure != {} ==> read.global in d.actions || read.extra in d.actions
    case Opening(key, action, row) =>
      && key in {read.global, read.extra} && key in log.winner && log.winner[key] in log.puts
      && log.puts[log.winner[key]].key == key && Says(action, log.puts[log.winner[key]])
      && action.sha in d.blobs && row == RowOf(lz, action.sha.content) && row.smallData.None?
    case Done(answer) => Lossless(lz) && FramesDiffer(lz) ==> AnswerSound(log.puts, read, answer)
  }

  ghost predicate ReadsSound(lz: Codec, gets: map<ReadId, Read>, pending: Pending, d: Disk, log: Log) {
    forall r :: r in gets ==> ReadSound(lz, gets[r], pending, d, log)
  }

  ghost predicate QueueSound(lz: Codec, q: Queue, d: Disk, log: Log) {
    && PendingSound(q.pending, q.jobs, log.puts)
    && SpoolSound(lz, q.spool, q.jobs, log.puts)
    && JobsSound(q.jobs, log.puts, d)
    && DeletionsSound(q.intentDelCh, d.blobs)
    && AckedSound(log.acked, q.pending, d.actions)
  }

  ghost predicate Inv(s: State) {
    && DiskSound(s.lz, s.disk, s.log)
    && QueueSound(s.lz, s.queue, s.disk, s.log)
    && ReadsSound(s.lz, s.gets, s.queue.pending, s.disk, s.log)
  }

  // A server that starts on an empty directory and database.
  predicate Initial(s: State) {
    && s.disk == Disk(map[], {}, map[], map[]) && s.queue == Queue(map[], map[], map[], {})
    && s.gets == map[] && s.log == Log(map[], {}, map[])
  }

  lemma InitialInv(s: State)
    requires Initial(s)
    ensures Inv(s)
  {
  }

  // ---- what stays true as things grow ----

  ghost predicate LogGrows(log: Log, log': Log) {
    Grows(log.puts, log'.puts) && Grows(log.winner, log'.winner) && log.acked <= log'.acked
  }

  lemma ReadsKept(lz: Codec, gets: map<ReadId, Read>, pending: Pending, d: Disk, log: Log,
                  pending': Pending, d': Disk, log': Log)
    requires ReadsSound(lz, gets, pending, d, log)
    requires Grows(pending, pending') && LogGrows(log, log') && Grows(d.blobs, d'.blobs) && Grows(d.actions, d'.actions)
    ensures ReadsSound(lz, gets, pending', d', log')
  {
  }

  // The disk loses a file or an intent only when nothing counts on it.
  ghost predicate DiskAdvances(d: Disk, d': Disk, inFlight: set<Digest>) {
    && Grows(d.blobs, d'.blobs) && Grows(d.actions, d'.actions)
    && (forall n :: n in d.main && n !in d'.main ==> n.sha !in d.blobs && n.sha !in inFlight)
    && (forall i :: i in d.intents && i !in d'.intents ==> i.name.sha in d'.blobs || i.name.sha !in inFlight)
  }

  ghost predicate InFlightOnly(jobs: map<PutId, Job>, puts: Puts, inFlight: set<Digest>) {
    forall id :: id in jobs && id in puts && Waiting(jobs[id].stage) ==> Sha256(puts[id].content) in inFlight
  }

  lemma JobsKept(jobs: map<PutId, Job>, puts: Puts, d: Disk, d': Disk, inFlight: set<Digest>)
    requires JobsSound(jobs, puts, d) && DiskAdvances(d, d', inFlight) && InFlightOnly(jobs, puts, inFlight)
    ensures JobsSound(jobs, puts, d')
  {
  }

  lemma PendingInFlight(s: State)
    requires PendingSound(s.queue.pending, s.queue.jobs, s.log.puts)
    ensures InFlightOnly(s.queue.jobs, s.log.puts, PendingShas(s))
  {
  }

  // ---- the steps ----

  lemma SpoolKeepsInv(s: State, id: PutId, put: Put)
    requires Inv(s) && id !in s.log.puts
    ensures Inv(Spooled(s, id, put))
  {
    hide DiskSound, QueueSound, ReadsSound;
    var s' := Spooled(s, id, put);
    PutKeepsDisk(s.lz, s.disk, s.log, id, put);
    PutKeepsQueue(s.lz, s.queue, s.disk, s.log, id, put);
    ReadsKept(s.lz, s.gets, s.queue.pending, s.disk, s.log, s'.queue.pending, s'.disk, s'.log);
  }

  lemma PutKeepsDisk(lz: Codec, d: Disk, log: Log, id: PutId, put: Put)
    requires DiskSound(lz, d, log) && id !in log.puts
    ensures DiskSound(lz, d, log.(puts := log.puts[id := put]))
  {
  }

  lemma PutKeepsQueue(lz: Codec, q: Queue, d: Disk, log: Log, id: PutId, put: Put)
    requires QueueSound(lz, q, d, log) && id !in log.puts
    ensures var q' := q.(jobs := q.jobs[id := Job(Hand, None)],
                         spool := if Inline(put.content) then q.spool else q.spool[id := OnDisk(lz, put.content)]);
            QueueSound(lz, q', d, log.(puts := log.puts[id := put]))
  {
    assert id !in q.jobs;
  }

  // A step that only moves an entry from stage to stage.
  lemma MoveKeepsQueue(lz: Codec, q: Queue, id: PutId, job: Job, d: Disk, log: Log)
    requires QueueSound(lz, q, d, log) && id in q.jobs && id in log.puts
    requires Waiting(q.jobs[id].stage) && Waiting(job.stage) && JobSound(job, log.puts[id], d)
    ensures QueueSound(lz, q.(jobs := q.jobs[id := job]), d, log)
  {
  }

  lemma MoveKeepsInv(s: State, id: PutId, stage: Stage)
    requires Inv(s) && id in s.queue.jobs && id in s.log.puts
    requires Waiting(s.queue.jobs[id].stage) && Waiting(stage)
    requires JobSound(s.queue.jobs[id].(stage := stage), s.log.puts[id], s.disk)
    ensures Inv(Moved(s, id, stage))
  {
  }

  lemma InsertKeepsInv(s: State, id: PutId)
    requires Inv(s) && Enabled(s, JobTo(id, Insert))
    ensures Inv(DoJob(s, id, Insert))
  {
    hide ReadsSound;
    var s', key := DoJob(s, id, Insert), s.log.puts[id].key;
    if key in s.queue.pending {
      DiscardKeepsInv(s, id);
    } else {
      EntryKeepsQueue(s.lz, s.queue, s.disk, s.log, id);
      ReadsKept(s.lz, s.gets, s.queue.pending, s.disk, s.log, s'.queue.pending, s'.disk, s'.log);
    }
  }

  lemma EntryKeepsQueue(lz: Codec, q: Queue, d: Disk, log: Log, id: PutId)
    requires QueueSound(lz, q, d, log) && id in q.jobs && id in log.puts && q.jobs[id].stage.Hand?
    requires log.puts[id].key !in q.pending
    ensures var key := log.puts[id].key;
            var q' := q.(jobs := q.jobs[id := q.jobs[id].(stage := Entered)], pending := q.pending[key := id]);
            QueueSound(lz, q', d, log.(acked := log.acked + {key}))
  {
  }

  // Removing the spool file of an entry that has left the map, or never entered it.
  lemma DiscardKeepsInv(s: State, id: PutId)
    requires Inv(s) && id in s.queue.jobs && id in s.log.puts
    requires var stage := s.queue.jobs[id].stage;
             stage.Retired? || stage.Hand?
    ensures Inv(Discarded(s, id))
  {
  }

  lemma RecordKeepsInv(s: State, id: PutId, made: bool, ok: bool)
    requires Inv(s) && Enabled(s, JobTo(id, WriteIntent(made, ok)))
    ensures Inv(DoJob(s, id, WriteIntent(made, ok)))
  {
    var name := NameOf(s.log.puts[id].content);
    var s', intent := DoJob(s, id, WriteIntent(made, ok)), IntentFor(s, id, name);
    assert JobSound(s.queue.jobs[id], s.log.puts[id], s.disk);
    IntentAdded(s.lz, s.disk, s.log, s.queue, s'.disk.intents);
    MoveKeepsQueue(s.lz, s.queue, id, s'.queue.jobs[id], s'.disk, s.log);
    ReadsKept(s.lz, s.gets, s.queue.pending, s.disk, s.log, s'.queue.pending, s'.disk, s'.log);
  }

  lemma IntentAdded(lz: Codec, d: Disk, log: Log, q: Queue, intents: set<Intent>)
    requires DiskSound(lz, d, log) && QueueSound(lz, q, d, log) && d.intents <= intents
    ensures DiskSound(lz, d.(intents := intents), log) && QueueSound(lz, q, d.(intents := intents), log)
  {
  }

  lemma CopyKeepsInv(s: State, id: PutId, landed: bool, ok: bool)
    requires Inv(s) && Enabled(s, JobTo(id, Copy(landed, ok)))
    ensures Inv(DoJob(s, id, Copy(landed, ok)))
  {
    var put := s.log.puts[id];
    var s' := DoJob(s, id, Copy(landed, ok));
    assert JobSound(s.queue.jobs[id], put, s.disk);
    if landed {
      FileAdded(s.lz, s.disk, s.log, s.queue, put.content);
    }
    MoveKeepsQueue(s.lz, s.queue, id, s'.queue.jobs[id], s'.disk, s.log);
    ReadsKept(s.lz, s.gets, s.queue.pending, s.disk, s.log, s'.queue.pending, s'.disk, s'.log);
  }

  lemma FileAdded(lz: Codec, d: Disk, log: Log, q: Queue, content: seq<Byte>)
    requires DiskSound(lz, d, log) && QueueSound(lz, q, d, log)
    requires Sha256(content) in d.blobs || Intended(d.intents, NameOf(content))
    ensures var d' := d.(main := d.main[NameOf(content) := OnDisk(lz, content)]);
            DiskSound(lz, d', log) && QueueSound(lz, q, d', log)
  {
  }

  lemma CommitOneKeepsInv(s: State, id: PutId)
    requires Inv(s) && id in s.queue.jobs && id in s.log.puts && s.queue.jobs[id].stage.Batched?
    ensures Inv(CommitOne(s, id))
  {
    hide ReadsSound;
    var s' := CommitOne(s, id);
    assert JobSound(s.queue.jobs[id], s.log.puts[id], s.disk);
    RowsPut(s.lz, s.disk, s.log, id);
    RowsPutKeepQueue(s.lz, s.queue, s.disk, s.log, id);
    ReadsKept(s.lz, s.gets, s.queue.pending, s.disk, s.log, s.queue.pending, s'.disk, s'.log);
    MoveKeepsQueue(s.lz, s.queue, id, s'.queue.jobs[id], s'.disk, s'.log);
  }

  lemma RowsPut(lz: Codec, d: Disk, log: Log, id: PutId)
    requires DiskSound(lz, d, log) && id in log.puts
    requires !Inline(log.puts[id].content) ==> NameOf(log.puts[id].content) in d.main
    ensures DiskSound(lz, PutRows(lz, d, log.puts[id]), Won(log, d, id))
  {
  }

  lemma RowsPutKeepQueue(lz: Codec, q: Queue, d: Disk, log: Log, id: PutId)
    requires QueueSound(lz, q, d, log) && id in log.puts
    ensures QueueSound(lz, q, PutRows(lz, d, log.puts[id]), Won(log, d, id))
  {
  }

  lemma {:induction false} CommitKeepsInv(s: State, batch: seq<PutId>)
    requires Inv(s) && Enabled(s, Commit(batch))
    ensures Inv(CommitAll(s, batch))
    decreases batch
  {
    if batch != [] {
      var s' := CommitOne(s, batch[0]);
      CommitOneKeepsInv(s, batch[0]);
      assert forall id :: id in batch[1..] ==> id != batch[0] && id in batch;
      CommitKeepsInv(s', batch[1..]);
    }
  }

  lemma RetireKeepsInv(s: State, id: PutId)
    requires Inv(s) && Enabled(s, JobTo(id, Retire))
    ensures Inv(DoJob(s, id, Retire))
  {
    var s', key := DoJob(s, id, Retire), s.log.puts[id].key;
    assert JobSound(s.queue.jobs[id], s.log.puts[id], s.disk);
    RemovedKeepsQueue(s.lz, s.queue, id, true, s.disk, s.log, s.log.acked);
    forall r | r in s.gets ensures ReadSound(s.lz, s.gets[r], s'.queue.pending, s.disk, s.log) {
      assert ReadSound(s.lz, s.gets[r], s.queue.pending, s.disk, s.log);
    }
  }

  // An entry leaves the map: its key's row answers for it, or its key is forgotten.
  lemma RemovedKeepsQueue(lz: Codec, q: Queue, id: PutId, committed: bool, d: Disk, log: Log, acked: set<ActionKey>)
    requires QueueSound(lz, q, d, log) && id in q.jobs && id in log.puts && Waiting(q.jobs[id].stage)
    requires committed ==> q.jobs[id].stage.Committed?
    requires acked == if log.puts[id].key in d.actions then log.acked else log.acked - {log.puts[id].key}
    ensures QueueSound(lz, Without(q, log.puts[id].key, id, committed), d, log.(acked := acked))
  {
  }

  lemma AbandonKeepsInv(s: State, id: PutId)
    requires Inv(s) && Enabled(s, JobTo(id, Abandon))
    ensures Inv(DoJob(s, id, Abandon))
  {
    var s', key := DoJob(s, id, Abandon), s.log.puts[id].key;
    RemovedKeepsQueue(s.lz, s.queue, id, false, s.disk, s.log, s'.log.acked);
    if key in s.disk.actions {
      ReadsStay(s.lz, s.gets, s.queue.pending, s.disk, s.log, key, s'.log);
    } else {
      ReadsDoubted(s.lz, s.gets, s.queue.pending, s.disk, s.log, id, key, s'.log);
    }
  }

  lemma ReadsStay(lz: Codec, gets: map<ReadId, Read>, pending: Pending, d: Disk, log: Log, key: ActionKey, log': Log)
    requires ReadsSound(lz, gets, pending, d, log) && key in d.actions && log' == log
    ensures ReadsSound(lz, gets, pending - {key}, d, log')
  {
  }

  lemma ReadsDoubted(lz: Codec, gets: map<ReadId, Read>, pending: Pending, d: Disk, log: Log, id: PutId, key: ActionKey, log': Log)
    requires ReadsSound(lz, gets, pending, d, log) && key in pending && pending[key] == id && key !in d.actions
    requires log'.puts == log.puts && log'.winner == log.winner && log.acked - {key} <= log'.acked
    ensures ReadsSound(lz, map r | r in gets :: Doubted(gets[r], id, key), pending - {key}, d, log')
  {
    forall r | r in gets ensures ReadSound(lz, Doubted(gets[r], id, key), pending - {key}, d, log') {
      assert ReadSound(lz, gets[r], pending, d, log);
    }
  }

  lemma SweepKeepsInv(s: State, i: Intent, removed: bool, unlinked: bool)
    requires Inv(s) && i in s.disk.intents
    ensures Inv(s.(disk := SweepOne(s.disk, PendingShas(s), i, removed, unlinked)))
  {
    var inFlight := PendingShas(s);
    var d' := SweepOne(s.disk, inFlight, i, removed, unlinked);
    PendingInFlight(s);
    JobsKept(s.queue.jobs, s.log.puts, s.disk, d', inFlight);
    SweptDisk(s.lz, s.disk, s.log, inFlight, i, removed, unlinked);
    ReadsKept(s.lz, s.gets, s.queue.pending, s.disk, s.log, s.queue.pending, d', s.log);
  }

  lemma SweptDisk(lz: Codec, d: Disk, log: Log, inFlight: set<Digest>, i: Intent, removed: bool, unlinked: bool)
    requires DiskSound(lz, d, log)
    ensures DiskSound(lz, SweepOne(d, inFlight, i, removed, unlinked), log)
  {
  }

  lemma DeleteIntentKeepsInv(s: State, i: Intent, gone: bool)
    requires Inv(s) && i in s.queue.intentDelCh
    ensures Inv(Do(s, DeleteIntent(i, gone)))
  {
  }

  lemma HandOffKeepsInv(s: State, id: PutId)
    requires Inv(s) && Enabled(s, JobTo(id, HandOff))
    ensures Inv(DoJob(s, id, HandOff))
  {
  }

  lemma CrashKeepsInv(s: State)
    requires Inv(s)
    ensures Inv(Do(s, Crash))
  {
  }

  lemma JobKeepsInv(s: State, id: PutId, step: JobStep)
    requires Inv(s) && Enabled(s, JobTo(id, step))
    ensures Inv(DoJob(s, id, step))
  {
    match step
    case Insert => InsertKeepsInv(s, id);
    case WriteIntent(made, ok) => RecordKeepsInv(s, id, made, ok);
    case Copy(landed, ok) => CopyKeepsInv(s, id, landed, ok);
    case Retire => RetireKeepsInv(s, id);
    case HandOff => HandOffKeepsInv(s, id);
    case Unspool => DiscardKeepsInv(s, id);
    case Abandon => AbandonKeepsInv(s, id);
    case _ => PassOnKeepsInv(s, id, step);
  }

  // The steps that change nothing but the entry's stage.
  lemma PassOnKeepsInv(s: State, id: PutId, step: JobStep)
    requires Inv(s) && Enabled(s, JobTo(id, step))
    requires step.Send? || step.Take? || step.Stat? || step.Retry? || step.HandOver? || step.Collect?
    ensures Inv(DoJob(s, id, step))
  {
    hide DoJob, DiskSound, ReadsSound, JobSound;
    assert JobSound(s.queue.jobs[id], s.log.puts[id], s.disk);
    PassedOn(s, id, step);
    MoveKeepsInv(s, id, DoJob(s, id, step).queue.jobs[id].stage);
  }

  lemma PassedOn(s: State, id: PutId, step: JobStep)
    requires Enabled(s, JobTo(id, step)) && JobSound(s.queue.jobs[id], s.log.puts[id], s.disk)
    requires step.Send? || step.Take? || step.Stat? || step.Retry? || step.HandOver? || step.Collect?
    ensures id in DoJob(s, id, step).queue.jobs
    ensures var stage := DoJob(s, id, step).queue.jobs[id].stage;
            && DoJob(s, id, step) == Moved(s, id, stage) && Waiting(s.queue.jobs[id].stage) && Waiting(stage)
            && JobSound(s.queue.jobs[id].(stage := stage), s.log.puts[id], s.disk)
  {
  }

  // ---- GETs ----

  lemma ReadKeepsInv(s: State, r: ReadId, step: ReadStep)
    requires Inv(s) && Enabled(s, ReadTo(r, step))
    ensures Inv(Do(s, ReadTo(r, step)))
  {
    assert ReadSound(s.lz, s.gets[r], s.queue.pending, s.disk, s.log);
    match step
    case LookGlobal => LookedUp(s, r, step);
    case LookExtra => LookedUp(s, r, step);
    case OpenSpool => SpoolOpened(s, r);
    case Query => Queried(s, r);
    case OpenMain => MainOpened(s, r);
  }

  lemma LookedUp(s: State, r: ReadId, step: ReadStep)
    requires Inv(s) && Enabled(s, ReadTo(r, step)) && (step.LookGlobal? || step.LookExtra?)
    ensures ReadSound(s.lz, s.gets[r].(phase := DoRead(s, r, step)), s.queue.pending, s.disk, s.log)
  {
  }

  lemma SpoolOpened(s: State, r: ReadId)
    requires Inv(s) && Enabled(s, ReadTo(r, OpenSpool))
    ensures ReadSound(s.lz, s.gets[r].(phase := DoRead(s, r, OpenSpool)), s.queue.pending, s.disk, s.log)
  {
  }

  lemma Queried(s: State, r: ReadId)
    requires Inv(s) && Enabled(s, ReadTo(r, Query))
    ensures ReadSound(s.lz, s.gets[r].(phase := DoRead(s, r, Query)), s.queue.pending, s.disk, s.log)
  {
  }

  lemma MainOpened(s: State, r: ReadId)
    requires Inv(s) && Enabled(s, ReadTo(r, OpenMain))
    ensures ReadSound(s.lz, s.gets[r].(phase := DoRead(s, r, OpenMain)), s.queue.pending, s.disk, s.log)
  {
  }

  // ---- runs ----

  lemma StepKeepsInv(s: State, step: Step)
    requires Inv(s) && Enabled(s, step)
    ensures Inv(Do(s, step))
  {
    match step
    case Spool(id, put) => SpoolKeepsInv(s, id, put);
    case JobTo(id, job) => JobKeepsInv(s, id, job);
    case Commit(batch) => CommitKeepsInv(s, batch);
    case DeleteIntent(i, gone) => DeleteIntentKeepsInv(s, i, gone);
    case Sweep(i, removed, unlinked) => SweepKeepsInv(s, i, removed, unlinked);
    case StartGet(r, global, extra) =>
    case ReadTo(r, point) => ReadKeepsInv(s, r, point);
    case Tick(time) =>
    case Crash => CrashKeepsInv(s);
  }

  ghost predicate IsRun(run: seq<State>, steps: seq<Step>) {
    |run| == |steps| + 1 &&
    forall k {:trigger steps[k]} :: 0 <= k < |steps| ==> Enabled(run[k], steps[k]) && run[k + 1] == Do(run[k], steps[k])
  }

  lemma {:induction false} RunKeepsInv(run: seq<State>, steps: seq<Step>, k: nat)
    requires IsRun(run, steps) && Initial(run[0]) && k < |run|
    ensures Inv(run[k])
  {
    if k == 0 {
      InitialInv(run[0]);
    } else {
      RunKeepsInv(run, steps, k - 1);
      StepKeepsInv(run[k - 1], steps[k - 1]);
    }
  }
}

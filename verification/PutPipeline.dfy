// gocached's put queue end to end: a PUT is acknowledged once it is spooled, movers copy
// its blob beside a durable cleanup intent, a flusher commits batches, entries retire, and
// a sweeper reaps what crashes leave behind. GETs run between any two of these steps.

// How a blob's bytes are named and stored.
module BlobFormat {
  import opened Wrappers
  import opened Pages

  const SmallObjectSize := 1024
  const LZ4CompressThreshold := SmallObjectSize + 2

  // SHA-256 as an ideal hash.
  datatype Digest = Sha256(content: seq<Byte>)

  datatype BlobName = BlobName(sha: Digest, lz4: bool)

  datatype OutputID = OfContent(sha: Digest) | Other(id: nat)

  // lz4's frame format.
  datatype Codec = Codec(compress: seq<Byte> -> seq<Byte>, decompress: seq<Byte> -> seq<Byte>)

  ghost predicate Lossless(lz: Codec) {
    forall c :: lz.decompress(lz.compress(c)) == c
  }

  // No frame is exactly as long as the content in it.
  ghost predicate FramesDiffer(lz: Codec) {
    forall c :: |c| >= LZ4CompressThreshold ==> |lz.compress(c)| != |c|
  }

  // A codec that is both: one more byte for every frame.
  lemma SomeCodec() returns (lz: Codec)
    ensures Lossless(lz) && FramesDiffer(lz) && forall c :: |lz.compress(c)| == |c| + 1
  {
    lz := Codec((c: seq<Byte>) => c + [0], (c: seq<Byte>) => if c == [] then [] else c[..|c| - 1]);
    forall c: seq<Byte> ensures lz.decompress(lz.compress(c)) == c && |lz.compress(c)| == |c| + 1 {
      assert (c + [0])[..|c|] == c;
    }
  }

  predicate Inline(content: seq<Byte>) {
    |content| <= SmallObjectSize
  }

  // What spoolBlob writes for content.
  function OnDisk(lz: Codec, content: seq<Byte>): seq<Byte> {
    if |content| >= LZ4CompressThreshold then lz.compress(content) else content
  }

  // The writer's name for content's blob.
  function NameOf(content: seq<Byte>): BlobName {
    BlobName(Sha256(content), |content| >= LZ4CompressThreshold)
  }

  // The reader's rule: a blob is lz4 when its stored size is not its content's size.
  predicate TakenForLZ4(storedSize: nat, uncompressedSize: nat) {
    storedSize != uncompressedSize
  }

  // The body a client ends up with.
  function BodyOf(lz: Codec, stored: seq<Byte>, uncompressedSize: nat): seq<Byte> {
    if TakenForLZ4(|stored|, uncompressedSize) then lz.decompress(stored) else stored
  }

  // The reader's rule finds the writer's file, and reads the content out of it, exactly
  // when the frame's length gives it away.
  lemma ReaderAgreesWithWriter(lz: Codec, content: seq<Byte>)
    requires Lossless(lz)
    ensures BlobName(Sha256(content), TakenForLZ4(|OnDisk(lz, content)|, |content|)) == NameOf(content) <==>
            (|content| >= LZ4CompressThreshold ==> |lz.compress(content)| != |content|)
    ensures BodyOf(lz, OnDisk(lz, content), |content|) == content <==>
            (|content| >= LZ4CompressThreshold ==> |lz.compress(content)| != |content| || lz.compress(content) == content)
  {
  }
}

module PutPipeline {
  import opened Wrappers
  import opened Pages
  import opened BlobFormat

  datatype ActionKey = ActionKey(namespaceID: int, actionID: nat)
  type PutId = nat   // one pendingPut object
  type ReadId = nat  // one GET request

  // What a PUT request says. The map of all of them is history.
  datatype Put = Put(key: ActionKey, content: seq<Byte>, outputID: OutputID)

  // A cleanup intent record: a file named for its due time and its blob.
  datatype Intent = Intent(due: int, name: BlobName)

  datatype BlobRow = BlobRow(storedSize: nat, uncompressedSize: nat, smallData: Option<seq<Byte>>)
  datatype ActionRow = ActionRow(sha: Digest, altOutputID: Option<OutputID>)

  // What a crash leaves.
  datatype Disk = Disk(
    main: map<BlobName, seq<Byte>>,
    intents: set<Intent>,
    blobs: map<Digest, BlobRow>,
    actions: map<ActionKey, ActionRow>)

  // Where a pendingPut is.
  datatype Stage =
    | Hand                 // spooled by its request, not in the pending map yet
    | Entered              // in the map, in its request's hand
    | AtMover              // in moverCh
    | Stating(try: nat)    // with a mover: about to look for the blob in the main directory,
    | Recording(try: nat)  // to write the intent,
    | Copying(try: nat)    // to copy the blob,
    | Failed(try: nat)     // or after a failed attempt
    | Settled              // about to be passed on
    | AtFlusher            // in flushCh
    | Batched              // in the flusher's batch
    | Committed            // metadata committed, still in the map
    | Retired(committed: bool)

  datatype Job = Job(stage: Stage, intentPath: Option<Intent>)

  // What a crash wipes. The spool directory is on disk but emptied at start.
  datatype Queue = Queue(
    pending: map<ActionKey, PutId>,
    jobs: map<PutId, Job>,
    spool: map<PutId, seq<Byte>>,
    intentDelCh: set<Intent>)

  datatype Answer = Miss | Hit(outputID: OutputID, body: seq<Byte>)

  datatype Phase =
    | Asking                // about to look the global key up in the pending map
    | AskingExtra           // and the extra namespace's key
    | Holding(id: PutId)    // found an entry, about to open its spool file
    | Querying              // about to query the tables
    | Opening(key: ActionKey, action: ActionRow, row: BlobRow)
    | Done(answer: Answer)

  // sure: the keys that were acknowledged when the GET began and have not become doubtful.
  datatype Read = Read(global: ActionKey, extra: ActionKey, phase: Phase, sure: set<ActionKey>)

  // History: every PUT spooled, the keys acknowledged and not forgotten, and the PUT each
  // committed action came from.
  datatype Log = Log(puts: map<PutId, Put>, acked: set<ActionKey>, winner: map<ActionKey, PutId>)

  datatype State = State(lz: Codec, now: int, disk: Disk, queue: Queue, gets: map<ReadId, Read>, log: Log)

  const CleanupIntentDelay := 3600
  const PutCopyRetries := 3

  datatype JobStep =
    | Insert
    | Send
    | Take
    | Stat(answered: bool)
    | WriteIntent(made: bool, ok: bool)
    | Copy(landed: bool, ok: bool)
    | Retry
    | HandOver
    | Collect
    | Retire
    | HandOff
    | Unspool
    | Abandon

  datatype ReadStep = LookGlobal | LookExtra | OpenSpool | Query | OpenMain

  datatype Step =
    | Spool(put: PutId, request: Put)
    | JobTo(id: PutId, job: JobStep)
    | Commit(batch: seq<PutId>)
    | DeleteIntent(deleted: Intent, gone: bool)
    | Sweep(swept: Intent, removed: bool, unlinked: bool)
    | StartGet(novel: ReadId, global: ActionKey, extra: ActionKey)
    | ReadTo(read: ReadId, point: ReadStep)
    | Tick(time: int)
    | Crash

  // Whether an entry in this stage is in the pending map.
  predicate Waiting(stage: Stage) {
    !stage.Hand? && !stage.Retired?
  }

  // The stages past the main directory.
  predicate PastMain(stage: Stage) {
    stage.Settled? || stage.AtFlusher? || stage.Batched? || stage.Committed?
  }

  // The stages between the request and the main directory.
  predicate WithMover(stage: Stage) {
    stage.AtMover? || stage.Stating? || stage.Recording? || stage.Copying? || stage.Failed? || stage.Settled?
  }

  function AltOutputID(put: Put): Option<OutputID> {
    if put.outputID == OfContent(Sha256(put.content)) then None else Some(put.outputID)
  }

  // The output ID a GET reports.
  function Reported(sha: Digest, alt: Option<OutputID>): OutputID {
    if alt.None? then OfContent(sha) else alt.value
  }

  function RowOf(lz: Codec, content: seq<Byte>): BlobRow {
    if Inline(content) then BlobRow(|content|, |content|, Some(content))
    else BlobRow(|OnDisk(lz, content)|, |content|, None)
  }

  predicate JobEnabled(s: State, id: PutId, step: JobStep)
    requires id in s.queue.jobs && id in s.log.puts
  {
    var stage := s.queue.jobs[id].stage;
    match step
    case Insert => stage.Hand?
    case Send => stage.Entered?
    case Take => stage.AtMover?
    case Stat(_) => stage.Stating?
    case WriteIntent(made, ok) => stage.Recording? && (ok ==> made)
    case Copy(landed, ok) => stage.Copying? && (ok ==> landed) && (landed ==> id in s.queue.spool)
    case Retry => stage.Failed? && stage.try < PutCopyRetries
    case HandOver => stage.Settled?
    case Collect => stage.AtFlusher?
    case Retire => stage.Committed?
    case HandOff => stage == Retired(true) && s.queue.jobs[id].intentPath.Some?
    case Unspool => stage.Retired?
    case Abandon => stage == Failed(PutCopyRetries) || stage.Batched?
  }

  predicate ReadEnabled(s: State, r: ReadId, step: ReadStep)
    requires r in s.gets
  {
    var phase := s.gets[r].phase;
    match step
    case LookGlobal => phase.Asking?
    case LookExtra => phase.AskingExtra?
    case OpenSpool => phase.Holding? && phase.id in s.log.puts
    case Query => phase.Querying?
    case OpenMain => phase.Opening?
  }

  predicate Enabled(s: State, step: Step) {
    match step
    case Spool(id, put) => id !in s.log.puts
    case JobTo(id, job) => id in s.queue.jobs && id in s.log.puts && JobEnabled(s, id, job)
    case Commit(batch) =>
      && (forall i, j :: 0 <= i < j < |batch| ==> batch[i] != batch[j])
      && (forall id :: id in batch ==> id in s.log.puts && id in s.queue.jobs && s.queue.jobs[id].stage.Batched?)
    case DeleteIntent(i, _) => i in s.queue.intentDelCh
    case Sweep(i, _, _) => i in s.disk.intents && i.due <= s.now
    case StartGet(r, _, _) => r !in s.gets
    case ReadTo(r, point) => r in s.gets && ReadEnabled(s, r, point)
    case Tick(_) => true
    case Crash => true
  }

  function Do(s: State, step: Step): State
    requires Enabled(s, step)
  {
    match step
    case Spool(id, put) => Spooled(s, id, put)
    case JobTo(id, job) => DoJob(s, id, job)
    case Commit(batch) => CommitAll(s, batch)
    case DeleteIntent(i, gone) =>
      s.(queue := s.queue.(intentDelCh := s.queue.intentDelCh - {i}),
         disk := s.disk.(intents := if gone then s.disk.intents - {i} else s.disk.intents))
    case Sweep(i, removed, unlinked) => s.(disk := SweepOne(s.disk, PendingShas(s), i, removed, unlinked))
    case StartGet(r, global, extra) =>
      s.(gets := s.gets[r := Read(global, extra, Asking, {global, extra} * s.log.acked)])
    case ReadTo(r, point) => s.(gets := s.gets[r := s.gets[r].(phase := DoRead(s, r, point))])
    case Tick(time) => s.(now := time)
    case Crash =>
      s.(queue := Queue(map[], map[], map[], {}), gets := map[],
         log := s.log.(acked := s.log.acked * s.disk.actions.Keys))
  }

  function Spooled(s: State, id: PutId, put: Put): State {
    s.(log := s.log.(puts := s.log.puts[id := put]),
       queue := s.queue.(jobs := s.queue.jobs[id := Job(Hand, None)],
                         spool := if Inline(put.content) then s.queue.spool
                                  else s.queue.spool[id := OnDisk(s.lz, put.content)]))
  }

  function Moved(s: State, id: PutId, stage: Stage): State
    requires id in s.queue.jobs
  {
    s.(queue := s.queue.(jobs := s.queue.jobs[id := s.queue.jobs[id].(stage := stage)]))
  }

  function DoJob(s: State, id: PutId, step: JobStep): State
    requires id in s.queue.jobs && id in s.log.puts && JobEnabled(s, id, step)
  {
    var job, put := s.queue.jobs[id], s.log.puts[id];
    var name := NameOf(put.content);
    match step
    case Insert =>
      if put.key in s.queue.pending then Discarded(s, id)
      else Moved(s, id, Entered).(queue := Moved(s, id, Entered).queue.(pending := s.queue.pending[put.key := id]),
                                  log := s.log.(acked := s.log.acked + {put.key}))
    case Send => Moved(s, id, if Inline(put.content) then AtFlusher else AtMover)
    case Take => Moved(s, id, Stating(1))
    case Stat(answered) =>
      if answered && name in s.disk.main && |s.disk.main[name]| == |OnDisk(s.lz, put.content)| then Moved(s, id, Settled)
      else Moved(s, id, Recording(job.stage.try))
    case WriteIntent(made, ok) => Recorded(s, id, name, made, ok)
    case Copy(landed, ok) =>
      var after := Moved(s, id, if ok then Settled else Failed(job.stage.try));
      if landed then after.(disk := s.disk.(main := s.disk.main[name := s.queue.spool[id]])) else after
    case Retry => Moved(s, id, Stating(job.stage.try + 1))
    case HandOver => Moved(s, id, AtFlusher)
    case Collect => Moved(s, id, Batched)
    case Retire => Removed(s, id, true)
    case HandOff => s.(queue := s.queue.(intentDelCh := s.queue.intentDelCh + {job.intentPath.value}))
    case Unspool => Discarded(s, id)
    case Abandon =>
      Removed(s, id, false).(log := s.log.(acked := if put.key in s.disk.actions then s.log.acked else s.log.acked - {put.key}),
                             gets := map r | r in s.gets :: if put.key in s.disk.actions then s.gets[r] else Doubted(s.gets[r], id, put.key))
  }

  function Discarded(s: State, id: PutId): State {
    s.(queue := s.queue.(jobs := s.queue.jobs - {id}, spool := s.queue.spool - {id}))
  }

  // retire: the entry leaves the map; its spool file is its caller's to remove.
  function Removed(s: State, id: PutId, committed: bool): State
    requires id in s.queue.jobs && id in s.log.puts
  {
    s.(queue := Without(s.queue, s.log.puts[id].key, id, committed))
  }

  function Without(q: Queue, key: ActionKey, id: PutId, committed: bool): Queue
    requires id in q.jobs
  {
    q.(pending := q.pending - {key}, jobs := q.jobs[id := q.jobs[id].(stage := Retired(committed))])
  }

  // What an uncommitted entry's going makes doubtful: its key, and for a GET that holds it
  // for the global key, and so has not looked further, the extra key too.
  function Doubted(read: Read, id: PutId, key: ActionKey): Read {
    read.(sure := if read.phase == Holding(id) && key == read.global then {} else read.sure - {key})
  }

  // A path chosen by an earlier attempt is kept.
  function IntentFor(s: State, id: PutId, name: BlobName): Intent
    requires id in s.queue.jobs
  {
    if s.queue.jobs[id].intentPath.Some? then s.queue.jobs[id].intentPath.value
    else Intent(s.now + CleanupIntentDelay, name)
  }

  function Recorded(s: State, id: PutId, name: BlobName, made: bool, ok: bool): State
    requires id in s.queue.jobs && s.queue.jobs[id].stage.Recording?
  {
    var try := s.queue.jobs[id].stage.try;
    var intent := IntentFor(s, id, name);
    s.(queue := s.queue.(jobs := s.queue.jobs[id := Job(if ok then Copying(try) else Failed(try), Some(intent))]),
       disk := s.disk.(intents := if made then s.disk.intents + {intent} else s.disk.intents))
  }

  // insertPutTx: a Blobs row already there keeps its columns, an Actions row stays the first PUT's.
  function CommitOne(s: State, id: PutId): State
    requires id in s.queue.jobs && id in s.log.puts
  {
    Moved(s, id, Committed).(disk := PutRows(s.lz, s.disk, s.log.puts[id]), log := Won(s.log, s.disk, id))
  }

  function PutRows(lz: Codec, d: Disk, put: Put): Disk {
    var sha := Sha256(put.content);
    d.(blobs := if sha in d.blobs then d.blobs else d.blobs[sha := RowOf(lz, put.content)],
       actions := if put.key in d.actions then d.actions else d.actions[put.key := ActionRow(sha, AltOutputID(put))])
  }

  function Won(log: Log, d: Disk, id: PutId): Log
    requires id in log.puts
  {
    log.(winner := if log.puts[id].key in d.actions then log.winner else log.winner[log.puts[id].key := id])
  }

  // One transaction for the whole batch.
  function CommitAll(s: State, batch: seq<PutId>): (after: State)
    requires forall id :: id in batch ==> id in s.queue.jobs && id in s.log.puts
    decreases batch
  {
    if batch == [] then s else CommitAll(CommitOne(s, batch[0]), batch[1..])
  }

  // The content in flight.
  function PendingShas(s: State): set<Digest> {
    set k | k in s.queue.pending && s.queue.pending[k] in s.log.puts ::
      Sha256(s.log.puts[s.queue.pending[k]].content)
  }

  // The sweeper's handling of one due intent.
  function SweepOne(d: Disk, inFlight: set<Digest>, i: Intent, removed: bool, unlinked: bool): Disk {
    if i.name.sha !in d.blobs && (i.name.sha in inFlight || !removed) then d
    else d.(main := if i.name.sha in d.blobs then d.main else d.main - {i.name},
            intents := if unlinked then d.intents - {i} else d.intents)
  }

  function DoRead(s: State, r: ReadId, step: ReadStep): Phase
    requires r in s.gets && ReadEnabled(s, r, step)
  {
    var read := s.gets[r];
    match step
    case LookGlobal =>
      if read.global in s.queue.pending then Holding(s.queue.pending[read.global])
      else if read.extra != read.global then AskingExtra
      else Querying
    case LookExtra =>
      if read.extra in s.queue.pending then Holding(s.queue.pending[read.extra]) else Querying
    case OpenSpool =>
      var put := s.log.puts[read.phase.id];
      var id := Reported(Sha256(put.content), AltOutputID(put));
      if Inline(put.content) then Done(Hit(id, put.content))
      else if read.phase.id in s.queue.spool then Done(Hit(id, BodyOf(s.lz, s.queue.spool[read.phase.id], |put.content|)))
      else Querying
    case Query =>
      var found := Row(s.disk, read.global, read.extra);
      if found.None? then Done(Miss)
      else
        var action := s.disk.actions[found.value];
        var row := s.disk.blobs[action.sha];
        if row.smallData.Some? then Done(Hit(Reported(action.sha, action.altOutputID), row.smallData.value))
        else Opening(found.value, action, row)
    case OpenMain =>
      var action, row := read.phase.action, read.phase.row;
      var name := BlobName(action.sha, TakenForLZ4(row.storedSize, row.uncompressedSize));
      if name !in s.disk.main then Done(Miss)
      else Done(Hit(Reported(action.sha, action.altOutputID), BodyOf(s.lz, s.disk.main[name], row.uncompressedSize)))
  }

  // getFromNamespace: the global namespace's action first, then the extra one's.
  function Row(d: Disk, global: ActionKey, extra: ActionKey): (found: Option<ActionKey>)
    ensures found.Some? ==> found.value in {global, extra} && found.value in d.actions && d.actions[found.value].sha in d.blobs
  {
    if global in d.actions && d.actions[global].sha in d.blobs then Some(global)
    else if extra in d.actions && d.actions[extra].sha in d.blobs then Some(extra)
    else None
  }
}

// awscache: any number of hosts share a metadata store whose writes are conditional and a
// content-addressed blob store. A step is one call to a store, with everything a host does
// between two of them; a host may crash between any two.
module ActionStore {
  import opened Wrappers
  import opened Pages
  import opened BlobFormat

  type Key = string   // see StorageKeys
  type Host = nat
  type CallId = nat

  datatype Request = Request(key: Key, outputID: string, content: seq<Byte>)

  datatype Place = Inlined(data: seq<Byte>) | Stored(sha: Digest, storedSize: nat)

  datatype ActionEntry = ActionEntry(outputID: string, size: nat, place: Place)

  datatype PutPhase =
    | Checking                        // about to ask whether the action exists
    | Hashed                          // compressed and hashed, about to consult knownBlobs
    | Heading                         // about to ask whether the blob exists
    | Uploading                       // about to upload it
    | Noting                          // about to note it as known
    | Writing(entry: ActionEntry)     // about to write the action
    | PutDone(result: PutResult)

  datatype PutResult = Created | Dup | PutFailed

  // What a read of the metadata store came back with.
  datatype Lookup = Unread | Absent | Found(entry: ActionEntry) | ReadFailed

  datatype GetResult = Miss | Hit(outputID: string, content: seq<Byte>) | GetFailed

  datatype GetPhase =
    | Looking(inGlobal: Lookup, inExtra: Lookup)   // the two reads run concurrently
    | Fetching(entry: ActionEntry)
    | GetDone(answer: GetResult)

  // expected: the PUT whose entry was at the global, and at the extra key, when the call
  // began, unless it has expired since. foundGlobal: its read of the global key found an
  // item. faulty: a store call of this GET has failed.
  datatype Expected = Expected(global: Option<CallId>, extra: Option<CallId>)

  datatype PutCall = PutCall(host: Host, phase: PutPhase)
  datatype GetCall = GetCall(host: Host, global: Key, extra: Key, phase: GetPhase, expected: Expected,
                             foundGlobal: bool, faulty: bool)

  datatype Stores = Stores(meta: map<Key, ActionEntry>, blobs: map<Digest, seq<Byte>>)

  // History: every PUT request, those whose conditional write landed, and whose item is at
  // each key.
  datatype Log = Log(requests: map<CallId, Request>, landed: map<CallId, Request>, winner: map<Key, CallId>)

  datatype Config = Config(lz: Codec, inlineMax: int)

  datatype State = State(
    cfg: Config,
    stores: Stores,
    known: map<Host, set<Digest>>,
    puts: map<CallId, PutCall>,
    gets: map<CallId, GetCall>,
    log: Log)

  datatype PutStep =
    | CheckExists(answered: bool)
    | ConsultKnown
    | HeadBlob(answered: bool)
    | UploadBlob(landed: bool, ok: bool)
    | NoteKnown
    | WriteAction(reached: bool, ok: bool)

  datatype GetStep =
    | ReadGlobal(answered: bool)
    | ReadExtra(answered: bool)
    | Choose
    | FetchBlob(answered: bool)

  datatype Step =
    | StartPut(put: CallId, putHost: Host, request: Request)
    | PutTo(call: CallId, putStep: PutStep)
    | StartGet(get: CallId, getHost: Host, global: Key, extra: Key)
    | GetTo(reader: CallId, getStep: GetStep)
    | Expire(expired: Key)
    | Forget(forgetful: Host, blob: Digest)
    | CrashHost(host: Host)

  // The item a PUT of this request writes.
  function EntryOf(cfg: Config, r: Request): ActionEntry {
    ActionEntry(r.outputID, |r.content|,
                if |r.content| <= cfg.inlineMax then Inlined(r.content)
                else Stored(Sha256(r.content), |cfg.lz.compress(r.content)|))
  }

  function KnownTo(s: State, h: Host): set<Digest> {
    if h in s.known then s.known[h] else {}
  }

  predicate PutEnabled(s: State, c: CallId, step: PutStep)
    requires c in s.puts && c in s.log.requests
  {
    var phase := s.puts[c].phase;
    match step
    case CheckExists(_) => phase.Checking?
    case ConsultKnown => phase.Hashed?
    case HeadBlob(_) => phase.Heading?
    case UploadBlob(landed, ok) => phase.Uploading? && (ok ==> landed)
    case NoteKnown => phase.Noting?
    case WriteAction(reached, ok) => phase.Writing? && (ok ==> reached)
  }

  predicate GetEnabled(s: State, c: CallId, step: GetStep)
    requires c in s.gets
  {
    var phase := s.gets[c].phase;
    match step
    case ReadGlobal(_) => phase.Looking? && phase.inGlobal.Unread?
    case ReadExtra(_) => phase.Looking? && phase.inExtra.Unread?
    case Choose => phase.Looking? && !phase.inGlobal.Unread? && !phase.inExtra.Unread?
    case FetchBlob(_) => phase.Fetching? && phase.entry.place.Stored?
  }

  predicate Enabled(s: State, step: Step) {
    match step
    case StartPut(c, _, _) => c !in s.log.requests
    case PutTo(c, p) => c in s.puts && c in s.log.requests && PutEnabled(s, c, p)
    case StartGet(c, _, _, _) => c !in s.gets
    case GetTo(c, g) => c in s.gets && GetEnabled(s, c, g)
    case Expire(k) => k in s.stores.meta
    case Forget(_, _) => true
    case CrashHost(_) => true
  }

  function Do(s: State, step: Step): State
    requires Enabled(s, step)
  {
    match step
    case StartPut(c, h, r) =>
      s.(puts := s.puts[c := PutCall(h, Checking)], log := s.log.(requests := s.log.requests[c := r]))
    case PutTo(c, p) => DoPut(s, c, p)
    case StartGet(c, h, global, extra) => s.(gets := s.gets[c := NewGet(s.log.winner, h, global, extra)])
    case GetTo(c, g) => s.(gets := s.gets[c := DoGet(s, s.gets[c], g)])
    case Expire(k) =>
      s.(stores := s.stores.(meta := s.stores.meta - {k}), log := s.log.(winner := s.log.winner - {k}),
         gets := map c | c in s.gets :: Outlived(s.gets[c], k))
    case Forget(h, sha) => s.(known := s.known[h := KnownTo(s, h) - {sha}])
    case CrashHost(h) =>
      s.(known := s.known[h := {}],
         puts := map c | c in s.puts && s.puts[c].host != h :: s.puts[c],
         gets := map c | c in s.gets && s.gets[c].host != h :: s.gets[c])
  }

  // With no extra namespace there is one read only.
  function NewGet(winner: map<Key, CallId>, h: Host, global: Key, extra: Key): GetCall {
    GetCall(h, global, extra, Looking(Unread, if extra == global then Absent else Unread),
            Expected(At(winner, global), At(winner, extra)), false, false)
  }

  function At(winner: map<Key, CallId>, k: Key): Option<CallId> {
    if k in winner then Some(winner[k]) else None
  }

  function Outlived(g: GetCall, k: Key): GetCall {
    g.(expected := Expected(if g.global == k then None else g.expected.global,
                            if g.extra == k then None else g.expected.extra))
  }

  function AtPhase(s: State, c: CallId, phase: PutPhase): State
    requires c in s.puts
  {
    s.(puts := s.puts[c := s.puts[c].(phase := phase)])
  }

  function DoPut(s: State, c: CallId, step: PutStep): State
    requires c in s.puts && c in s.log.requests && PutEnabled(s, c, step)
  {
    var call, r := s.puts[c], s.log.requests[c];
    var sha, entry := Sha256(r.content), EntryOf(s.cfg, r);
    match step
    case CheckExists(answered) =>
      if answered && r.key in s.stores.meta then AtPhase(s, c, PutDone(Dup))
      else AtPhase(s, c, if entry.place.Inlined? then Writing(entry) else Hashed)
    case ConsultKnown => AtPhase(s, c, if sha in KnownTo(s, call.host) then Writing(entry) else Heading)
    case HeadBlob(answered) => AtPhase(s, c, if answered && sha in s.stores.blobs then Noting else Uploading)
    case UploadBlob(landed, ok) =>
      var after := AtPhase(s, c, if ok then Noting else PutDone(PutFailed));
      if landed then after.(stores := s.stores.(blobs := BlobPut(s.stores.blobs, sha, s.cfg.lz.compress(r.content)))) else after
    case NoteKnown =>
      AtPhase(s, c, Writing(entry)).(known := s.known[call.host := KnownTo(s, call.host) + {sha}])
    case WriteAction(reached, ok) =>
      if reached && r.key !in s.stores.meta then
        AtPhase(s, c, PutDone(if ok then Created else PutFailed)).(
          stores := s.stores.(meta := s.stores.meta[r.key := call.phase.entry]),
          log := s.log.(landed := s.log.landed[c := r], winner := s.log.winner[r.key := c]))
      else AtPhase(s, c, PutDone(if ok then Dup else PutFailed))
  }

  // An existing blob stays in place.
  function BlobPut(blobs: map<Digest, seq<Byte>>, sha: Digest, stored: seq<Byte>): map<Digest, seq<Byte>> {
    if sha in blobs then blobs else blobs[sha := stored]
  }

  function Read(meta: map<Key, ActionEntry>, k: Key, answered: bool): Lookup {
    if !answered then ReadFailed else if k in meta then Found(meta[k]) else Absent
  }

  function DoGet(s: State, g: GetCall, step: GetStep): GetCall
    requires match step
             case ReadGlobal(_) => g.phase.Looking?
             case ReadExtra(_) => g.phase.Looking?
             case Choose => g.phase.Looking?
             case FetchBlob(_) => g.phase.Fetching? && g.phase.entry.place.Stored?
  {
    match step
    case ReadGlobal(answered) =>
      var found := Read(s.stores.meta, g.global, answered);
      g.(phase := g.phase.(inGlobal := found), foundGlobal := found.Found?, faulty := g.faulty || !answered)
    case ReadExtra(answered) =>
      g.(phase := g.phase.(inExtra := Read(s.stores.meta, g.extra, answered)), faulty := g.faulty || !answered)
    case Choose => g.(phase := Chosen(g.phase.inGlobal, g.phase.inExtra))
    case FetchBlob(answered) =>
      g.(phase := GetDone(if answered then Fetched(s.cfg.lz, s.stores.blobs, g.phase.entry) else GetFailed),
         faulty := g.faulty || !answered)
  }

  // lookupAction's preference, and what get does with the entry.
  function Chosen(inGlobal: Lookup, inExtra: Lookup): GetPhase {
    if inGlobal.Found? then Opened(inGlobal.entry)
    else if inExtra.Found? then Opened(inExtra.entry)
    else GetDone(if inGlobal.ReadFailed? || inExtra.ReadFailed? then GetFailed else Miss)
  }

  function Opened(e: ActionEntry): GetPhase {
    match e.place
    case Inlined(data) => GetDone(if |data| != e.size then Miss else Hit(e.outputID, data))
    case Stored(_, _) => Fetching(e)
  }

  // The most bytes a GET reads of a blob.
  function FrameBound(size: nat): nat {
    size + size / 128 + 1024
  }

  // fetchBlob: a blob that is missing, has another size, or does not hold what it should
  // is a miss.
  function Fetched(lz: Codec, blobs: map<Digest, seq<Byte>>, e: ActionEntry): GetResult
    requires e.place.Stored?
  {
    var sha := e.place.sha;
    if e.place.storedSize > FrameBound(e.size) || sha !in blobs || |blobs[sha]| != e.place.storedSize then Miss
    else
      var content := lz.decompress(blobs[sha]);
      if |content| != e.size || Sha256(content) != sha then Miss else Hit(e.outputID, content)
  }

  // ---- the invariant ----

  ghost predicate BlobsSound(lz: Codec, blobs: map<Digest, seq<Byte>>) {
    forall h :: h in blobs ==> blobs[h] == lz.compress(h.content)
  }

  // An item's blob is in the store.
  predicate Backed(e: ActionEntry, blobs: map<Digest, seq<Byte>>) {
    e.place.Stored? ==> e.place.sha in blobs
  }

  ghost predicate MetaSound(cfg: Config, stores: Stores, log: Log) {
    && log.winner.Keys == stores.meta.Keys && Grows(log.landed, log.requests)
    && (forall k :: k in stores.meta ==>
          && log.winner[k] in log.landed && log.landed[log.winner[k]].key == k
          && stores.meta[k] == EntryOf(cfg, log.landed[log.winner[k]]) && Backed(stores.meta[k], stores.blobs))
  }

  ghost predicate KnownSound(known: map<Host, set<Digest>>, blobs: map<Digest, seq<Byte>>) {
    forall h :: h in known ==> known[h] <= blobs.Keys
  }

  predicate PutSound(cfg: Config, phase: PutPhase, r: Request, blobs: map<Digest, seq<Byte>>) {
    match phase
    case Hashed => EntryOf(cfg, r).place.Stored?
    case Heading => EntryOf(cfg, r).place.Stored?
    case Uploading => EntryOf(cfg, r).place.Stored?
    case Noting => EntryOf(cfg, r).place.Stored? && Sha256(r.content) in blobs
    case Writing(e) => e == EntryOf(cfg, r) && Backed(e, blobs)
    case _ => true
  }

  ghost predicate PutsSound(cfg: Config, puts: map<CallId, PutCall>, requests: map<CallId, Request>, blobs: map<Digest, seq<Byte>>) {
    forall c :: c in puts ==> c in requests && PutSound(cfg, puts[c].phase, requests[c], blobs)
  }

  // Item e is that of a PUT that landed at key k.
  ghost predicate Wrote(cfg: Config, landed: map<CallId, Request>, k: Key, e: ActionEntry) {
    exists c :: c in landed && landed[c].key == k && e == EntryOf(cfg, landed[c])
  }

  // The expected PUT is the one whose item is at the key.
  predicate StillAt(expected: Option<CallId>, winner: map<Key, CallId>, k: Key) {
    expected.Some? ==> k in winner && winner[k] == expected.value
  }

  ghost predicate LookupSound(cfg: Config, landed: map<CallId, Request>, blobs: map<Digest, seq<Byte>>,
                              lookup: Lookup, k: Key, expected: Option<CallId>) {
    match lookup
    case Unread => true
    case ReadFailed => true
    case Absent => expected.None?
    case Found(e) =>
      && Wrote(cfg, landed, k, e) && Backed(e, blobs)
      && (expected.Some? ==> expected.value in landed && e == EntryOf(cfg, landed[expected.value]))
  }

  // After no failed call, the entry is the one expected in the global namespace, or else
  // the one expected in the extra namespace, unless the global one had any.
  ghost predicate EntrySound(cfg: Config, landed: map<CallId, Request>, blobs: map<Digest, seq<Byte>>, g: GetCall, e: ActionEntry) {
    && Backed(e, blobs)
    && (Wrote(cfg, landed, g.global, e) || Wrote(cfg, landed, g.extra, e))
    && (!g.faulty && g.expected.global.Some? ==>
          g.expected.global.value in landed && e == EntryOf(cfg, landed[g.expected.global.value]))
    && (!g.faulty && g.expected.extra.Some? ==>
          || (g.foundGlobal && Wrote(cfg, landed, g.global, e))
          || (g.expected.extra.value in landed && e == EntryOf(cfg, landed[g.expected.extra.value])))
  }

  // No frame is longer than a GET will read.
  ghost predicate FramesFit(lz: Codec) {
    forall c :: |lz.compress(c)| <= FrameBound(|c|)
  }

  function AnswerOf(r: Request): GetResult {
    Hit(r.outputID, r.content)
  }

  // The answer is that of a PUT that landed at key k.
  ghost predicate Answers(landed: map<CallId, Request>, k: Key, answer: GetResult) {
    exists c :: c in landed && landed[c].key == k && answer == AnswerOf(landed[c])
  }

  ghost predicate AnswerSound(landed: map<CallId, Request>, g: GetCall, answer: GetResult) {
    && (answer.Hit? ==> Answers(landed, g.global, answer) || Answers(landed, g.extra, answer))
    && (!g.faulty ==> !answer.GetFailed?)
    && (!g.faulty && g.expected.global.Some? ==>
          g.expected.global.value in landed && answer == AnswerOf(landed[g.expected.global.value]))
    && (!g.faulty && g.expected.extra.Some? ==>
          || (g.foundGlobal && Answers(landed, g.global, answer))
          || (g.expected.extra.value in landed && answer == AnswerOf(landed[g.expected.extra.value])))
  }

  ghost predicate GetSound(cfg: Config, g: GetCall, blobs: map<Digest, seq<Byte>>, log: Log) {
    && StillAt(g.expected.global, log.winner, g.global) && StillAt(g.expected.extra, log.winner, g.extra)
    && match g.phase
       case Looking(inGlobal, inExtra) =>
         && LookupSound(cfg, log.landed, blobs, inGlobal, g.global, g.expected.global)
         && (inGlobal.Found? ==> g.foundGlobal)
         && (g.extra != g.global ==> LookupSound(cfg, log.landed, blobs, inExtra, g.extra, g.expected.extra))
         && (g.extra == g.global ==> inExtra.Absent? && g.expected.extra == g.expected.global)
         && (!g.faulty ==> !inGlobal.ReadFailed? && !inExtra.ReadFailed?)
       case Fetching(e) => e.place.Stored? && EntrySound(cfg, log.landed, blobs, g, e)
       case GetDone(answer) => Lossless(cfg.lz) && FramesFit(cfg.lz) ==> AnswerSound(log.landed, g, answer)
  }

  ghost predicate GetsSound(cfg: Config, gets: map<CallId, GetCall>, blobs: map<Digest, seq<Byte>>, log: Log) {
    forall c :: c in gets ==> GetSound(cfg, gets[c], blobs, log)
  }

  ghost predicate Inv(s: State) {
    && BlobsSound(s.cfg.lz, s.stores.blobs)
    && MetaSound(s.cfg, s.stores, s.log)
    && KnownSound(s.known, s.stores.blobs)
    && PutsSound(s.cfg, s.puts, s.log.requests, s.stores.blobs)
    && GetsSound(s.cfg, s.gets, s.stores.blobs, s.log)
  }

  predicate Initial(s: State) {
    s.stores == Stores(map[], map[]) && s.known == map[] && s.puts == map[] && s.gets == map[] && s.log == Log(map[], map[], map[])
  }

  // ---- what a GET makes of an item ----

  // Of an item and a blob that a PUT wrote, fetchBlob makes that PUT's answer exactly when
  // the frame is within the bound.
  lemma FetchReadsBackExactlyWhen(cfg: Config, blobs: map<Digest, seq<Byte>>, r: Request)
    requires Lossless(cfg.lz) && BlobsSound(cfg.lz, blobs)
    requires EntryOf(cfg, r).place.Stored? && Sha256(r.content) in blobs
    ensures Fetched(cfg.lz, blobs, EntryOf(cfg, r)) == Hit(r.outputID, r.content) <==>
            |cfg.lz.compress(r.content)| <= |r.content| + |r.content| / 128 + 1024
    ensures |cfg.lz.compress(r.content)| > |r.content| + |r.content| / 128 + 1024 ==> Fetched(cfg.lz, blobs, EntryOf(cfg, r)) == Miss
  {
  }

}

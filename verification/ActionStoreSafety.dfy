// What every step of awscache's hosts keeps, and what that means over whole runs.
module ActionStoreSafety {
  import opened Wrappers
  import opened Pages
  import opened BlobFormat
  import opened ActionStore

  type Blobs = map<Digest, seq<Byte>>

  // ---- what survives growth of the stores ----

  lemma GetsKept(cfg: Config, gets: map<CallId, GetCall>, blobs: Blobs, log: Log, blobs': Blobs, log': Log)
    requires GetsSound(cfg, gets, blobs, log)
    requires Grows(log.landed, log'.landed) && Grows(log.winner, log'.winner) && Grows(blobs, blobs')
    ensures GetsSound(cfg, gets, blobs', log')
  {
  }

  // ---- steps of a PUT ----

  // A step that only moves a PUT on.
  lemma PhaseKept(s: State, c: CallId, phase: PutPhase)
    requires Inv(s) && c in s.puts && c in s.log.requests
    requires PutSound(s.cfg, phase, s.log.requests[c], s.stores.blobs)
    ensures Inv(AtPhase(s, c, phase))
  {
  }

  // A blob more in the store.
  lemma BlobAdded(s: State, content: seq<Byte>)
    requires Inv(s)
    ensures var blobs := BlobPut(s.stores.blobs, Sha256(content), s.cfg.lz.compress(content));
            Inv(s.(stores := s.stores.(blobs := blobs))) && Sha256(content) in blobs
  {
  }

  lemma BlobNoted(s: State, h: Host, sha: Digest)
    requires Inv(s) && sha in s.stores.blobs
    ensures Inv(s.(known := s.known[h := KnownTo(s, h) + {sha}]))
  {
  }

  // A conditional write that lands.
  lemma ActionAdded(s: State, c: CallId)
    requires Inv(s) && c in s.log.requests && s.log.requests[c].key !in s.stores.meta
    requires Backed(EntryOf(s.cfg, s.log.requests[c]), s.stores.blobs)
    ensures var r := s.log.requests[c];
            Inv(s.(stores := s.stores.(meta := s.stores.meta[r.key := EntryOf(s.cfg, r)]),
                   log := s.log.(landed := s.log.landed[c := r], winner := s.log.winner[r.key := c])))
  {
    hide GetsSound;
    var r := s.log.requests[c];
    GetsKept(s.cfg, s.gets, s.stores.blobs, s.log, s.stores.blobs,
             s.log.(landed := s.log.landed[c := r], winner := s.log.winner[r.key := c]));
  }

  lemma PutKeepsInv(s: State, c: CallId, step: PutStep)
    requires Inv(s) && Enabled(s, PutTo(c, step))
    ensures Inv(DoPut(s, c, step))
  {
    hide BlobsSound, MetaSound, GetsSound, KnownSound;
    var call, r := s.puts[c], s.log.requests[c];
    var sha, entry := Sha256(r.content), EntryOf(s.cfg, r);
    assert PutSound(s.cfg, call.phase, r, s.stores.blobs);
    match step
    case CheckExists(answered) =>
      PhaseKept(s, c, if answered && r.key in s.stores.meta then PutDone(Dup)
                      else if entry.place.Inlined? then Writing(entry) else Hashed);
    case ConsultKnown =>
      if sha in KnownTo(s, call.host) {
        KnownStored(s, call.host, sha);
      }
      PhaseKept(s, c, if sha in KnownTo(s, call.host) then Writing(entry) else Heading);
    case HeadBlob(answered) => PhaseKept(s, c, if answered && sha in s.stores.blobs then Noting else Uploading);
    case UploadBlob(landed, ok) =>
      if landed {
        BlobAdded(s, r.content);
        PhaseKept(s.(stores := s.stores.(blobs := BlobPut(s.stores.blobs, sha, s.cfg.lz.compress(r.content)))),
                  c, if ok then Noting else PutDone(PutFailed));
      } else {
        PhaseKept(s, c, PutDone(PutFailed));
      }
    case NoteKnown =>
      BlobNoted(s, call.host, sha);
      PhaseKept(s.(known := s.known[call.host := KnownTo(s, call.host) + {sha}]), c, Writing(entry));
    case WriteAction(reached, ok) =>
      if reached && r.key !in s.stores.meta {
        ActionAdded(s, c);
        PhaseKept(s.(stores := s.stores.(meta := s.stores.meta[r.key := entry]),
                     log := s.log.(landed := s.log.landed[c := r], winner := s.log.winner[r.key := c])),
                  c, PutDone(if ok then Created else PutFailed));
      } else {
        PhaseKept(s, c, PutDone(if ok then Dup else PutFailed));
      }
  }

  lemma KnownStored(s: State, h: Host, sha: Digest)
    requires KnownSound(s.known, s.stores.blobs) && sha in KnownTo(s, h)
    ensures sha in s.stores.blobs
  {
  }

  // ---- steps of a GET ----

  lemma ReadSound(cfg: Config, stores: Stores, log: Log, k: Key, answered: bool, expected: Option<CallId>)
    requires MetaSound(cfg, stores, log) && StillAt(expected, log.winner, k)
    ensures LookupSound(cfg, log.landed, stores.blobs, Read(stores.meta, k, answered), k, expected)
  {
  }

  lemma ChosenSound(s: State, c: CallId)
    requires Inv(s) && Enabled(s, GetTo(c, Choose))
    ensures GetSound(s.cfg, DoGet(s, s.gets[c], Choose), s.stores.blobs, s.log)
  {
  }

  lemma FetchedSound(s: State, c: CallId, answered: bool)
    requires Inv(s) && Enabled(s, GetTo(c, FetchBlob(answered)))
    ensures GetSound(s.cfg, DoGet(s, s.gets[c], FetchBlob(answered)), s.stores.blobs, s.log)
  {
  }

  lemma LookedSound(s: State, c: CallId, step: GetStep)
    requires Inv(s) && Enabled(s, GetTo(c, step)) && (step.ReadGlobal? || step.ReadExtra?)
    ensures GetSound(s.cfg, DoGet(s, s.gets[c], step), s.stores.blobs, s.log)
  {
  }

  lemma GetIsSound(s: State, c: CallId)
    requires Inv(s) && c in s.gets
    ensures GetSound(s.cfg, s.gets[c], s.stores.blobs, s.log)
  {
  }

  lemma GetKeepsInv(s: State, c: CallId, step: GetStep)
    requires Inv(s) && Enabled(s, GetTo(c, step))
    ensures Inv(Do(s, GetTo(c, step)))
  {
    match step
    case Choose => ChosenSound(s, c);
    case FetchBlob(answered) => FetchedSound(s, c, answered);
    case _ => LookedSound(s, c, step);
  }

  lemma StartGetKeepsInv(s: State, c: CallId, h: Host, global: Key, extra: Key)
    requires Inv(s) && c !in s.gets
    ensures Inv(Do(s, StartGet(c, h, global, extra)))
  {
  }

  // ---- the rest ----

  lemma OutlivedSound(cfg: Config, g: GetCall, blobs: Blobs, log: Log, k: Key)
    requires GetSound(cfg, g, blobs, log)
    ensures GetSound(cfg, Outlived(g, k), blobs, log.(winner := log.winner - {k}))
  {
  }

  lemma ExpireKeepsInv(s: State, k: Key)
    requires Inv(s) && k in s.stores.meta
    ensures Inv(Do(s, Expire(k)))
  {
    var s' := Do(s, Expire(k));
    forall c | c in s'.gets ensures GetSound(s.cfg, s'.gets[c], s.stores.blobs, s'.log) {
      OutlivedSound(s.cfg, s.gets[c], s.stores.blobs, s.log, k);
    }
  }

  lemma StartPutKeepsInv(s: State, c: CallId, h: Host, r: Request)
    requires Inv(s) && c !in s.log.requests
    ensures Inv(Do(s, StartPut(c, h, r)))
  {
    GetsKept(s.cfg, s.gets, s.stores.blobs, s.log, s.stores.blobs, s.log.(requests := s.log.requests[c := r]));
  }

  lemma StepKeepsInv(s: State, step: Step)
    requires Inv(s) && Enabled(s, step)
    ensures Inv(Do(s, step))
  {
    match step
    case StartPut(c, h, r) => StartPutKeepsInv(s, c, h, r);
    case PutTo(c, p) => PutKeepsInv(s, c, p);
    case StartGet(c, h, global, extra) => StartGetKeepsInv(s, c, h, global, extra);
    case GetTo(c, g) => GetKeepsInv(s, c, g);
    case Expire(k) => ExpireKeepsInv(s, k);
    case Forget(h, sha) =>
    case CrashHost(h) =>
  }

  // ---- runs ----

  ghost predicate IsRun(run: seq<State>, steps: seq<Step>) {
    |run| == |steps| + 1 &&
    forall k {:trigger steps[k]} :: 0 <= k < |steps| ==> Enabled(run[k], steps[k]) && run[k + 1] == Do(run[k], steps[k])
  }

  lemma {:induction false} RunKeepsInv(run: seq<State>, steps: seq<Step>, k: nat)
    requires IsRun(run, steps) && Initial(run[0]) && k < |run|
    ensures Inv(run[k]) && run[k].cfg == run[0].cfg
  {
    if k > 0 {
      RunKeepsInv(run, steps, k - 1);
      StepKeepsInv(run[k - 1], steps[k - 1]);
    }
  }

  // Whatever crashes: every item that is not inline has its blob, every blob decompresses
  // to the content of its SHA-256, and no host knows of a blob that is not there.
  lemma ItemsAreBacked(run: seq<State>, steps: seq<Step>, k: nat)
    requires IsRun(run, steps) && Initial(run[0]) && k < |run| && Lossless(run[0].cfg.lz)
    ensures var stores := run[k].stores;
            && (forall key :: key in stores.meta && stores.meta[key].place.Stored? ==> stores.meta[key].place.sha in stores.blobs)
            && (forall key :: key in stores.meta ==> (stores.meta[key].place.Inlined? <==> stores.meta[key].size <= run[k].cfg.inlineMax))
            && (forall h :: h in stores.blobs ==> Sha256(run[k].cfg.lz.decompress(stores.blobs[h])) == h)
            && (forall host :: host in run[k].known ==> run[k].known[host] <= stores.blobs.Keys)
  {
    RunKeepsInv(run, steps, k);
    forall h | h in run[k].stores.blobs ensures Sha256(run[k].cfg.lz.decompress(run[k].stores.blobs[h])) == h {
      assert run[k].stores.blobs[h] == run[k].cfg.lz.compress(h.content);
    }
  }

  // No step but an item's expiry removes it or changes it, or whose PUT it is.
  lemma ItemKept(s: State, step: Step, k: Key)
    requires Enabled(s, step) && k in s.stores.meta && k in s.log.winner && step != Expire(k)
    ensures k in Do(s, step).stores.meta && Do(s, step).stores.meta[k] == s.stores.meta[k]
    ensures k in Do(s, step).log.winner && Do(s, step).log.winner[k] == s.log.winner[k]
  {
  }

  lemma {:induction false} FirstPutStays(run: seq<State>, steps: seq<Step>, key: Key, i: nat, j: nat)
    requires IsRun(run, steps) && Initial(run[0]) && i <= j < |run| && key in run[i].stores.meta
    requires forall m {:trigger steps[m]} :: i <= m < j ==> steps[m] != Expire(key)
    ensures key in run[j].stores.meta && run[j].stores.meta[key] == run[i].stores.meta[key]
    ensures key in run[j].log.winner && key in run[i].log.winner && run[j].log.winner[key] == run[i].log.winner[key]
    decreases j - i
  {
    RunKeepsInv(run, steps, i);
    if i < j {
      FirstPutStays(run, steps, key, i, j - 1);
      ItemKept(run[j - 1], steps[j - 1], key);
    }
  }

  // What a landed PUT asked for does not change.
  lemma {:induction false} LandedStays(run: seq<State>, steps: seq<Step>, i: nat, j: nat)
    requires IsRun(run, steps) && Initial(run[0]) && i <= j < |run|
    ensures Grows(run[i].log.landed, run[j].log.landed)
    decreases j - i
  {
    if i < j {
      LandedStays(run, steps, i, j - 1);
      RunKeepsInv(run, steps, j - 1);
      LandedKept(run[j - 1], steps[j - 1]);
    }
  }

  lemma LandedKept(s: State, step: Step)
    requires Grows(s.log.landed, s.log.requests) && Enabled(s, step)
    ensures Grows(s.log.landed, Do(s, step).log.landed)
  {
  }

  // The step with which a PUT succeeds, having created the item or found it there.
  predicate Succeeds(s: State, step: Step) {
    step.PutTo? && Enabled(s, step) &&
    var phase := DoPut(s, step.call, step.putStep).puts[step.call].phase;
    phase == PutDone(Created) || phase == PutDone(Dup)
  }

  // A PUT that succeeds leaves an item at its key: its own, or the one that was first.
  lemma SuccessMeansStored(s: State, c: CallId, step: PutStep)
    requires Succeeds(s, PutTo(c, step))
    ensures s.log.requests[c].key in DoPut(s, c, step).stores.meta
    ensures DoPut(s, c, step).puts[c].phase == PutDone(Created) <==>
            s.log.requests[c].key !in s.stores.meta && s.log.requests[c].key in DoPut(s, c, step).log.winner &&
            DoPut(s, c, step).log.winner[s.log.requests[c].key] == c
  {
  }

  // A GET's keys stay its own, and it goes on expecting the item that one of them had when
  // it began while that has not expired.
  ghost predicate Expects(s: State, c: CallId, h: Host, global: Key, extra: Key, key: Key, first: CallId) {
    && c in s.gets && s.gets[c].host == h && s.gets[c].global == global && s.gets[c].extra == extra
    && (key == global ==> s.gets[c].expected.global == Some(first))
    && (key == extra ==> s.gets[c].expected.extra == Some(first))
  }

  lemma ExpectationKept(s: State, step: Step, c: CallId, h: Host, global: Key, extra: Key, key: Key, first: CallId)
    requires Enabled(s, step) && Expects(s, c, h, global, extra, key, first)
    requires step != Expire(key) && step != CrashHost(h)
    ensures Expects(Do(s, step), c, h, global, extra, key, first)
    ensures global !in s.stores.meta && !s.gets[c].foundGlobal ==> !Do(s, step).gets[c].foundGlobal
  {
  }

  lemma {:induction false} StaysExpected(run: seq<State>, steps: seq<Step>, c: CallId, h: Host, global: Key, extra: Key,
                                         key: Key, first: CallId, j: nat, k: nat)
    requires IsRun(run, steps) && j <= k < |run| && Expects(run[j], c, h, global, extra, key, first)
    requires forall m {:trigger steps[m]} :: j <= m < k ==> steps[m] != Expire(key) && steps[m] != CrashHost(h)
    ensures Expects(run[k], c, h, global, extra, key, first)
    ensures !run[j].gets[c].foundGlobal && (forall m :: j <= m < k ==> global !in run[m].stores.meta) ==>
              !run[k].gets[c].foundGlobal
    decreases k - j
  {
    if j < k {
      StaysExpected(run, steps, c, h, global, extra, key, first, j, k - 1);
      ExpectationKept(run[k - 1], steps[k - 1], c, h, global, extra, key, first);
    }
  }

  // The item at a key, and the PUT that was first there.
  ghost predicate FirstAt(s: State, key: Key, first: CallId) {
    && key in s.stores.meta && key in s.log.winner && s.log.winner[key] == first
    && first in s.log.landed && s.log.landed[first].key == key
  }

  // Once a PUT has succeeded on any host (step i), there is a first PUT that landed at its
  // key, and every GET begun later (step j), on any host, that may read the key and meets
  // no failing call of its own, hits (state k), until the item expires: in the global
  // namespace with the output ID and bytes of that first PUT; in the extra namespace with
  // those, or with what the global namespace has for the action, and certainly with those
  // if that had nothing during the GET.
  lemma DurableUntilExpiry(run: seq<State>, steps: seq<Step>, i: nat, j: nat, k: nat,
                           c: CallId, h: Host, global: Key, extra: Key) returns (first: CallId)
    requires IsRun(run, steps) && Initial(run[0]) && Lossless(run[0].cfg.lz) && FramesFit(run[0].cfg.lz)
    requires i < j < k < |run| && Succeeds(run[i], steps[i]) && steps[j] == StartGet(c, h, global, extra)
    requires var key := run[i].log.requests[steps[i].call].key;
             key in {global, extra} && forall m {:trigger steps[m]} :: i < m < k ==> steps[m] != Expire(key)
    requires forall m {:trigger steps[m]} :: j < m < k ==> steps[m] != CrashHost(h)
    requires c in run[k].gets && run[k].gets[c].phase.GetDone? && !run[k].gets[c].faulty
    ensures FirstAt(run[i + 1], run[i].log.requests[steps[i].call].key, first)
    ensures var (key, g, answer) := (run[i].log.requests[steps[i].call].key, run[k].gets[c], AnswerOf(run[i + 1].log.landed[first]));
            && (key == global ==> g.phase == GetDone(answer))
            && (g.phase == GetDone(answer) || Answers(run[k].log.landed, global, g.phase.answer))
            && ((forall m :: j <= m < k ==> global !in run[m].stores.meta) ==> g.phase == GetDone(answer))
  {
    var p := steps[i].call;
    var key := run[i].log.requests[p].key;
    SuccessMeansStored(run[i], p, steps[i].putStep);
    assert run[i + 1] == Do(run[i], steps[i]);
    RunKeepsInv(run, steps, i + 1);
    first := run[i + 1].log.winner[key];
    FirstPutStays(run, steps, key, i + 1, j);
    LandedStays(run, steps, i + 1, k);
    assert Enabled(run[j], steps[j]) && run[j + 1] == Do(run[j], steps[j]);
    StaysExpected(run, steps, c, h, global, extra, key, first, j + 1, k);
    RunKeepsInv(run, steps, k);
    GetIsSound(run[k], c);
  }
}

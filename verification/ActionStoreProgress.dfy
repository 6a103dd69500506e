// How awscache's PUTs and GETs end: a PUT fails only if an upload or the write of its item
// does, and a GET answers from whichever lookup found an item.
module ActionStoreProgress {
  import opened Wrappers
  import opened Pages
  import opened BlobFormat
  import opened ActionStore
  import opened ActionStoreSafety

  // ---- PUTs ----

  predicate OwnPut(step: Step, c: CallId) {
    step.PutTo? && step.call == c
  }

  // The calls that a PUT does not go on without.
  predicate FailedCall(step: Step, c: CallId) {
    OwnPut(step, c) && ((step.putStep.UploadBlob? && !step.putStep.ok) || (step.putStep.WriteAction? && !step.putStep.ok))
  }

  function PutSteps(steps: seq<Step>, c: CallId, i: nat, j: nat): nat
    requires i <= j <= |steps|
    decreases j - i
  {
    if i == j then 0 else PutSteps(steps, c, i, j - 1) + if OwnPut(steps[j - 1], c) then 1 else 0
  }

  // The steps that a PUT has left at most.
  function PutLeft(phase: PutPhase, inlined: bool): nat {
    match phase
    case Checking => if inlined then 2 else 6
    case Hashed => 5
    case Heading => 4
    case Uploading => 3
    case Noting => 2
    case Writing(_) => 1
    case PutDone(_) => 0
  }

  // Where a PUT stands: it has failed exactly if one of those calls has.
  predicate PutStands(s: State, c: CallId, h: Host, r: Request, failed: bool) {
    && c in s.puts && s.puts[c].host == h && c in s.log.requests && s.log.requests[c] == r
    && (failed <==> s.puts[c].phase == PutDone(PutFailed))
  }

  lemma PutGoesOn(s: State, step: Step, c: CallId, h: Host, r: Request, failed: bool)
    requires Enabled(s, step) && PutStands(s, c, h, r, failed) && step != CrashHost(h)
    ensures PutStands(Do(s, step), c, h, r, failed || FailedCall(step, c)) && Do(s, step).cfg == s.cfg
    ensures var inlined := |r.content| <= s.cfg.inlineMax;
            PutLeft(Do(s, step).puts[c].phase, inlined) + (if OwnPut(step, c) then 1 else 0) <= PutLeft(s.puts[c].phase, inlined)
  {
    if OwnPut(step, c) {
      hide Do, DoPut, EntryOf;
      OwnStepGoesOn(s, step.putStep, c, h, r, failed);
    } else {
      hide Do, DoPut, EntryOf, PutLeft;
      OthersLeavePut(s, step, c);
    }
  }

  lemma OthersLeavePut(s: State, step: Step, c: CallId)
    requires Enabled(s, step) && !OwnPut(step, c) && c in s.puts && c in s.log.requests && step != CrashHost(s.puts[c].host)
    ensures var s' := Do(s, step);
            && s'.cfg == s.cfg && c in s'.puts && s'.puts[c] == s.puts[c]
            && c in s'.log.requests && s'.log.requests[c] == s.log.requests[c]
  {
    hide DoGet, NewGet, Outlived, BlobPut, EntryOf;
  }

  lemma OwnStepGoesOn(s: State, step: PutStep, c: CallId, h: Host, r: Request, failed: bool)
    requires Enabled(s, PutTo(c, step)) && PutStands(s, c, h, r, failed)
    ensures var s' := Do(s, PutTo(c, step));
            && PutStands(s', c, h, r, failed || FailedCall(PutTo(c, step), c)) && s'.cfg == s.cfg
            && PutLeft(s'.puts[c].phase, |r.content| <= s.cfg.inlineMax) < PutLeft(s.puts[c].phase, |r.content| <= s.cfg.inlineMax)
  {
    hide BlobPut;
  }

  // A PUT on a host that stays up ends with its sixth step at the latest, its second if the
  // item is inline; and it ends in failure exactly if an upload or the write of the item
  // failed. A failing look at what is there already does not make it fail.
  lemma {:induction false} PutFailsIff(run: seq<State>, steps: seq<Step>, i: nat, j: nat, c: CallId, h: Host, r: Request)
    requires IsRun(run, steps) && i < j < |run| && steps[i] == StartPut(c, h, r)
    requires forall m {:trigger steps[m]} :: i < m < j ==> steps[m] != CrashHost(h)
    ensures c in run[j].puts && c in run[j].log.requests && run[j].log.requests[c] == r && run[j].puts[c].host == h
    ensures run[j].cfg == run[i].cfg
    ensures run[j].puts[c].phase == PutDone(PutFailed) <==> exists m :: i < m < j && FailedCall(steps[m], c)
    ensures var inlined := |r.content| <= run[i].cfg.inlineMax;
            && PutLeft(run[j].puts[c].phase, inlined) + PutSteps(steps, c, i + 1, j) <= (if inlined then 2 else 6)
            && (PutSteps(steps, c, i + 1, j) >= (if inlined then 2 else 6) ==> run[j].puts[c].phase.PutDone?)
    decreases j
  {
    assert Enabled(run[j - 1], steps[j - 1]) && run[j] == Do(run[j - 1], steps[j - 1]);
    if i + 1 < j {
      PutFailsIff(run, steps, i, j - 1, c, h, r);
      var failed := run[j - 1].puts[c].phase == PutDone(PutFailed);
      PutGoesOn(run[j - 1], steps[j - 1], c, h, r, failed);
      hide Do, Enabled;
      assert FailedCall(steps[j - 1], c) ==> exists m :: i < m < j && FailedCall(steps[m], c);
    }
  }

  // And until it ends it has a step to take that does not fail.
  lemma NextPutStep(s: State, c: CallId) returns (step: PutStep)
    requires Inv(s) && c in s.puts && !s.puts[c].phase.PutDone?
    ensures Enabled(s, PutTo(c, step)) && !FailedCall(PutTo(c, step), c)
  {
    step := match s.puts[c].phase
      case Checking => CheckExists(true)
      case Hashed => ConsultKnown
      case Heading => HeadBlob(true)
      case Uploading => UploadBlob(true, true)
      case Noting => NoteKnown
      case _ => WriteAction(true, true);
  }

  // How a PUT that succeeds reports it: as created exactly if its own write stored the item.
  lemma PutReports(s: State, c: CallId, step: PutStep)
    requires Inv(s) && Enabled(s, PutTo(c, step))
    ensures var (s', key) := (Do(s, PutTo(c, step)), s.log.requests[c].key);
            && (step == CheckExists(true) ==> (s'.puts[c].phase == PutDone(Dup) <==> key in s.stores.meta))
            && (step == WriteAction(true, true) ==>
                  s'.puts[c].phase == PutDone(if key in s.stores.meta then Dup else Created))
            && (step == WriteAction(true, true) && key !in s.stores.meta ==>
                  && key in s'.stores.meta && s'.stores.meta[key].outputID == s.log.requests[c].outputID
                  && s'.stores.meta[key].size == |s.log.requests[c].content|
                  && s'.stores.meta[key].place.Inlined? == (|s.log.requests[c].content| <= s.cfg.inlineMax))
            && (!s'.puts[c].phase.PutDone? ==> s'.stores.meta == s.stores.meta)
  {
    assert PutSound(s.cfg, s.puts[c].phase, s.log.requests[c], s.stores.blobs);
  }

  // An item that has expired is gone, until a PUT writes one at that key anew.
  lemma {:induction false} ExpiredIsGone(run: seq<State>, steps: seq<Step>, i: nat, j: nat, key: Key)
    requires IsRun(run, steps) && i < j < |run| && steps[i] == Expire(key)
    requires forall m {:trigger steps[m]} :: i < m < j ==> !(steps[m].PutTo? && steps[m].putStep.WriteAction?)
    ensures key !in run[j].stores.meta
    decreases j
  {
    assert Enabled(run[j - 1], steps[j - 1]) && run[j] == Do(run[j - 1], steps[j - 1]);
    if i + 1 < j {
      ExpiredIsGone(run, steps, i, j - 1, key);
    }
  }

  // In a run: a PUT that ends with none of those calls having failed has succeeded, and
  // left an item at its key.
  lemma PutSucceeds(run: seq<State>, steps: seq<Step>, i: nat, j: nat, c: CallId, h: Host, r: Request)
    requires IsRun(run, steps) && i < j < |steps| && steps[i] == StartPut(c, h, r)
    requires forall m {:trigger steps[m]} :: i < m <= j ==> steps[m] != CrashHost(h) && !FailedCall(steps[m], c)
    requires OwnPut(steps[j], c) && c in run[j + 1].puts && run[j + 1].puts[c].phase.PutDone?
    ensures run[j + 1].puts[c].phase == PutDone(Created) || run[j + 1].puts[c].phase == PutDone(Dup)
    ensures Succeeds(run[j], steps[j]) && r.key in run[j + 1].stores.meta
  {
    hide Do, DoPut, Enabled, PutLeft;
    PutFailsIff(run, steps, i, j + 1, c, h, r);
    assert Enabled(run[j], steps[j]) && run[j + 1] == Do(run[j], steps[j]);
    PutFailsIff(run, steps, i, j, c, h, r);
    var result := run[j + 1].puts[c].phase.result;
    assert result == Created || result == Dup;
    SucceedsIf(run[j], c, steps[j].putStep);
    SuccessMeansStored(run[j], c, steps[j].putStep);
  }

  lemma SucceedsIf(s: State, c: CallId, step: PutStep)
    requires Enabled(s, PutTo(c, step))
    ensures Do(s, PutTo(c, step)) == DoPut(s, c, step) && c in s.log.requests && c in DoPut(s, c, step).puts
    ensures Succeeds(s, PutTo(c, step)) <==>
              DoPut(s, c, step).puts[c].phase == PutDone(Created) || DoPut(s, c, step).puts[c].phase == PutDone(Dup)
  {
  }

  // A blob that the host knows to be there, or that it is told is there, is not uploaded.
  predicate NeedNotUpload(s: State, c: CallId, step: PutStep)
    requires c in s.puts && c in s.log.requests
  {
    var sha := Sha256(s.log.requests[c].content);
    (step.ConsultKnown? && sha in KnownTo(s, s.puts[c].host)) || (step == HeadBlob(true) && sha in s.stores.blobs)
  }

  predicate PastUpload(s: State, c: CallId) {
    c in s.log.requests && (c in s.puts ==> s.puts[c].phase.Noting? || s.puts[c].phase.Writing? || s.puts[c].phase.PutDone?)
  }

  lemma {:induction false} PresentBlobNotUploaded(run: seq<State>, steps: seq<Step>, i: nat, j: nat, c: CallId)
    requires IsRun(run, steps) && i < j < |run| && steps[i].PutTo? && steps[i].call == c
    requires c in run[i].puts && c in run[i].log.requests && NeedNotUpload(run[i], c, steps[i].putStep)
    ensures PastUpload(run[j], c)
    ensures forall landed, ok :: !Enabled(run[j], PutTo(c, UploadBlob(landed, ok)))
    decreases j
  {
    assert Enabled(run[j - 1], steps[j - 1]) && run[j] == Do(run[j - 1], steps[j - 1]);
    if i + 1 < j {
      PresentBlobNotUploaded(run, steps, i, j - 1, c);
    }
  }

  // What a host has noted it goes on knowing, until it forgets that blob or crashes.
  lemma {:induction false} NotedStaysKnown(run: seq<State>, steps: seq<Step>, i: nat, j: nat, c: CallId, h: Host, sha: Digest)
    requires IsRun(run, steps) && i < j < |run| && steps[i] == PutTo(c, NoteKnown)
    requires c in run[i].puts && run[i].puts[c].host == h && c in run[i].log.requests && Sha256(run[i].log.requests[c].content) == sha
    requires forall m {:trigger steps[m]} :: i < m < j ==> steps[m] != Forget(h, sha) && steps[m] != CrashHost(h)
    ensures sha in KnownTo(run[j], h)
    decreases j
  {
    assert Enabled(run[j - 1], steps[j - 1]) && run[j] == Do(run[j - 1], steps[j - 1]);
    if i + 1 < j {
      NotedStaysKnown(run, steps, i, j - 1, c, h, sha);
    }
  }

  // ---- GETs ----

  predicate OwnGet(step: Step, c: CallId) {
    step.GetTo? && step.reader == c
  }

  function GetSteps(steps: seq<Step>, c: CallId, i: nat, j: nat): nat
    requires i <= j <= |steps|
    decreases j - i
  {
    if i == j then 0 else GetSteps(steps, c, i, j - 1) + if OwnGet(steps[j - 1], c) then 1 else 0
  }

  function GetLeft(phase: GetPhase): nat {
    match phase
    case Looking(g, e) => 2 + (if g.Unread? then 1 else 0) + (if e.Unread? then 1 else 0)
    case Fetching(_) => 1
    case GetDone(_) => 0
  }

  lemma GetGoesOn(s: State, step: Step, c: CallId, h: Host)
    requires Enabled(s, step) && c in s.gets && s.gets[c].host == h && step != CrashHost(h)
    ensures c in Do(s, step).gets && Do(s, step).gets[c].host == h && Do(s, step).cfg == s.cfg
    ensures Do(s, step).gets[c].global == s.gets[c].global && Do(s, step).gets[c].extra == s.gets[c].extra
    ensures GetLeft(Do(s, step).gets[c].phase) + (if OwnGet(step, c) then 1 else 0) <= GetLeft(s.gets[c].phase)
  {
  }

  // A GET on a host that stays up is answered with its fourth step at the latest, and until
  // then has one to take that does not fail.
  lemma {:induction false} GetEnds(run: seq<State>, steps: seq<Step>, i: nat, j: nat, c: CallId, h: Host, global: Key, extra: Key)
    requires IsRun(run, steps) && Initial(run[0]) && i < j < |run| && steps[i] == StartGet(c, h, global, extra)
    requires forall m {:trigger steps[m]} :: i < m < j ==> steps[m] != CrashHost(h)
    ensures c in run[j].gets && run[j].gets[c].host == h && run[j].gets[c].global == global && run[j].gets[c].extra == extra
    ensures GetLeft(run[j].gets[c].phase) + GetSteps(steps, c, i + 1, j) <= 4
    ensures GetSteps(steps, c, i + 1, j) >= 4 ==> run[j].gets[c].phase.GetDone?
    ensures !run[j].gets[c].phase.GetDone? ==>
              exists step: GetStep :: Enabled(run[j], GetTo(c, step)) && (step.Choose? || step.answered)
    decreases j
  {
    assert Enabled(run[j - 1], steps[j - 1]) && run[j] == Do(run[j - 1], steps[j - 1]);
    if i + 1 < j {
      GetEnds(run, steps, i, j - 1, c, h, global, extra);
      GetGoesOn(run[j - 1], steps[j - 1], c, h);
    }
    RunKeepsInv(run, steps, j);
    NextGetStep(run[j], c);
  }

  lemma NextGetStep(s: State, c: CallId)
    requires Inv(s) && c in s.gets
    ensures !s.gets[c].phase.GetDone? ==>
              exists step: GetStep :: Enabled(s, GetTo(c, step)) && (step.Choose? || step.answered)
  {
    GetIsSound(s, c);
    var phase := s.gets[c].phase;
    var step := if phase.Fetching? then FetchBlob(true)
                else if phase.Looking? && phase.inGlobal.Unread? then ReadGlobal(true)
                else if phase.Looking? && phase.inExtra.Unread? then ReadExtra(true)
                else Choose;
    assert !phase.GetDone? ==> Enabled(s, GetTo(c, step)) && (step.Choose? || step.answered);
  }

  predicate LooksUp(step: GetStep, inGlobal: bool) {
    if inGlobal then step == ReadGlobal(true) else step == ReadExtra(true)
  }

  // A GET has the item that a lookup found, or the answer it makes; unless the lookup was
  // of the extra key, and that of the global one found an item too.
  ghost predicate Carries(s: State, c: CallId, h: Host, inGlobal: bool, r: Request) {
    && c in s.gets && s.gets[c].host == h && Backed(EntryOf(s.cfg, r), s.stores.blobs)
    && var g := s.gets[c];
       match g.phase
       case Looking(global, extra) =>
         && (global.Found? ==> g.foundGlobal)
         && (if inGlobal then global else extra) == Found(EntryOf(s.cfg, r))
       case Fetching(e) => e == EntryOf(s.cfg, r) || (!inGlobal && g.foundGlobal)
       case GetDone(answer) => answer == AnswerOf(r) || (!inGlobal && g.foundGlobal)
  }

  lemma CarriesOn(s: State, step: Step, c: CallId, h: Host, inGlobal: bool, r: Request)
    requires Enabled(s, step) && Carries(s, c, h, inGlobal, r) && step != CrashHost(h)
    requires Lossless(s.cfg.lz) && FramesFit(s.cfg.lz) && BlobsSound(s.cfg.lz, s.stores.blobs)
    requires step != GetTo(c, FetchBlob(false))
    ensures Carries(Do(s, step), c, h, inGlobal, r) && Do(s, step).cfg == s.cfg
  {
    hide FrameBound, Fetched, FramesFit, BlobsSound;
    if OwnGet(step, c) {
      CarriesOwn(s, step.getStep, c, h, inGlobal, r);
    }
  }

  lemma CarriesOwn(s: State, step: GetStep, c: CallId, h: Host, inGlobal: bool, r: Request)
    requires Enabled(s, GetTo(c, step)) && Carries(s, c, h, inGlobal, r)
    requires Lossless(s.cfg.lz) && FramesFit(s.cfg.lz) && BlobsSound(s.cfg.lz, s.stores.blobs) && step != FetchBlob(false)
    ensures Carries(Do(s, GetTo(c, step)), c, h, inGlobal, r)
  {
    if EntryOf(s.cfg, r).place.Stored? {
      FetchReadsBackExactlyWhen(s.cfg, s.stores.blobs, r);
    }
  }

  lemma LookupCarries(s: State, c: CallId, step: GetStep, inGlobal: bool) returns (r: Request)
    requires Inv(s) && Enabled(s, GetTo(c, step)) && LooksUp(step, inGlobal)
    requires (if inGlobal then s.gets[c].global else s.gets[c].extra) in s.stores.meta
    ensures var key := if inGlobal then s.gets[c].global else s.gets[c].extra;
            key in s.log.winner && s.log.winner[key] in s.log.landed && r == s.log.landed[s.log.winner[key]] && r.key == key
    ensures Carries(Do(s, GetTo(c, step)), c, s.gets[c].host, inGlobal, r)
  {
    GetIsSound(s, c);
    var key := if inGlobal then s.gets[c].global else s.gets[c].extra;
    r := s.log.landed[s.log.winner[key]];
  }

  lemma {:induction false} KeepsCarrying(run: seq<State>, steps: seq<Step>, i: nat, j: nat, c: CallId, h: Host, inGlobal: bool, r: Request)
    requires IsRun(run, steps) && Initial(run[0]) && Lossless(run[0].cfg.lz) && FramesFit(run[0].cfg.lz)
    requires i <= j < |run| && Carries(run[i], c, h, inGlobal, r)
    requires forall m {:trigger steps[m]} :: i <= m < j ==> steps[m] != CrashHost(h) && steps[m] != GetTo(c, FetchBlob(false))
    ensures Carries(run[j], c, h, inGlobal, r)
    decreases j
  {
    if i < j {
      KeepsCarrying(run, steps, i, j - 1, c, h, inGlobal, r);
      RunKeepsInv(run, steps, j - 1);
      hide Carries, Do, Enabled;
      CarriesOn(run[j - 1], steps[j - 1], c, h, inGlobal, r);
    }
  }

  // One lookup is enough: whether or not the other one fails, and whatever expires
  // meanwhile, a GET that found an item in the global namespace answers with its PUT, and
  // so does one that found one in the extra namespace and none in the global one; only a
  // failing read of the blob prevents it.
  lemma OneLookupSuffices(run: seq<State>, steps: seq<Step>, i: nat, j: nat, c: CallId, inGlobal: bool) returns (r: Request)
    requires IsRun(run, steps) && Initial(run[0]) && Lossless(run[0].cfg.lz) && FramesFit(run[0].cfg.lz)
    requires i < j < |run| && steps[i].GetTo? && steps[i].reader == c && LooksUp(steps[i].getStep, inGlobal) && c in run[i].gets
    requires (if inGlobal then run[i].gets[c].global else run[i].gets[c].extra) in run[i].stores.meta
    requires forall m {:trigger steps[m]} :: i < m < j ==> steps[m] != CrashHost(run[i].gets[c].host) && steps[m] != GetTo(c, FetchBlob(false))
    requires c in run[j].gets && run[j].gets[c].phase.GetDone? && (!inGlobal ==> !run[j].gets[c].foundGlobal)
    ensures var key := if inGlobal then run[i].gets[c].global else run[i].gets[c].extra;
            key in run[i].log.winner && run[i].log.winner[key] in run[i].log.landed && r == run[i].log.landed[run[i].log.winner[key]]
    ensures run[j].gets[c].phase.answer == AnswerOf(r)
  {
    RunKeepsInv(run, steps, i);
    assert Enabled(run[i], steps[i]) && run[i + 1] == Do(run[i], steps[i]);
    r := LookupCarries(run[i], c, steps[i].getStep, inGlobal);
    KeepsCarrying(run, steps, i + 1, j, c, run[i].gets[c].host, inGlobal, r);
  }
}

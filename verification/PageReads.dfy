// Concurrent page reads of one snapshot. readPageData takes the snapshot's lock only to
// look a page up; the slot, the cache, the hash table and the base image are consulted
// later, one access at a time, while writes, trims and the other users of the cache and
// of the base image go on. A read still returns the page as it was at the lookup.
module PageReads {
  import opened Pages
  import opened RecencyList
  import opened Bytes
  import opened Snapshots

  type Page = seq<Byte>
  type Thread = nat

  // Where a call of readPageData stands.
  datatype Point =
    | DirtyCache(info: DirtyPageInfo)   // about to try the cache for a dirty page
    | DirtyFile(info: DirtyPageInfo)    // about to read its slot
    | DirtyStore(info: DirtyPageInfo, buf: Page)
    | BaseHash                          // about to look the base page's hash up
    | BaseCache(h: PageHash)            // about to try the cache for a base page
    | BaseDisk
    | BaseNote(buf: Page)               // about to record the hash
    | BaseStore(buf: Page)
    | Done(buf: Page)

  // A call for a page. was is what the page held when the call looked it up, which the
  // code does not keep.
  datatype Call = Call(page: nat, was: Page, at: Point)

  datatype State = State(
    ps: nat,
    base: seq<Byte>,
    caching: bool,
    maxPages: nat,
    lru: seq<CacheEntry>,
    pageHashes: map<nat, PageHash>,
    dirtyPages: map<nat, DirtyPageInfo>,
    dirtyFile: seq<Byte>,
    nextDirtyNum: nat,
    reading: map<Thread, Call>,
    stores: map<Thread, Page>)  // writers between their critical section and cache.Put

  function PageBytes(s: State, n: nat): Page {
    if n in s.dirtyPages then PageAt(s.dirtyFile, s.dirtyPages[n].dirtyNum * s.ps, s.ps)
    else PageAt(s.base, n * s.ps, s.ps)
  }

  datatype Step =
    | StartRead(t: Thread, page: nat)      // the locked map lookup
    | Continue(t: Thread)                  // the next access of a read under way
    | WriteLocked(t: Thread, page: nat, data: Page, upto: nat)  // WriteAt's critical section, failing if upto < ps
    | WriterStores(t: Thread)
    | TrimLocked(first: nat, end: nat)     // handleTrim's critical section
    | OthersGet(h: PageHash)               // other snapshots on the shared cache ...
    | OthersPut(data: Page)
    | OthersNote(page: nat)                // ... and on the shared hash table

  predicate Enabled(s: State, step: Step) {
    match step
    case StartRead(t, _) => t !in s.reading || s.reading[t].at.Done?
    case Continue(t) => t in s.reading && !s.reading[t].at.Done?
    case WriteLocked(t, _, data, upto) => |data| == s.ps && upto <= s.ps && t !in s.stores
    case WriterStores(t) => t in s.stores
    case TrimLocked(_, _) => true
    case OthersGet(_) => s.caching
    case OthersPut(_) => s.caching
    case OthersNote(_) => s.caching
  }

  function Do(s: State, step: Step): State
    requires Enabled(s, step)
  {
    match step
    case StartRead(t, page) =>
      var was := PageBytes(s, page);
      var at := if page in s.dirtyPages then
                  if s.caching then DirtyCache(s.dirtyPages[page]) else DirtyFile(s.dirtyPages[page])
                else if s.caching then BaseHash else BaseDisk;
      s.(reading := s.reading[t := Call(page, was, at)])
    case Continue(t) =>
      var call := s.reading[t];
      var (s', at) := Access(s, call.page, call.at);
      s'.(reading := s.reading[t := call.(at := at)])
    case WriteLocked(t, page, data, upto) =>
      var taken := TakeSlot(s, data[..upto]);
      if upto < s.ps then taken
      else
        var h := if s.caching then HashPage(data) else Unset;
        taken.(dirtyPages := s.dirtyPages[page := DirtyPageInfo(h, s.nextDirtyNum)],
               stores := if s.caching then s.stores[t := data] else s.stores)
    case WriterStores(t) =>
      var data := s.stores[t];
      s.(lru := Stored(s.lru, s.maxPages, HashPage(data), data), stores := s.stores - {t})
    case TrimLocked(first, end) =>
      s.(dirtyPages := map n | n in s.dirtyPages && !(first <= n < end) :: s.dirtyPages[n])
    case OthersGet(h) => s.(lru := Touched(s.lru, h))
    case OthersPut(data) => s.(lru := Stored(s.lru, s.maxPages, HashPage(data), data))
    case OthersNote(page) =>
      if page in s.pageHashes then s
      else s.(pageHashes := s.pageHashes[page := HashPage(PageAt(s.base, page * s.ps, s.ps))])
  }

  function TakeSlot(s: State, data: Page): State {
    s.(nextDirtyNum := s.nextDirtyNum + 1, dirtyFile := Overwritten(s.dirtyFile, data, s.nextDirtyNum * s.ps))
  }

  function Access(s: State, page: nat, at: Point): (State, Point)
    requires !at.Done?
  {
    match at
    case DirtyCache(info) =>
      (s.(lru := Touched(s.lru, info.hash)),
       if Has(s.lru, info.hash) then Done(EntryOf(s.lru, info.hash).data) else DirtyFile(info))
    case DirtyFile(info) =>
      var buf := PageAt(s.dirtyFile, info.dirtyNum * s.ps, s.ps);
      (s, if s.caching then DirtyStore(info, buf) else Done(buf))
    case DirtyStore(info, buf) =>
      (s.(lru := Stored(s.lru, s.maxPages, info.hash, buf)), Done(buf))
    case BaseHash =>
      (s, if page in s.pageHashes then BaseCache(s.pageHashes[page]) else BaseDisk)
    case BaseCache(h) =>
      (s.(lru := Touched(s.lru, h)), if Has(s.lru, h) then Done(EntryOf(s.lru, h).data) else BaseDisk)
    case BaseDisk =>
      var buf := PageAt(s.base, page * s.ps, s.ps);
      (s, if s.caching then BaseNote(buf) else Done(buf))
    case BaseNote(buf) =>
      (if page in s.pageHashes then s else s.(pageHashes := s.pageHashes[page := HashPage(buf)]), BaseStore(buf))
    case BaseStore(buf) =>
      (s.(lru := Stored(s.lru, s.maxPages, HashPage(buf), buf)), Done(buf))
  }

  // A slot some page is or was mapped to still holds the page it was written with.
  ghost predicate Holds(s: State, info: DirtyPageInfo, was: Page) {
    SlotWritten(info, s.dirtyFile, s.nextDirtyNum, s.ps, s.caching) &&
    PageAt(s.dirtyFile, info.dirtyNum * s.ps, s.ps) == was
  }

  ghost predicate OnCourse(s: State, page: nat, was: Page, at: Point) {
    match at
    case DirtyCache(info) => s.caching && Holds(s, info, was)
    case DirtyFile(info) => Holds(s, info, was)
    case DirtyStore(info, buf) => info.hash == Sha(was) && buf == was
    case BaseHash => was == PageAt(s.base, page * s.ps, s.ps)
    case BaseCache(h) => was == PageAt(s.base, page * s.ps, s.ps) && h == Sha(was)
    case BaseDisk => was == PageAt(s.base, page * s.ps, s.ps)
    case BaseNote(buf) => was == PageAt(s.base, page * s.ps, s.ps) && buf == was
    case BaseStore(buf) => buf == was
    case Done(buf) => buf == was
  }

  ghost predicate CallOnCourse(s: State, call: Call) {
    OnCourse(s, call.page, call.was, call.at)
  }

  ghost predicate Inv(s: State) {
    && ContentAddressed(s.lru)
    && (forall n :: n in s.pageHashes ==> s.pageHashes[n] == Sha(PageAt(s.base, n * s.ps, s.ps)))
    && (forall n :: n in s.dirtyPages ==>
                      SlotWritten(s.dirtyPages[n], s.dirtyFile, s.nextDirtyNum, s.ps, s.caching))
    && (forall t :: t in s.reading ==> CallOnCourse(s, s.reading[t]))
  }

  lemma CacheHit(lru: seq<CacheEntry>, h: PageHash)
    requires ContentAddressed(lru) && Has(lru, h)
    ensures h == Sha(EntryOf(lru, h).data)
  {
  }

  lemma NewSlot(file: seq<Byte>, data: Page, at: nat)
    requires data != []
    ensures PageAt(Overwritten(file, data, at), at, |data|) == data
    ensures at + |data| <= |Overwritten(file, data, at)|
  {
  }

  // What a call relies on survives any step that leaves the written slots alone.
  lemma StaysOnCourse(s: State, s': State, call: Call)
    requires CallOnCourse(s, call)
    requires s'.ps == s.ps && s'.base == s.base && s'.caching == s.caching
    requires forall info, was :: Holds(s, info, was) ==> Holds(s', info, was)
    ensures CallOnCourse(s', call)
  {
  }

  lemma TakeSlotKeepsInv(s: State, data: Page)
    requires |data| <= s.ps && Inv(s)
    ensures Inv(TakeSlot(s, data))
  {
    var s' := TakeSlot(s, data);
    forall info, was | Holds(s, info, was) ensures Holds(s', info, was) {
      SlotsNeverReused(info, s.dirtyFile, s.nextDirtyNum, s.ps, s.caching, data);
    }
    forall n | n in s.dirtyPages
      ensures SlotWritten(s.dirtyPages[n], s'.dirtyFile, s'.nextDirtyNum, s.ps, s.caching)
    {
      SlotsNeverReused(s.dirtyPages[n], s.dirtyFile, s.nextDirtyNum, s.ps, s.caching, data);
    }
    forall u | u in s'.reading ensures CallOnCourse(s', s'.reading[u]) {
      StaysOnCourse(s, s', s.reading[u]);
    }
  }

  lemma WriteKeepsInv(s: State, t: Thread, page: nat, data: Page, upto: nat)
    requires s.ps > 0 && Inv(s) && Enabled(s, WriteLocked(t, page, data, upto))
    ensures Inv(Do(s, WriteLocked(t, page, data, upto)))
  {
    var taken := TakeSlot(s, data[..upto]);
    TakeSlotKeepsInv(s, data[..upto]);
    if upto == s.ps {
      var s' := Do(s, WriteLocked(t, page, data, upto));
      assert data[..upto] == data;
      NewSlot(s.dirtyFile, data, s.nextDirtyNum * s.ps);
      forall u | u in s'.reading ensures CallOnCourse(s', s'.reading[u]) {
        StaysOnCourse(taken, s', s.reading[u]);
      }
    }
  }

  lemma AccessOnCourse(s: State, page: nat, was: Page, at: Point)
    requires ContentAddressed(s.lru) && OnCourse(s, page, was, at) && !at.Done?
    requires page in s.pageHashes ==> s.pageHashes[page] == Sha(PageAt(s.base, page * s.ps, s.ps))
    ensures var (s', at') := Access(s, page, at);
            OnCourse(s, page, was, at') && ContentAddressed(s'.lru)
    ensures var (s', _) := Access(s, page, at);
            && s' == s.(lru := s'.lru, pageHashes := s'.pageHashes)
            && (s'.pageHashes == s.pageHashes ||
                s'.pageHashes == s.pageHashes[page := Sha(PageAt(s.base, page * s.ps, s.ps))])
  {
    match at {
      case DirtyCache(info) =>
        StaysContentAddressed(s.lru, s.maxPages, info.hash, []);
        if Has(s.lru, info.hash) { CacheHit(s.lru, info.hash); }
      case DirtyStore(info, buf) => StaysContentAddressed(s.lru, s.maxPages, info.hash, buf);
      case BaseCache(h) =>
        StaysContentAddressed(s.lru, s.maxPages, h, []);
        if Has(s.lru, h) { CacheHit(s.lru, h); }
      case BaseStore(buf) => StaysContentAddressed(s.lru, s.maxPages, HashPage(buf), buf);
      case _ =>
    }
  }

  lemma ContinueKeepsInv(s: State, t: Thread)
    requires Inv(s) && Enabled(s, Continue(t))
    ensures Inv(Do(s, Continue(t)))
  {
    var call := s.reading[t];
    var s' := Do(s, Continue(t));
    assert CallOnCourse(s, call);
    AccessOnCourse(s, call.page, call.was, call.at);
    forall u | u in s'.reading ensures CallOnCourse(s', s'.reading[u]) {
      assert CallOnCourse(s, s'.reading[u]);
      StaysOnCourse(s, s', s'.reading[u]);
    }
  }

  lemma StepKeepsInv(s: State, step: Step)
    requires s.ps > 0 && Inv(s) && Enabled(s, step)
    ensures Inv(Do(s, step)) && Do(s, step).ps == s.ps
  {
    match step {
      case Continue(t) => ContinueKeepsInv(s, t);
      case WriteLocked(t, page, data, upto) => WriteKeepsInv(s, t, page, data, upto);
      case _ => SimpleStepKeepsInv(s, step);
    }
  }

  lemma SimpleStepKeepsInv(s: State, step: Step)
    requires Inv(s) && Enabled(s, step) && !step.Continue? && !step.WriteLocked?
    ensures Inv(Do(s, step))
  {
    match step {
      case WriterStores(t) => StaysContentAddressed(s.lru, s.maxPages, HashPage(s.stores[t]), s.stores[t]);
      case OthersGet(h) => StaysContentAddressed(s.lru, s.maxPages, h, []);
      case OthersPut(data) => StaysContentAddressed(s.lru, s.maxPages, HashPage(data), data);
      case _ =>
    }
    var s' := Do(s, step);
    forall u | u in s'.reading ensures CallOnCourse(s', s'.reading[u]) {
      if u in s.reading && s'.reading[u] == s.reading[u] {
        StaysOnCourse(s, s', s.reading[u]);
      }
    }
  }

  // The states a run passes through, first to last.
  predicate IsRun(run: seq<State>, steps: seq<Step>) {
    && |run| == |steps| + 1
    && forall k {:trigger steps[k]} :: 0 <= k < |steps| ==> Enabled(run[k], steps[k]) && run[k + 1] == Do(run[k], steps[k])
  }

  // A server just started with nothing cached, written or under way.
  predicate Fresh(s: State) {
    s.ps > 0 && s.lru == [] && s.pageHashes == map[] && s.dirtyPages == map[] && s.reading == map[] && s.stores == map[]
  }

  lemma {:induction false} RunKeepsInv(run: seq<State>, steps: seq<Step>, k: nat)
    requires IsRun(run, steps) && Fresh(run[0]) && k < |run|
    ensures Inv(run[k]) && run[k].ps > 0
  {
    if k > 0 {
      RunKeepsInv(run, steps, k - 1);
      StepKeepsInv(run[k - 1], steps[k - 1]);
    }
  }

  predicate Remembers(s: State, t: Thread, n: nat, was: Page) {
    t in s.reading && s.reading[t].page == n && s.reading[t].was == was
  }

  // Nothing but its own next lookup makes a read forget what it looked up.
  lemma LookupRemembered(s: State, step: Step, t: Thread, n: nat, was: Page)
    requires Enabled(s, step) && Remembers(s, t, n, was) && !(step.StartRead? && step.t == t)
    ensures Remembers(Do(s, step), t, n, was)
  {
  }

  lemma {:induction false} LookupRememberedAlongRun(run: seq<State>, steps: seq<Step>, t: Thread, n: nat, i: nat, j: nat)
    requires IsRun(run, steps)
    requires i < j < |run| && steps[i] == StartRead(t, n)
    requires forall k :: i < k < j ==> !(steps[k].StartRead? && steps[k].t == t)
    ensures Remembers(run[j], t, n, PageBytes(run[i], n))
  {
    var s, step := run[j - 1], steps[j - 1];
    assert run[j] == Do(s, step);
    if i + 1 < j {
      LookupRememberedAlongRun(run, steps, t, n, i, j - 1);
      LookupRemembered(s, step, t, n, PageBytes(run[i], n));
    }
  }

  // In every run, whatever goes on meanwhile, a read that looks page n up in state i and
  // is finished in state j has the contents page n had in state i.
  lemma ReadsAsOfLookup(run: seq<State>, steps: seq<Step>, t: Thread, n: nat, i: nat, j: nat)
    requires IsRun(run, steps) && Fresh(run[0])
    requires i < j < |run| && steps[i] == StartRead(t, n)
    requires forall k :: i < k < j ==> !(steps[k].StartRead? && steps[k].t == t)
    ensures t in run[j].reading
    ensures run[j].reading[t].at.Done? ==> run[j].reading[t].at.buf == PageBytes(run[i], n)
  {
    LookupRememberedAlongRun(run, steps, t, n, i, j);
    RunKeepsInv(run, steps, j);
    assert CallOnCourse(run[j], run[j].reading[t]);
  }

  // ---- what a page holds ----

  // The page as the writes and trims of a run made it, with no slots and no map.
  function PageAfter(base: seq<Byte>, ps: nat, steps: seq<Step>, n: nat, k: nat): Page
    requires k <= |steps|
  {
    if k == 0 then PageAt(base, n * ps, ps)
    else
      match steps[k - 1]
      case WriteLocked(_, page, data, upto) => if page == n && upto == ps then data else PageAfter(base, ps, steps, n, k - 1)
      case TrimLocked(first, end) => if first <= n < end then PageAt(base, n * ps, ps) else PageAfter(base, ps, steps, n, k - 1)
      case _ => PageAfter(base, ps, steps, n, k - 1)
  }

  lemma OneStepChangesPage(s: State, step: Step, n: nat)
    requires s.ps > 0 && Inv(s) && Enabled(s, step)
    ensures Do(s, step).ps == s.ps && Do(s, step).base == s.base
    ensures PageBytes(Do(s, step), n) ==
            match step
            case WriteLocked(_, page, data, upto) => if page == n && upto == s.ps then data else PageBytes(s, n)
            case TrimLocked(first, end) => if first <= n < end then PageAt(s.base, n * s.ps, s.ps) else PageBytes(s, n)
            case _ => PageBytes(s, n)
  {
    match step
    case WriteLocked(t, page, data, upto) => WriteChangesPage(s, t, page, data, upto, n);
    case Continue(t) =>
      assert CallOnCourse(s, s.reading[t]);
      AccessOnCourse(s, s.reading[t].page, s.reading[t].was, s.reading[t].at);
      hide Access, OnCourse, CallOnCourse;
    case _ => hide Access, OnCourse, CallOnCourse, TakeSlot, Stored, Touched;
  }

  lemma WriteChangesPage(s: State, t: Thread, page: nat, data: Page, upto: nat, n: nat)
    requires s.ps > 0 && Inv(s) && Enabled(s, WriteLocked(t, page, data, upto))
    ensures PageBytes(Do(s, WriteLocked(t, page, data, upto)), n) == if page == n && upto == s.ps then data else PageBytes(s, n)
  {
    hide CallOnCourse, OnCourse, Overwritten, PageAt, Access;
    if n in s.dirtyPages {
      SlotsNeverReused(s.dirtyPages[n], s.dirtyFile, s.nextDirtyNum, s.ps, s.caching, data[..upto]);
    }
    if upto == s.ps {
      assert data[..upto] == data;
      NewSlot(s.dirtyFile, data, s.nextDirtyNum * s.ps);
    }
  }

  // In every state of every run a page holds what the last write or trim of it made it, and
  // so a read that is finished returns what that was when it looked the page up.
  lemma {:induction false} PagesAsWritten(run: seq<State>, steps: seq<Step>, n: nat, k: nat)
    requires IsRun(run, steps) && Fresh(run[0]) && k < |run|
    ensures run[k].ps == run[0].ps && run[k].base == run[0].base
    ensures PageBytes(run[k], n) == PageAfter(run[0].base, run[0].ps, steps, n, k)
  {
    if k > 0 {
      PagesAsWritten(run, steps, n, k - 1);
      RunKeepsInv(run, steps, k - 1);
      assert Enabled(run[k - 1], steps[k - 1]) && run[k] == Do(run[k - 1], steps[k - 1]);
      OneStepChangesPage(run[k - 1], steps[k - 1], n);
    }
  }

  // ---- that reads end ----

  function StepsLeft(at: Point): nat {
    match at
    case DirtyCache(_) => 3
    case DirtyFile(_) => 2
    case DirtyStore(_, _) => 1
    case BaseHash => 5
    case BaseCache(_) => 4
    case BaseDisk => 3
    case BaseNote(_) => 2
    case BaseStore(_) => 1
    case Done(_) => 0
  }

  function OwnSteps(steps: seq<Step>, t: Thread, i: nat, j: nat): nat
    requires i <= j <= |steps|
    decreases j - i
  {
    if i == j then 0 else OwnSteps(steps, t, i, j - 1) + if steps[j - 1] == Continue(t) then 1 else 0
  }

  lemma ReadGoesOn(s: State, step: Step, t: Thread)
    requires Enabled(s, step) && t in s.reading && !(step.StartRead? && step.t == t)
    ensures t in Do(s, step).reading
    ensures StepsLeft(Do(s, step).reading[t].at) + (if step == Continue(t) then 1 else 0) <= StepsLeft(s.reading[t].at)
  {
    hide Stored, Touched, PageAt, Overwritten;
    if step == Continue(t) {
      AccessGoesOn(s, s.reading[t].page, s.reading[t].at);
      hide Access;
    }
  }

  lemma AccessGoesOn(s: State, page: nat, at: Point)
    requires !at.Done?
    ensures StepsLeft(Access(s, page, at).1) < StepsLeft(at) && Access(s, page, at).0.reading == s.reading
  {
  }

  // With a cache, a page that was read, or written, is first in it when that is done.
  lemma FinishedIsCached(s: State, t: Thread)
    requires Inv(s) && s.caching && s.maxPages > 0
    ensures Enabled(s, Continue(t)) && Do(s, Continue(t)).reading[t].at.Done? ==>
              var s' := Do(s, Continue(t)); s'.lru != [] && s'.lru[0].hash == Sha(s.reading[t].was)
    ensures Enabled(s, WriterStores(t)) ==>
              var s' := Do(s, WriterStores(t)); s'.lru != [] && s'.lru[0].hash == Sha(s.stores[t])
  {
    hide Access, OnCourse;
    if Enabled(s, Continue(t)) {
      assert CallOnCourse(s, s.reading[t]);
      AccessCaches(s, s.reading[t].page, s.reading[t].was, s.reading[t].at);
    }
  }

  lemma AccessCaches(s: State, page: nat, was: Page, at: Point)
    requires ContentAddressed(s.lru) && s.caching && s.maxPages > 0 && !at.Done? && OnCourse(s, page, was, at)
    ensures var (s', at') := Access(s, page, at);
            at'.Done? ==> s'.lru != [] && s'.lru[0].hash == Sha(was)
  {
    if at.DirtyCache? && Has(s.lru, at.info.hash) {
      CacheHit(s.lru, at.info.hash);
    }
  }

  // A read is finished with its fifth access at the latest, with the page as the last write
  // or trim before its lookup left it.
  lemma {:induction false} ReadEnds(run: seq<State>, steps: seq<Step>, t: Thread, n: nat, i: nat, j: nat)
    requires IsRun(run, steps) && i < j < |run| && steps[i] == StartRead(t, n)
    requires forall k :: i < k < j ==> !(steps[k].StartRead? && steps[k].t == t)
    ensures t in run[j].reading && StepsLeft(run[j].reading[t].at) + OwnSteps(steps, t, i + 1, j) <= 5
    ensures !run[j].reading[t].at.Done? ==> Enabled(run[j], Continue(t))
    decreases j
  {
    assert Enabled(run[j - 1], steps[j - 1]) && run[j] == Do(run[j - 1], steps[j - 1]);
    if i + 1 < j {
      ReadEnds(run, steps, t, n, i, j - 1);
      ReadGoesOn(run[j - 1], steps[j - 1], t);
    }
  }

  lemma FinishedReads(run: seq<State>, steps: seq<Step>, t: Thread, n: nat, i: nat, j: nat)
    requires IsRun(run, steps) && Fresh(run[0]) && i < j < |run| && steps[i] == StartRead(t, n)
    requires forall k :: i < k < j ==> !(steps[k].StartRead? && steps[k].t == t)
    requires OwnSteps(steps, t, i + 1, j) >= 5
    ensures t in run[j].reading && run[j].reading[t].at == Done(PageAfter(run[0].base, run[0].ps, steps, n, i))
  {
    hide Do, Enabled, PageBytes, PageAfter;
    ReadEnds(run, steps, t, n, i, j);
    ReadsAsOfLookup(run, steps, t, n, i, j);
    PagesAsWritten(run, steps, n, i);
  }
}

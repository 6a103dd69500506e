// The sweep over directories of files does to the files what the sweep steps of the put
// queue's runs do to its disk.
module DirectorySweep {
  import opened Wrappers
  import opened Pages
  import opened BlobFormat
  import opened PutPipeline
  import opened PutPipelineSafety
  import opened PutPipelineRuns
  import opened IntentNames
  import Hex

  // How digests are written: in 64 digits, which are too few for all contents to differ.
  type HexOf = Digest -> string

  ghost predicate WritesDigests(hex: HexOf) {
    forall h :: |hex(h)| == 64 && Hex.AllLower(hex(h))
  }

  // What SHA-256 is relied on for: those that occur do differ.
  ghost predicate NoCollision(hex: HexOf, ds: set<Digest>) {
    forall g, h :: g in ds && h in ds && hex(g) == hex(h) ==> g == h
  }

  // The digests that a disk and the content in flight mention.
  function Mentioned(d: Disk, inFlight: set<Digest>): set<Digest> {
    (set n | n in d.main :: n.sha) + (set i | i in d.intents :: i.name.sha) + d.blobs.Keys + inFlight
  }

  function FileName(hex: HexOf, n: BlobName): string {
    if n.lz4 then hex(n.sha) + ".lz4" else hex(n.sha)
  }

  ghost function PathOf(hex: HexOf, i: Intent): Path
    requires WritesDigests(hex)
  {
    Path(FileName(hex, i.name)[..2], IntentName(i.due, FileName(hex, i.name)))
  }

  lemma FileNames(hex: HexOf, n: BlobName)
    requires WritesDigests(hex)
    ensures |FileName(hex, n)| >= 64 && IsBlobName(FileName(hex, n)) && ShaOf(FileName(hex, n)) == hex(n.sha)
    ensures IsLZ4(FileName(hex, n)) <==> n.lz4
  {
    var s := hex(n.sha);
    if n.lz4 {
      assert (s + ".lz4")[|s|..] == ".lz4" && (s + ".lz4")[..|s|] == s;
    } else {
      assert Hex.IsLower(s[60]) && !Hex.IsLower('.');
      assert s[60..][0] == s[60];
    }
  }

  lemma FileNamesDiffer(hex: HexOf, ds: set<Digest>, m: BlobName, n: BlobName)
    requires WritesDigests(hex) && NoCollision(hex, ds) && m.sha in ds && n.sha in ds && FileName(hex, m) == FileName(hex, n)
    ensures m == n
  {
    FileNames(hex, m);
    FileNames(hex, n);
  }

  // The disk and the content in flight, as files and names.
  ghost function StoreOf(hex: HexOf, d: Disk, inFlight: set<Digest>): Store
    requires WritesDigests(hex)
  {
    Store(set n | n in d.main :: FileName(hex, n),
          set i | i in d.intents :: PathOf(hex, i),
          set h | h in d.blobs :: hex(h),
          set h | h in inFlight :: hex(h))
  }

  ghost predicate DueTimesFit(d: Disk) {
    forall i :: i in d.intents ==> 0 <= i.due < 0x1_0000_0000
  }

  ghost function TaskFor(hex: HexOf, i: Intent): Task
    requires WritesDigests(hex)
  {
    Task(PathOf(hex, i), FileName(hex, i.name))
  }

  // An intent's file is read back as that intent.
  lemma IntentEntry(hex: HexOf, i: Intent)
    requires WritesDigests(hex) && 0 <= i.due < 0x1_0000_0000
    ensures ParseCleanupIntent(PathOf(hex, i).name) == Some(Due(i.due, FileName(hex, i.name)))
    ensures IsShardName(PathOf(hex, i).dir)
  {
    FileNames(hex, i.name);
    ParseInvertsFormat(i.due, FileName(hex, i.name));
    assert FileName(hex, i.name)[..2] == hex(i.name.sha)[..2];
  }

  lemma PathsDiffer(hex: HexOf, ds: set<Digest>, i: Intent, j: Intent)
    requires WritesDigests(hex) && NoCollision(hex, ds) && i.name.sha in ds && j.name.sha in ds
    requires 0 <= i.due < 0x1_0000_0000 && 0 <= j.due < 0x1_0000_0000
    requires PathOf(hex, i).name == PathOf(hex, j).name
    ensures i == j
  {
    IntentEntry(hex, i);
    IntentEntry(hex, j);
    FileNamesDiffer(hex, ds, i.name, j.name);
  }

  // The listings show the disk's intents, each in its shard directory, and no other.
  ghost predicate Lists(hex: HexOf, root: seq<DirEntry>, sub: map<string, seq<DirEntry>>, d: Disk)
    requires WritesDigests(hex)
  {
    && (forall ent :: ent in root ==> !IsIntent(ent))
    && (forall s, ent :: s in sub && ent in sub[s] && IsIntent(ent) ==>
          exists i :: i in d.intents && PathOf(hex, i) == Path(s, ent.name))
    && (forall i :: i in d.intents ==>
          var p := PathOf(hex, i);
          p.dir in sub && DirEntry(p.dir, true) in root && DirEntry(p.name, false) in sub[p.dir])
  }

  lemma {:induction false} DueInMembers(dir: string, ents: seq<DirEntry>, now: int)
    ensures forall t :: t in DueIn(dir, ents, now) <==> exists ent :: ent in ents && IsDue(ent, now) && t == TaskOf(dir, ent)
  {
    if ents != [] {
      DueInMembers(dir, ents[..|ents| - 1], now);
      assert ents == ents[..|ents| - 1] + [ents[|ents| - 1]];
    }
  }

  lemma {:induction false} DueInShardsMembers(root: seq<DirEntry>, sub: map<string, seq<DirEntry>>, now: int)
    ensures forall t :: t in DueInShards(root, sub, now) <==>
              exists ent :: ent in root && IsShardDir(ent, sub) && t in DueIn(ent.name, sub[ent.name], now)
  {
    if root != [] {
      DueInShardsMembers(root[..|root| - 1], sub, now);
      assert root == root[..|root| - 1] + [root[|root| - 1]];
    }
  }

  function TasksOf(root: seq<DirEntry>, sub: map<string, seq<DirEntry>>, now: int): seq<Task> {
    DueIn("", root, now) + DueInShards(root, sub, now)
  }

  // due is the disk's intents that are due, in whatever order.
  ghost predicate DueOnes(d: Disk, now: int, due: seq<Intent>) {
    forall i :: i in due <==> i in d.intents && i.due <= now
  }

  // The tasks of the listings are those of the disk's due intents.
  lemma TasksMatch(hex: HexOf, root: seq<DirEntry>, sub: map<string, seq<DirEntry>>, d: Disk, now: int, due: seq<Intent>)
    requires WritesDigests(hex) && Lists(hex, root, sub, d) && DueTimesFit(d) && DueOnes(d, now, due)
    ensures forall t :: t in TasksOf(root, sub, now) <==> exists i :: i in due && t == TaskFor(hex, i)
  {
    DueInMembers("", root, now);
    DueInShardsMembers(root, sub, now);
    forall t | t in TasksOf(root, sub, now) ensures exists i :: i in due && t == TaskFor(hex, i) {
      TaskHasIntent(hex, root, sub, d, now, due, t);
    }
    forall i | i in due ensures TaskFor(hex, i) in TasksOf(root, sub, now) {
      IntentHasTask(hex, root, sub, d, now, i);
    }
  }

  lemma TaskHasIntent(hex: HexOf, root: seq<DirEntry>, sub: map<string, seq<DirEntry>>, d: Disk, now: int, due: seq<Intent>, t: Task)
    requires WritesDigests(hex) && Lists(hex, root, sub, d) && DueTimesFit(d) && DueOnes(d, now, due)
    requires t in TasksOf(root, sub, now)
    ensures exists i :: i in due && t == TaskFor(hex, i)
  {
    DueInMembers("", root, now);
    DueInShardsMembers(root, sub, now);
    var ent :| ent in root && IsShardDir(ent, sub) && t in DueIn(ent.name, sub[ent.name], now);
    DueInMembers(ent.name, sub[ent.name], now);
    var e :| e in sub[ent.name] && IsDue(e, now) && t == TaskOf(ent.name, e);
    var i :| i in d.intents && PathOf(hex, i) == Path(ent.name, e.name);
    IntentEntry(hex, i);
    assert i in due && t == TaskFor(hex, i);
  }

  lemma IntentHasTask(hex: HexOf, root: seq<DirEntry>, sub: map<string, seq<DirEntry>>, d: Disk, now: int, i: Intent)
    requires WritesDigests(hex) && Lists(hex, root, sub, d) && DueTimesFit(d) && i in d.intents && i.due <= now
    ensures TaskFor(hex, i) in TasksOf(root, sub, now)
  {
    var p := PathOf(hex, i);
    IntentEntry(hex, i);
    DueInShardsMembers(root, sub, now);
    DueInMembers(p.dir, sub[p.dir], now);
    var e := DirEntry(p.name, false);
    assert e in sub[p.dir] && IsDue(e, now) && TaskFor(hex, i) == TaskOf(p.dir, e);
    assert DirEntry(p.dir, true) in root && IsShardDir(DirEntry(p.dir, true), sub);
  }

  // Handling the due intents of the directories leaves the files of the disk that a pass
  // over these intents leaves.
  lemma DirectorySweepIsPass(hex: HexOf, root: seq<DirEntry>, sub: map<string, seq<DirEntry>>, d: Disk, inFlight: set<Digest>,
                             now: int, due: seq<Intent>)
    requires WritesDigests(hex) && NoCollision(hex, Mentioned(d, inFlight))
    requires Lists(hex, root, sub, d) && DueTimesFit(d) && DueOnes(d, now, due)
    ensures HandleAll(StoreOf(hex, d, inFlight), TasksOf(root, sub, now), Stuck({}, {})) ==
            StoreOf(hex, SweepAll(d, inFlight, due), inFlight)
  {
    var s, todo := StoreOf(hex, d, inFlight), TasksOf(root, sub, now);
    var swept := SweepAll(d, inFlight, due);
    var after, other := HandleAll(s, todo, Stuck({}, {})), StoreOf(hex, swept, inFlight);
    TasksMatch(hex, root, sub, d, now, due);
    HandledExactly(s, todo, Stuck({}, {}));
    SweepIsExact(d, inFlight, due);
    forall blob ensures blob in after.main <==> blob in other.main {
      MainMatches(hex, d, inFlight, todo, due, blob);
    }
    forall p ensures p in after.intents <==> p in other.intents {
      IntentsMatch(hex, d, inFlight, todo, due, p);
    }
    assert after.main == other.main && after.intents == other.intents;
    assert after.rows == other.rows && after.inFlight == other.inFlight;
  }

  ghost predicate Matches(hex: HexOf, todo: seq<Task>, due: seq<Intent>)
    requires WritesDigests(hex)
  {
    forall t :: t in todo <==> exists i :: i in due && t == TaskFor(hex, i)
  }

  lemma RowsMatch(hex: HexOf, d: Disk, inFlight: set<Digest>, n: BlobName)
    requires WritesDigests(hex) && NoCollision(hex, Mentioned(d, inFlight)) && n.sha in Mentioned(d, inFlight)
    ensures var s := StoreOf(hex, d, inFlight);
            && (ShaOf(FileName(hex, n)) in s.rows <==> n.sha in d.blobs)
            && (ShaOf(FileName(hex, n)) in s.inFlight <==> n.sha in inFlight)
  {
    FileNames(hex, n);
  }

  lemma MainMatches(hex: HexOf, d: Disk, inFlight: set<Digest>, todo: seq<Task>, due: seq<Intent>, blob: string)
    requires WritesDigests(hex) && NoCollision(hex, Mentioned(d, inFlight))
    requires Matches(hex, todo, due) && forall i :: i in due ==> i in d.intents
    ensures var (s, after) := (StoreOf(hex, d, inFlight), SweepAll(d, inFlight, due));
            (blob in s.main && !(Names(todo, blob) && ShaOf(blob) !in s.rows && ShaOf(blob) !in s.inFlight)) <==>
            exists n :: n in after.main && blob == FileName(hex, n)
  {
    SweepIsExact(d, inFlight, due);
    forall n | n in d.main && blob == FileName(hex, n)
      ensures Names(todo, blob) <==> Named(due, n)
    {
      NamesMatch(hex, Mentioned(d, inFlight), todo, due, n);
      RowsMatch(hex, d, inFlight, n);
    }
    forall n | n in d.main && blob == FileName(hex, n) ensures forall m :: m in d.main && blob == FileName(hex, m) ==> m == n {
      forall m | m in d.main && blob == FileName(hex, m) ensures m == n {
        FileNamesDiffer(hex, Mentioned(d, inFlight), m, n);
      }
    }
    if n :| n in d.main && blob == FileName(hex, n) {
      RowsMatch(hex, d, inFlight, n);
    }
  }

  lemma NamesMatch(hex: HexOf, ds: set<Digest>, todo: seq<Task>, due: seq<Intent>, n: BlobName)
    requires WritesDigests(hex) && Matches(hex, todo, due)
    requires NoCollision(hex, ds) && n.sha in ds && forall i :: i in due ==> i.name.sha in ds
    ensures Names(todo, FileName(hex, n)) <==> Named(due, n)
  {
    if Names(todo, FileName(hex, n)) {
      var k :| 0 <= k < |todo| && todo[k].blob == FileName(hex, n);
      assert todo[k] in todo;
      var i :| i in due && todo[k] == TaskFor(hex, i);
      FileNamesDiffer(hex, ds, i.name, n);
      var j :| 0 <= j < |due| && due[j] == i;
      assert due[j].name == n;
    }
    if Named(due, n) {
      var j :| 0 <= j < |due| && due[j].name == n;
      assert TaskFor(hex, due[j]) in todo;
      var k :| 0 <= k < |todo| && todo[k] == TaskFor(hex, due[j]);
      assert todo[k].blob == FileName(hex, n);
    }
  }

  lemma IntentsMatch(hex: HexOf, d: Disk, inFlight: set<Digest>, todo: seq<Task>, due: seq<Intent>, p: Path)
    requires WritesDigests(hex) && NoCollision(hex, Mentioned(d, inFlight))
    requires Matches(hex, todo, due) && DueTimesFit(d) && forall i :: i in due ==> i in d.intents
    ensures var (s, after) := (StoreOf(hex, d, inFlight), SweepAll(d, inFlight, due));
            (p in s.intents && !Discards(s, todo, p, Stuck({}, {}))) <==> exists i :: i in after.intents && p == PathOf(hex, i)
  {
    var s := StoreOf(hex, d, inFlight);
    SweepIsExact(d, inFlight, due);
    forall i | i in d.intents && p == PathOf(hex, i)
      ensures Discards(s, todo, p, Stuck({}, {})) <==> i in due && !(i.name.sha !in d.blobs && i.name.sha in inFlight)
      ensures forall j :: j in d.intents && p == PathOf(hex, j) ==> j == i
    {
      DiscardsMatch(hex, d, inFlight, todo, due, i);
      forall j | j in d.intents && p == PathOf(hex, j) ensures j == i {
        PathsDiffer(hex, Mentioned(d, inFlight), i, j);
      }
    }
  }

  lemma DiscardsMatch(hex: HexOf, d: Disk, inFlight: set<Digest>, todo: seq<Task>, due: seq<Intent>, i: Intent)
    requires WritesDigests(hex) && NoCollision(hex, Mentioned(d, inFlight))
    requires Matches(hex, todo, due) && DueTimesFit(d) && i in d.intents
    requires forall j :: j in due ==> j in d.intents
    ensures Discards(StoreOf(hex, d, inFlight), todo, PathOf(hex, i), Stuck({}, {})) <==>
            i in due && !(i.name.sha !in d.blobs && i.name.sha in inFlight)
  {
    var s, p := StoreOf(hex, d, inFlight), PathOf(hex, i);
    RowsMatch(hex, d, inFlight, i.name);
    if k :| 0 <= k < |todo| && todo[k].path == p && !Kept(s, todo[k].blob, Stuck({}, {})) {
      assert todo[k] in todo;
      var j :| j in due && todo[k] == TaskFor(hex, j);
      PathsDiffer(hex, Mentioned(d, inFlight), i, j);
    }
    if i in due {
      assert TaskFor(hex, i) in todo;
      var k :| 0 <= k < |todo| && todo[k] == TaskFor(hex, i);
      assert todo[k].path == p && todo[k].blob == FileName(hex, i.name);
    }
  }

  // The directory sweep and a pass of sweep steps in a run, from the same state over the
  // same due intents, end with the same files.
  lemma DirectorySweepIsRunPass(hex: HexOf, root: seq<DirEntry>, sub: map<string, seq<DirEntry>>, now: int,
                                run: seq<State>, steps: seq<Step>, k: nat, e: nat)
    requires PutPipelineSafety.IsRun(run, steps) && OnePass(steps, k, e)
    requires WritesDigests(hex) && NoCollision(hex, Mentioned(run[k].disk, PendingShas(run[k])))
    requires Lists(hex, root, sub, run[k].disk) && DueTimesFit(run[k].disk)
    requires DueOnes(run[k].disk, now, Swept(steps, k, e))
    ensures HandleAll(StoreOf(hex, run[k].disk, PendingShas(run[k])), TasksOf(root, sub, now), Stuck({}, {})) ==
            StoreOf(hex, run[e].disk, PendingShas(run[e]))
  {
    PassIsSweepAll(run, steps, k, e);
    DirectorySweepIsPass(hex, root, sub, run[k].disk, PendingShas(run[k]), now, Swept(steps, k, e));
    assert PendingShas(run[e]) == PendingShas(run[k]);
  }

  // A directory sweep in a state of a run with nothing pending and every intent due, of
  // listings that show them, leaves exactly the files of committed blobs and no intent.
  lemma QuietDirectorySweep(hex: HexOf, root: seq<DirEntry>, sub: map<string, seq<DirEntry>>, now: int,
                            run: seq<State>, steps: seq<Step>, k: nat)
    requires PutPipelineSafety.IsRun(run, steps) && Initial(run[0]) && k < |run| && run[k].queue.pending == map[]
    requires WritesDigests(hex) && NoCollision(hex, Mentioned(run[k].disk, {}))
    requires Lists(hex, root, sub, run[k].disk) && DueTimesFit(run[k].disk)
    requires forall i :: i in run[k].disk.intents ==> i.due <= now
    ensures var (d, after) := (run[k].disk, HandleAll(StoreOf(hex, run[k].disk, {}), TasksOf(root, sub, now), Stuck({}, {})));
            && (forall blob :: blob in after.main <==> exists n :: n in d.main && n.sha in d.blobs && blob == FileName(hex, n))
            && after.intents == {}
  {
    var d := run[k].disk;
    var due := Listed(d.intents);
    DirectorySweepIsPass(hex, root, sub, d, {}, now, due);
    SweepIsExact(d, {}, due);
    PutPipelineSafety.RunKeepsInv(run, steps, k);
    forall n | n in d.main && n.sha !in d.blobs ensures Named(due, n) {
      var i :| i in d.intents && i.name == n;
      var j :| 0 <= j < |due| && due[j] == i;
      assert due[j].name == n;
    }
  }

  lemma Listed(s: set<Intent>) returns (list: seq<Intent>)
    ensures forall i :: i in list <==> i in s
  {
    list := [];
    var rest := s;
    while rest != {}
      invariant rest <= s && forall i :: i in list <==> i in s && i !in rest
    {
      var i :| i in rest;
      list, rest := list + [i], rest - {i};
    }
  }

  // ---- an orphan swept ----

  // A PUT of 1025 bytes that a crash cuts off once its blob is copied.
  function Orphan(): Put {
    Put(ActionKey(0, 0), seq(1025, _ => 0), Other(0))
  }

  function OrphanName(): BlobName {
    NameOf(Orphan().content)
  }

  function OrphanIntent(): Intent {
    Intent(CleanupIntentDelay, OrphanName())
  }

  function Begun(): State {
    State(Codec((c: seq<Byte>) => c, (c: seq<Byte>) => c), 0, Disk(map[], {}, map[], map[]), Queue(map[], map[], map[], {}), map[],
          Log(map[], {}, map[]))
  }

  // Its one entry, by the stage it is in.
  function Underway(stage: Stage, intents: set<Intent>, main: map<BlobName, seq<Byte>>): State {
    var path := if intents == {} then None else Some(OrphanIntent());
    var waiting := Waiting(stage);
    Begun().(disk := Disk(main, intents, map[], map[]),
             queue := Queue(if waiting then map[ActionKey(0, 0) := 0] else map[], map[0 := Job(stage, path)],
                            map[0 := Orphan().content], {}),
             log := Log(map[0 := Orphan()], if waiting then {ActionKey(0, 0)} else {}, map[]))
  }

  // What the crash leaves, an hour later, and after the sweep.
  function Left(now: int, swept: bool): State {
    Begun().(now := now,
             disk := if swept then Disk(map[], {}, map[], map[])
                     else Disk(map[OrphanName() := Orphan().content], {OrphanIntent()}, map[], map[]),
             log := Log(map[0 := Orphan()], {}, map[]))
  }

  lemma OrphanAccepted()
    ensures Enabled(Begun(), Spool(0, Orphan())) && Do(Begun(), Spool(0, Orphan())) == Underway(Hand, {}, map[])
    ensures Leads(Underway(Hand, {}, map[]), Insert, Underway(Entered, {}, map[]))
  {
  }

  lemma OrphanTaken()
    ensures Leads(Underway(Entered, {}, map[]), Send, Underway(AtMover, {}, map[]))
    ensures Leads(Underway(AtMover, {}, map[]), Take, Underway(Stating(1), {}, map[]))
  {
  }

  ghost predicate Leads(s: State, job: JobStep, s': State) {
    Enabled(s, JobTo(0, job)) && Do(s, JobTo(0, job)) == s'
  }

  lemma OrphanCopied()
    ensures Leads(Underway(Stating(1), {}, map[]), Stat(true), Underway(Recording(1), {}, map[]))
    ensures Leads(Underway(Recording(1), {}, map[]), WriteIntent(true, true), Underway(Copying(1), {OrphanIntent()}, map[]))
  {
  }

  lemma OrphanSettled()
    ensures Leads(Underway(Copying(1), {OrphanIntent()}, map[]), Copy(true, true),
                  Underway(Settled, {OrphanIntent()}, map[OrphanName() := Orphan().content]))
  {
  }

  lemma OrphanLeft()
    ensures var s := Underway(Settled, {OrphanIntent()}, map[OrphanName() := Orphan().content]);
            Enabled(s, Crash) && Do(s, Crash) == Left(0, false)
    ensures Enabled(Left(0, false), Tick(3600)) && Do(Left(0, false), Tick(3600)) == Left(3600, false)
    ensures var step := Sweep(OrphanIntent(), true, true);
            Enabled(Left(3600, false), step) && Do(Left(3600, false), step) == Left(3600, true)
  {
    assert Left(3600, false).disk.main - {OrphanName()} == map[];
  }

  // The hypotheses of the two results above can be met: a run, a way to write digests and
  // listings that meet them, with an orphan to sweep, and the orphan swept.
  lemma OrphanSwept() returns (hex: HexOf, root: seq<DirEntry>, sub: map<string, seq<DirEntry>>, run: seq<State>, steps: seq<Step>)
    ensures PutPipelineSafety.IsRun(run, steps) && Initial(run[0]) && |run| == 11 && run[9].queue.pending == map[]
    ensures OnePass(steps, 9, 10) && DueOnes(run[9].disk, 3600, Swept(steps, 9, 10))
    ensures WritesDigests(hex) && NoCollision(hex, Mentioned(run[9].disk, {})) && PendingShas(run[9]) == {}
    ensures Lists(hex, root, sub, run[9].disk) && DueTimesFit(run[9].disk) && InOrder(root) && forall d :: d in sub ==> InOrder(sub[d])
    ensures forall i :: i in run[9].disk.intents ==> i.due <= 3600
    ensures run[9].disk.main.Keys == {OrphanName()} && run[9].disk.intents == {OrphanIntent()}
    ensures HandleAll(StoreOf(hex, run[9].disk, {}), TasksOf(root, sub, 3600), Stuck({}, {})) == Store({}, {}, {}, {})
  {
    run, steps := OrphanRun();
    hex := _ => Hex.Zeros(64);
    var p := PathOf(hex, OrphanIntent());
    root, sub := [DirEntry(p.dir, true)], map[p.dir := [DirEntry(p.name, false)]];
    OneOfEach(hex, root, sub, run[9].disk);
    LeftIs(hex);
    assert Swept(steps, 9, 10) == Swept(steps, 9, 9) + [OrphanIntent()] == [OrphanIntent()];
    hide PutPipelineSafety.IsRun, Left, Orphan, OrphanName, OrphanIntent, Lists, InOrder, HandleAll, StoreOf, TasksOf, NoCollision,
         Mentioned, PendingShas, Initial;
    DirectorySweepIsRunPass(hex, root, sub, 3600, run, steps, 9, 10);
  }

  lemma LeftIs(hex: HexOf)
    requires WritesDigests(hex)
    ensures var s := Left(3600, false);
            && s.disk.main.Keys == {OrphanName()} && s.disk.intents == {OrphanIntent()} && OrphanIntent().due == 3600
            && s.queue.pending == map[] && PendingShas(s) == {}
    ensures var s := Left(3600, true);
            PendingShas(s) == {} && StoreOf(hex, s.disk, {}) == Store({}, {}, {}, {})
  {
  }

  lemma OneOfEach(hex: HexOf, root: seq<DirEntry>, sub: map<string, seq<DirEntry>>, d: Disk)
    requires WritesDigests(hex) && d == Left(3600, false).disk
    requires var p := PathOf(hex, OrphanIntent());
             root == [DirEntry(p.dir, true)] && sub == map[p.dir := [DirEntry(p.name, false)]]
    ensures NoCollision(hex, Mentioned(d, {})) && Lists(hex, root, sub, d) && DueTimesFit(d)
    ensures InOrder(root) && forall d :: d in sub ==> InOrder(sub[d])
  {
    assert Mentioned(d, {}) == {OrphanName().sha};
  }

  lemma OrphanRun() returns (run: seq<State>, steps: seq<Step>)
    ensures PutPipelineSafety.IsRun(run, steps) && Initial(run[0]) && |run| == 11
    ensures run[9] == Left(3600, false) && run[10] == Left(3600, true) && steps[9] == Sweep(OrphanIntent(), true, true)
  {
    OrphanAccepted();
    OrphanTaken();
    OrphanCopied();
    OrphanSettled();
    OrphanLeft();
    BegunIsInitial();
    hide Enabled, Do, Begun, Left, Underway, Orphan, OrphanIntent, OrphanName, Initial;
    run := [Begun(), Underway(Hand, {}, map[]), Underway(Entered, {}, map[]), Underway(AtMover, {}, map[]),
            Underway(Stating(1), {}, map[]), Underway(Recording(1), {}, map[]), Underway(Copying(1), {OrphanIntent()}, map[]),
            Underway(Settled, {OrphanIntent()}, map[OrphanName() := Orphan().content]),
            Left(0, false), Left(3600, false), Left(3600, true)];
    steps := [Spool(0, Orphan()), JobTo(0, Insert), JobTo(0, Send), JobTo(0, Take), JobTo(0, Stat(true)),
              JobTo(0, WriteIntent(true, true)), JobTo(0, Copy(true, true)), Crash, Tick(3600), Sweep(OrphanIntent(), true, true)];
  }

  lemma BegunIsInitial()
    ensures Initial(Begun())
  {
  }
}

// The names of cleanup intent files, and the sweep over directories of them, which stops
// reading a directory at the first intent that is not due.
module IntentNames {
  import opened Wrappers
  import opened Hex

  predicate IsLZ4(blob: string) {
    |blob| >= 4 && blob[|blob| - 4..] == ".lz4"
  }

  function ShaOf(blob: string): string {
    if IsLZ4(blob) then blob[..|blob| - 4] else blob
  }

  // A SHA-256 in lowercase hex, with or without ".lz4".
  predicate IsBlobName(blob: string) {
    |ShaOf(blob)| == 64 && AllLower(ShaOf(blob))
  }

  // %08x; the width includes a minus sign.
  function FormatDue(due: int): string {
    if due >= 0 then Padded(due, 8) else "-" + Padded(-due, 7)
  }

  function IntentName(due: int, blob: string): string {
    FormatDue(due) + "-" + blob
  }

  // strings.Cut at the first dash.
  function CutAt(name: string): (i: nat)
    ensures i <= |name| && (forall k :: 0 <= k < i ==> name[k] != '-') && (i < |name| ==> name[i] == '-')
  {
    if name == "" || name[0] == '-' then 0 else 1 + CutAt(name[1..])
  }

  datatype Due = Due(time: int, blob: string)

  function ParseCleanupIntent(name: string): Option<Due> {
    var i := CutAt(name);
    if i == |name| || i != 8 then None
    else
      var t := ParseUint(name[..i]);
      var blob := name[i + 1..];
      if t.None? || !IsBlobName(blob) then None else Some(Due(t.value, blob))
  }

  // Parsing inverts formatting for due times of 32 bits, and refuses all others.
  lemma ParseInvertsFormat(due: int, blob: string)
    requires IsBlobName(blob)
    ensures ParseCleanupIntent(IntentName(due, blob)) == if 0 <= due < 0x1_0000_0000 then Some(Due(due, blob)) else None
  {
    hide Value, Unpadded;
    var name := IntentName(due, blob);
    if due < 0 {
      assert name[0] == '-' && CutAt(name) == 0;
    } else {
      PaddedRoundTrip(due, 8);
      var t := Padded(due, 8);
      assert name == t + ("-" + blob);
      forall k | 0 <= k < |t| ensures name[k] == t[k] && name[k] != '-' {
      }
      assert name[|t|] == '-' && CutAt(name) == |t|;
      assert name[..|t|] == t && name[|t| + 1..] == blob;
      assert Pow16(8) == 0x1_0000_0000;
    }
  }

  // The names the writer gives are those the parser accepts whose time is in lowercase.
  lemma WrittenIffLowercase(name: string)
    requires ParseCleanupIntent(name).Some?
    ensures var d := ParseCleanupIntent(name).value;
            && 0 <= d.time < 0x1_0000_0000
            && (name == IntentName(d.time, d.blob) <==> AllLower(name[..8]))
  {
    var d := ParseCleanupIntent(name).value;
    var t := name[..8];
    ValueLess(t);
    assert Pow16(8) == 0x1_0000_0000;
    PaddedRoundTrip(d.time, 8);
    assert name == t + "-" + d.blob;
    if AllLower(t) {
      SameDigits(t, Padded(d.time, 8));
    }
    if name == IntentName(d.time, d.blob) {
      assert t == IntentName(d.time, d.blob)[..8] == Padded(d.time, 8);
    }
  }

  // Directory order is the order of the due times.
  lemma NamesSortByDue(d1: int, blob1: string, d2: int, blob2: string)
    requires 0 <= d1 < 0x1_0000_0000 && 0 <= d2 < 0x1_0000_0000
    ensures d1 < d2 ==> Before(IntentName(d1, blob1), IntentName(d2, blob2))
    ensures Before(IntentName(d1, blob1), IntentName(d2, blob2)) ==> d1 <= d2
  {
    PaddedRoundTrip(d1, 8);
    PaddedRoundTrip(d2, 8);
    assert Pow16(8) == 0x1_0000_0000;
    var a, b := Padded(d1, 8), Padded(d2, 8);
    OrderOfValues(a, b);
    if d1 != d2 {
      HeadsDecide(a, b, "-" + blob1, "-" + blob2);
      assert IntentName(d1, blob1) == a + ("-" + blob1) && IntentName(d2, blob2) == b + ("-" + blob2);
    }
  }

  lemma {:induction false} HeadsDecide(a: string, b: string, x: string, y: string)
    requires |a| == |b| && a != b
    ensures Before(a + x, b + y) <==> Before(a, b)
  {
    assert (a + x)[1..] == a[1..] + x && (b + y)[1..] == b[1..] + y;
    if a[0] == b[0] {
      assert a == [a[0]] + a[1..] && b == [b[0]] + b[1..];
      HeadsDecide(a[1..], b[1..], x, y);
    }
  }

  // ---- a directory ----

  datatype DirEntry = DirEntry(name: string, isDir: bool)

  // os.ReadDir sorts by name.
  ghost predicate Sorted(ents: seq<DirEntry>) {
    forall i, j :: 0 <= i < j < |ents| ==> Before(ents[i].name, ents[j].name)
  }

  predicate IsIntent(ent: DirEntry) {
    !ent.isDir && ParseCleanupIntent(ent.name).Some?
  }

  // Every intent has a name its writer would give it.
  ghost predicate AsWritten(ents: seq<DirEntry>) {
    forall i :: 0 <= i < |ents| && IsIntent(ents[i]) ==> AllLower(ents[i].name[..8])
  }

  predicate IsDue(ent: DirEntry, now: int) {
    IsIntent(ent) && ParseCleanupIntent(ent.name).value.time <= now
  }

  datatype Path = Path(dir: string, name: string)
  datatype Task = Task(path: Path, blob: string)

  function TaskOf(dir: string, ent: DirEntry): Task
    requires IsIntent(ent)
  {
    Task(Path(dir, ent.name), ParseCleanupIntent(ent.name).value.blob)
  }

  // All the due intents of a listing, in its order.
  function DueIn(dir: string, ents: seq<DirEntry>, now: int): seq<Task> {
    if ents == [] then []
    else
      var last := ents[|ents| - 1];
      DueIn(dir, ents[..|ents| - 1], now) + if IsDue(last, now) then [TaskOf(dir, last)] else []
  }

  lemma {:induction false} NoneDueAfter(dir: string, ents: seq<DirEntry>, now: int, i: nat)
    requires i <= |ents| && forall k :: i <= k < |ents| ==> !IsDue(ents[k], now)
    ensures DueIn(dir, ents, now) == DueIn(dir, ents[..i], now)
  {
    if i < |ents| {
      NoneDueAfter(dir, ents[..|ents| - 1], now, i);
      assert ents[..|ents| - 1][..i] == ents[..i];
    } else {
      assert ents[..i] == ents;
    }
  }

  // How far the sweep reads a listing: to the first intent that is not due.
  function Reached(ents: seq<DirEntry>, now: int): (n: nat)
    ensures n <= |ents|
  {
    if ents == [] || (IsIntent(ents[0]) && !IsDue(ents[0], now)) then 0 else 1 + Reached(ents[1..], now)
  }

  lemma {:induction false} ReachedIs(ents: seq<DirEntry>, now: int, n: nat)
    requires n <= |ents| && forall k :: 0 <= k < n && IsIntent(ents[k]) ==> IsDue(ents[k], now)
    requires n < |ents| ==> IsIntent(ents[n]) && !IsDue(ents[n], now)
    ensures Reached(ents, now) == n
  {
    if n > 0 {
      ReachedIs(ents[1..], now, n - 1);
    }
  }

  lemma {:induction false} ReachedStops(ents: seq<DirEntry>, now: int)
    ensures var n := Reached(ents, now);
            && (forall k :: 0 <= k < n && IsIntent(ents[k]) ==> IsDue(ents[k], now))
            && (n < |ents| ==> IsIntent(ents[n]) && !IsDue(ents[n], now))
  {
    if ents != [] && !(IsIntent(ents[0]) && !IsDue(ents[0], now)) {
      ReachedStops(ents[1..], now);
      var n := Reached(ents[1..], now);
      assert forall k :: 0 < k < 1 + n ==> ents[k] == ents[1..][k - 1];
    }
  }

  // The due intents that it comes to.
  function DueReached(dir: string, ents: seq<DirEntry>, now: int): seq<Task> {
    DueIn(dir, ents[..Reached(ents, now)], now)
  }

  // Due times never go back along the listing.
  ghost predicate InOrder(ents: seq<DirEntry>) {
    forall i, k :: 0 <= i < k < |ents| && IsIntent(ents[i]) && IsIntent(ents[k]) ==>
      ParseCleanupIntent(ents[i].name).value.time <= ParseCleanupIntent(ents[k].name).value.time
  }

  lemma {:induction false} DueLater(dir: string, ents: seq<DirEntry>, now: int, n: nat, k: nat)
    requires n <= k < |ents| && IsDue(ents[k], now)
    ensures |DueIn(dir, ents, now)| > |DueIn(dir, ents[..n], now)|
  {
    var front := ents[..|ents| - 1];
    assert front[..n] == ents[..n];
    if k < |front| {
      DueLater(dir, front, now, n, k);
    } else {
      DueMore(dir, front, now, n);
    }
  }

  lemma {:induction false} DueMore(dir: string, ents: seq<DirEntry>, now: int, n: nat)
    requires n <= |ents|
    ensures |DueIn(dir, ents, now)| >= |DueIn(dir, ents[..n], now)|
  {
    if n < |ents| {
      DueMore(dir, ents[..|ents| - 1], now, n);
      assert ents[..|ents| - 1][..n] == ents[..n];
    } else {
      assert ents[..n] == ents;
    }
  }

  // Stopping there misses nothing that is due, at any time, exactly if the listing is in
  // the order of the due times.
  lemma StopRightIffInOrder(dir: string, ents: seq<DirEntry>)
    ensures (forall now: int :: DueReached(dir, ents, now) == DueIn(dir, ents, now)) <==> InOrder(ents)
  {
    if InOrder(ents) {
      forall now: int ensures DueReached(dir, ents, now) == DueIn(dir, ents, now) {
        InOrderMissesNone(dir, ents, now);
      }
    } else {
      var i, k :| 0 <= i < k < |ents| && IsIntent(ents[i]) && IsIntent(ents[k]) &&
                  ParseCleanupIntent(ents[i].name).value.time > ParseCleanupIntent(ents[k].name).value.time;
      var now := ParseCleanupIntent(ents[k].name).value.time;
      ReachedStops(ents, now);
      assert Reached(ents, now) <= i;
      DueLater(dir, ents, now, Reached(ents, now), k);
      assert DueReached(dir, ents, now) != DueIn(dir, ents, now);
    }
  }

  lemma InOrderMissesNone(dir: string, ents: seq<DirEntry>, now: int)
    requires InOrder(ents)
    ensures DueReached(dir, ents, now) == DueIn(dir, ents, now)
  {
    ReachedStops(ents, now);
    NoneDueAfter(dir, ents, now, Reached(ents, now));
  }

  // Sorted names that the writer gave are: only a foreign file can come in between.
  lemma WrittenInOrder(ents: seq<DirEntry>)
    requires Sorted(ents) && AsWritten(ents)
    ensures InOrder(ents)
  {
    forall i, k | 0 <= i < k < |ents| && IsIntent(ents[i]) && IsIntent(ents[k])
      ensures ParseCleanupIntent(ents[i].name).value.time <= ParseCleanupIntent(ents[k].name).value.time
    {
      var d, e := ParseCleanupIntent(ents[i].name).value, ParseCleanupIntent(ents[k].name).value;
      WrittenIffLowercase(ents[i].name);
      WrittenIffLowercase(ents[k].name);
      NamesSortByDue(d.time, d.blob, e.time, e.blob);
    }
  }

  // Names in uppercase, which the parser takes but the writer never gives, would defeat it.
  lemma UppercaseHidesDue(sha: string) returns (ents: seq<DirEntry>)
    requires |sha| == 64 && AllLower(sha) && !IsLZ4(sha)
    ensures Sorted(ents) && |ents| == 2 && IsIntent(ents[0]) && IsIntent(ents[1])
    ensures !IsDue(ents[0], 12) && IsDue(ents[1], 12) && !InOrder(ents)
    ensures forall dir :: DueReached(dir, ents, 12) == [] && DueIn(dir, ents, 12) == [TaskOf(dir, ents[1])]
  {
    ents := [DirEntry(SmallName('F', sha), false), DirEntry(SmallName('a', sha), false)];
    NameOfSmall('F', sha);
    NameOfSmall('a', sha);
    assert SmallName('F', sha) == "0000000" + ("F-" + sha) && SmallName('a', sha) == "0000000" + ("a-" + sha);
    SharedHead("0000000", "F-" + sha, "a-" + sha);
    forall dir ensures DueReached(dir, ents, 12) == [] && DueIn(dir, ents, 12) == [TaskOf(dir, ents[1])] {
      ReachedIs(ents, 12, 0);
      assert ents[..2] == ents && ents[..1][..0] == [] && ents[..1][0] == ents[0];
      assert DueIn(dir, ents[..1], 12) == [];
    }
  }

  function SmallName(c: char, sha: string): string {
    "0000000" + [c] + "-" + sha
  }

  lemma NameOfSmall(c: char, sha: string)
    requires IsDigit(c) && |sha| == 64 && AllLower(sha) && !IsLZ4(sha)
    ensures ParseCleanupIntent(SmallName(c, sha)) == Some(Due(DigitValue(c), sha))
  {
    var name := SmallName(c, sha);
    CutFound(name, 8);
    assert name[..8] == "0000000" + [c] && name[9..] == sha;
    ZeroesThen(c);
  }

  lemma CutFound(name: string, i: nat)
    requires i < |name| && name[i] == '-' && forall k :: 0 <= k < i ==> name[k] != '-'
    ensures CutAt(name) == i
  {
  }

  lemma ZeroesThen(c: char)
    requires IsDigit(c)
    ensures ParseUint("0000000" + [c]) == Some(DigitValue(c))
  {
    ZerosValue(7, [c]);
    assert Zeros(7) == "0000000";
    assert [c][1..] == "" && DigitValue(c) * Pow16(0) == DigitValue(c);
  }

  lemma {:induction false} SharedHead(h: string, a: string, b: string)
    ensures Before(h + a, h + b) <==> Before(a, b)
  {
    if h == "" {
      assert h + a == a && h + b == b;
    } else {
      assert (h + a)[1..] == h[1..] + a && (h + b)[1..] == h[1..] + b;
      SharedHead(h[1..], a, b);
    }
  }

  // ---- the sweep ----

  // The main directory's blobs, the intents, and the content the database and the put
  // queue account for.
  datatype Store = Store(main: set<string>, intents: set<Path>, rows: set<string>, inFlight: set<string>)

  // The files that cannot be removed just now.
  datatype Stuck = Stuck(blobs: set<string>, intents: set<Path>)

  predicate Kept(s: Store, blob: string, stuck: Stuck) {
    ShaOf(blob) !in s.rows && (ShaOf(blob) in s.inFlight || blob in stuck.blobs)
  }

  function Handle(s: Store, t: Task, stuck: Stuck): Store {
    if Kept(s, t.blob, stuck) then s
    else s.(main := if ShaOf(t.blob) in s.rows then s.main else s.main - {t.blob},
            intents := if t.path in stuck.intents then s.intents else s.intents - {t.path})
  }

  function HandleAll(s: Store, todo: seq<Task>, stuck: Stuck): Store {
    if todo == [] then s else Handle(HandleAll(s, todo[..|todo| - 1], stuck), todo[|todo| - 1], stuck)
  }

  ghost predicate Names(todo: seq<Task>, blob: string) {
    exists k :: 0 <= k < |todo| && todo[k].blob == blob
  }

  // One of the listed tasks discards the intent at p.
  ghost predicate Discards(s: Store, todo: seq<Task>, p: Path, stuck: Stuck) {
    p !in stuck.intents && exists k :: 0 <= k < |todo| && todo[k].path == p && !Kept(s, todo[k].blob, stuck)
  }

  // What handling a list of intents deletes: the listed blobs that neither the database
  // nor the queue accounts for and that can be removed, and the listed intents that are
  // then of no more use and can be.
  lemma {:induction false} HandledExactly(s: Store, todo: seq<Task>, stuck: Stuck)
    ensures var after := HandleAll(s, todo, stuck);
            && after.rows == s.rows && after.inFlight == s.inFlight
            && (forall blob :: blob in after.main <==>
                  blob in s.main &&
                  !(Names(todo, blob) && ShaOf(blob) !in s.rows && ShaOf(blob) !in s.inFlight && blob !in stuck.blobs))
            && (forall p :: p in after.intents <==> p in s.intents && !Discards(s, todo, p, stuck))
  {
    if todo != [] {
      var front, last := todo[..|todo| - 1], todo[|todo| - 1];
      HandledExactly(s, front, stuck);
      forall blob ensures Names(todo, blob) <==> Names(front, blob) || last.blob == blob {
        if Names(front, blob) {
          var k :| 0 <= k < |front| && front[k].blob == blob;
          assert todo[k].blob == blob;
        }
        if Names(todo, blob) && last.blob != blob {
          var k :| 0 <= k < |todo| && todo[k].blob == blob;
          assert front[k].blob == blob;
        }
      }
      forall p ensures Discards(s, todo, p, stuck) <==>
                       Discards(s, front, p, stuck) || (last.path == p && p !in stuck.intents && !Kept(s, last.blob, stuck))
      {
        if k :| 0 <= k < |front| && front[k].path == p && !Kept(s, front[k].blob, stuck) {
          assert todo[k] == front[k];
        }
        if k :| 0 <= k < |todo| && todo[k].path == p && !Kept(s, todo[k].blob, stuck) {
          assert k < |front| ==> front[k] == todo[k];
        }
      }
    }
  }

  lemma {:induction false} HandleConcat(s: Store, a: seq<Task>, b: seq<Task>, stuck: Stuck)
    ensures HandleAll(s, a + b, stuck) == HandleAll(HandleAll(s, a, stuck), b, stuck)
    decreases |b|
  {
    if b == [] {
      assert a + b == a;
    } else {
      var front := b[..|b| - 1];
      assert (a + b)[..|a + b| - 1] == a + front;
      HandleConcat(s, a, front, stuck);
    }
  }

  lemma NoneHandled(s: Store, dir: string, ents: seq<DirEntry>, now: int, stuck: Stuck)
    ensures HandleAll(s, DueIn(dir, ents[..0], now), stuck) == s
  {
  }

  lemma OneMoreHandled(s: Store, dir: string, ents: seq<DirEntry>, now: int, stuck: Stuck, i: nat)
    requires i < |ents|
    ensures HandleAll(s, DueIn(dir, ents[..i + 1], now), stuck) ==
            if IsDue(ents[i], now) then Handle(HandleAll(s, DueIn(dir, ents[..i], now), stuck), TaskOf(dir, ents[i]), stuck)
            else HandleAll(s, DueIn(dir, ents[..i], now), stuck)
  {
    var before := DueIn(dir, ents[..i], now);
    assert ents[..i + 1][..i] == ents[..i] && ents[..i + 1][i] == ents[i];
    if IsDue(ents[i], now) {
      var more := before + [TaskOf(dir, ents[i])];
      assert DueIn(dir, ents[..i + 1], now) == more && more[..|more| - 1] == before;
    } else {
      assert DueIn(dir, ents[..i + 1], now) == before;
    }
  }

  // One directory. A failing query, if the database may fail, ends the sweep with an error; otherwise it has handled
  // the due intents it comes to, which are all the due ones if the listing is in order.
  method SweepIntentDir(s: Store, dir: string, ents: seq<DirEntry>, now: int, stuck: Stuck, mayFail: bool)
    returns (after: Store, ok: bool, ghost n: nat)
    ensures !mayFail ==> ok
    ensures n <= |ents| && after == HandleAll(s, DueIn(dir, ents[..n], now), stuck)
    ensures ok ==> after == HandleAll(s, DueReached(dir, ents, now), stuck)
    ensures ok && InOrder(ents) ==> after == HandleAll(s, DueIn(dir, ents, now), stuck)
  {
    hide HandleAll, DueIn, Handle, Reached, InOrder, ParseCleanupIntent;
    after := s;
    if InOrder(ents) {
      InOrderMissesNone(dir, ents, now);
    }
    NoneHandled(s, dir, ents, now, stuck);
    for i := 0 to |ents|
      invariant after == HandleAll(s, DueIn(dir, ents[..i], now), stuck)
      invariant forall k :: 0 <= k < i && IsIntent(ents[k]) ==> IsDue(ents[k], now)
    {
      var ent := ents[i];
      OneMoreHandled(s, dir, ents, now, stuck, i);
      if ent.isDir {
        continue;
      }
      var due := ParseCleanupIntent(ent.name);
      if due.None? {
        continue;
      }
      if due.value.time > now {
        ReachedIs(ents, now, i);
        return after, true, i;
      }
      var queried: bool :| !queried ==> mayFail;
      if !queried {
        return after, false, i;
      }
      var t := TaskOf(dir, ent);
      after := Handle(after, t, stuck);
    }
    assert ents[..|ents|] == ents;
    ReachedIs(ents, now, |ents|);
    return after, true, |ents|;
  }

  predicate IsShardName(name: string) {
    |name| == 2 && AllLower(name)
  }

  predicate IsShardDir(ent: DirEntry, sub: map<string, seq<DirEntry>>) {
    ent.isDir && IsShardName(ent.name) && ent.name in sub
  }

  // The due intents of the shard directories among ents.
  function DueInShards(ents: seq<DirEntry>, sub: map<string, seq<DirEntry>>, now: int): seq<Task> {
    if ents == [] then []
    else
      var last := ents[|ents| - 1];
      DueInShards(ents[..|ents| - 1], sub, now) +
      if IsShardDir(last, sub) then DueIn(last.name, sub[last.name], now) else []
  }

  // Those of them that the sweep comes to.
  function DueReachedInShards(ents: seq<DirEntry>, sub: map<string, seq<DirEntry>>, now: int): seq<Task> {
    if ents == [] then []
    else
      var last := ents[|ents| - 1];
      DueReachedInShards(ents[..|ents| - 1], sub, now) +
      if IsShardDir(last, sub) then DueReached(last.name, sub[last.name], now) else []
  }

  lemma {:induction false} InOrderMissesNoneInShards(ents: seq<DirEntry>, sub: map<string, seq<DirEntry>>, now: int)
    requires forall d :: d in sub ==> InOrder(sub[d])
    ensures DueReachedInShards(ents, sub, now) == DueInShards(ents, sub, now)
  {
    if ents != [] {
      var last := ents[|ents| - 1];
      InOrderMissesNoneInShards(ents[..|ents| - 1], sub, now);
      if IsShardDir(last, sub) {
        InOrderMissesNone(last.name, sub[last.name], now);
      }
    }
  }

  lemma ShardHandled(s: Store, flat: seq<Task>, root: seq<DirEntry>, sub: map<string, seq<DirEntry>>, now: int,
                     stuck: Stuck, i: nat)
    requires i < |root|
    ensures var before := HandleAll(s, flat + DueReachedInShards(root[..i], sub, now), stuck);
            HandleAll(s, flat + DueReachedInShards(root[..i + 1], sub, now), stuck) ==
            if IsShardDir(root[i], sub) then HandleAll(before, DueReached(root[i].name, sub[root[i].name], now), stuck)
            else before
  {
    var due := if IsShardDir(root[i], sub) then DueReached(root[i].name, sub[root[i].name], now) else [];
    var before := DueReachedInShards(root[..i], sub, now);
    assert root[..i + 1][..i] == root[..i];
    assert DueReachedInShards(root[..i + 1], sub, now) == before + due;
    assert flat + (before + due) == flat + before + due;
    HandleConcat(s, flat + before, due, stuck);
  }

  // The cleanup directory and its shard directories; sub holds the listings of those that
  // are still there when they are read.
  method SweepCleanupIntents(s: Store, root: seq<DirEntry>, sub: map<string, seq<DirEntry>>, now: int, stuck: Stuck, mayFail: bool)
    returns (after: Store, ok: bool)
    ensures !mayFail ==> ok
    ensures ok ==> after == HandleAll(s, DueReached("", root, now) + DueReachedInShards(root, sub, now), stuck)
    ensures ok && InOrder(root) && (forall d :: d in sub ==> InOrder(sub[d])) ==>
              after == HandleAll(s, DueIn("", root, now) + DueInShards(root, sub, now), stuck)
  {
    hide HandleAll, DueReached, DueIn, InOrder;
    ghost var n;
    after, ok, n := SweepIntentDir(s, "", root, now, stuck, mayFail);
    if !ok {
      return;
    }
    ghost var flat := DueReached("", root, now);
    assert flat + [] == flat;
    for i := 0 to |root|
      invariant ok && after == HandleAll(s, flat + DueReachedInShards(root[..i], sub, now), stuck)
    {
      var ent := root[i];
      ShardHandled(s, flat, root, sub, now, stuck, i);
      if !ent.isDir || !IsShardName(ent.name) || ent.name !in sub {
        continue;
      }
      after, ok, n := SweepIntentDir(after, ent.name, sub[ent.name], now, stuck, mayFail);
      if !ok {
        return;
      }
    }
    assert root[..|root|] == root;
    if InOrder(root) && forall d :: d in sub ==> InOrder(sub[d]) {
      InOrderMissesNone("", root, now);
      InOrderMissesNoneInShards(root, sub, now);
    }
  }
}

// Dead reckoning of gocached's usage between scans, and what an oldest-first eviction does
// to the tables it reckons about.

// The conservation law: for every shard, what the last scan persisted, plus the delta,
// plus the adjustments not yet applied to it, less the scan differences not yet taken out
// of it, is what the tables hold.
module DeadReckoning {
  import opened Wrappers
  import opened Totals
  import opened UsageTables

  // What one scan of a shard counted, by cohort: the actions accessed within each duration,
  // and under MaxInt64 all of them.
  type UsageStats = map<nat, CountAndSize>
  type ShardStats = map<nat, UsageStats>

  const MaxInt64: nat := 0x7fff_ffff_ffff_ffff

  function Cohort(us: UsageStats, d: nat): CountAndSize {
    if d in us then us[d] else CountAndSize(0, 0)
  }

  function All(us: UsageStats): CountAndSize {
    Cohort(us, MaxInt64)
  }

  // A published scan changed the persisted view of a shard by this much.
  datatype Difference = Difference(shard: nat, change: CountAndSize)

  function DifferencePart(i: nat, bytes: bool): Difference -> int {
    (d: Difference) => if d.shard == i then Get(d.change, bytes) else 0
  }

  function Scanned(stats: ShardStats, i: nat, d: nat): CountAndSize {
    if i in stats then Cohort(stats[i], d) else CountAndSize(0, 0)
  }

  function Persisted(stats: ShardStats, i: nat): CountAndSize {
    Scanned(stats, i, MaxInt64)
  }

  ghost predicate Balance(t: Tables, shardOf: Sharding, stats: ShardStats, delta: CountAndSize,
                          unapplied: multiset<Adjustment>, unsubtracted: multiset<Difference>, i: nat, bytes: bool) {
    Get(Persisted(stats, i), bytes) + Get(delta, bytes) + Total(unapplied, Part(shardOf, i, bytes))
    - Total(unsubtracted, DifferencePart(i, bytes)) == Truth(t, shardOf, i, bytes)
  }

  ghost predicate Balanced(t: Tables, shardOf: Sharding, stats: ShardStats, deltas: seq<CountAndSize>,
                           unapplied: multiset<Adjustment>, unsubtracted: multiset<Difference>) {
    forall i, bytes :: 0 <= i < |deltas| ==> Balance(t, shardOf, stats, deltas[i], unapplied, unsubtracted, i, bytes)
  }

  function Entry(b: Blob): Adjustment {
    Adjustment(b.sha, CountAndSize(1, b.storedSize))
  }

  function Exit(b: Blob): Adjustment {
    Adjustment(b.sha, CountAndSize(-1, 0 - b.storedSize))
  }

  lemma BlobsIrrelevant(t: Tables, blobs: map<BlobID, Blob>, shardOf: Sharding, stats: ShardStats,
                        deltas: seq<CountAndSize>, unapplied: multiset<Adjustment>, unsubtracted: multiset<Difference>)
    requires Balanced(t, shardOf, stats, deltas, unapplied, unsubtracted)
    requires forall id :: Referenced(t.actions, id) ==>
               (id in t.blobs <==> id in blobs) && (id in blobs ==> blobs[id] == t.blobs[id])
    ensures Balanced(t.(blobs := blobs), shardOf, stats, deltas, unapplied, unsubtracted)
  {
    var t' := t.(blobs := blobs);
    forall i, bytes | 0 <= i < |deltas| ensures Balance(t', shardOf, stats, deltas[i], unapplied, unsubtracted, i, bytes) {
      assert Balance(t, shardOf, stats, deltas[i], unapplied, unsubtracted, i, bytes);
      assert forall k :: k in t.actions ==> Referenced(t.actions, t.actions[k].blobID);
      UnreferencedBlobs(t, t', shardOf, i, bytes);
    }
  }

  lemma ActionInserted(t: Tables, k: ActionKey, a: Action, shardOf: Sharding, stats: ShardStats,
                       deltas: seq<CountAndSize>, unapplied: multiset<Adjustment>, unsubtracted: multiset<Difference>)
    requires Balanced(t, shardOf, stats, deltas, unapplied, unsubtracted)
    requires k !in t.actions && a.blobID in t.blobs
    ensures Balanced(t.(actions := t.actions[k := a]), shardOf, stats, deltas, More(unapplied, Entry(t.blobs[a.blobID])), unsubtracted)
  {
    hide Total, More, Truth;
    var adjustment := Entry(t.blobs[a.blobID]);
    var t' := t.(actions := t.actions[k := a]);
    forall i, bytes | 0 <= i < |deltas|
      ensures Balance(t', shardOf, stats, deltas[i], More(unapplied, adjustment), unsubtracted, i, bytes)
    {
      assert Balance(t, shardOf, stats, deltas[i], unapplied, unsubtracted, i, bytes);
      ActionAdded(t, k, a, shardOf, i, bytes);
      TotalPut(unapplied, adjustment, Part(shardOf, i, bytes));
    }
  }

  lemma ActionDeleted(t: Tables, k: ActionKey, shardOf: Sharding, stats: ShardStats,
                      deltas: seq<CountAndSize>, unapplied: multiset<Adjustment>, unsubtracted: multiset<Difference>)
    requires Balanced(t, shardOf, stats, deltas, unapplied, unsubtracted) && k in t.actions
    ensures Balanced(t.(actions := t.actions - {k}), shardOf, stats, deltas,
                     if Live(t, k) then More(unapplied, Exit(BlobOf(t, k))) else unapplied, unsubtracted)
  {
    hide Total, More, Truth;
    var t' := t.(actions := t.actions - {k});
    var unapplied' := if Live(t, k) then More(unapplied, Exit(BlobOf(t, k))) else unapplied;
    forall i, bytes | 0 <= i < |deltas| ensures Balance(t', shardOf, stats, deltas[i], unapplied', unsubtracted, i, bytes) {
      assert Balance(t, shardOf, stats, deltas[i], unapplied, unsubtracted, i, bytes);
      ActionRemoved(t, k, shardOf, i, bytes);
      if Live(t, k) {
        TotalPut(unapplied, Exit(BlobOf(t, k)), Part(shardOf, i, bytes));
      }
    }
  }

  // Access times do not matter to it.
  lemma TimesIrrelevant(t: Tables, actions: map<ActionKey, Action>, shardOf: Sharding, stats: ShardStats,
                        deltas: seq<CountAndSize>, unapplied: multiset<Adjustment>, unsubtracted: multiset<Difference>)
    requires Balanced(t, shardOf, stats, deltas, unapplied, unsubtracted)
    requires actions.Keys == t.actions.Keys && forall k :: k in actions ==> actions[k].blobID == t.actions[k].blobID
    ensures Balanced(t.(actions := actions), shardOf, stats, deltas, unapplied, unsubtracted)
  {
    hide Total;
    var t' := t.(actions := actions);
    forall i, bytes | 0 <= i < |deltas| ensures Balance(t', shardOf, stats, deltas[i], unapplied, unsubtracted, i, bytes) {
      assert Balance(t, shardOf, stats, deltas[i], unapplied, unsubtracted, i, bytes);
      TotalSame(multiset(t.actions.Keys), ShareOf(t', shardOf, i, bytes), ShareOf(t, shardOf, i, bytes));
    }
  }

  // addBlobDelta.
  function Adjusted(deltas: seq<CountAndSize>, shardOf: Sharding, a: Adjustment): (after: seq<CountAndSize>)
    ensures |after| == |deltas|
  {
    var n := shardOf(a.sha);
    if n.None? || n.value >= |deltas| then deltas else Bumped(deltas, n.value, a.change.count, a.change.size)
  }

  function Bumped(deltas: seq<CountAndSize>, i: nat, count: int, size: int): (after: seq<CountAndSize>)
    requires i < |deltas|
    ensures |after| == |deltas|
  {
    deltas[i := CountAndSize(deltas[i].count + count, deltas[i].size + size)]
  }

  lemma DeltaApplied(t: Tables, shardOf: Sharding, stats: ShardStats, deltas: seq<CountAndSize>,
                     unapplied: multiset<Adjustment>, unsubtracted: multiset<Difference>, a: Adjustment)
    requires Balanced(t, shardOf, stats, deltas, unapplied, unsubtracted) && a in unapplied
    ensures Balanced(t, shardOf, stats, Adjusted(deltas, shardOf, a), Less(unapplied, a), unsubtracted)
  {
    hide Total, Less, Truth;
    var after := Adjusted(deltas, shardOf, a);
    forall i, bytes | 0 <= i < |after| ensures Balance(t, shardOf, stats, after[i], Less(unapplied, a), unsubtracted, i, bytes) {
      assert Balance(t, shardOf, stats, deltas[i], unapplied, unsubtracted, i, bytes);
      TotalTaken(unapplied, a, Part(shardOf, i, bytes));
    }
  }

  // Publishing a scan of shard j, whatever it saw, and whenever it saw it.
  lemma ScanPublished(t: Tables, shardOf: Sharding, stats: ShardStats, deltas: seq<CountAndSize>,
                      unapplied: multiset<Adjustment>, unsubtracted: multiset<Difference>, j: nat, seen: UsageStats)
    requires Balanced(t, shardOf, stats, deltas, unapplied, unsubtracted)
    ensures Balanced(t, shardOf, stats[j := seen], deltas, unapplied, More(unsubtracted, Moved(stats, j, seen)))
  {
    hide Total, More, Truth;
    var d, stats' := Moved(stats, j, seen), stats[j := seen];
    var unsubtracted' := More(unsubtracted, d);
    forall i, bytes | 0 <= i < |deltas| ensures Balance(t, shardOf, stats', deltas[i], unapplied, unsubtracted', i, bytes) {
      assert Balance(t, shardOf, stats, deltas[i], unapplied, unsubtracted, i, bytes);
      TotalPut(unsubtracted, d, DifferencePart(i, bytes));
    }
  }

  function Moved(stats: ShardStats, j: nat, seen: UsageStats): Difference {
    Difference(j, CountAndSize(All(seen).count - Persisted(stats, j).count, All(seen).size - Persisted(stats, j).size))
  }

  lemma DifferenceSubtracted(t: Tables, shardOf: Sharding, stats: ShardStats, deltas: seq<CountAndSize>,
                             unapplied: multiset<Adjustment>, unsubtracted: multiset<Difference>, d: Difference)
    requires Balanced(t, shardOf, stats, deltas, unapplied, unsubtracted) && d in unsubtracted && d.shard < |deltas|
    ensures Balanced(t, shardOf, stats, Bumped(deltas, d.shard, -d.change.count, -d.change.size), unapplied, Less(unsubtracted, d))
  {
    hide Total, Less, Truth;
    var after := Bumped(deltas, d.shard, -d.change.count, -d.change.size);
    forall i, bytes | 0 <= i < |after| ensures Balance(t, shardOf, stats, after[i], unapplied, Less(unsubtracted, d), i, bytes) {
      assert Balance(t, shardOf, stats, deltas[i], unapplied, unsubtracted, i, bytes);
      TotalTaken(unsubtracted, d, DifferencePart(i, bytes));
    }
  }

  // ---- totals over all shards ----

  function StatOf(stats: ShardStats, d: nat, bytes: bool): nat -> int {
    (i: nat) => Get(Scanned(stats, i, d), bytes)
  }

  function DeltaOf(deltas: seq<CountAndSize>, bytes: bool): nat -> int {
    (i: nat) => if i < |deltas| then Get(deltas[i], bytes) else 0
  }

  // At rest, with no adjustment or difference on its way, the aggregate of the scans and
  // the sum of the deltas are together exactly what the tables hold.
  lemma LiveTotalsExact(t: Tables, shardOf: Sharding, stats: ShardStats, deltas: seq<CountAndSize>, bytes: bool)
    requires Balanced(t, shardOf, stats, deltas, multiset{}, multiset{})
    requires forall k :: Live(t, k) ==> shardOf(BlobOf(t, k).sha).Some? && shardOf(BlobOf(t, k).sha).value < |deltas|
    ensures SumBelow(|deltas|, StatOf(stats, MaxInt64, bytes)) + SumBelow(|deltas|, DeltaOf(deltas, bytes)) == Everything(t, bytes)
  {
    var n := |deltas|;
    forall i: nat | i < n
      ensures StatOf(stats, MaxInt64, bytes)(i) + DeltaOf(deltas, bytes)(i) == TruthOf(t, shardOf, bytes)(i)
    {
      assert Balance(t, shardOf, stats, deltas[i], multiset{}, multiset{}, i, bytes);
    }
    SumsPlus(n, StatOf(stats, MaxInt64, bytes), DeltaOf(deltas, bytes), TruthOf(t, shardOf, bytes));
    ShardsAddUp(t, shardOf, n, bytes);
  }

  lemma {:induction false} SumsPlus(n: nat, f: nat -> int, g: nat -> int, h: nat -> int)
    requires forall i :: 0 <= i < n ==> f(i) + g(i) == h(i)
    ensures SumBelow(n, f) + SumBelow(n, g) == SumBelow(n, h)
  {
    if n > 0 {
      SumsPlus(n - 1, f, g, h);
    }
  }
}

// What deleting the oldest actions does to the tables and the files.
module Evictions {
  import opened Wrappers
  import opened Totals
  import opened UsageTables
  import opened DeadReckoning
  import Hex

  datatype BlobFile = BlobFile(sha: string, lz4: bool)

  datatype Candidate = Candidate(key: ActionKey, blobID: BlobID)

  // The hex of a SHA-256.
  predicate IsDigest(sha: string) {
    |sha| == 64 && Hex.AllLower(sha)
  }

  // One row per SHA-256, and a stored size that is a function of it.
  ghost predicate BlobsSound(blobs: map<BlobID, Blob>, sizeOf: string -> nat) {
    && (forall id :: id in blobs ==> IsDigest(blobs[id].sha))
    && (forall id :: id in blobs ==> blobs[id].storedSize == sizeOf(blobs[id].sha))
    && (forall a, b :: a in blobs && b in blobs && a != b ==> blobs[a].sha != blobs[b].sha)
  }

  // ---- one candidate of an eviction ----

  function Delete(t: Tables, c: Candidate): Tables {
    var actions := t.actions - {c.key};
    Tables(actions, if c.blobID in t.blobs && !Referenced(actions, c.blobID) then t.blobs - {c.blobID} else t.blobs)
  }

  function DeleteAll(t: Tables, cands: seq<Candidate>): Tables {
    if cands == [] then t else Delete(DeleteAll(t, cands[..|cands| - 1]), cands[|cands| - 1])
  }

  // The candidates still are what the query saw: distinct actions with these blobs.
  ghost predicate Current(t: Tables, cands: seq<Candidate>) {
    && (forall i :: 0 <= i < |cands| ==> cands[i].key in t.actions && t.actions[cands[i].key].blobID == cands[i].blobID)
    && (forall i, j :: 0 <= i < j < |cands| ==> cands[i].key != cands[j].key)
  }

  ghost predicate Evicts(cands: seq<Candidate>, k: ActionKey) {
    exists i :: 0 <= i < |cands| && cands[i].key == k
  }

  ghost predicate Frees(cands: seq<Candidate>, id: BlobID) {
    exists i :: 0 <= i < |cands| && cands[i].blobID == id
  }

  // What deleting candidates leaves: every other action, and every blob but those of
  // candidates that no action is left of.
  ghost predicate Left(t: Tables, cands: seq<Candidate>, after: Tables) {
    && (forall k :: k in after.actions <==> k in t.actions && !Evicts(cands, k))
    && (forall k :: k in after.actions ==> after.actions[k] == t.actions[k])
    && (forall id :: id in after.blobs <==> id in t.blobs && (!Frees(cands, id) || Referenced(after.actions, id)))
    && (forall id :: id in after.blobs ==> after.blobs[id] == t.blobs[id])
  }

  lemma {:induction false} DeleteAllLeaves(t: Tables, cands: seq<Candidate>)
    requires Current(t, cands)
    ensures Left(t, cands, DeleteAll(t, cands))
  {
    if cands != [] {
      var front, c := cands[..|cands| - 1], cands[|cands| - 1];
      DeleteAllLeaves(t, front);
      DeleteLeaves(t, front, DeleteAll(t, front), c);
      assert cands == front + [c];
    }
  }

  lemma DeleteLeaves(t: Tables, front: seq<Candidate>, mid: Tables, c: Candidate)
    requires Left(t, front, mid) && c.key in t.actions && t.actions[c.key].blobID == c.blobID
    ensures Left(t, front + [c], Delete(mid, c))
  {
    var cands := front + [c];
    forall k ensures Evicts(cands, k) <==> Evicts(front, k) || c.key == k {
      if Evicts(front, k) {
        var i :| 0 <= i < |front| && front[i].key == k;
        assert cands[i].key == k;
      }
      assert cands[|front|] == c;
    }
    forall id ensures Frees(cands, id) <==> Frees(front, id) || c.blobID == id {
      if Frees(front, id) {
        var i :| 0 <= i < |front| && front[i].blobID == id;
        assert cands[i].blobID == id;
      }
      assert cands[|front|] == c;
    }
    var after := Delete(mid, c);
    forall id | Referenced(after.actions, id) ensures Referenced(mid.actions, id) {
      var k :| k in after.actions && after.actions[k].blobID == id;
      assert k in mid.actions && mid.actions[k].blobID == id;
    }
    forall id | Referenced(mid.actions, id) && id != c.blobID ensures Referenced(after.actions, id) {
      var k :| k in mid.actions && mid.actions[k].blobID == id;
      assert k in after.actions && after.actions[k].blobID == id;
    }
  }

  // No surviving action loses its blob.
  lemma SurvivorsKeepBlobs(t: Tables, cands: seq<Candidate>, after: Tables)
    requires Left(t, cands, after)
    ensures forall k :: k in after.actions ==> (Live(after, k) <==> Live(t, k)) && (Live(t, k) ==> BlobOf(after, k) == BlobOf(t, k))
  {
  }

  // The deltas an eviction queues, in order.
  function Exits(t: Tables, cands: seq<Candidate>): seq<Adjustment> {
    if cands == [] then []
    else
      var front, c := cands[..|cands| - 1], cands[|cands| - 1];
      Exits(t, front) + if c.blobID in DeleteAll(t, front).blobs then [Exit(DeleteAll(t, front).blobs[c.blobID])] else []
  }

  function Reclaimed(t: Tables, cands: seq<Candidate>): nat {
    if cands == [] then 0
    else
      var front, c := cands[..|cands| - 1], cands[|cands| - 1];
      Reclaimed(t, front) + if c.blobID in DeleteAll(t, front).blobs then DeleteAll(t, front).blobs[c.blobID].storedSize else 0
  }

  // The last candidate took its blob along, and enough bytes are gone.
  predicate Enough(t: Tables, cands: seq<Candidate>, maxBytes: int) {
    && cands != []
    && cands[|cands| - 1].blobID in DeleteAll(t, cands[..|cands| - 1]).blobs
    && cands[|cands| - 1].blobID !in DeleteAll(t, cands).blobs
    && Reclaimed(t, cands) >= maxBytes
  }

  // A batch ends at its first candidate at which it is enough, or at its last.
  ghost predicate StopsAt(t: Tables, cands: seq<Candidate>, n: nat, maxBytes: int) {
    && n <= |cands|
    && (n == |cands| || Enough(t, cands[..n], maxBytes))
    && (forall m :: 0 <= m < n ==> !Enough(t, cands[..m], maxBytes))
  }

  // The candidate query: the oldest actions up to the cutoff and the limit, oldest first.
  ghost predicate OldestFirst(actions: map<ActionKey, Action>, cutoff: int, maxCount: nat, cands: seq<Candidate>) {
    && |cands| <= maxCount
    && (forall i :: 0 <= i < |cands| ==>
          cands[i].key in actions && actions[cands[i].key].blobID == cands[i].blobID && actions[cands[i].key].accessTime <= cutoff)
    && (forall i, j :: 0 <= i < j < |cands| ==>
          cands[i].key != cands[j].key && actions[cands[i].key].accessTime <= actions[cands[j].key].accessTime)
    && (forall k, i :: k in actions && actions[k].accessTime <= cutoff && !Evicts(cands, k) && 0 <= i < |cands| ==>
          actions[cands[i].key].accessTime <= actions[k].accessTime)
    && (forall k :: k in actions && actions[k].accessTime <= cutoff && !Evicts(cands, k) ==> |cands| == maxCount)
  }

  // Every evicted action is as old as every surviving one the cutoff allows to evict.
  lemma OldestGoFirst(t: Tables, cutoff: int, maxCount: nat, cands: seq<Candidate>, n: nat, after: Tables)
    requires OldestFirst(t.actions, cutoff, maxCount, cands) && n <= |cands| && Left(t, cands[..n], after)
    ensures forall gone, kept :: gone in t.actions && gone !in after.actions && kept in after.actions &&
                                 t.actions[kept].accessTime <= cutoff ==>
              t.actions[gone].accessTime <= t.actions[kept].accessTime && t.actions[gone].accessTime <= cutoff
    ensures n == |cands| < maxCount ==> forall k :: k in after.actions ==> t.actions[k].accessTime > cutoff
  {
  }

  // Commits and access time bumps between the query and the transaction leave the
  // candidates as they were; another eviction would not, and there is only one at a time.
  lemma CurrentKept(t: Tables, t': Tables, cands: seq<Candidate>)
    requires Current(t, cands)
    requires forall k :: k in t.actions ==> k in t'.actions && t'.actions[k].blobID == t.actions[k].blobID
    ensures Current(t', cands)
  {
  }

  lemma CandidateDeleted(t: Tables, c: Candidate, shardOf: Sharding, stats: ShardStats,
                         deltas: seq<CountAndSize>, unapplied: multiset<Adjustment>, unsubtracted: multiset<Difference>)
    requires Balanced(t, shardOf, stats, deltas, unapplied, unsubtracted)
    requires c.key in t.actions && t.actions[c.key].blobID == c.blobID
    ensures Balanced(Delete(t, c), shardOf, stats, deltas,
                     if c.blobID in t.blobs then More(unapplied, Exit(t.blobs[c.blobID])) else unapplied, unsubtracted)
  {
    hide Balanced;
    ActionDeleted(t, c.key, shardOf, stats, deltas, unapplied, unsubtracted);
    var u := if c.blobID in t.blobs then More(unapplied, Exit(t.blobs[c.blobID])) else unapplied;
    BlobsIrrelevant(t.(actions := t.actions - {c.key}), Delete(t, c).blobs, shardOf, stats, deltas, u, unsubtracted);
  }

  // ---- the query ----

  ghost predicate Picked(actions: map<ActionKey, Action>, cutoff: int, cands: seq<Candidate>, rest: set<ActionKey>) {
    && (forall i :: 0 <= i < |cands| ==>
          cands[i].key in actions && actions[cands[i].key].blobID == cands[i].blobID && actions[cands[i].key].accessTime <= cutoff)
    && (forall i, j :: 0 <= i < j < |cands| ==>
          cands[i].key != cands[j].key && actions[cands[i].key].accessTime <= actions[cands[j].key].accessTime)
    && (forall k :: k in rest <==> k in actions && actions[k].accessTime <= cutoff && !Evicts(cands, k))
    && (forall k, i :: k in rest && 0 <= i < |cands| ==> actions[cands[i].key].accessTime <= actions[k].accessTime)
  }

  lemma PickedMore(actions: map<ActionKey, Action>, cutoff: int, cands: seq<Candidate>, rest: set<ActionKey>, k: ActionKey)
    requires Picked(actions, cutoff, cands, rest) && k in rest
    requires forall j :: j in rest ==> actions[k].accessTime <= actions[j].accessTime
    ensures Picked(actions, cutoff, cands + [Candidate(k, actions[k].blobID)], rest - {k})
  {
    var more := cands + [Candidate(k, actions[k].blobID)];
    assert more[|cands|].key == k;
    forall j ensures Evicts(more, j) <==> Evicts(cands, j) || j == k {
      if Evicts(cands, j) {
        var i :| 0 <= i < |cands| && cands[i].key == j;
        assert more[i].key == j;
      }
    }
    forall i | 0 <= i < |cands| ensures cands[i].key != k {
      assert Evicts(cands, cands[i].key);
    }
  }

  lemma {:induction false} OldestExists(actions: map<ActionKey, Action>, s: set<ActionKey>)
    requires s != {} && forall k :: k in s ==> k in actions
    ensures exists k :: k in s && forall j :: j in s ==> actions[k].accessTime <= actions[j].accessTime
    decreases |s|
  {
    var x :| x in s;
    if s == {x} {
      assert forall j :: j in s ==> actions[x].accessTime <= actions[j].accessTime;
    } else {
      OldestExists(actions, s - {x});
      var y :| y in s - {x} && forall j :: j in s - {x} ==> actions[y].accessTime <= actions[j].accessTime;
      var k := if actions[x].accessTime < actions[y].accessTime then x else y;
      assert forall j :: j in s ==> j == x || j in s - {x};
      assert k in s && forall j :: j in s ==> actions[k].accessTime <= actions[j].accessTime;
    }
  }

  // ---- the loop over candidates ----

  // Exactly the files of the blobs that went are gone.
  ghost predicate FilesAfter(files: set<BlobFile>, blobs: map<BlobID, Blob>, blobs': map<BlobID, Blob>, files': set<BlobFile>) {
    forall f :: f in files' <==> f in files && !exists id :: id in blobs && id !in blobs' && blobs[id].sha == f.sha
  }

  // A transaction that fails is rolled back, but not the unlinking it has done: of the
  // blobs that its first m candidates took along, and perhaps of the first of the two names
  // of the next one's.
  ghost predicate FilesLost(files: set<BlobFile>, t: Tables, cands: seq<Candidate>, maxBytes: int, files': set<BlobFile>) {
    exists m :: 0 <= m <= |cands| && FailsAfter(t, cands, m, maxBytes) &&
                (FilesAfter(files, t.blobs, DeleteAll(t, cands[..m]).blobs, files') || HalfUnlinked(files, t, cands, m, maxBytes, files'))
  }

  ghost predicate FailsAfter(t: Tables, cands: seq<Candidate>, m: nat, maxBytes: int)
    requires m <= |cands|
  {
    forall j :: 0 <= j < m ==> !Enough(t, cands[..j], maxBytes)
  }

  ghost predicate HalfUnlinked(files: set<BlobFile>, t: Tables, cands: seq<Candidate>, m: nat, maxBytes: int, files': set<BlobFile>)
    requires m <= |cands|
  {
    && m < |cands| && !Enough(t, cands[..m], maxBytes)
    && cands[m].blobID in DeleteAll(t, cands[..m]).blobs && cands[m].blobID !in DeleteAll(t, cands[..m + 1]).blobs
    && var f := BlobFile(DeleteAll(t, cands[..m]).blobs[cands[m].blobID].sha, true);
       f in files && f !in files' && FilesAfter(files, t.blobs, DeleteAll(t, cands[..m]).blobs, files' + {f})
  }

  lemma {:induction false} BlobsOnlyGo(t: Tables, cands: seq<Candidate>, m: nat, n: nat)
    requires m <= n <= |cands|
    ensures Grows(DeleteAll(t, cands[..n]).blobs, DeleteAll(t, cands[..m]).blobs)
    decreases n
  {
    if m < n {
      StepOf(t, cands, n - 1, 0);
      BlobsOnlyGo(t, cands, m, n - 1);
    }
  }

  // No blob that the n candidates take along has a file.
  ghost predicate NoFileAtStake(files: set<BlobFile>, t: Tables, cands: seq<Candidate>, n: nat)
    requires n <= |cands|
  {
    forall id, f :: id in t.blobs && id !in DeleteAll(t, cands[..n]).blobs && f in files ==> f.sha != t.blobs[id].sha
  }

  // A transaction that would end after n candidates cannot lose a file by failing, wherever
  // it fails, exactly when no blob of theirs that would go has one.
  lemma FailureKeepsFilesIff(files: set<BlobFile>, t: Tables, cands: seq<Candidate>, n: nat, maxBytes: int)
    requires StopsAt(t, cands, n, maxBytes)
    ensures (forall files' :: FilesLost(files, t, cands, maxBytes, files') ==> files' == files) <==>
            NoFileAtStake(files, t, cands, n)
  {
    if NoFileAtStake(files, t, cands, n) {
      forall files' | FilesLost(files, t, cands, maxBytes, files') ensures files' == files {
        NothingLost(files, t, cands, n, maxBytes, files');
      }
    } else {
      var after := DeleteAll(t, cands[..n]).blobs;
      var left := set f | f in files && !exists id :: id in t.blobs && id !in after && t.blobs[id].sha == f.sha;
      assert FilesAfter(files, t.blobs, after, left);
      assert FailsAfter(t, cands, n, maxBytes);
      assert FilesLost(files, t, cands, maxBytes, left);
    }
  }

  lemma NothingLost(files: set<BlobFile>, t: Tables, cands: seq<Candidate>, n: nat, maxBytes: int, files': set<BlobFile>)
    requires StopsAt(t, cands, n, maxBytes) && NoFileAtStake(files, t, cands, n)
    requires FilesLost(files, t, cands, maxBytes, files')
    ensures files' == files
  {
    hide Enough, DeleteAll;
    var m :| 0 <= m <= |cands| && FailsAfter(t, cands, m, maxBytes) &&
             (FilesAfter(files, t.blobs, DeleteAll(t, cands[..m]).blobs, files') || HalfUnlinked(files, t, cands, m, maxBytes, files'));
    assert m <= n;
    BlobsOnlyGo(t, cands, 0, m);
    BlobsOnlyGo(t, cands, m, n);
    StartOf(t, cands);
    if HalfUnlinked(files, t, cands, m, maxBytes, files') {
      BlobsOnlyGo(t, cands, m + 1, n);
      assert false;
    }
    assert files <= files' && files' <= files;
  }

  lemma StartOf(t: Tables, cands: seq<Candidate>)
    ensures DeleteAll(t, cands[..0]) == t
  {
  }

  // One action, and a commit that fails: its row is still there, its file is not.
  lemma RollbackLosesFile(sha: string) returns (t: Tables, cands: seq<Candidate>, f: BlobFile)
    ensures Current(t, cands) && Live(t, 0) && BlobOf(t, 0).sha == f.sha == sha
    ensures |cands| == 1 && FailsAfter(t, cands, 1, 1) && FilesAfter({f}, t.blobs, DeleteAll(t, cands[..1]).blobs, {})
    ensures FilesLost({f}, t, cands, 1, {})
  {
    t, cands, f := OneBlob(sha);
    assert FilesAfter({f}, t.blobs, DeleteAll(t, cands[..1]).blobs, {}) by {
      assert 0 in t.blobs && 0 !in DeleteAll(t, cands[..1]).blobs;
    }
    assert FailsAfter(t, cands, 1, 1);
  }

  // The same action, and a failure between the two names of its blob: no blob has been
  // taken along, and the file is gone all the same.
  lemma HalfUnlinkingLosesFile(sha: string) returns (t: Tables, cands: seq<Candidate>, f: BlobFile)
    ensures Current(t, cands) && Live(t, 0) && BlobOf(t, 0).sha == f.sha == sha
    ensures DeleteAll(t, cands[..0]) == t && |cands| == 1 && HalfUnlinked({f}, t, cands, 0, 1, {})
    ensures FilesLost({f}, t, cands, 1, {})
  {
    t, cands, f := OneBlob(sha);
    assert {} + {f} == {f};
    assert FilesAfter({f}, t.blobs, t.blobs, {f});
    assert HalfUnlinked({f}, t, cands, 0, 1, {});
    assert FailsAfter(t, cands, 0, 1);
  }

  lemma OneBlob(sha: string) returns (t: Tables, cands: seq<Candidate>, f: BlobFile)
    ensures t == Tables(map[0 := Action(0, 0)], map[0 := Blob(sha, 10)])
    ensures cands == [Candidate(0, 0)] && f == BlobFile(sha, true) && cands[..0] == [] && cands[..1] == cands
    ensures DeleteAll(t, cands[..0]) == t && DeleteAll(t, cands[..1]) == Tables(map[], map[])
  {
    t, cands, f := Tables(map[0 := Action(0, 0)], map[0 := Blob(sha, 10)]), [Candidate(0, 0)], BlobFile(sha, true);
    assert cands[..1] == cands && cands[..0] == [];
    assert DeleteAll(t, cands) == Delete(t, cands[0]);
  }

  // The loop's state after i candidates; stop says that it was enough with the last.
  ghost predicate Progress(t0: Tables, cands: seq<Candidate>, i: nat, maxBytes: int, t: Tables,
                           pending: seq<Adjustment>, freed: int, unlinked: CountAndSize, stop: bool) {
    && i <= |cands|
    && t == DeleteAll(t0, cands[..i]) && pending == Exits(t0, cands[..i])
    && freed == Reclaimed(t0, cands[..i]) && unlinked == BlobsLess(t0.blobs, t.blobs)
    && (forall m :: 0 <= m < i ==> !Enough(t0, cands[..m], maxBytes))
    && (stop <==> Enough(t0, cands[..i], maxBytes))
  }

  lemma NothingYet(t: Tables, cands: seq<Candidate>, maxBytes: int, files: set<BlobFile>)
    ensures Progress(t, cands, 0, maxBytes, t, [], 0, CountAndSize(0, 0), false)
    ensures FilesAfter(files, t.blobs, t.blobs, files)
  {
  }

  lemma ProgressMade(t0: Tables, cands: seq<Candidate>, i: nat, maxBytes: int, t: Tables,
                     pending: seq<Adjustment>, freed: int, unlinked: CountAndSize)
    requires Current(t0, cands) && Progress(t0, cands, i, maxBytes, t, pending, freed, unlinked, false) && i < |cands|
    ensures cands[i].key in t.actions && t.actions[cands[i].key].blobID == cands[i].blobID
    ensures forall id :: id in t.blobs ==> id in t0.blobs && t0.blobs[id] == t.blobs[id]
    ensures var (c, t') := (cands[i], Delete(t, cands[i]));
            if c.blobID !in t.blobs then
              t'.blobs == t.blobs && Progress(t0, cands, i + 1, maxBytes, t', pending, freed, unlinked, false)
            else
              var b := t.blobs[c.blobID];
              if c.blobID in t'.blobs then
                && t'.blobs == t.blobs
                && Progress(t0, cands, i + 1, maxBytes, t', pending + [Exit(b)], freed + b.storedSize, unlinked, false)
              else
                && t'.blobs == t.blobs - {c.blobID}
                && Progress(t0, cands, i + 1, maxBytes, t', pending + [Exit(b)], freed + b.storedSize,
                            CountAndSize(unlinked.count + 1, unlinked.size + b.storedSize),
                            freed + b.storedSize >= maxBytes)
  {
    hide Enough, Exits, Reclaimed, DeleteAll, BlobBytes;
    StillThere(t0, cands, i);
    StepOf(t0, cands, i, maxBytes);
    if cands[i].blobID in t.blobs {
      OneBlobLess(t.blobs, cands[i].blobID);
    }
  }

  lemma FilesOnlyGo(files: set<BlobFile>, blobs: map<BlobID, Blob>, blobs': map<BlobID, Blob>, files': set<BlobFile>)
    requires FilesAfter(files, blobs, blobs', files')
    ensures files' <= files
  {
  }

  // A failure before a candidate, or at the commit after the last.
  lemma FailedBetween(files: set<BlobFile>, t0: Tables, cands: seq<Candidate>, i: nat, maxBytes: int, t: Tables,
                      pending: seq<Adjustment>, freed: int, unlinked: CountAndSize, stop: bool, files': set<BlobFile>)
    requires Progress(t0, cands, i, maxBytes, t, pending, freed, unlinked, stop) && FilesAfter(files, t0.blobs, t.blobs, files')
    ensures FilesLost(files, t0, cands, maxBytes, files')
  {
    assert FailsAfter(t0, cands, i, maxBytes);
  }

  // A failure between the two names of a candidate's blob.
  lemma FailedHalfway(files: set<BlobFile>, t0: Tables, cands: seq<Candidate>, i: nat, maxBytes: int, t: Tables,
                      pending: seq<Adjustment>, freed: int, unlinked: CountAndSize, files': set<BlobFile>)
    requires Progress(t0, cands, i, maxBytes, t, pending, freed, unlinked, false) && FilesAfter(files, t0.blobs, t.blobs, files')
    requires i < |cands| && cands[i].blobID in t.blobs && cands[i].blobID !in Delete(t, cands[i]).blobs
    ensures FilesLost(files, t0, cands, maxBytes, files' - {BlobFile(t.blobs[cands[i].blobID].sha, true)})
  {
    hide FilesAfter, Enough, Exits, Reclaimed, BlobsLess, Delete;
    var f := BlobFile(t.blobs[cands[i].blobID].sha, true);
    StepOf(t0, cands, i, maxBytes);
    FilesOnlyGo(files, t0.blobs, t.blobs, files');
    assert FailsAfter(t0, cands, i, maxBytes);
    if f in files' {
      assert files' - {f} + {f} == files';
      assert HalfUnlinked(files, t0, cands, i, maxBytes, files' - {f});
    } else {
      assert files' - {f} == files';
    }
  }

  lemma Finished(t0: Tables, cands: seq<Candidate>, i: nat, maxBytes: int, t: Tables, pending: seq<Adjustment>,
                 freed: int, unlinked: CountAndSize, stop: bool, sizeOf: string -> nat)
    requires Current(t0, cands) && BlobsSound(t0.blobs, sizeOf) && (stop || i >= |cands|)
    requires Progress(t0, cands, i, maxBytes, t, pending, freed, unlinked, stop)
    ensures StopsAt(t0, cands, i, maxBytes) && Left(t0, cands[..i], t) && BlobsSound(t.blobs, sizeOf)
    ensures pending == Exits(t0, cands[..i]) && unlinked == BlobsLess(t0.blobs, t.blobs)
  {
    hide Enough, Exits, Reclaimed, DeleteAll, BlobsSound;
    DeleteAllLeaves(t0, cands[..i]);
    FewerBlobs(t0.blobs, t.blobs, sizeOf);
  }

  lemma FewerBlobs(blobs: map<BlobID, Blob>, blobs': map<BlobID, Blob>, sizeOf: string -> nat)
    requires BlobsSound(blobs, sizeOf) && forall id :: id in blobs' ==> id in blobs && blobs'[id] == blobs[id]
    ensures BlobsSound(blobs', sizeOf)
  {
  }

  lemma StepOf(t: Tables, cands: seq<Candidate>, n: nat, maxBytes: int)
    requires n < |cands|
    ensures var (mid, c) := (DeleteAll(t, cands[..n]), cands[n]);
            && DeleteAll(t, cands[..n + 1]) == Delete(mid, c)
            && Exits(t, cands[..n + 1]) == Exits(t, cands[..n]) + (if c.blobID in mid.blobs then [Exit(mid.blobs[c.blobID])] else [])
            && Reclaimed(t, cands[..n + 1]) ==
               Reclaimed(t, cands[..n]) + (if c.blobID in mid.blobs then mid.blobs[c.blobID].storedSize else 0)
            && (Enough(t, cands[..n + 1], maxBytes) <==>
                c.blobID in mid.blobs && c.blobID !in Delete(mid, c).blobs && Reclaimed(t, cands[..n + 1]) >= maxBytes)
  {
    assert cands[..n + 1][..n] == cands[..n] && cands[..n + 1][n] == cands[n];
  }

  lemma UnlinkStep(files: set<BlobFile>, blobs: map<BlobID, Blob>, before: map<BlobID, Blob>, id: BlobID,
                   left: set<BlobFile>)
    requires FilesAfter(files, blobs, before, left) && id in before
    requires forall b :: b in before ==> b in blobs && blobs[b] == before[b]
    ensures FilesAfter(files, blobs, before - {id}, left - {BlobFile(before[id].sha, true), BlobFile(before[id].sha, false)})
  {
  }

  function SizeIn(blobs: map<BlobID, Blob>): BlobID -> int {
    (id: BlobID) => if id in blobs then blobs[id].storedSize else 0
  }

  ghost function BlobBytes(blobs: map<BlobID, Blob>): int {
    Total(multiset(blobs.Keys), SizeIn(blobs))
  }

  // How many blobs are gone, and their bytes.
  ghost function BlobsLess(blobs: map<BlobID, Blob>, blobs': map<BlobID, Blob>): CountAndSize {
    CountAndSize(|blobs| - |blobs'|, BlobBytes(blobs) - BlobBytes(blobs'))
  }

  lemma OneBlobLess(blobs: map<BlobID, Blob>, id: BlobID)
    requires id in blobs
    ensures |blobs - {id}| == |blobs| - 1 && BlobBytes(blobs - {id}) == BlobBytes(blobs) - blobs[id].storedSize
  {
    hide Total, More;
    var rest := blobs - {id};
    assert blobs == rest[id := blobs[id]] && blobs.Keys == rest.Keys + {id};
    OneKeyMore(rest.Keys, id);
    TotalPut(multiset(rest.Keys), id, SizeIn(blobs));
    TotalSame(multiset(rest.Keys), SizeIn(rest), SizeIn(blobs));
  }

  // The next candidate is still as the query saw it.
  lemma StillThere(t: Tables, cands: seq<Candidate>, n: nat)
    requires Current(t, cands) && n < |cands|
    ensures var mid := DeleteAll(t, cands[..n]);
            && cands[n].key in mid.actions && mid.actions[cands[n].key].blobID == cands[n].blobID
            && (forall id :: id in mid.blobs ==> id in t.blobs && t.blobs[id] == mid.blobs[id])
  {
    DeleteAllLeaves(t, cands[..n]);
  }

  lemma PendingMore(unapplied: multiset<Adjustment>, pending: seq<Adjustment>, a: Adjustment)
    ensures More(unapplied + multiset(pending), a) == unapplied + multiset(pending + [a])
  {
  }

  lemma PendingLess(unapplied: multiset<Adjustment>, pending: seq<Adjustment>)
    requires pending != []
    ensures pending[0] in unapplied + multiset(pending)
    ensures Less(unapplied + multiset(pending), pending[0]) == unapplied + multiset(pending[1..])
  {
    assert pending == [pending[0]] + pending[1..];
  }

  lemma StopIsWithin(t: Tables, cands: seq<Candidate>, n: nat, maxBytes: int)
    requires StopsAt(t, cands, n, maxBytes)
    ensures n <= |cands|
  {
  }

  lemma OldestCurrent(t: Tables, cutoff: int, maxCount: nat, cands: seq<Candidate>)
    requires OldestFirst(t.actions, cutoff, maxCount, cands)
    ensures Current(t, cands)
  {
  }

  lemma Upserted(t: Tables, id: BlobID, sha: string, sizeOf: string -> nat)
    requires BlobsSound(t.blobs, sizeOf) && IsDigest(sha)
    requires if id in t.blobs then t.blobs[id].sha == sha
             else !Referenced(t.actions, id) && forall b :: b in t.blobs ==> t.blobs[b].sha != sha
    ensures BlobsSound(t.blobs[id := Blob(sha, sizeOf(sha))], sizeOf)
    ensures id in t.blobs ==> t.blobs[id := Blob(sha, sizeOf(sha))] == t.blobs
  {
  }

  // ---- what an eviction reclaims ----

  lemma EverythingLess(t: Tables, k: ActionKey, bytes: bool)
    requires k in t.actions
    ensures Everything(t.(actions := t.actions - {k}), bytes) == Everything(t, bytes) - WorthOf(t, bytes)(k)
  {
    hide Total, More;
    var t' := t.(actions := t.actions - {k});
    var keys := multiset(t'.actions.Keys);
    assert t.actions.Keys == t'.actions.Keys + {k};
    OneKeyMore(t'.actions.Keys, k);
    TotalPut(keys, k, WorthOf(t, bytes));
    TotalSame(keys, WorthOf(t', bytes), WorthOf(t, bytes));
  }

  lemma EverythingNatural(t: Tables)
    ensures Everything(t, true) >= 0
  {
    CountedByTotal(multiset{}, multiset(t.actions.Keys), WorthOf(t, true));
  }

  lemma DeleteReclaims(t: Tables, c: Candidate, bytes: bool)
    requires c.key in t.actions && t.actions[c.key].blobID == c.blobID
    ensures Everything(Delete(t, c), bytes) ==
            Everything(t, bytes) - (if c.blobID in t.blobs then Worth(t.blobs[c.blobID], bytes) else 0)
  {
    hide Total;
    EverythingLess(t, c.key, bytes);
    var mid, after := t.(actions := t.actions - {c.key}), Delete(t, c);
    assert forall k :: k in mid.actions ==> Referenced(mid.actions, mid.actions[k].blobID);
    TotalSame(multiset(mid.actions.Keys), WorthOf(after, bytes), WorthOf(mid, bytes));
  }

  // The queued deltas are, in all, exactly what went: one action each, and the bytes that
  // the stopping rule counts.
  lemma {:induction false} EvictionReclaims(t: Tables, cands: seq<Candidate>)
    requires Current(t, cands)
    ensures Everything(DeleteAll(t, cands), true) == Everything(t, true) - Reclaimed(t, cands)
    ensures Everything(DeleteAll(t, cands), false) == Everything(t, false) - |Exits(t, cands)|
  {
    if cands != [] {
      var n := |cands| - 1;
      assert cands[..n + 1] == cands;
      EvictionReclaims(t, cands[..n]);
      StepOf(t, cands, n, 0);
      StillThere(t, cands, n);
      DeleteReclaims(DeleteAll(t, cands[..n]), cands[n], true);
      DeleteReclaims(DeleteAll(t, cands[..n]), cands[n], false);
    }
  }

  // Either every candidate goes, or at least maxBytes of what the tables held do.
  lemma EvictionReclaimsEnough(t: Tables, cands: seq<Candidate>, n: nat, maxBytes: int, after: Tables)
    requires Current(t, cands) && StopsAt(t, cands, n, maxBytes) && Left(t, cands[..n], after)
    ensures Everything(t, true) - Everything(after, true) == Reclaimed(t, cands[..n])
    ensures Everything(t, false) - Everything(after, false) == |Exits(t, cands[..n])|
    ensures n == |cands| || Everything(t, true) - Everything(after, true) >= maxBytes
  {
    DeleteAllLeaves(t, cands[..n]);
    var other := DeleteAll(t, cands[..n]);
    assert after.actions == other.actions;
    assert after.blobs == other.blobs;
    assert after == other;
    EvictionReclaims(t, cands[..n]);
  }

  // And no more goes than is needed: before every further candidate not enough was gone, or
  // the last one had left its blob to others.
  lemma EvictsNoMoreThanNeeded(t: Tables, cands: seq<Candidate>, n: nat, maxBytes: int, m: nat)
    requires Current(t, cands) && StopsAt(t, cands, n, maxBytes) && 0 < m < n
    ensures || Everything(t, true) - Everything(DeleteAll(t, cands[..m]), true) < maxBytes
            || DeleteAll(t, cands[..m]).blobs == DeleteAll(t, cands[..m - 1]).blobs
  {
    hide Everything;
    StepOf(t, cands, m - 1, maxBytes);
    EvictionReclaims(t, cands[..m]);
  }
}

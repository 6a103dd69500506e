// The size limit and the age limit of a cleanup tick.
module CleanupLimits {
  import opened Totals
  import opened UsageTables
  import opened DeadReckoning
  import opened Evictions
  import AccessTimes

  const CleanupBatchSize := 200

  // A tick deletes nothing accessed after this: with an age limit, nothing within it, even
  // when it is only the size that is over.
  function Cutoff(maxAge: int, now: int): int {
    if maxAge > 0 then AccessTimes.Unix(now - maxAge) else MaxInt64
  }

  // The scans show actions over the age limit.
  predicate OverAge(usage: UsageStats, maxAge: int) {
    maxAge > 0 && All(usage).count - Cohort(usage, maxAge).count > 0
  }

  // What a tick that finds the cache over one of its limits does.
  ghost predicate Ticked(t: Tables, cutoff: int, maxBytes: int, cands: seq<Candidate>, n: nat, after: Tables) {
    OldestFirst(t.actions, cutoff, CleanupBatchSize, cands) && StopsAt(t, cands, n, maxBytes) && Left(t, cands[..n], after)
  }

  lemma TickIs(t: Tables, cutoff: int, maxBytes: int, cands: seq<Candidate>, n: nat, after: Tables)
    requires OldestFirst(t.actions, cutoff, CleanupBatchSize, cands) && StopsAt(t, cands, n, maxBytes) && Left(t, cands[..n], after)
    ensures Ticked(t, cutoff, maxBytes, cands, n, after)
  {
  }

  function OldActions(t: Tables, cutoff: int): set<ActionKey> {
    set k | k in t.actions && t.actions[k].accessTime <= cutoff
  }

  // The bytes that some of the actions account for.
  ghost function BytesOf(t: Tables, keys: set<ActionKey>): int {
    Total(multiset(keys), WorthOf(t, true))
  }

  function KeysOf(cands: seq<Candidate>): set<ActionKey> {
    set i | 0 <= i < |cands| :: cands[i].key
  }

  // It changes the tables exactly when there is an action it may delete.
  lemma TickChangesIff(t: Tables, cutoff: int, maxBytes: int, cands: seq<Candidate>, n: nat, after: Tables)
    requires Ticked(t, cutoff, maxBytes, cands, n, after)
    ensures after != t <==> exists k :: k in t.actions && t.actions[k].accessTime <= cutoff
  {
    if cands == [] {
      assert cands[..n] == [];
      assert after.actions == t.actions && after.blobs == t.blobs;
    } else {
      assert n > 0;
      assert cands[..n][0].key == cands[0].key;
      assert Evicts(cands[..n], cands[0].key);
    }
  }

  lemma {:induction false} KeysCount(cands: seq<Candidate>)
    requires forall i, j :: 0 <= i < j < |cands| ==> cands[i].key != cands[j].key
    ensures |KeysOf(cands)| == |cands|
  {
    if cands != [] {
      var front, last := cands[..|cands| - 1], cands[|cands| - 1];
      KeysCount(front);
      assert KeysOf(cands) == KeysOf(front) + {last.key};
    }
  }

  lemma KeysGone(t: Tables, cands: seq<Candidate>, after: Tables)
    requires Current(t, cands) && Left(t, cands, after)
    ensures after.actions.Keys == t.actions.Keys - KeysOf(cands) && KeysOf(cands) <= t.actions.Keys
    ensures |t.actions| - |after.actions| == |cands|
  {
    EvictsKeys(cands);
    KeysCount(cands);
    KeysLeft(t, cands, after);
    SetsLess(t.actions.Keys, KeysOf(cands));
  }

  lemma EvictsKeys(cands: seq<Candidate>)
    ensures forall k :: k in KeysOf(cands) <==> Evicts(cands, k)
  {
  }

  lemma KeysLeft(t: Tables, cands: seq<Candidate>, after: Tables)
    requires Current(t, cands) && Left(t, cands, after)
    ensures after.actions.Keys == t.actions.Keys - KeysOf(cands) && KeysOf(cands) <= t.actions.Keys
  {
    EvictsKeys(cands);
    hide KeysOf;
  }

  lemma SetsLess(all: set<ActionKey>, some: set<ActionKey>)
    requires some <= all
    ensures |all - some| == |all| - |some|
  {
  }

  lemma BytesGone(t: Tables, cands: seq<Candidate>, after: Tables)
    requires Current(t, cands) && Left(t, cands, after)
    ensures Everything(after, true) == Everything(t, true) - BytesOf(t, KeysOf(cands))
  {
    hide Total, Left, Evicts, Frees, Current;
    KeysGone(t, cands, after);
    SurvivorsKeepBlobs(t, cands, after);
    TotalSame(multiset(after.actions.Keys), WorthOf(after, true), WorthOf(t, true));
    DisjointKeys(after.actions.Keys, KeysOf(cands), t.actions.Keys);
    TotalOfUnion(multiset(after.actions.Keys), multiset(KeysOf(cands)), WorthOf(t, true));
  }

  lemma DisjointKeys(a: set<ActionKey>, b: set<ActionKey>, all: set<ActionKey>)
    requires a == all - b && b <= all
    ensures multiset(all) == multiset(a) + multiset(b)
  {
  }

  lemma FewerBytes(t: Tables, some: set<ActionKey>, more: set<ActionKey>)
    requires some <= more
    ensures BytesOf(t, some) <= BytesOf(t, more)
  {
    hide Total;
    var none: multiset<ActionKey> := multiset{};
    DisjointKeys(some, more - some, more);
    TotalOfUnion(multiset(some), multiset(more - some), WorthOf(t, true));
    CountedByTotal(none, multiset(more - some), WorthOf(t, true));
  }

  lemma OldAndCandidates(t: Tables, cutoff: int, cands: seq<Candidate>)
    requires OldestFirst(t.actions, cutoff, CleanupBatchSize, cands)
    ensures KeysOf(cands) <= OldActions(t, cutoff) && |KeysOf(cands)| == |cands| <= CleanupBatchSize
    ensures |cands| < CleanupBatchSize ==> KeysOf(cands) == OldActions(t, cutoff)
    ensures |cands| == CleanupBatchSize <==> |OldActions(t, cutoff)| >= CleanupBatchSize
  {
    KeysCount(cands);
    var covered := OldActions(t, cutoff);
    if |cands| < CleanupBatchSize {
      forall k | k in covered ensures k in KeysOf(cands) {
        assert Evicts(cands, k);
      }
    } else {
      assert covered == KeysOf(cands) + (covered - KeysOf(cands));
    }
  }

  // Over the age limit the whole batch goes.
  lemma OverAgeTakesBatch(t: Tables, cutoff: int, cands: seq<Candidate>, n: nat, after: Tables)
    requires Ticked(t, cutoff, MaxInt64, cands, n, after) && Everything(t, true) < MaxInt64
    ensures Left(t, cands, after)
  {
    OldestCurrent(t, cutoff, CleanupBatchSize, cands);
    EvictionReclaimsEnough(t, cands, n, MaxInt64, after);
    EverythingNatural(after);
    assert cands[..|cands|] == cands;
  }

  // A cache that is too big, and only too big, comes back to size, or loses a full batch,
  // or is left with nothing the cutoff covers.
  lemma TickOutcome(t: Tables, cutoff: int, maxSize: int, cands: seq<Candidate>, n: nat, after: Tables)
    requires Ticked(t, cutoff, Everything(t, true) - maxSize, cands, n, after)
    ensures Everything(after, true) <= maxSize || |t.actions| - |after.actions| == CleanupBatchSize || OldActions(after, cutoff) == {}
  {
    OldestCurrent(t, cutoff, CleanupBatchSize, cands);
    EvictionReclaimsEnough(t, cands, n, Everything(t, true) - maxSize, after);
    if n == |cands| {
      assert cands[..n] == cands;
      KeysGone(t, cands, after);
      OldAndCandidates(t, cutoff, cands);
    }
  }

  // What the size limit is for: the cache comes back to size, or a full batch goes, or
  // everything does.
  ghost predicate SizeLimitServed(t: Tables, after: Tables, maxSize: int) {
    Everything(after, true) <= maxSize || |t.actions| - |after.actions| == CleanupBatchSize || after.actions == map[]
  }

  // The actions the cutoff covers are a full batch, or hold the excess, or are all there are.
  ghost predicate EnoughCovered(t: Tables, cutoff: int, maxSize: int) {
    || |OldActions(t, cutoff)| >= CleanupBatchSize
    || Everything(t, true) - BytesOf(t, OldActions(t, cutoff)) <= maxSize
    || OldActions(t, cutoff) == t.actions.Keys
  }

  // That is exactly when the size limit is served.
  lemma SizeLimitServedIff(t: Tables, cutoff: int, maxSize: int, cands: seq<Candidate>, n: nat, after: Tables)
    requires Everything(t, true) > maxSize
    requires Ticked(t, cutoff, Everything(t, true) - maxSize, cands, n, after)
    ensures SizeLimitServed(t, after, maxSize) <==> EnoughCovered(t, cutoff, maxSize)
  {
    hide Everything, BytesOf, StopsAt, OldestFirst, Left, Current, OldActions, KeysOf, Exits, Reclaimed;
    OldestCurrent(t, cutoff, CleanupBatchSize, cands);
    EvictionReclaimsEnough(t, cands, n, Everything(t, true) - maxSize, after);
    StopIsWithin(t, cands, n, Everything(t, true) - maxSize);
    OldAndCandidates(t, cutoff, cands);
    CurrentPrefix(t, cands, n);
    KeysGone(t, cands[..n], after);
    BytesGone(t, cands[..n], after);
    PrefixKeys(cands, n);
    FewerBytes(t, KeysOf(cands[..n]), OldActions(t, cutoff));
    if n == |cands| {
      assert cands[..n] == cands;
      assert after.actions == map[] <==> after.actions.Keys == {};
      assert t.actions.Keys - KeysOf(cands) == {} <==> KeysOf(cands) == t.actions.Keys;
    }
  }

  lemma CurrentPrefix(t: Tables, cands: seq<Candidate>, n: nat)
    requires Current(t, cands) && n <= |cands|
    ensures Current(t, cands[..n])
  {
  }

  lemma PrefixKeys(cands: seq<Candidate>, n: nat)
    requires n <= |cands|
    ensures KeysOf(cands[..n]) <= KeysOf(cands)
  {
  }

  // Without an age limit enough always is covered.
  lemma NoAgeLimitCovers(t: Tables, maxSize: int, now: int)
    requires forall k :: k in t.actions ==> t.actions[k].accessTime <= MaxInt64
    ensures EnoughCovered(t, Cutoff(0, now), maxSize)
  {
    assert OldActions(t, MaxInt64) == t.actions.Keys;
  }

  // What a tick over one of the limits comes to. It changes the tables exactly when there is
  // an action it may delete. Over the age limit the whole batch goes. A cache at rest that
  // is only too big comes back to size, or loses a full batch, or is left with nothing the
  // cutoff covers; and the size limit is served exactly when enough was covered.
  ghost predicate TickServes(t: Tables, overAge: bool, atRest: bool, cutoff: int, maxSize: int, cands: seq<Candidate>,
                             after: Tables) {
    && (after != t <==> exists k :: k in t.actions && t.actions[k].accessTime <= cutoff)
    && (overAge && Everything(t, true) < MaxInt64 ==> Left(t, cands, after))
    && (!overAge && atRest && Everything(t, true) > maxSize ==>
          && (Everything(after, true) <= maxSize || |t.actions| - |after.actions| == CleanupBatchSize || OldActions(after, cutoff) == {})
          && (SizeLimitServed(t, after, maxSize) <==> EnoughCovered(t, cutoff, maxSize)))
  }

  lemma TickMeaning(t: Tables, overAge: bool, atRest: bool, cutoff: int, maxSize: int, maxBytes: int,
                    cands: seq<Candidate>, n: nat, after: Tables)
    requires Ticked(t, cutoff, maxBytes, cands, n, after)
    requires overAge ==> maxBytes == MaxInt64
    requires !overAge && atRest ==> maxBytes == Everything(t, true) - maxSize
    ensures TickServes(t, overAge, atRest, cutoff, maxSize, cands, after)
  {
    hide Ticked, Everything, Left, OldActions, SizeLimitServed, EnoughCovered;
    TickChangesIff(t, cutoff, maxBytes, cands, n, after);
    if overAge && Everything(t, true) < MaxInt64 {
      OverAgeTakesBatch(t, cutoff, cands, n, after);
    }
    if !overAge && atRest && Everything(t, true) > maxSize {
      TickOutcome(t, cutoff, maxSize, cands, n, after);
      SizeLimitServedIff(t, cutoff, maxSize, cands, n, after);
    }
  }

  // The same in seconds: nothing within the age limit goes, and over it everything beyond
  // it does, or a full batch; and without one the size limit is served.
  lemma TickInSeconds(t: Tables, overAge: bool, atRest: bool, maxAge: int, now: int, maxSize: int, maxBytes: int,
                      cands: seq<Candidate>, n: nat, after: Tables)
    requires Ticked(t, Cutoff(maxAge, now), maxBytes, cands, n, after)
    requires TickServes(t, overAge, atRest, Cutoff(maxAge, now), maxSize, cands, after)
    ensures maxAge > 0 ==>
              forall k :: k in t.actions && t.actions[k].accessTime > (now - maxAge) / 1_000_000_000 ==>
                k in after.actions && after.actions[k] == t.actions[k]
    ensures overAge && maxAge > 0 && Everything(t, true) < MaxInt64 ==>
              |t.actions| - |after.actions| == 200 ||
              forall k :: k in after.actions ==> after.actions[k].accessTime > (now - maxAge) / 1_000_000_000
    ensures !overAge && atRest && maxAge <= 0 && Everything(t, true) > maxSize &&
            (forall k :: k in t.actions ==> t.actions[k].accessTime <= MaxInt64) ==>
              Everything(after, true) <= maxSize || |t.actions| - |after.actions| == 200 || after.actions == map[]
  {
    hide Everything, Total, StopsAt;
    var cutoff := Cutoff(maxAge, now);
    StopIsWithin(t, cands, n, maxBytes);
    OnlyCoveredGo(t, cutoff, cands, n, after);
    if overAge && maxAge > 0 && Everything(t, true) < MaxInt64 {
      OldestCurrent(t, cutoff, CleanupBatchSize, cands);
      KeysGone(t, cands, after);
      OldAndCandidates(t, cutoff, cands);
    }
    if maxAge <= 0 && forall k :: k in t.actions ==> t.actions[k].accessTime <= MaxInt64 {
      NoAgeLimitCovers(t, maxSize, now);
      assert EnoughCovered(t, cutoff, maxSize);
    }
  }

  lemma OnlyCoveredGo(t: Tables, cutoff: int, cands: seq<Candidate>, n: nat, after: Tables)
    requires OldestFirst(t.actions, cutoff, CleanupBatchSize, cands) && n <= |cands| && Left(t, cands[..n], after)
    ensures forall k :: k in t.actions && t.actions[k].accessTime > cutoff ==> k in after.actions && after.actions[k] == t.actions[k]
  {
  }

  // With one it may not be, and the cache stays too big: a cache limited to 24 hours and 8 bytes, and 10 bytes put an
  // hour ago. Every tick leaves it as it is.
  lemma YoungCacheStaysTooBig(sha: string) returns (t: Tables, maxAge: int, now: int)
    ensures maxAge == 24 * 3600 * AccessTimes.Second && Everything(t, true) == 10
    ensures t.actions == map[0 := Action(0, AccessTimes.Unix(now) - 3600)]
    ensures forall cands, n, after :: Ticked(t, Cutoff(maxAge, now), 2, cands, n, after) ==>
              after == t && !SizeLimitServed(t, after, 8)
  {
    maxAge, now := 24 * 3600 * AccessTimes.Second, 0;
    t := Tables(map[0 := Action(0, -3600)], map[0 := Blob(sha, 10)]);
    TotalTaken(multiset(t.actions.Keys), 0, WorthOf(t, true));
    assert Less(multiset(t.actions.Keys), 0) == multiset{};
    forall cands, n, after | Ticked(t, Cutoff(maxAge, now), 2, cands, n, after)
      ensures after == t && !SizeLimitServed(t, after, 8)
    {
      TickChangesIff(t, Cutoff(maxAge, now), 2, cands, n, after);
    }
  }
}

// The server's tables, files and usage counters, and the operations on them. Each method
// is what one goroutine does without giving up the lock it holds, and a step of the runs
// of UsageRuns; the ghost fields hold what goroutines between two of them still owe, and
// the candidates in the evictor's hand.
module UsageAccounting {
  import opened Totals
  import opened UsageTables
  import opened DeadReckoning
  import opened Evictions
  import opened UsageRuns
  import opened CleanupLimits
  import AccessTimes
  import Shards

  // usage sums the scans of all shards, cohort by cohort.
  ghost predicate Aggregated(usage: UsageStats, stats: ShardStats, n: nat) {
    && (forall i :: i in stats ==> i < n)
    && (forall d: nat, bytes :: Get(Cohort(usage, d), bytes) == SumBelow(n, StatOf(stats, d, bytes)))
  }

  class UsageServer {
    const prefixLen: nat
    const durs: set<nat>
    ghost const sizeOf: string -> nat

    var tables: Tables
    var files: set<BlobFile>
    var shardStats: ShardStats
    var shardDeltas: seq<CountAndSize>
    var lastUsage: UsageStats

    ghost var unapplied: multiset<Adjustment>
    ghost var unsubtracted: multiset<Difference>
    ghost var hand: seq<Candidate>

    ghost function Cfg(): Config {
      Config(prefixLen, sizeOf)
    }

    ghost function View(): State
      reads this
    {
      State(tables, shardStats, shardDeltas, unapplied, unsubtracted, hand)
    }

    ghost predicate Valid()
      reads this
    {
      Inv(Cfg(), View()) && Aggregated(lastUsage, shardStats, |shardDeltas|)
    }

    // Nothing is owed to the deltas.
    ghost predicate AtRest()
      reads this
    {
      unapplied == multiset{} && unsubtracted == multiset{}
    }

    // A start on tables that the persisted scans describe exactly.
    constructor (prefixLen: nat, durs: set<nat>, tables: Tables, files: set<BlobFile>, stats: ShardStats,
                 ghost sizeOf: string -> nat)
      requires 1 <= prefixLen <= 4 && forall i :: i in stats ==> i < Shards.NumShards(prefixLen)
      requires Begins(Config(prefixLen, sizeOf),
                      State(tables, stats, seq(Shards.NumShards(prefixLen), _ => CountAndSize(0, 0)), multiset{}, multiset{}, []))
      ensures Valid() && this.tables == tables && this.prefixLen == prefixLen && this.sizeOf == sizeOf
      ensures AtRest() && hand == []
    {
      this.prefixLen, this.durs, this.sizeOf, this.tables, this.files := prefixLen, durs, sizeOf, tables, files;
      shardStats, shardDeltas := stats, seq(Shards.NumShards(prefixLen), _ => CountAndSize(0, 0));
      unapplied, unsubtracted, hand := multiset{}, multiset{}, [];
      new;
      BeginsInv(Cfg(), State(tables, stats, seq(Shards.NumShards(prefixLen), _ => CountAndSize(0, 0)), multiset{}, multiset{}, []));
      assert shardDeltas == seq(Shards.NumShards(prefixLen), _ => CountAndSize(0, 0));
      RecomputeAggregate();
    }

    // A committed PUT: insertPutTx, with the delta it owes.
    method CommitPut(key: ActionKey, sha: string, storedSize: nat, now: int, novel: BlobID) returns (dup: bool, ghost id: BlobID)
      requires Valid() && IsDigest(sha) && storedSize == sizeOf(sha)
      requires novel !in tables.blobs && !Referenced(tables.actions, novel)
      modifies this`tables, this`unapplied
      ensures Valid()
      ensures Enabled(Cfg(), old(View()), Commit(key, sha, now, id)) && View() == Do(Cfg(), old(View()), Commit(key, sha, now, id))
      ensures dup <==> key in old(tables).actions
      ensures tables.blobs == old(tables).blobs[id := Blob(sha, storedSize)]
      ensures tables.actions == if dup then old(tables).actions else old(tables).actions[key := Action(id, now)]
      ensures unapplied == if dup then old(unapplied) else More(old(unapplied), Adjustment(sha, CountAndSize(1, storedSize)))
    {
      hide Inv, Aggregated, More;
      var row := novel;
      if b :| b in tables.blobs && tables.blobs[b].sha == sha {
        row := b;
      }
      id := row;
      StepKeepsInv(Cfg(), View(), Commit(key, sha, now, id));
      var blobs := tables.blobs[row := Blob(sha, storedSize)];
      dup := key in tables.actions;
      if dup {
        tables := tables.(blobs := blobs);
      } else {
        tables := Tables(tables.actions[key := Action(row, now)], blobs);
        unapplied := More(unapplied, Adjustment(sha, CountAndSize(1, storedSize)));
      }
    }

    // A flushed access time bump: an UPDATE, of no row if the action is gone.
    method SetAccessTime(key: ActionKey, time: int)
      requires Valid()
      modifies this`tables
      ensures Valid()
      ensures View() == if key in old(tables).actions then Do(Cfg(), old(View()), Bump(key, time)) else old(View())
      ensures View() == old(View()).(tables := tables) && tables.blobs == old(tables).blobs
      ensures tables.actions.Keys == old(tables).actions.Keys
      ensures forall k :: k in tables.actions ==>
                tables.actions[k] == if k == key then Action(old(tables).actions[k].blobID, time) else old(tables).actions[k]
    {
      hide Inv, Aggregated;
      if key in tables.actions {
        StepKeepsInv(Cfg(), View(), Bump(key, time));
        tables := tables.(actions := tables.actions[key := tables.actions[key].(accessTime := time)]);
      }
    }

    // addBlobDelta, paying an adjustment owed.
    method AddBlobDelta(a: Adjustment)
      requires Valid() && a in unapplied
      modifies this`shardDeltas, this`unapplied
      ensures Valid() && View() == Do(Cfg(), old(View()), Apply(a))
      ensures unapplied == Less(old(unapplied), a) && |shardDeltas| == |old(shardDeltas)|
    {
      hide Inv, Aggregated, Less, Shards.DeltaIndex;
      StepKeepsInv(Cfg(), View(), Apply(a));
      assert ShardingBy(prefixLen)(a.sha) == Shards.DeltaIndex(prefixLen, a.sha);
      unapplied := Less(unapplied, a);
      var n := Shards.DeltaIndex(prefixLen, a.sha);
      if n.None? || n.value >= |shardDeltas| {
        return;
      }
      shardDeltas := Bumped(shardDeltas, n.value, a.change.count, a.change.size);
    }

    // recomputeAggregateLocked: every cohort's sum over the cached shards.
    method RecomputeAggregate()
      requires forall i :: i in shardStats ==> i < |shardDeltas|
      modifies this`lastUsage
      ensures Aggregated(lastUsage, shardStats, |shardDeltas|) && durs <= lastUsage.Keys
    {
      var agg := map d | d in durs :: CountAndSize(0, 0);
      for i := 0 to |shardDeltas|
        invariant forall d: nat, bytes :: Get(Cohort(agg, d), bytes) == SumBelow(i, StatOf(shardStats, d, bytes))
        invariant durs <= agg.Keys
      {
        if i in shardStats {
          agg := AddScan(agg, shardStats[i]);
        }
      }
      lastUsage := agg;
    }

    // The locked part of scanAndPersistShard: the view of shard i becomes what a scan saw.
    method PublishScan(i: nat, seen: UsageStats) returns (d: Difference)
      requires Valid() && i < |shardDeltas|
      modifies this`shardStats, this`lastUsage, this`unsubtracted
      ensures Valid() && View() == Do(Cfg(), old(View()), Publish(i, seen)) && d == Moved(old(shardStats), i, seen)
      ensures d.shard == i && shardStats == old(shardStats)[i := seen]
      ensures unsubtracted == More(old(unsubtracted), d)
    {
      hide Inv, More;
      StepKeepsInv(Cfg(), View(), Publish(i, seen));
      d := Moved(shardStats, i, seen);
      unsubtracted := More(unsubtracted, d);
      shardStats := shardStats[i := seen];
      RecomputeAggregate();
    }

    // Its last part: the same change comes out of the delta.
    method SubtractDifference(d: Difference)
      requires Valid() && d in unsubtracted && d.shard < |shardDeltas|
      modifies this`shardDeltas, this`unsubtracted
      ensures Valid() && View() == Do(Cfg(), old(View()), Subtract(d))
      ensures unsubtracted == Less(old(unsubtracted), d) && |shardDeltas| == |old(shardDeltas)|
    {
      hide Inv, Aggregated, Less;
      StepKeepsInv(Cfg(), View(), Subtract(d));
      unsubtracted := Less(unsubtracted, d);
      shardDeltas := Bumped(shardDeltas, d.shard, -d.change.count, -d.change.size);
    }

    method SumShardDeltas() returns (count: int, size: int)
      ensures count == SumBelow(|shardDeltas|, DeltaOf(shardDeltas, false))
      ensures size == SumBelow(|shardDeltas|, DeltaOf(shardDeltas, true))
    {
      count, size := 0, 0;
      for i := 0 to |shardDeltas|
        invariant count == SumBelow(i, DeltaOf(shardDeltas, false)) && size == SumBelow(i, DeltaOf(shardDeltas, true))
      {
        count, size := count + shardDeltas[i].count, size + shardDeltas[i].size;
      }
    }

    // The scans' totals plus the deltas.
    ghost function Estimate(bytes: bool): int
      reads this
    {
      SumBelow(|shardDeltas|, StatOf(shardStats, MaxInt64, bytes)) + SumBelow(|shardDeltas|, DeltaOf(shardDeltas, bytes))
    }

    // cleanupTick's estimate of what is in the cache. At rest it is exact.
    method LiveUsage() returns (all: CountAndSize)
      requires Valid()
      ensures all.count == Estimate(false) && all.size == Estimate(true)
      ensures AtRest() ==> all.count == Everything(tables, false) && all.size == Everything(tables, true)
    {
      hide Inv;
      var dCount, dSize := SumShardDeltas();
      var scanned := All(lastUsage);
      all := CountAndSize(scanned.count + dCount, scanned.size + dSize);
      assert Get(Cohort(lastUsage, MaxInt64), false) == scanned.count && Get(Cohort(lastUsage, MaxInt64), true) == scanned.size;
      if AtRest() {
        AtRestExact(Cfg(), View(), false);
        AtRestExact(Cfg(), View(), true);
      }
    }

    // The candidate query.
    method OldestActions(cutoff: int, maxCount: nat) returns (cands: seq<Candidate>)
      requires Valid() && hand == []
      modifies this`hand
      ensures Valid() && OldestFirst(tables.actions, cutoff, maxCount, cands)
      ensures View() == Do(Cfg(), old(View()), Query(cutoff, maxCount, cands))
    {
      hide Inv, Aggregated;
      cands := Oldest(tables.actions, cutoff, maxCount);
      StepKeepsInv(Cfg(), View(), Query(cutoff, maxCount, cands));
      hand := cands;
    }

    // The write transaction: the candidates up to the stop go, or, if anything fails, the
    // commit included, it is rolled back, though what was unlinked stays gone.
    method DeleteCandidates(cands: seq<Candidate>, maxBytes: int, mayFail: bool)
      returns (ok: bool, pending: seq<Adjustment>, ret: CountAndSize, ghost n: nat)
      requires Valid() && cands == hand
      modifies this`tables, this`files, this`unapplied, this`hand
      ensures Valid() && hand == []
      ensures !mayFail ==> ok
      ensures !ok ==>
                && View() == Do(Cfg(), old(View()), RollBack) && tables == old(tables) && unapplied == old(unapplied) && pending == []
                && files <= old(files) && FilesLost(old(files), tables, cands, maxBytes, files)
      ensures ok ==> StopsAt(old(tables), cands, n, maxBytes) && View() == Do(Cfg(), old(View()), Transact(maxBytes, n))
      ensures ok ==> Left(old(tables), cands[..n], tables)
      ensures ok ==> pending == Exits(old(tables), cands[..n]) && unapplied == old(unapplied) + multiset(pending)
      ensures ok ==> FilesAfter(old(files), old(tables).blobs, tables.blobs, files)
      ensures ok ==> ret == BlobsLess(old(tables).blobs, tables.blobs)
    {
      hide Inv, Aggregated, FilesAfter, FilesLost, StopsAt, Progress, Delete, DeleteAll, Exits, Enough, Left, Current, BlobsLess, Deleted;
      ghost var was := View();
      HandCurrent(Cfg(), was);
      StepKeepsInv(Cfg(), was, RollBack);
      var t, i, stop := tables, 0, false;
      var evictedBlobs, evictedBlobBytes, evictedActionBytes := 0, 0, 0;
      pending := [];
      NothingYet(tables, cands, maxBytes, files);
      while i < |cands| && !stop
        invariant View() == was && files <= old(files)
        invariant Progress(tables, cands, i, maxBytes, t, pending, evictedActionBytes, CountAndSize(evictedBlobs, evictedBlobBytes), stop)
        invariant FilesAfter(old(files), tables.blobs, t.blobs, files)
        decreases |cands| - i
      {
        var failed: bool :| failed ==> mayFail;
        if failed {
          FailedBetween(old(files), tables, cands, i, maxBytes, t, pending, evictedActionBytes,
                        CountAndSize(evictedBlobs, evictedBlobBytes), stop, files);
          hand := [];
          return false, [], CountAndSize(0, 0), 0;
        }
        var before, c := t, cands[i];
        ProgressMade(tables, cands, i, maxBytes, t, pending, evictedActionBytes, CountAndSize(evictedBlobs, evictedBlobBytes));
        t := Delete(before, c);
        if c.blobID in before.blobs {
          var blob := before.blobs[c.blobID];
          if c.blobID !in t.blobs {
            var stuck: bool :| stuck ==> mayFail;
            if stuck {
              FailedHalfway(old(files), tables, cands, i, maxBytes, before, pending, evictedActionBytes,
                            CountAndSize(evictedBlobs, evictedBlobBytes), files);
              files := files - {BlobFile(blob.sha, true)};
              hand := [];
              return false, [], CountAndSize(0, 0), 0;
            }
            UnlinkStep(old(files), tables.blobs, before.blobs, c.blobID, files);
            files := files - {BlobFile(blob.sha, true), BlobFile(blob.sha, false)};
            evictedBlobs := evictedBlobs + 1;
            evictedBlobBytes := evictedBlobBytes + blob.storedSize;
            stop := evictedActionBytes + blob.storedSize >= maxBytes;
          }
          pending := pending + [Exit(blob)];
          evictedActionBytes := evictedActionBytes + blob.storedSize;
        }
        i := i + 1;
      }
      var committed: bool :| !committed ==> mayFail;
      if !committed {
        FailedBetween(old(files), tables, cands, i, maxBytes, t, pending, evictedActionBytes,
                      CountAndSize(evictedBlobs, evictedBlobBytes), stop, files);
        hand := [];
        return false, [], CountAndSize(0, 0), 0;
      }
      HandSound(Cfg(), was);
      Finished(tables, cands, i, maxBytes, t, pending, evictedActionBytes, CountAndSize(evictedBlobs, evictedBlobBytes), stop, sizeOf);
      StepKeepsInv(Cfg(), was, Transact(maxBytes, i));
      TransactIs(was, cands, i, maxBytes, t, pending, evictedActionBytes, CountAndSize(evictedBlobs, evictedBlobBytes), stop);
      tables, hand := t, [];
      unapplied := unapplied + multiset(pending);
      return true, pending, CountAndSize(evictedBlobs, evictedBlobBytes), i;
    }

    // The committed eviction's queued deltas.
    method ApplyDeltas(pending: seq<Adjustment>, ghost owed: multiset<Adjustment>)
      requires Valid() && unapplied == owed + multiset(pending)
      modifies this`unapplied, this`shardDeltas
      ensures Valid() && unapplied == owed && |shardDeltas| == |old(shardDeltas)|
    {
      hide Inv, Aggregated, Less;
      for i := 0 to |pending|
        invariant Valid() && unapplied == owed + multiset(pending[i..]) && |shardDeltas| == |old(shardDeltas)|
      {
        PendingLess(owed, pending[i..]);
        assert pending[i..][1..] == pending[i + 1..];
        AddBlobDelta(pending[i]);
      }
    }

    // One eviction, from the query to the last delta. It deletes the oldest actions, an
    // oldest-first prefix of the candidates that ends where it is enough; and it leaves no
    // adjustment owed that was not owed before.
    method EvictOldestActions(cutoff: int, maxCount: nat, maxBytes: int, mayFail: bool)
      returns (ok: bool, ret: CountAndSize, ghost cands: seq<Candidate>, ghost n: nat)
      requires Valid() && hand == []
      modifies this`tables, this`files, this`unapplied, this`shardDeltas, this`hand
      ensures Valid() && hand == [] && unapplied == old(unapplied) && |shardDeltas| == |old(shardDeltas)|
      ensures !mayFail ==> ok
      ensures OldestFirst(old(tables).actions, cutoff, maxCount, cands)
      ensures !ok ==> tables == old(tables) && files <= old(files) && FilesLost(old(files), tables, cands, maxBytes, files)
      ensures ok ==> StopsAt(old(tables), cands, n, maxBytes) && Left(old(tables), cands[..n], tables)
      ensures ok ==> FilesAfter(old(files), old(tables).blobs, tables.blobs, files)
      ensures ok ==> ret == BlobsLess(old(tables).blobs, tables.blobs)
    {
      hide Valid, FilesAfter, FilesLost, StopsAt, Left, OldestFirst, Exits, DeleteAll, BlobsLess;
      var found := OldestActions(cutoff, maxCount);
      cands := found;
      var pending;
      ok, pending, ret, n := DeleteCandidates(found, maxBytes, mayFail);
      if ok {
        ApplyDeltas(pending, old(unapplied));
      }
    }

    // One tick of the cleanup loop. Over the age limit it deletes as much of a batch as the
    // cutoff covers; over the size limit only, until the excess is gone; else nothing.
    method CleanupTick(maxAge: int, maxSize: int, now: int, mayFail: bool)
      returns (ok: bool, ghost cands: seq<Candidate>, ghost n: nat)
      requires Valid() && hand == []
      modifies this`tables, this`files, this`unapplied, this`shardDeltas, this`hand
      ensures Valid() && hand == [] && unapplied == old(unapplied)
      ensures !mayFail ==> ok
      ensures var overAge, overSize := OverAge(lastUsage, maxAge), maxSize > 0 && old(Estimate(true)) > maxSize;
              var maxBytes := if !overAge && overSize then old(Estimate(true)) - maxSize else MaxInt64;
              && (!overAge && !overSize ==> ok && View() == old(View()) && files == old(files))
              && (overAge || overSize ==>
                    if ok then Ticked(old(tables), Cutoff(maxAge, now), maxBytes, cands, n, tables) &&
                               FilesAfter(old(files), old(tables).blobs, tables.blobs, files)
                    else tables == old(tables) && FilesLost(old(files), tables, cands, maxBytes, files))
      ensures old(AtRest()) ==> old(Estimate(true)) == Everything(old(tables), true)
      ensures maxAge > 0 ==>
                forall k :: k in old(tables).actions && old(tables).actions[k].accessTime > (now - maxAge) / 1_000_000_000 ==>
                  k in tables.actions && tables.actions[k] == old(tables).actions[k]
      ensures ok && OverAge(lastUsage, maxAge) && Everything(old(tables), true) < MaxInt64 ==>
                |old(tables).actions| - |tables.actions| == 200 ||
                forall k :: k in tables.actions ==> tables.actions[k].accessTime > (now - maxAge) / 1_000_000_000
      ensures ok && maxAge <= 0 < maxSize && old(AtRest()) && Everything(old(tables), true) > maxSize &&
              (forall k :: k in old(tables).actions ==> old(tables).actions[k].accessTime <= MaxInt64) ==>
                Everything(tables, true) <= maxSize || |old(tables).actions| - |tables.actions| == 200 || tables.actions == map[]
      ensures ok && (OverAge(lastUsage, maxAge) || (maxSize > 0 && old(Estimate(true)) > maxSize)) ==>
                TickServes(old(tables), OverAge(lastUsage, maxAge), old(AtRest()), Cutoff(maxAge, now), maxSize, cands, tables)
    {
      hide Valid, OldestFirst, StopsAt, Left, FilesAfter, FilesLost, Everything, DeleteAll, Ticked, TickServes, Aggregated, Estimate, AtRest, BlobsLess;
      var all := LiveUsage();
      var cutoff: int, overAge := MaxInt64, false;
      if maxAge > 0 {
        cutoff := AccessTimes.Unix(now - maxAge);
        overAge := All(lastUsage).count - Cohort(lastUsage, maxAge).count > 0;
      }
      var overSize := maxSize > 0 && all.size > maxSize;
      if !overAge && !overSize {
        return true, [], 0;
      }
      var maxBytes: int := MaxInt64;
      if !overAge && overSize {
        maxBytes := all.size - maxSize;
      }
      var ret;
      ok, ret, cands, n := EvictOldestActions(cutoff, CleanupBatchSize, maxBytes, mayFail);
      if ok {
        TickIs(old(tables), cutoff, maxBytes, cands, n, tables);
        TickMeaning(old(tables), overAge, old(AtRest()), cutoff, maxSize, maxBytes, cands, n, tables);
        TickInSeconds(old(tables), overAge, old(AtRest()), maxAge, now, maxSize, maxBytes, cands, n, tables);
      }
    }
  }

  // recomputeAggregateLocked's inner loop: the cohorts of one scan.
  method AddScan(agg: UsageStats, scan: UsageStats) returns (sum: UsageStats)
    ensures forall d: nat, bytes :: Get(Cohort(sum, d), bytes) == Get(Cohort(agg, d), bytes) + Get(Cohort(scan, d), bytes)
    ensures agg.Keys <= sum.Keys
  {
    sum := agg;
    var rest := scan.Keys;
    while rest != {}
      invariant rest <= scan.Keys && agg.Keys <= sum.Keys
      invariant forall d: nat, bytes ::
                  Get(Cohort(sum, d), bytes) ==
                  Get(Cohort(agg, d), bytes) + if d in rest then 0 else Get(Cohort(scan, d), bytes)
      decreases |rest|
    {
      var d :| d in rest;
      var was := Cohort(sum, d);
      sum := sum[d := CountAndSize(was.count + scan[d].count, was.size + scan[d].size)];
      rest := rest - {d};
    }
  }

  // The query: the oldest first, one after the other.
  method Oldest(actions: map<ActionKey, Action>, cutoff: int, maxCount: nat) returns (cands: seq<Candidate>)
    ensures OldestFirst(actions, cutoff, maxCount, cands)
  {
    cands := [];
    var rest := set k | k in actions && actions[k].accessTime <= cutoff;
    while rest != {} && |cands| < maxCount
      invariant |cands| <= maxCount
      invariant Picked(actions, cutoff, cands, rest)
      decreases |rest|
    {
      OldestExists(actions, rest);
      var k :| k in rest && forall j :: j in rest ==> actions[k].accessTime <= actions[j].accessTime;
      PickedMore(actions, cutoff, cands, rest, k);
      cands := cands + [Candidate(k, actions[k].blobID)];
      rest := rest - {k};
    }
  }

  lemma HandCurrent(cfg: Config, s: State)
    requires Inv(cfg, s)
    ensures Current(s.tables, s.hand)
  {
  }

  lemma HandSound(cfg: Config, s: State)
    requires Inv(cfg, s)
    ensures BlobsSound(s.tables.blobs, cfg.sizeOf)
  {
  }

  lemma TransactIs(s: State, cands: seq<Candidate>, i: nat, maxBytes: int, t: Tables, pending: seq<Adjustment>,
                   freed: int, unlinked: CountAndSize, stop: bool)
    requires cands == s.hand && Progress(s.tables, cands, i, maxBytes, t, pending, freed, unlinked, stop)
    ensures Deleted(s, i) == s.(tables := t, unapplied := s.unapplied + multiset(pending), hand := [])
  {
  }
}

// Dead reckoning over whole runs: PUTs that commit, access times that are bumped, deltas
// applied late, scans published late and taken out of the deltas later still, any number
// at once, and one evictor that queries its candidates first and deletes them later.
module UsageRuns {
  import opened Wrappers
  import opened Totals
  import opened UsageTables
  import opened DeadReckoning
  import opened Evictions
  import Shards

  // sizeOf is the stored size of the content with a SHA-256.
  datatype Config = Config(prefixLen: nat, sizeOf: string -> nat)

  // unapplied and unsubtracted are what the goroutines between two steps still owe the
  // deltas; hand is the evictor's candidates, from its query to its transaction.
  datatype State = State(
    tables: Tables,
    stats: ShardStats,
    deltas: seq<CountAndSize>,
    unapplied: multiset<Adjustment>,
    unsubtracted: multiset<Difference>,
    hand: seq<Candidate>)

  datatype Step =
    | Commit(key: ActionKey, sha: string, now: int, id: BlobID)   // insertPutTx, in row id of Blobs
    | Bump(action: ActionKey, time: int)
    | Apply(adjustment: Adjustment)
    | Publish(shard: nat, seen: UsageStats)
    | Subtract(difference: Difference)
    | Query(cutoff: int, maxCount: nat, cands: seq<Candidate>)
    | Transact(maxBytes: int, n: nat)
    | RollBack

  function ShardingBy(prefixLen: nat): Sharding {
    (sha: string) => Shards.DeltaIndex(prefixLen, sha)
  }

  // Row id is where an upsert of this SHA-256 ends up: the row it has, or a new one.
  ghost predicate RowFor(t: Tables, sha: string, id: BlobID) {
    if id in t.blobs then t.blobs[id].sha == sha
    else !Referenced(t.actions, id) && forall b :: b in t.blobs ==> t.blobs[b].sha != sha
  }

  ghost predicate Enabled(cfg: Config, s: State, step: Step) {
    match step
    case Commit(_, sha, _, id) => IsDigest(sha) && RowFor(s.tables, sha, id)
    case Bump(k, _) => k in s.tables.actions
    case Apply(a) => a in s.unapplied
    case Publish(i, _) => i < |s.deltas|
    case Subtract(d) => d in s.unsubtracted
    case Query(cutoff, maxCount, cands) => s.hand == [] && OldestFirst(s.tables.actions, cutoff, maxCount, cands)
    case Transact(maxBytes, n) => StopsAt(s.tables, s.hand, n, maxBytes)
    case RollBack => true
  }

  ghost function Do(cfg: Config, s: State, step: Step): State
    requires Enabled(cfg, s, step)
  {
    match step
    case Commit(key, sha, now, id) => Committed(s, key, Blob(sha, cfg.sizeOf(sha)), now, id)
    case Bump(k, time) =>
      s.(tables := s.tables.(actions := s.tables.actions[k := s.tables.actions[k].(accessTime := time)]))
    case Apply(a) => s.(deltas := Adjusted(s.deltas, ShardingBy(cfg.prefixLen), a), unapplied := Less(s.unapplied, a))
    case Publish(i, seen) => s.(stats := s.stats[i := seen], unsubtracted := More(s.unsubtracted, Moved(s.stats, i, seen)))
    case Subtract(d) =>
      s.(deltas := if d.shard < |s.deltas| then Bumped(s.deltas, d.shard, -d.change.count, -d.change.size) else s.deltas,
         unsubtracted := Less(s.unsubtracted, d))
    case Query(_, _, cands) => s.(hand := cands)
    case Transact(_, n) => Deleted(s, n)
    case RollBack => s.(hand := [])
  }

  ghost function Committed(s: State, key: ActionKey, blob: Blob, now: int, id: BlobID): State {
    var dup := key in s.tables.actions;
    s.(tables := Tables(if dup then s.tables.actions else s.tables.actions[key := Action(id, now)], s.tables.blobs[id := blob]),
       unapplied := if dup then s.unapplied else More(s.unapplied, Entry(blob)))
  }

  ghost function Deleted(s: State, n: nat): State
    requires n <= |s.hand|
  {
    s.(tables := DeleteAll(s.tables, s.hand[..n]),
       unapplied := s.unapplied + multiset(Exits(s.tables, s.hand[..n])),
       hand := [])
  }

  // ---- the invariant ----

  ghost predicate Reckoned(cfg: Config, s: State) {
    Balanced(s.tables, ShardingBy(cfg.prefixLen), s.stats, s.deltas, s.unapplied, s.unsubtracted)
  }

  ghost predicate Sharded(cfg: Config, s: State) {
    && 1 <= cfg.prefixLen <= 4 && |s.deltas| == Shards.NumShards(cfg.prefixLen)
    && forall d :: d in s.unsubtracted ==> d.shard < |s.deltas|
  }

  ghost predicate Inv(cfg: Config, s: State) {
    Reckoned(cfg, s) && Sharded(cfg, s) && BlobsSound(s.tables.blobs, cfg.sizeOf) && Current(s.tables, s.hand)
  }

  // A start on tables that the persisted scans describe exactly.
  ghost predicate Begins(cfg: Config, s: State) {
    && 1 <= cfg.prefixLen <= 4 && BlobsSound(s.tables.blobs, cfg.sizeOf)
    && s.deltas == seq(Shards.NumShards(cfg.prefixLen), _ => CountAndSize(0, 0))
    && s.unapplied == multiset{} && s.unsubtracted == multiset{} && s.hand == []
    && forall i: nat, bytes: bool :: i < Shards.NumShards(cfg.prefixLen) ==>
         Get(Persisted(s.stats, i), bytes) == Truth(s.tables, ShardingBy(cfg.prefixLen), i, bytes)
  }

  lemma BeginsInv(cfg: Config, s: State)
    requires Begins(cfg, s)
    ensures Inv(cfg, s)
  {
  }

  lemma CommitKeepsInv(cfg: Config, s: State, key: ActionKey, sha: string, now: int, id: BlobID)
    requires Inv(cfg, s) && Enabled(cfg, s, Commit(key, sha, now, id))
    ensures Inv(cfg, Do(cfg, s, Commit(key, sha, now, id)))
  {
    hide Balanced, More, BlobsSound;
    var shardOf, blob := ShardingBy(cfg.prefixLen), Blob(sha, cfg.sizeOf(sha));
    var t := s.tables.(blobs := s.tables.blobs[id := blob]);
    Upserted(s.tables, id, sha, cfg.sizeOf);
    BlobsIrrelevant(s.tables, t.blobs, shardOf, s.stats, s.deltas, s.unapplied, s.unsubtracted);
    if key !in s.tables.actions {
      ActionInserted(t, key, Action(id, now), shardOf, s.stats, s.deltas, s.unapplied, s.unsubtracted);
    }
    CurrentKept(s.tables, Do(cfg, s, Commit(key, sha, now, id)).tables, s.hand);
  }

  lemma BumpKeepsInv(cfg: Config, s: State, k: ActionKey, time: int)
    requires Inv(cfg, s) && k in s.tables.actions
    ensures Inv(cfg, Do(cfg, s, Bump(k, time)))
  {
    hide Balanced, BlobsSound;
    var t := Do(cfg, s, Bump(k, time)).tables;
    TimesIrrelevant(s.tables, t.actions, ShardingBy(cfg.prefixLen), s.stats, s.deltas, s.unapplied, s.unsubtracted);
    CurrentKept(s.tables, t, s.hand);
  }

  lemma {:induction false} DeletionsBalanced(t: Tables, cands: seq<Candidate>, shardOf: Sharding, stats: ShardStats,
                                             deltas: seq<CountAndSize>, unapplied: multiset<Adjustment>,
                                             unsubtracted: multiset<Difference>)
    requires Balanced(t, shardOf, stats, deltas, unapplied, unsubtracted) && Current(t, cands)
    ensures Balanced(DeleteAll(t, cands), shardOf, stats, deltas, unapplied + multiset(Exits(t, cands)), unsubtracted)
  {
    hide Balanced;
    if cands == [] {
      assert unapplied + multiset([]) == unapplied;
    } else {
      var n := |cands| - 1;
      var mid, c := DeleteAll(t, cands[..n]), cands[n];
      assert cands[..n + 1] == cands;
      DeletionsBalanced(t, cands[..n], shardOf, stats, deltas, unapplied, unsubtracted);
      StepOf(t, cands, n, 0);
      StillThere(t, cands, n);
      CandidateDeleted(mid, c, shardOf, stats, deltas, unapplied + multiset(Exits(t, cands[..n])), unsubtracted);
      if c.blobID in mid.blobs {
        PendingMore(unapplied, Exits(t, cands[..n]), Exit(mid.blobs[c.blobID]));
      } else {
        assert Exits(t, cands) == Exits(t, cands[..n]);
      }
    }
  }

  lemma TransactKeepsInv(cfg: Config, s: State, maxBytes: int, n: nat)
    requires Inv(cfg, s) && Enabled(cfg, s, Transact(maxBytes, n))
    ensures Inv(cfg, Do(cfg, s, Transact(maxBytes, n)))
  {
    hide Balanced, BlobsSound, DeleteAll, Exits, Enough;
    DeletionsBalanced(s.tables, s.hand[..n], ShardingBy(cfg.prefixLen), s.stats, s.deltas, s.unapplied, s.unsubtracted);
    DeleteAllLeaves(s.tables, s.hand[..n]);
    FewerBlobs(s.tables.blobs, DeleteAll(s.tables, s.hand[..n]).blobs, cfg.sizeOf);
  }

  lemma StepKeepsInv(cfg: Config, s: State, step: Step)
    requires Inv(cfg, s) && Enabled(cfg, s, step)
    ensures Inv(cfg, Do(cfg, s, step))
  {
    hide Balanced, BlobsSound, More, Less, OldestFirst, StopsAt;
    var shardOf := ShardingBy(cfg.prefixLen);
    match step
    case Commit(key, sha, now, id) => CommitKeepsInv(cfg, s, key, sha, now, id);
    case Bump(k, time) => BumpKeepsInv(cfg, s, k, time);
    case Apply(a) => DeltaApplied(s.tables, shardOf, s.stats, s.deltas, s.unapplied, s.unsubtracted, a);
    case Publish(i, seen) =>
      ScanPublished(s.tables, shardOf, s.stats, s.deltas, s.unapplied, s.unsubtracted, i, seen);
      OwedMore(s.unsubtracted, Moved(s.stats, i, seen), |s.deltas|);
    case Subtract(d) =>
      DifferenceSubtracted(s.tables, shardOf, s.stats, s.deltas, s.unapplied, s.unsubtracted, d);
      OwedLess(s.unsubtracted, d, |s.deltas|);
    case Query(cutoff, maxCount, cands) => OldestCurrent(s.tables, cutoff, maxCount, cands);
    case Transact(maxBytes, n) => TransactKeepsInv(cfg, s, maxBytes, n);
    case RollBack =>
  }

  lemma OwedMore(owed: multiset<Difference>, d: Difference, n: nat)
    requires d.shard < n && forall e :: e in owed ==> e.shard < n
    ensures forall e :: e in More(owed, d) ==> e.shard < n
  {
  }

  lemma OwedLess(owed: multiset<Difference>, d: Difference, n: nat)
    requires forall e :: e in owed ==> e.shard < n
    ensures forall e :: e in Less(owed, d) ==> e.shard < n
  {
  }

  // ---- runs ----

  ghost predicate IsRun(cfg: Config, run: seq<State>, steps: seq<Step>) {
    && |run| == |steps| + 1 && Begins(cfg, run[0])
    && forall k {:trigger steps[k]} :: 0 <= k < |steps| ==>
         Enabled(cfg, run[k], steps[k]) && run[k + 1] == Do(cfg, run[k], steps[k])
  }

  lemma {:induction false} RunKeepsInv(cfg: Config, run: seq<State>, steps: seq<Step>, k: nat)
    requires IsRun(cfg, run, steps) && k < |run|
    ensures Inv(cfg, run[k])
  {
    hide Inv, Enabled, Do, Begins;
    if k == 0 {
      BeginsInv(cfg, run[0]);
    } else {
      RunKeepsInv(cfg, run, steps, k - 1);
      StepKeepsInv(cfg, run[k - 1], steps[k - 1]);
    }
  }

  // Every blob's SHA-256 has a shard.
  lemma DigestsHaveShards(cfg: Config, s: State)
    requires Sharded(cfg, s) && BlobsSound(s.tables.blobs, cfg.sizeOf)
    ensures forall k :: Live(s.tables, k) ==>
              var i := ShardingBy(cfg.prefixLen)(BlobOf(s.tables, k).sha); i.Some? && i.value < |s.deltas|
  {
    forall k | Live(s.tables, k)
      ensures var i := ShardingBy(cfg.prefixLen)(BlobOf(s.tables, k).sha); i.Some? && i.value < |s.deltas|
    {
      Shards.ShardsPartition(cfg.prefixLen, BlobOf(s.tables, k).sha);
    }
  }

  lemma AtRestExact(cfg: Config, s: State, bytes: bool)
    requires Inv(cfg, s) && s.unapplied == multiset{} && s.unsubtracted == multiset{}
    ensures SumBelow(|s.deltas|, StatOf(s.stats, MaxInt64, bytes)) + SumBelow(|s.deltas|, DeltaOf(s.deltas, bytes)) ==
            Everything(s.tables, bytes)
  {
    DigestsHaveShards(cfg, s);
    LiveTotalsExact(s.tables, ShardingBy(cfg.prefixLen), s.stats, s.deltas, bytes);
  }

  // In every state of every run, for every shard, what the last scan persisted, plus the
  // delta, plus the adjustments still owed, less the scan differences still owed, is the
  // number of the shard's actions, and their bytes; and with nothing owed the aggregate
  // and the deltas are together exactly what the tables hold.
  lemma ReckoningExact(cfg: Config, run: seq<State>, steps: seq<Step>, k: nat)
    requires IsRun(cfg, run, steps) && k < |run|
    ensures var (s, shardOf) := (run[k], ShardingBy(cfg.prefixLen));
            && |s.deltas| == Shards.NumShards(cfg.prefixLen)
            && (forall i: nat, bytes: bool :: i < |s.deltas| ==>
                  Get(Persisted(s.stats, i), bytes) + Get(s.deltas[i], bytes) + Total(s.unapplied, Part(shardOf, i, bytes))
                  - Total(s.unsubtracted, DifferencePart(i, bytes)) == Truth(s.tables, shardOf, i, bytes))
            && (s.unapplied == multiset{} && s.unsubtracted == multiset{} ==>
                  forall bytes: bool ::
                    SumBelow(|s.deltas|, StatOf(s.stats, MaxInt64, bytes)) + SumBelow(|s.deltas|, DeltaOf(s.deltas, bytes)) ==
                    Everything(s.tables, bytes))
  {
    RunKeepsInv(cfg, run, steps, k);
    var s := run[k];
    var shardOf := ShardingBy(cfg.prefixLen);
    forall i: nat, bytes: bool | i < |s.deltas|
      ensures Get(Persisted(s.stats, i), bytes) + Get(s.deltas[i], bytes) + Total(s.unapplied, Part(shardOf, i, bytes))
              - Total(s.unsubtracted, DifferencePart(i, bytes)) == Truth(s.tables, shardOf, i, bytes)
    {
      assert Balance(s.tables, shardOf, s.stats, s.deltas[i], s.unapplied, s.unsubtracted, i, bytes);
    }
    if s.unapplied == multiset{} && s.unsubtracted == multiset{} {
      forall bytes: bool
        ensures SumBelow(|s.deltas|, StatOf(s.stats, MaxInt64, bytes)) + SumBelow(|s.deltas|, DeltaOf(s.deltas, bytes)) ==
                Everything(s.tables, bytes)
      {
        AtRestExact(cfg, s, bytes);
      }
    }
  }

  lemma HandIsCurrent(cfg: Config, run: seq<State>, steps: seq<Step>, k: nat)
    requires IsRun(cfg, run, steps) && k < |run|
    ensures Current(run[k].tables, run[k].hand)
  {
    RunKeepsInv(cfg, run, steps, k);
  }

  // Whatever commits and bumps come between the query and the transaction, the evictor
  // deletes only what it saw, each action once, and exactly the blobs that this leaves
  // without an action; and the deltas it then owes are the exact change.
  lemma LateTransactionExact(cfg: Config, run: seq<State>, steps: seq<Step>, k: nat)
    requires IsRun(cfg, run, steps) && k < |steps| && steps[k].Transact?
    ensures var (s, cands) := (run[k], run[k].hand[..steps[k].n]);
            && Current(s.tables, cands) && Left(s.tables, cands, run[k + 1].tables)
            && run[k + 1].unapplied == s.unapplied + multiset(Exits(s.tables, cands))
            && Everything(s.tables, false) - Everything(run[k + 1].tables, false) == |Exits(s.tables, cands)|
            && Everything(s.tables, true) - Everything(run[k + 1].tables, true) == Reclaimed(s.tables, cands)
            && (steps[k].n == |s.hand| || Reclaimed(s.tables, cands) >= steps[k].maxBytes)
  {
    hide DeleteAll, Exits, Reclaimed, Left, Everything, Inv;
    HandIsCurrent(cfg, run, steps, k);
    var s, n := run[k], steps[k].n;
    assert Enabled(cfg, s, steps[k]) && run[k + 1] == Do(cfg, s, steps[k]);
    DeleteAllLeaves(s.tables, s.hand[..n]);
    EvictionReclaims(s.tables, s.hand[..n]);
  }
}

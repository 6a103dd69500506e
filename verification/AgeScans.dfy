// What a scan counts of the ages of a shard's actions, and what the age limit makes of it.
module AgeScans {
  import opened Wrappers
  import opened Totals
  import opened UsageTables
  import opened DeadReckoning
  import opened CleanupLimits
  import AccessTimes

  // scanShard's SQL: an action counts if its access time is later than this second.
  function Since(now: int, d: nat): int {
    AccessTimes.Unix(now) - d / AccessTimes.Second
  }

  function YoungShare(t: Tables, shardOf: Sharding, i: nat, bytes: bool, since: int): ActionKey -> int {
    (k: ActionKey) => if k in t.actions && t.actions[k].accessTime > since then Share(t, shardOf, i, bytes, k) else 0
  }

  function OldShare(t: Tables, shardOf: Sharding, i: nat, bytes: bool, since: int): ActionKey -> int {
    (k: ActionKey) => if k in t.actions && t.actions[k].accessTime <= since then Share(t, shardOf, i, bytes, k) else 0
  }

  // A scan of shard i at time now, with a cohort for duration d.
  ghost predicate Scans(seen: UsageStats, t: Tables, shardOf: Sharding, i: nat, now: int, d: nat) {
    forall bytes: bool ::
      && Get(All(seen), bytes) == Truth(t, shardOf, i, bytes)
      && Get(Cohort(seen, d), bytes) == Total(multiset(t.actions.Keys), YoungShare(t, shardOf, i, bytes, Since(now, d)))
  }

  // The tables that each shard's last scan saw, and when.
  datatype Seen = Seen(tables: Tables, at: int)

  ghost predicate AllScanned(stats: ShardStats, scans: seq<Seen>, shardOf: Sharding, d: nat) {
    forall i :: 0 <= i < |scans| ==> i in stats && Scans(stats[i], scans[i].tables, shardOf, i, scans[i].at, d)
  }

  // A scan of its shard saw action k as accessed longer ago than d.
  predicate SeenOld(scans: seq<Seen>, shardOf: Sharding, d: nat, i: nat, k: ActionKey) {
    && i < |scans| && Live(scans[i].tables, k) && shardOf(BlobOf(scans[i].tables, k).sha) == Some(i)
    && scans[i].tables.actions[k].accessTime <= scans[i].at / 1_000_000_000 - d / 1_000_000_000
  }

  // The two cohorts of a shard differ by its old actions.
  lemma OldOnes(seen: UsageStats, t: Tables, shardOf: Sharding, i: nat, now: int, d: nat)
    requires Scans(seen, t, shardOf, i, now, d)
    ensures All(seen).count - Cohort(seen, d).count == Total(multiset(t.actions.Keys), OldShare(t, shardOf, i, false, Since(now, d)))
  {
    hide Total;
    var since := Since(now, d);
    TotalPlus(multiset(t.actions.Keys), OldShare(t, shardOf, i, false, since), YoungShare(t, shardOf, i, false, since),
              ShareOf(t, shardOf, i, false));
    assert Get(All(seen), false) == Truth(t, shardOf, i, false);
    assert Get(Cohort(seen, d), false) == Total(multiset(t.actions.Keys), YoungShare(t, shardOf, i, false, since));
  }

  lemma {:induction false} PositiveTotal(m: multiset<ActionKey>, f: ActionKey -> int)
    requires forall k :: k in m ==> f(k) >= 0
    ensures Total(m, f) >= 0 && (Total(m, f) > 0 <==> exists k :: k in m && f(k) > 0)
    decreases |m|
  {
    if m != multiset{} {
      var k :| k in m;
      hide Total;
      TotalTaken(m, k, f);
      PositiveTotal(Less(m, k), f);
      forall j ensures j in m <==> j == k || j in Less(m, k) {
      }
    } else {
      assert Total(m, f) == 0;
    }
  }

  lemma ShardHasOld(scans: seq<Seen>, stats: ShardStats, shardOf: Sharding, d: nat, i: nat)
    requires AllScanned(stats, scans, shardOf, d) && i < |scans|
    ensures StatOf(stats, MaxInt64, false)(i) - StatOf(stats, d, false)(i) >= 0
    ensures StatOf(stats, MaxInt64, false)(i) - StatOf(stats, d, false)(i) > 0 <==> exists k :: SeenOld(scans, shardOf, d, i, k)
  {
    hide Total, Scans;
    var t, f := scans[i].tables, OldShare(scans[i].tables, shardOf, i, false, Since(scans[i].at, d));
    OldOnes(stats[i], t, shardOf, i, scans[i].at, d);
    PositiveTotal(multiset(t.actions.Keys), f);
    forall k ensures (k in t.actions && f(k) > 0) <==> SeenOld(scans, shardOf, d, i, k) {
    }
    if k :| k in multiset(t.actions.Keys) && f(k) > 0 {
      assert SeenOld(scans, shardOf, d, i, k);
    }
    if k :| SeenOld(scans, shardOf, d, i, k) {
      assert k in multiset(t.actions.Keys) && f(k) > 0;
    }
  }

  lemma {:induction false} SumsApart(n: nat, f: nat -> int, g: nat -> int)
    requires forall i: nat :: i < n ==> f(i) - g(i) >= 0
    ensures SumBelow(n, f) - SumBelow(n, g) >= 0
    ensures SumBelow(n, f) - SumBelow(n, g) > 0 <==> exists i: nat :: i < n && f(i) - g(i) > 0
  {
    if n > 0 {
      SumsApart(n - 1, f, g);
      if f(n - 1) - g(n - 1) > 0 {
        assert exists i: nat :: i < n && f(i) - g(i) > 0;
      }
    }
  }

  // Whatever has been scanned of the shards, and when: a tick finds the cache over its age
  // limit exactly if one of the scans saw an action that was too old then.
  lemma OverAgeIff(usage: UsageStats, stats: ShardStats, scans: seq<Seen>, shardOf: Sharding, maxAge: int)
    requires maxAge > 0 && maxAge != MaxInt64 && AllScanned(stats, scans, shardOf, maxAge)
    requires forall d: nat, bytes :: Get(Cohort(usage, d), bytes) == SumBelow(|scans|, StatOf(stats, d, bytes))
    ensures OverAge(usage, maxAge) <==> exists i: nat, k :: SeenOld(scans, shardOf, maxAge, i, k)
  {
    hide SumBelow, AllScanned;
    var n, all, young := |scans|, StatOf(stats, MaxInt64, false), StatOf(stats, maxAge, false);
    assert Get(Cohort(usage, MaxInt64), false) == SumBelow(n, all) && Get(Cohort(usage, maxAge), false) == SumBelow(n, young);
    forall i: nat | i < n ensures all(i) - young(i) >= 0 && (all(i) - young(i) > 0 <==> exists k :: SeenOld(scans, shardOf, maxAge, i, k)) {
      ShardHasOld(scans, stats, shardOf, maxAge, i);
    }
    SumsApart(n, all, young);
    if OverAge(usage, maxAge) {
      var i: nat :| i < n && all(i) - young(i) > 0;
      var k :| SeenOld(scans, shardOf, maxAge, i, k);
    }
    if i: nat, k :| SeenOld(scans, shardOf, maxAge, i, k) {
      assert all(i) - young(i) > 0;
    }
  }

  predicate TooOldForScan(accessTime: int, now: int, d: nat) {
    accessTime <= Since(now, d)
  }

  predicate CoveredByTick(accessTime: int, now: int, maxAge: int) {
    accessTime <= Cutoff(maxAge, now)
  }

  // For a limit of whole seconds what a scan calls too old is what a tick at the same time
  // may delete; for any other limit what is only just too old for a scan is not.
  lemma OldIsCoveredIff(maxAge: nat)
    requires maxAge > 0
    ensures (forall now, accessTime :: TooOldForScan(accessTime, now, maxAge) <==> CoveredByTick(accessTime, now, maxAge)) <==>
            maxAge % AccessTimes.Second == 0
  {
    var s := maxAge / AccessTimes.Second;
    if maxAge % AccessTimes.Second == 0 {
      forall now: int ensures Since(now, maxAge) == Cutoff(maxAge, now) {
        assert now - maxAge == now + (-s) * AccessTimes.Second;
        AccessTimes.WholeSeconds(now, -s);
      }
    } else {
      assert TooOldForScan(-s, 0, maxAge) && !CoveredByTick(-s, 0, maxAge);
    }
  }
}

// How full gocached's cache is, by shard: what the tables say, and the persisted scans and
// in-memory deltas that stand in for it.
module UsageTables {
  import opened Wrappers
  import opened Totals

  type ActionKey = nat
  type BlobID = nat

  datatype Action = Action(blobID: BlobID, accessTime: int)
  datatype Blob = Blob(sha: string, storedSize: nat)

  datatype Tables = Tables(actions: map<ActionKey, Action>, blobs: map<BlobID, Blob>)

  datatype CountAndSize = CountAndSize(count: int, size: int)

  // One call of addBlobDelta.
  datatype Adjustment = Adjustment(sha: string, change: CountAndSize)

  // The shard a blob is in, if any.
  type Sharding = string -> Option<nat>

  function Get(c: CountAndSize, bytes: bool): int {
    if bytes then c.size else c.count
  }

  // An action of a blob in the Blobs table counts one, and the blob's stored size.
  function Worth(b: Blob, bytes: bool): int {
    if bytes then b.storedSize else 1
  }

  predicate Live(t: Tables, k: ActionKey) {
    k in t.actions && t.actions[k].blobID in t.blobs
  }

  function BlobOf(t: Tables, k: ActionKey): Blob
    requires Live(t, k)
  {
    t.blobs[t.actions[k].blobID]
  }

  function Share(t: Tables, shardOf: Sharding, i: nat, bytes: bool, k: ActionKey): int {
    if Live(t, k) && shardOf(BlobOf(t, k).sha) == Some(i) then Worth(BlobOf(t, k), bytes) else 0
  }

  function ShareOf(t: Tables, shardOf: Sharding, i: nat, bytes: bool): ActionKey -> int {
    (k: ActionKey) => Share(t, shardOf, i, bytes, k)
  }

  // What a scan of shard i counts: the join of the tables.
  ghost function Truth(t: Tables, shardOf: Sharding, i: nat, bytes: bool): int {
    Total(multiset(t.actions.Keys), ShareOf(t, shardOf, i, bytes))
  }

  function Part(shardOf: Sharding, i: nat, bytes: bool): Adjustment -> int {
    (a: Adjustment) => if shardOf(a.sha) == Some(i) then Get(a.change, bytes) else 0
  }

  predicate Referenced(actions: map<ActionKey, Action>, id: BlobID) {
    exists k :: k in actions && actions[k].blobID == id
  }

  lemma ActionAdded(t: Tables, k: ActionKey, a: Action, shardOf: Sharding, i: nat, bytes: bool)
    requires k !in t.actions
    ensures var t' := t.(actions := t.actions[k := a]);
            Truth(t', shardOf, i, bytes) == Truth(t, shardOf, i, bytes) + Share(t', shardOf, i, bytes, k)
  {
    hide Total, More;
    var t' := t.(actions := t.actions[k := a]);
    var keys := multiset(t.actions.Keys);
    assert t'.actions.Keys == t.actions.Keys + {k};
    OneKeyMore(t.actions.Keys, k);
    TotalPut(keys, k, ShareOf(t', shardOf, i, bytes));
    TotalSame(keys, ShareOf(t', shardOf, i, bytes), ShareOf(t, shardOf, i, bytes));
  }

  lemma OneKeyMore(keys: set<ActionKey>, k: ActionKey)
    requires k !in keys
    ensures multiset(keys + {k}) == More(multiset(keys), k)
  {
  }

  lemma ActionRemoved(t: Tables, k: ActionKey, shardOf: Sharding, i: nat, bytes: bool)
    requires k in t.actions
    ensures Truth(t.(actions := t.actions - {k}), shardOf, i, bytes) ==
            Truth(t, shardOf, i, bytes) - Share(t, shardOf, i, bytes, k)
  {
    assert (t.actions - {k})[k := t.actions[k]] == t.actions;
    ActionAdded(t.(actions := t.actions - {k}), k, t.actions[k], shardOf, i, bytes);
  }

  // Blobs no action refers to do not matter.
  lemma UnreferencedBlobs(t: Tables, t': Tables, shardOf: Sharding, i: nat, bytes: bool)
    requires t'.actions == t.actions
    requires forall k :: k in t.actions ==> (Live(t, k) <==> Live(t', k)) && (Live(t, k) ==> BlobOf(t, k) == BlobOf(t', k))
    ensures Truth(t', shardOf, i, bytes) == Truth(t, shardOf, i, bytes)
  {
    TotalSame(multiset(t.actions.Keys), ShareOf(t', shardOf, i, bytes), ShareOf(t, shardOf, i, bytes));
  }

  // ---- all shards together ----

  ghost function SumBelow(n: nat, f: nat -> int): int {
    if n == 0 then 0 else SumBelow(n - 1, f) + f(n - 1)
  }

  function ShareBelow(t: Tables, shardOf: Sharding, n: nat, bytes: bool): ActionKey -> int {
    (k: ActionKey) => if Live(t, k) && shardOf(BlobOf(t, k).sha).Some? && 0 <= shardOf(BlobOf(t, k).sha).value < n
         then Worth(BlobOf(t, k), bytes) else 0
  }

  // Everything in the cache, shards or no shards.
  function WorthOf(t: Tables, bytes: bool): ActionKey -> int {
    (k: ActionKey) => if Live(t, k) then Worth(BlobOf(t, k), bytes) else 0
  }

  ghost function Everything(t: Tables, bytes: bool): int {
    Total(multiset(t.actions.Keys), WorthOf(t, bytes))
  }

  ghost function TruthOf(t: Tables, shardOf: Sharding, bytes: bool): nat -> int {
    (i: nat) => Truth(t, shardOf, i, bytes)
  }

  lemma {:induction false} ShardsBelow(t: Tables, shardOf: Sharding, n: nat, bytes: bool)
    ensures SumBelow(n, TruthOf(t, shardOf, bytes)) == Total(multiset(t.actions.Keys), ShareBelow(t, shardOf, n, bytes))
  {
    var keys := multiset(t.actions.Keys);
    if n == 0 {
      TotalSame(keys, ShareBelow(t, shardOf, 0, bytes), Nothing);
      TotalZero(keys);
    } else {
      ShardsBelow(t, shardOf, n - 1, bytes);
      TotalPlus(keys, ShareBelow(t, shardOf, n - 1, bytes), ShareOf(t, shardOf, n - 1, bytes), ShareBelow(t, shardOf, n, bytes));
    }
  }

  // The shards' truths add up to everything.
  lemma ShardsAddUp(t: Tables, shardOf: Sharding, n: nat, bytes: bool)
    requires forall k :: Live(t, k) ==> shardOf(BlobOf(t, k).sha).Some? && shardOf(BlobOf(t, k).sha).value < n
    ensures SumBelow(n, TruthOf(t, shardOf, bytes)) == Everything(t, bytes)
  {
    ShardsBelow(t, shardOf, n, bytes);
    TotalSame(multiset(t.actions.Keys), ShareBelow(t, shardOf, n, bytes), WorthOf(t, bytes));
  }

  lemma {:induction false} TotalPlus<T>(m: multiset<T>, f: T -> int, g: T -> int, h: T -> int)
    requires forall x :: x in m ==> h(x) == f(x) + g(x)
    ensures Total(m, h) == Total(m, f) + Total(m, g)
    decreases |m|
  {
    if m != multiset{} {
      var x :| x in m;
      TotalTaken(m, x, f);
      TotalTaken(m, x, g);
      TotalTaken(m, x, h);
      TotalPlus(m - multiset{x}, f, g, h);
    }
  }

  function Nothing(k: ActionKey): int {
    0
  }

  lemma {:induction false} TotalZero(m: multiset<ActionKey>)
    ensures Total(m, Nothing) == 0
    decreases |m|
  {
    if m != multiset{} {
      var x :| x in m;
      TotalTaken(m, x, Nothing);
      TotalZero(m - multiset{x});
    }
  }
}

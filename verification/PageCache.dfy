// The shared page cache of guestbd: a content-addressed LRU of pages.

module Pages {
  newtype Byte = b: int | 0 <= b < 256

  // SHA-256 as an ideal hash: a digest is as good as the bytes it was taken of.
  // Unset is the zero digest, which is what a server without a cache records.
  datatype PageHash = Unset | Sha(content: seq<Byte>)

  function HashPage(data: seq<Byte>): PageHash {
    Sha(data)
  }
}

// The recency list as a value, front first, and what a Get or a Put does to it.
module RecencyList {
  import opened Pages

  datatype CacheEntry = CacheEntry(hash: PageHash, data: seq<Byte>)

  predicate Has(lru: seq<CacheEntry>, h: PageHash) {
    exists i :: 0 <= i < |lru| && lru[i].hash == h
  }

  ghost predicate DistinctHashes(lru: seq<CacheEntry>) {
    forall i, j :: 0 <= i < j < |lru| ==> lru[i].hash != lru[j].hash
  }

  // Every entry holds the bytes its hash was taken of.
  ghost predicate ContentAddressed(lru: seq<CacheEntry>) {
    forall i :: 0 <= i < |lru| ==> lru[i].hash == Sha(lru[i].data)
  }

  function Remove(lru: seq<CacheEntry>, h: PageHash): (rest: seq<CacheEntry>)
    ensures |rest| <= |lru|
    ensures forall e :: e in rest ==> e in lru
  {
    if lru == [] then []
    else if lru[0].hash == h then lru[1..]
    else [lru[0]] + Remove(lru[1..], h)
  }

  function EntryOf(lru: seq<CacheEntry>, h: PageHash): (e: CacheEntry)
    requires Has(lru, h)
    ensures e in lru && e.hash == h
  {
    if lru[0].hash == h then lru[0] else EntryOf(lru[1..], h)
  }

  function Touched(lru: seq<CacheEntry>, h: PageHash): seq<CacheEntry> {
    if Has(lru, h) then [EntryOf(lru, h)] + Remove(lru, h) else lru
  }

  function Stored(lru: seq<CacheEntry>, maxPages: nat, h: PageHash, data: seq<Byte>): seq<CacheEntry> {
    if Has(lru, h) then Touched(lru, h)
    else
      var pushed := [CacheEntry(h, data)] + lru;
      if |pushed| <= maxPages then pushed else pushed[..maxPages]
  }

  // Removing an entry of a duplicate-free list takes out exactly that entry.
  lemma {:induction false} RemoveIsExact(lru: seq<CacheEntry>, i: nat)
    requires DistinctHashes(lru) && i < |lru|
    ensures Has(lru, lru[i].hash)
    ensures EntryOf(lru, lru[i].hash) == lru[i]
    ensures Remove(lru, lru[i].hash) == lru[..i] + lru[i + 1..]
  {
    if i > 0 {
      var tail := lru[1..];
      assert tail[i - 1] == lru[i];
      RemoveIsExact(tail, i - 1);
      assert lru[..i] == [lru[0]] + tail[..i - 1];
      assert lru[i + 1..] == tail[i..];
    }
  }

  lemma {:induction false} RemoveAbsent(lru: seq<CacheEntry>, h: PageHash)
    requires !Has(lru, h)
    ensures Remove(lru, h) == lru
  {
    if lru != [] {
      assert lru[0].hash != h;
      assert forall i :: 0 <= i < |lru| - 1 ==> lru[1..][i] == lru[i + 1];
      RemoveAbsent(lru[1..], h);
    }
  }

  // What the cache does to a content-addressed list stays content-addressed, as
  // long as callers store bytes under their own hash.
  lemma StaysContentAddressed(lru: seq<CacheEntry>, maxPages: nat, h: PageHash, data: seq<Byte>)
    ensures ContentAddressed(lru) ==> ContentAddressed(Touched(lru, h))
    ensures ContentAddressed(lru) && h == Sha(data) ==> ContentAddressed(Stored(lru, maxPages, h, data))
  {
    if ContentAddressed(lru) {
      assert forall e :: e in lru ==> e.hash == Sha(e.data);
      var touched := Touched(lru, h);
      forall i | 0 <= i < |touched| ensures touched[i].hash == Sha(touched[i].data) {
        assert touched[i] in lru;
      }
      assert forall i :: 1 <= i <= |lru| ==> ([CacheEntry(h, data)] + lru)[i] == lru[i - 1];
    }
  }
}

module PageCaching {
  import opened Pages
  import opened RecencyList

  // The map and the list hold the same entries, one per hash.
  ghost predicate Bijection(items: map<PageHash, CacheEntry>, lru: seq<CacheEntry>) {
    && DistinctHashes(lru)
    && (forall i :: 0 <= i < |lru| ==> lru[i].hash in items && items[lru[i].hash] == lru[i])
    && (forall h :: h in items ==> Has(lru, h))
  }

  // The entry of hash h is first, and the others are behind it as they were.
  ghost predicate Fronted(was: seq<CacheEntry>, now: seq<CacheEntry>, h: PageHash) {
    exists i :: 0 <= i < |was| && was[i].hash == h && now == [was[i]] + was[..i] + was[i + 1..]
  }

  function MovedToFront(lru: seq<CacheEntry>, i: nat): (moved: seq<CacheEntry>)
    requires i < |lru|
    ensures |moved| == |lru| && moved[0] == lru[i]
    ensures forall j :: 0 <= j < i ==> moved[j + 1] == lru[j]
    ensures forall j :: i < j < |lru| ==> moved[j] == lru[j]
  {
    [lru[i]] + (lru[..i] + lru[i + 1..])
  }

  lemma BijectionTouch(items: map<PageHash, CacheEntry>, lru: seq<CacheEntry>, i: nat)
    requires Bijection(items, lru) && i < |lru|
    ensures Bijection(items, MovedToFront(lru, i))
    ensures Has(lru, lru[i].hash) && Touched(lru, lru[i].hash) == MovedToFront(lru, i)
  {
    RemoveIsExact(lru, i);
    BijectionMoved(items, lru, i, MovedToFront(lru, i));
  }

  lemma BijectionMoved(items: map<PageHash, CacheEntry>, lru: seq<CacheEntry>, i: nat, moved: seq<CacheEntry>)
    requires Bijection(items, lru) && i < |lru|
    requires |moved| == |lru| && moved[0] == lru[i]
    requires forall j :: 0 <= j < i ==> moved[j + 1] == lru[j]
    requires forall j :: i < j < |lru| ==> moved[j] == lru[j]
    ensures Bijection(items, moved)
  {
    assert forall j :: 1 <= j <= i ==> moved[j] == lru[j - 1];
    forall h | h in items ensures Has(moved, h) {
      var j :| 0 <= j < |lru| && lru[j].hash == h;
      assert moved[if j < i then j + 1 else if j == i then 0 else j].hash == h;
    }
  }

  lemma BijectionPush(items: map<PageHash, CacheEntry>, lru: seq<CacheEntry>, e: CacheEntry)
    requires Bijection(items, lru) && e.hash !in items
    ensures Bijection(items[e.hash := e], [e] + lru)
  {
    var pushed := [e] + lru;
    assert forall j :: 1 <= j < |pushed| ==> pushed[j] == lru[j - 1];
    forall h | h in items[e.hash := e] ensures Has(pushed, h) {
      if h == e.hash {
        assert pushed[0].hash == h;
      } else {
        var j :| 0 <= j < |lru| && lru[j].hash == h;
        assert pushed[j + 1].hash == h;
      }
    }
  }

  lemma BijectionDropLast(items: map<PageHash, CacheEntry>, lru: seq<CacheEntry>)
    requires Bijection(items, lru) && lru != []
    ensures Bijection(items - {lru[|lru| - 1].hash}, lru[..|lru| - 1])
  {
  }

  lemma MovedIsFronted(lru: seq<CacheEntry>, i: nat)
    requires i < |lru|
    ensures Fronted(lru, MovedToFront(lru, i), lru[i].hash)
  {
    assert MovedToFront(lru, i) == [lru[i]] + lru[..i] + lru[i + 1..];
  }

  lemma CutBehind(lru: seq<CacheEntry>, e: CacheEntry, n: nat)
    ensures 0 < n <= |lru| ==> ([e] + lru)[..n] == [e] + lru[..n - 1]
  {
  }

  class PageCache {
    const maxPages: nat
    const pageSize: nat

    var items: map<PageHash, CacheEntry>
    var lru: seq<CacheEntry>  // front = most recently used

    var hits: nat
    var misses: nat
    var evictions: nat
    var entries: int          // gauge_guestbd_cache_entries
    var bytes: int            // gauge_guestbd_cache_bytes

    ghost predicate Linked()
      reads this
    {
      Bijection(items, lru) && GaugesMatch()
    }

    ghost predicate GaugesMatch()
      reads this
    {
      entries == |lru| && bytes == entries * pageSize
    }

    ghost predicate Valid()
      reads this
    {
      Linked() && |lru| <= maxPages
    }

    constructor (maxPages: nat, pageSize: nat)
      ensures Valid() && lru == []
      ensures this.maxPages == maxPages && this.pageSize == pageSize
    {
      this.maxPages := maxPages;
      this.pageSize := pageSize;
      items, lru := map[], [];
      hits, misses, evictions := 0, 0, 0;
      entries, bytes := 0, 0;
    }

    // list.MoveToFront of the element that items holds for h.
    method MoveToFront(h: PageHash)
      requires Linked() && h in items
      modifies this`lru
      ensures Linked() && |lru| == |old(lru)|
      ensures Has(old(lru), h) && lru == Touched(old(lru), h)
      ensures Fronted(old(lru), lru, h) && lru[0] == items[h]
    {
      hide Touched, MovedToFront, EntryOf, Remove, Fronted;
      var i :| 0 <= i < |lru| && lru[i].hash == h;
      ghost var was := lru;
      lru := MovedToFront(lru, i);
      BijectionTouch(items, was, i);
      MovedIsFronted(was, i);
    }

    method Get(h: PageHash) returns (data: seq<Byte>, ok: bool)
      requires Valid()
      modifies this`lru, this`hits, this`misses
      ensures Valid() && lru == Touched(old(lru), h)
      ensures ok == Has(old(lru), h)
      ensures ok ==> CacheEntry(h, data) in old(lru)
      ensures ok ==> Fronted(old(lru), lru, h) && lru[0].data == data
      ensures !ok ==> lru == old(lru)
      ensures ContentAddressed(old(lru)) ==> ContentAddressed(lru) && (ok ==> h == Sha(data))
      ensures hits == old(hits) + (if ok then 1 else 0)
      ensures misses == old(misses) + (if ok then 0 else 1)
    {
      ghost var was := lru;
      if h in items {
        data, ok := items[h].data, true;
        MoveToFront(h);
        assert lru[0] == items[h] && lru[0] in was;
        hits := hits + 1;
      } else {
        data, ok := [], false;
        misses := misses + 1;
      }
      StaysContentAddressed(was, maxPages, h, []);
    }

    method Put(h: PageHash, data: seq<Byte>)
      requires Valid()
      modifies this`items, this`lru, this`evictions, this`entries, this`bytes
      ensures Valid() && lru == Stored(old(lru), maxPages, h, data)
      ensures maxPages > 0 ==> lru != [] && lru[0].hash == h
      ensures Has(old(lru), h) ==> Fronted(old(lru), lru, h)
      ensures !Has(old(lru), h) ==>
                lru == if |old(lru)| < maxPages then [CacheEntry(h, data)] + old(lru)
                       else if maxPages == 0 then [] else [CacheEntry(h, data)] + old(lru)[..maxPages - 1]
      ensures ContentAddressed(old(lru)) && h == Sha(data) ==> ContentAddressed(lru)
      ensures evictions == old(evictions) + (if Has(old(lru), h) || |old(lru)| < maxPages then 0 else 1)
    {
      StaysContentAddressed(lru, maxPages, h, data);
      if h in items {
        MoveToFront(h);
        return;
      }
      CutBehind(lru, CacheEntry(h, data), maxPages);
      Push(h, data);
      TrimToCapacity();
    }

    // The eviction loop Put ends in.
    method TrimToCapacity()
      requires Linked()
      modifies this`items, this`lru, this`evictions, this`entries, this`bytes
      ensures Valid()
      ensures lru == if |old(lru)| <= maxPages then old(lru) else old(lru)[..maxPages]
      ensures evictions == old(evictions) + |old(lru)| - |lru|
    {
      while |lru| > maxPages
        invariant Linked()
        invariant |lru| <= |old(lru)| && lru == old(lru)[..|lru|]
        invariant |lru| < |old(lru)| ==> |lru| >= maxPages
        invariant evictions == old(evictions) + |old(lru)| - |lru|
        decreases |lru|
      {
        Evict();
      }
    }

    // Adds an entry the cache does not hold at the front of the list.
    method Push(h: PageHash, data: seq<Byte>)
      requires Linked() && h !in items
      modifies this`items, this`lru, this`entries, this`bytes
      ensures !Has(old(lru), h)
      ensures Linked() && lru == [CacheEntry(h, data)] + old(lru)
    {
      var entry := CacheEntry(h, data);
      BijectionPush(items, lru, entry);
      lru := [entry] + lru;
      items := items[h := entry];
      entries := entries + 1;
      bytes := bytes + pageSize;
    }

    method Evict()
      requires Linked()
      modifies this`items, this`lru, this`evictions, this`entries, this`bytes
      ensures Linked()
      ensures lru == if old(lru) == [] then [] else old(lru)[..|old(lru)| - 1]
      ensures evictions == old(evictions) + (if old(lru) == [] then 0 else 1)
    {
      if |lru| == 0 {
        return;
      }
      BijectionDropLast(items, lru);
      assert (entries - 1) * pageSize == bytes - pageSize;
      var elem := lru[|lru| - 1];
      lru := lru[..|lru| - 1];
      items := items - {elem.hash};
      evictions := evictions + 1;
      entries := entries - 1;
      bytes := bytes - pageSize;
    }
  }
}

// Inclusion: of two caches fed the same history, the larger one always holds what
// the smaller one holds, in the same relative order.
module CacheInclusion {
  import opened Pages
  import opened RecencyList
  import opened PageCaching

  datatype CacheOp = Get(hash: PageHash) | Put(data: seq<Byte>)

  function Apply(lru: seq<CacheEntry>, maxPages: nat, op: CacheOp): seq<CacheEntry> {
    match op
    case Get(h) => Touched(lru, h)
    case Put(data) => Stored(lru, maxPages, HashPage(data), data)
  }

  function After(maxPages: nat, history: seq<CacheOp>): seq<CacheEntry> {
    if history == [] then []
    else Apply(After(maxPages, history[..|history| - 1]), maxPages, history[|history| - 1])
  }

  // small is big with some entries left out.
  predicate Subsequence(small: seq<CacheEntry>, big: seq<CacheEntry>) {
    if small == [] then true
    else if big == [] then false
    else if small[0] == big[0] then Subsequence(small[1..], big[1..])
    else Subsequence(small, big[1..])
  }

  lemma {:induction false} SubsequenceMembers(small: seq<CacheEntry>, big: seq<CacheEntry>)
    requires Subsequence(small, big)
    ensures |small| <= |big|
    ensures forall e :: e in small ==> e in big
    ensures forall h :: Has(small, h) ==> Has(big, h)
  {
    if small != [] {
      if small[0] == big[0] {
        SubsequenceMembers(small[1..], big[1..]);
        assert small == [small[0]] + small[1..];
      } else {
        SubsequenceMembers(small, big[1..]);
      }
      assert big == [big[0]] + big[1..];
      forall h | Has(small, h) ensures Has(big, h) {
        var i :| 0 <= i < |small| && small[i].hash == h;
        assert small[i] in big;
      }
    }
  }

  lemma {:induction false} SubsequenceTail(small: seq<CacheEntry>, big: seq<CacheEntry>)
    requires small != [] && Subsequence(small, big)
    ensures Subsequence(small[1..], big)
    decreases |big|
  {
    if small[0] == big[0] {
      if |small| > 1 {
        if small[1] == big[0] {
          SubsequenceTail(small[1..], big[1..]);
        }
      }
    } else {
      SubsequenceTail(small, big[1..]);
      if |small| > 1 && small[1] == big[0] {
        SubsequenceTail(small[1..], big[1..]);
      }
    }
  }

  // The last entry of big can go if small is short of it or gives up its own last.
  lemma {:induction false} SubsequenceDropLast(small: seq<CacheEntry>, big: seq<CacheEntry>)
    requires Subsequence(small, big) && big != []
    ensures Subsequence(small, big[..|big| - 1]) ||
            (small != [] && small[|small| - 1] == big[|big| - 1] &&
             Subsequence(small[..|small| - 1], big[..|big| - 1]))
    decreases |big|
  {
    var bigInit := big[..|big| - 1];
    if small != [] {
      if |big| == 1 {
        assert small[1..] == [];
      } else {
        assert bigInit[1..] == big[1..][..|big| - 2];
        if small[0] == big[0] {
          SubsequenceDropLast(small[1..], big[1..]);
          if small[1..] != [] {
            assert small[..|small| - 1][1..] == small[1..][..|small| - 2];
          }
        } else {
          SubsequenceDropLast(small, big[1..]);
        }
      }
    }
  }

  lemma {:induction false} SubsequenceRemove(small: seq<CacheEntry>, big: seq<CacheEntry>, h: PageHash)
    requires Subsequence(small, big) && DistinctHashes(big) && DistinctHashes(small)
    ensures Subsequence(Remove(small, h), Remove(big, h))
    decreases |big|
  {
    if small != [] {
      if small[0] == big[0] {
        if small[0].hash != h {
          SubsequenceRemove(small[1..], big[1..], h);
        }
      } else if big[0].hash == h {
        SubsequenceMembers(small, big[1..]);
        assert !Has(big[1..], h);
        RemoveAbsent(small, h);
      } else {
        SubsequenceRemove(small, big[1..], h);
        var rs, rb := Remove(small, h), Remove(big, h);
        assert rb[1..] == Remove(big[1..], h);
        if rs != [] && rs[0] == big[0] {
          SubsequenceTail(rs, rb[1..]);
        }
      }
    } else {
      assert Remove(small, h) == [];
    }
  }

  lemma {:induction false} SubsequenceInit(small: seq<CacheEntry>, big: seq<CacheEntry>)
    requires small != [] && Subsequence(small, big)
    ensures Subsequence(small[..|small| - 1], big)
    decreases |big|
  {
    var init := small[..|small| - 1];
    if small[0] == big[0] {
      if |small| > 1 {
        SubsequenceInit(small[1..], big[1..]);
        assert init[1..] == small[1..][..|small| - 2];
      }
    } else {
      SubsequenceInit(small, big[1..]);
    }
  }

  lemma HasTail(lru: seq<CacheEntry>, h: PageHash)
    requires lru != [] && lru[0].hash != h
    ensures Has(lru, h) <==> Has(lru[1..], h)
  {
  }

  lemma DistinctCons(e: CacheEntry, rest: seq<CacheEntry>)
    requires DistinctHashes(rest) && forall r :: r in rest ==> r.hash != e.hash
    ensures DistinctHashes([e] + rest)
  {
  }

  lemma {:induction false} DistinctRemove(lru: seq<CacheEntry>, h: PageHash)
    requires DistinctHashes(lru)
    ensures DistinctHashes(Remove(lru, h)) && !Has(Remove(lru, h), h)
    ensures |Remove(lru, h)| == if Has(lru, h) then |lru| - 1 else |lru|
  {
    if lru != [] {
      var tail := lru[1..];
      if lru[0].hash == h {
        assert forall i :: 0 <= i < |tail| ==> tail[i] == lru[i + 1];
        assert !Has(tail, h);
      } else {
        assert forall i, j :: 0 <= i < j < |tail| ==> tail[i].hash == lru[i + 1].hash != lru[j + 1].hash == tail[j].hash;
        DistinctRemove(tail, h);
        HasTail(lru, h);
        DistinctCons(lru[0], Remove(tail, h));
        HasTail([lru[0]] + Remove(tail, h), h);
        assert ([lru[0]] + Remove(tail, h))[1..] == Remove(tail, h);
      }
    }
  }

  lemma TouchedDistinct(lru: seq<CacheEntry>, h: PageHash)
    requires DistinctHashes(lru)
    ensures DistinctHashes(Touched(lru, h)) && |Touched(lru, h)| == |lru|
  {
    DistinctRemove(lru, h);
    assert forall e :: e in Remove(lru, h) && e.hash == h ==> Has(Remove(lru, h), h);
  }

  // The relation two caches of different capacity keep: the smaller one lacks
  // something only once it is full.
  ghost predicate Included(small: seq<CacheEntry>, m: nat, big: seq<CacheEntry>, n: nat) {
    && DistinctHashes(small) && DistinctHashes(big)
    && ContentAddressed(small) && ContentAddressed(big)
    && |small| <= m && |big| <= n
    && Subsequence(small, big)
    && (small == big || |small| == m)
  }

  lemma SameEntry(small: seq<CacheEntry>, big: seq<CacheEntry>, h: PageHash)
    requires Subsequence(small, big) && DistinctHashes(big) && Has(small, h)
    ensures Has(big, h) && EntryOf(small, h) == EntryOf(big, h)
  {
    SubsequenceMembers(small, big);
  }

  lemma TouchKeepsInclusion(small: seq<CacheEntry>, m: nat, big: seq<CacheEntry>, n: nat, h: PageHash)
    requires Included(small, m, big, n)
    ensures Included(Touched(small, h), m, Touched(big, h), n)
  {
    TouchedDistinct(small, h);
    TouchedDistinct(big, h);
    StaysContentAddressed(small, m, h, []);
    StaysContentAddressed(big, n, h, []);
    SubsequenceRemove(small, big, h);
    if Has(small, h) {
      SameEntry(small, big, h);
      assert Touched(small, h)[1..] == Remove(small, h);
      assert Touched(big, h)[1..] == Remove(big, h);
    } else {
      RemoveAbsent(small, h);
      if Has(big, h) {
        assert Touched(big, h)[1..] == Remove(big, h);
        if small != [] {
          assert EntryOf(big, h) != small[0];
        }
      }
    }
  }

  // Pushing an entry neither cache has, then cutting each to its capacity.
  lemma PushKeepsSubsequence(small: seq<CacheEntry>, m: nat, big: seq<CacheEntry>, n: nat, e: CacheEntry)
    requires Subsequence(small, big) && |small| <= m <= n && |big| <= n
    requires small == big || |small| == m
    ensures var s, b := [e] + small, [e] + big;
            Subsequence(if |s| <= m then s else s[..m], if |b| <= n then b else b[..n])
  {
    var s, b := [e] + small, [e] + big;
    assert s[1..] == small && b[1..] == big;
    assert Subsequence(s, b);
    if |s| > m {
      SubsequenceInit(s, b);
      if |b| > n && m > 0 {
        SubsequenceDropLast(small, big);
        assert s[..m] == [e] + small[..m - 1] && b[..n] == [e] + big[..n - 1];
        assert s[..m][1..] == small[..m - 1] && b[..n][1..] == big[..n - 1];
        if Subsequence(small, big[..n - 1]) {
          SubsequenceInit(small, big[..n - 1]);
        }
      }
    }
  }

  lemma StoredDistinct(lru: seq<CacheEntry>, n: nat, data: seq<Byte>)
    requires DistinctHashes(lru) && ContentAddressed(lru) && |lru| <= n
    ensures var after := Stored(lru, n, HashPage(data), data);
            DistinctHashes(after) && ContentAddressed(after) && |after| <= n
  {
    StaysContentAddressed(lru, n, HashPage(data), data);
    TouchedDistinct(lru, HashPage(data));
  }

  lemma StoreKeepsInclusion(small: seq<CacheEntry>, m: nat, big: seq<CacheEntry>, n: nat, data: seq<Byte>)
    requires Included(small, m, big, n) && m <= n
    ensures Included(Stored(small, m, HashPage(data), data), m, Stored(big, n, HashPage(data), data), n)
  {
    var h := HashPage(data);
    var e := CacheEntry(h, data);
    StoredDistinct(small, m, data);
    StoredDistinct(big, n, data);
    if Has(small, h) {
      SameEntry(small, big, h);
      TouchKeepsInclusion(small, m, big, n, h);
    } else if Has(big, h) {
      SubsequenceRemove(small, big, h);
      RemoveAbsent(small, h);
      DistinctRemove(big, h);
      assert EntryOf(big, h) == e;
      PushKeepsSubsequence(small, m, Remove(big, h), n, e);
      var i: nat :| i < |big| && big[i].hash == h;
      RemoveIsExact(big, i);
      assert Stored(big, n, h, data) == [e] + Remove(big, h);
    } else {
      PushKeepsSubsequence(small, m, big, n, e);
    }
  }

  // After any history, the smaller cache is the larger one with entries left out.
  lemma {:induction false} LargerCacheIncludesSmaller(m: nat, n: nat, history: seq<CacheOp>)
    requires m <= n
    ensures Included(After(m, history), m, After(n, history), n)
  {
    if history != [] {
      var prior := history[..|history| - 1];
      LargerCacheIncludesSmaller(m, n, prior);
      match history[|history| - 1]
      case Get(h) => TouchKeepsInclusion(After(m, prior), m, After(n, prior), n, h);
      case Put(data) => StoreKeepsInclusion(After(m, prior), m, After(n, prior), n, data);
    }
  }
}

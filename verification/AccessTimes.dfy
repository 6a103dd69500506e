// awscache's keys, and how long an action lives: access times, TTLs, and the queue of
// access time bumps.

// The metadata store's keys.
module StorageKeys {
  function Itoa(n: nat): string {
    if n < 10 then ["0123456789"[n]] else Itoa(n / 10) + ["0123456789"[n % 10]]
  }

  function GlobalStorageNS(generation: int): string {
    "!global:" + Itoa(if generation < 1 then 1 else generation)
  }

  function ActionKey(ns: string, actionID: string): string {
    "a#" + ns + "#" + actionID
  }

  predicate AllowedByte(c: char) {
    'A' <= c <= 'Z' || 'a' <= c <= 'z' || '0' <= c <= '9' || c in "._~:/@+|=-[]"
  }

  predicate ValidNamespace(ns: string) {
    |ns| <= 1024 && forall i :: 0 <= i < |ns| ==> AllowedByte(ns[i])
  }

  // A namespace that a key can be stored under.
  ghost predicate StorageNS(ns: string) {
    ValidNamespace(ns) || exists generation: int :: ns == GlobalStorageNS(generation)
  }

  lemma {:induction false} ItoaDigits(n: nat)
    ensures forall i :: 0 <= i < |Itoa(n)| ==> '0' <= Itoa(n)[i] <= '9'
  {
    if n >= 10 {
      ItoaDigits(n / 10);
    }
  }

  lemma {:induction false} ItoaInjective(m: nat, n: nat)
    requires Itoa(m) == Itoa(n)
    ensures m == n
  {
    var a, b := Itoa(m), Itoa(n);
    if m >= 10 && n >= 10 {
      assert a[..|a| - 1] == Itoa(m / 10) && b[..|b| - 1] == Itoa(n / 10);
      assert a[|a| - 1] == "0123456789"[m % 10] && b[|b| - 1] == "0123456789"[n % 10];
      ItoaInjective(m / 10, n / 10);
    } else if m >= 10 {
      ItoaNonEmpty(m / 10);
    } else if n >= 10 {
      ItoaNonEmpty(n / 10);
    }
  }

  lemma {:induction false} ItoaNonEmpty(n: nat)
    ensures Itoa(n) != ""
  {
  }

  predicate NoHash(s: string) {
    forall i :: 0 <= i < |s| ==> s[i] != '#'
  }

  lemma HeadOf(a: string, x: string)
    ensures (a + "#" + x)[0] == if a == "" then '#' else a[0]
  {
  }

  lemma {:induction false} UpToHash(a: string, x: string, b: string, y: string)
    requires NoHash(a) && NoHash(b) && a + "#" + x == b + "#" + y
    ensures a == b && x == y
  {
    if a == "" {
      HeadOf(a, x);
      HeadOf(b, y);
      assert x == ("#" + x)[1..] && y == ("#" + y)[1..];
    } else {
      HeadOf(a, x);
      HeadOf(b, y);
      assert (a + "#" + x)[1..] == a[1..] + "#" + x && (b + "#" + y)[1..] == b[1..] + "#" + y;
      UpToHash(a[1..], x, b[1..], y);
      assert a == [a[0]] + a[1..] && b == [b[0]] + b[1..];
    }
  }

  lemma StorageNSNoHash(ns: string)
    requires StorageNS(ns)
    ensures NoHash(ns)
  {
    if !ValidNamespace(ns) {
      var generation: int :| ns == GlobalStorageNS(generation);
      ItoaDigits(if generation < 1 then 1 else generation);
    }
  }

  // Two actions share a key only if they share namespace and action ID.
  lemma KeysDistinct(ns1: string, id1: string, ns2: string, id2: string)
    requires StorageNS(ns1) && StorageNS(ns2)
    ensures ActionKey(ns1, id1) == ActionKey(ns2, id2) <==> ns1 == ns2 && id1 == id2
  {
    if ActionKey(ns1, id1) == ActionKey(ns2, id2) {
      StorageNSNoHash(ns1);
      StorageNSNoHash(ns2);
      assert ActionKey(ns1, id1)[2..] == ns1 + "#" + id1 && ActionKey(ns2, id2)[2..] == ns2 + "#" + id2;
      UpToHash(ns1, id1, ns2, id2);
    }
  }

  // A generation of the global namespace is no client's namespace, and no other
  // generation, but for 0, which is 1.
  lemma GlobalIsApart(generation: nat, other: nat, ns: string)
    requires ValidNamespace(ns)
    ensures GlobalStorageNS(generation) != ns
    ensures GlobalStorageNS(generation) == GlobalStorageNS(other) <==>
            generation == other || (generation <= 1 && other <= 1)
  {
    assert GlobalStorageNS(generation)[0] == '!' && !AllowedByte('!');
    if GlobalStorageNS(generation) == GlobalStorageNS(other) {
      var m, n := if generation < 1 then 1 else generation, if other < 1 then 1 else other;
      assert GlobalStorageNS(generation)[8..] == Itoa(m) && GlobalStorageNS(other)[8..] == Itoa(n);
      ItoaInjective(m, n);
    }
  }
}

// Times in nanoseconds, and the whole Unix seconds the store keeps.
module AccessTimes {
  const Second := 1_000_000_000

  // time.Time.Unix of a time after 1970 or before it.
  function Unix(t: int): int {
    t / Second
  }

  datatype Item = Item(accessTime: int, ttl: int)

  // What a PUT or a bump at time now writes.
  function Touched(now: int, retention: int): Item {
    Item(Unix(now), Unix(now + retention))
  }

  // BumpAccessTime, of an item that exists: a conditional update.
  function Bumped(item: Item, now: int, relatime: int, retention: int): Item {
    if item.accessTime < Unix(now - relatime) then Touched(now, retention) else item
  }

  // maybeEnqueue's test.
  predicate WantsBump(atime: int, now: int, relatime: int) {
    atime <= Unix(now - relatime)
  }

  // A bump is wanted of an action last accessed Relatime ago or longer, and of no other; it
  // leaves a younger one alone, and rewrites one that is a second older than that.
  lemma WantsBumpIff(item: Item, now: int, relatime: int, retention: int)
    ensures WantsBump(item.accessTime, now, relatime) <==> now - item.accessTime * 1_000_000_000 >= relatime
    ensures now - item.accessTime * 1_000_000_000 < relatime ==> Bumped(item, now, relatime, retention) == item
    ensures now - item.accessTime * 1_000_000_000 >= relatime + 1_000_000_000 ==>
              Bumped(item, now, relatime, retention) == Item(now / 1_000_000_000, (now + retention) / 1_000_000_000)
  {
  }

  lemma UnixMonotone(a: int, b: int)
    requires a <= b
    ensures Unix(a) <= Unix(b)
  {
  }

  // Adding whole seconds adds them.
  lemma WholeSeconds(t: int, seconds: int)
    ensures Unix(t + seconds * Second) == Unix(t) + seconds
  {
  }

  // The TTL is the access time plus the retention for every clock reading exactly when the
  // retention is a whole number of seconds.
  lemma TTLExactIff(retention: int)
    ensures (forall now: int :: Touched(now, retention).ttl * Second == Touched(now, retention).accessTime * Second + retention) <==>
            retention % Second == 0
  {
  }

  // ---- an item over its life ----

  // Every touch and bump, by hosts whose clocks may say anything.
  function Life(born: int, bumps: seq<int>, relatime: int, retention: int): Item {
    if bumps == [] then Touched(born, retention)
    else Bumped(Life(born, bumps[..|bumps| - 1], relatime, retention), bumps[|bumps| - 1], relatime, retention)
  }

  lemma {:induction false} TTLFollowsAccessTime(born: int, bumps: seq<int>, relatime: int, retention: int)
    requires retention % Second == 0
    ensures var item := Life(born, bumps, relatime, retention);
            item.ttl == item.accessTime + retention / Second
  {
    assert retention == (retention / Second) * Second;
    if bumps == [] {
      WholeSeconds(born, retention / Second);
    } else {
      TTLFollowsAccessTime(born, bumps[..|bumps| - 1], relatime, retention);
      WholeSeconds(bumps[|bumps| - 1], retention / Second);
    }
  }

  // A bump that changes anything moves the access time by more than Relatime, whatever the
  // host's clock says: access times never go back.
  lemma BumpsGoForward(item: Item, now: int, relatime: int, retention: int)
    requires relatime >= 0
    ensures var after := Bumped(item, now, relatime, retention);
            after == item || (after.accessTime - item.accessTime) * Second > relatime
  {
  }

  lemma {:induction false} AccessTimesOnlyGrow(born: int, bumps: seq<int>, n: nat, relatime: int, retention: int)
    requires relatime >= 0 && n <= |bumps|
    ensures Life(born, bumps[..n], relatime, retention).accessTime <= Life(born, bumps, relatime, retention).accessTime
  {
    if n == |bumps| {
      assert bumps[..n] == bumps;
    } else {
      assert bumps[..|bumps| - 1][..n] == bumps[..n];
      AccessTimesOnlyGrow(born, bumps[..|bumps| - 1], n, relatime, retention);
      BumpsGoForward(Life(born, bumps[..|bumps| - 1], relatime, retention), bumps[|bumps| - 1], relatime, retention);
    }
  }

  // ---- being read often enough ----

  // What a retention that is not whole seconds can cost: the store keeps whole ones.
  function Slack(retention: int): int {
    if retention % Second == 0 then 0 else 1
  }

  // Every item is written with a TTL at least the retention's whole seconds later.
  predicate Written(item: Item, retention: int) {
    item.ttl >= item.accessTime + Unix(retention)
  }

  lemma UnixAdds(a: int, b: int)
    ensures Unix(a) + Unix(b) <= Unix(a + b) <= Unix(a) + Unix(b) + Slack(b)
  {
    assert a == Unix(a) * Second + a % Second && b == Unix(b) * Second + b % Second;
  }

  lemma BumpedIsWritten(item: Item, now: int, relatime: int, retention: int)
    requires Written(item, retention)
    ensures Written(Bumped(item, now, relatime, retention), retention) && Written(Touched(now, retention), retention)
  {
    UnixAdds(now, retention);
  }

  // A GET at time t that saw this item: its bump, if it wants one, is delivered at a later
  // time, when the item may have been bumped meanwhile. The item then lives for the
  // retention less Relatime after t, but for the slack.
  lemma HitExtendsLife(seen: Item, item: Item, t: int, delivered: int, relatime: int, retention: int)
    requires 0 <= relatime && t <= delivered && Written(item, retention) && seen.accessTime <= item.accessTime
    ensures var after := if WantsBump(seen.accessTime, t, relatime) then Bumped(item, delivered, relatime, retention) else item;
            && Written(after, retention)
            && after.accessTime >= item.accessTime
            && after.ttl >= Unix(t - relatime + retention) - Slack(retention)
  {
    BumpedIsWritten(item, delivered, relatime, retention);
    UnixMonotone(t - relatime, delivered - relatime);
    UnixMonotone(delivered - relatime, delivered);
    UnixAdds(t - relatime, retention);
  }

  // After any hit of any item as written, delivered at any time from then on, the TTL is at
  // least the time of the hit less Relatime plus the retention.
  ghost predicate HitsExtendLife(relatime: int, retention: int) {
    forall born, t, delivered :: t <= delivered ==>
      AfterHits(born, [Hit(t, delivered)], relatime, retention).ttl >= Unix(t - relatime + retention)
  }

  // The slack is real: that bound holds exactly for retentions of whole seconds.
  lemma HitsExtendLifeIff(relatime: int, retention: int)
    requires 0 <= relatime
    ensures HitsExtendLife(relatime, retention) <==> retention % Second == 0
  {
    if retention % Second == 0 {
      forall born, t, delivered | t <= delivered
        ensures AfterHits(born, [Hit(t, delivered)], relatime, retention).ttl >= Unix(t - relatime + retention)
      {
        var item := Touched(born, retention);
        BumpedIsWritten(item, born, relatime, retention);
        assert AfterHits(born, [], relatime, retention) == item && [Hit(t, delivered)][..0] == [];
        HitExtendsLife(item, item, t, delivered, relatime, retention);
      }
    } else {
      var t := relatime + Second - 1;
      NoBumpYet(1, t, relatime, retention);
      assert [Hit(t, t)][..0] == [];
      assert AfterHits(0, [Hit(t, t)], relatime, retention) == Touched(0, retention);
      JustTooLate(t - relatime, retention);
    }
  }

  // Counted from just before a second is over, such a retention ends in the next second.
  lemma JustTooLate(late: int, retention: int)
    requires retention % Second != 0 && late == Second - 1
    ensures Unix(late + retention) == Unix(retention) + 1
  {
  }

  // One read of an action: when, and when its bump, if any, was delivered.
  datatype Hit = Hit(t: int, delivered: int)

  // The item after these reads, all of them delivered, each seeing what was there.
  function AfterHits(born: int, hits: seq<Hit>, relatime: int, retention: int): Item {
    if hits == [] then Touched(born, retention)
    else
      var item, h := AfterHits(born, hits[..|hits| - 1], relatime, retention), hits[|hits| - 1];
      if WantsBump(item.accessTime, h.t, relatime) then Bumped(item, h.delivered, relatime, retention) else item
  }

  function LastRead(born: int, hits: seq<Hit>): int {
    if hits == [] then born else hits[|hits| - 1].t
  }

  // Every read comes at most Retention - Relatime after the one before it.
  ghost predicate OftenEnough(born: int, hits: seq<Hit>, relatime: int, retention: int) {
    forall i :: 0 <= i < |hits| ==>
      LastRead(born, hits[..i]) <= hits[i].t <= LastRead(born, hits[..i]) + retention - relatime && hits[i].t <= hits[i].delivered
  }

  lemma OftenBefore(born: int, hits: seq<Hit>, relatime: int, retention: int)
    requires OftenEnough(born, hits, relatime, retention) && hits != []
    ensures var (front, h) := (hits[..|hits| - 1], hits[|hits| - 1]);
            && OftenEnough(born, front, relatime, retention)
            && LastRead(born, front) <= h.t <= LastRead(born, front) + retention - relatime && h.t <= h.delivered
  {
    assert forall i :: 0 <= i < |hits| - 1 ==> hits[..|hits| - 1][..i] == hits[..i];
  }

  // Then, but for the slack, the item has not expired for that long after the last read.
  lemma {:induction false} ReadOftenNeverExpires(born: int, hits: seq<Hit>, relatime: int, retention: int, now: int)
    requires 0 <= relatime && OftenEnough(born, hits, relatime, retention)
    requires now <= LastRead(born, hits) + retention - relatime
    ensures var item := AfterHits(born, hits, relatime, retention);
            Written(item, retention) && item.ttl >= Unix(now) - Slack(retention)
  {
    if hits == [] {
      BumpedIsWritten(Item(0, Unix(retention)), born, relatime, retention);
      UnixMonotone(now, born + retention);
    } else {
      var front, h := hits[..|hits| - 1], hits[|hits| - 1];
      OftenBefore(born, hits, relatime, retention);
      hide OftenEnough;
      ReadOftenNeverExpires(born, front, relatime, retention, h.t);
      var item := AfterHits(born, front, relatime, retention);
      HitExtendsLife(item, item, h.t, h.delivered, relatime, retention);
      UnixMonotone(now, h.t - relatime + retention);
    }
  }

  // An action read at least every Retention - Relatime is there at each of these reads.
  ghost predicate NeverExpiredWhenRead(relatime: int, retention: int) {
    forall born, hits: seq<Hit>, i :: OftenEnough(born, hits, relatime, retention) && 0 <= i < |hits| ==>
      AfterHits(born, hits[..i], relatime, retention).ttl >= Unix(hits[i].t)
  }

  // For the configurations the server takes, that is so exactly when the retention is a
  // whole number of seconds.
  lemma NeverExpiredWhenReadIff(relatime: int, retention: int)
    requires 0 <= relatime < retention
    ensures NeverExpiredWhenRead(relatime, retention) <==> retention % Second == 0
  {
    if retention % Second == 0 {
      forall born, hits: seq<Hit>, i | OftenEnough(born, hits, relatime, retention) && 0 <= i < |hits|
        ensures AfterHits(born, hits[..i], relatime, retention).ttl >= Unix(hits[i].t)
      {
        assert forall j :: 0 <= j < i ==> hits[..i][..j] == hits[..j] && hits[..i][j] == hits[j];
        ReadOftenNeverExpires(born, hits[..i], relatime, retention, hits[i].t);
      }
    } else {
      var n := relatime + Second - 1;
      var hits := EachNanosecond(n) + [Hit(Second - 1 + retention, Second - 1 + retention)];
      assert hits[..n] == EachNanosecond(n) && forall i :: 0 <= i < n ==> hits[..i] == EachNanosecond(i);
      assert OftenEnough(0, hits, relatime, retention);
      NoBumpYet(n, n, relatime, retention);
      JustTooLate(Second - 1, retention);
      assert AfterHits(0, hits[..n], relatime, retention).ttl < Unix(hits[n].t);
    }
  }

  // Reads every nanosecond from time 1 on, delivered at once.
  function EachNanosecond(n: nat): seq<Hit> {
    seq(n, i => Hit(i + 1, i + 1))
  }

  // They change nothing of an item born at 0 until Relatime and a second have passed.
  lemma {:induction false} NoBumpYet(n: nat, t: int, relatime: int, retention: int)
    requires 0 <= relatime && n <= relatime + Second - 1 && t <= relatime + Second - 1
    ensures AfterHits(0, EachNanosecond(n), relatime, retention) == Touched(0, retention)
    ensures Bumped(Touched(0, retention), t, relatime, retention) == Touched(0, retention)
  {
    UnixMonotone(t - relatime, Second - 1);
    if n > 0 {
      assert EachNanosecond(n)[..n - 1] == EachNanosecond(n - 1);
      NoBumpYet(n - 1, n, relatime, retention);
    }
  }

  // Relatime 1s, retention 2.5s: one read after 1.5s, and 1.5s after it the item is gone.
  lemma HalfSecondExpires() returns (hits: seq<Hit>)
    ensures |hits| == 2 && OftenEnough(0, hits, Second, 2_500_000_000) && hits[1].t == 3 * Second
    ensures AfterHits(0, hits[..1], Second, 2_500_000_000).ttl == 2 < Unix(hits[1].t)
  {
    hits := [Hit(1_500_000_000, 1_500_000_000), Hit(3 * Second, 3 * Second)];
    assert hits[..1][..0] == [] && hits[..0] == [] && hits[..1] == [hits[0]];
  }

  // ---- the queue ----

  // The bumper's queue of keys.
  class ATimeBumper {
    const relatime: int
    const queueLen: nat

    var ch: seq<string>
    var pending: set<string>

    ghost var inFlight: set<string>  // keys a worker has taken and not finished

    // A key is pending exactly while it is queued or in flight, and then only once.
    ghost predicate Valid()
      reads this
    {
      && (forall k :: k in pending <==> k in ch || k in inFlight)
      && (forall k :: k in ch ==> k !in inFlight)
      && (forall i, j :: 0 <= i < j < |ch| ==> ch[i] != ch[j])
      && |ch| <= queueLen
    }

    constructor (relatime: int, queueLen: nat)
      ensures Valid() && pending == {}
    {
      this.relatime, this.queueLen := relatime, queueLen;
      ch, pending, inFlight := [], {}, {};
    }

    // It never blocks; a bump that is not queued was not wanted, is already on its way, or
    // finds the queue full.
    method MaybeEnqueue(key: string, atime: int, now: int) returns (queued: bool)
      requires Valid()
      modifies this`ch, this`pending
      ensures Valid()
      ensures queued <==> WantsBump(atime, now, relatime) && key !in old(pending) && |old(ch)| < queueLen
      ensures queued ==> now - atime * 1_000_000_000 >= relatime
      ensures !queued && key !in old(pending) && |old(ch)| < queueLen ==> now - atime * 1_000_000_000 < relatime
      ensures ch == if queued then old(ch) + [key] else old(ch)
      ensures pending == if queued then old(pending) + {key} else old(pending)
    {
      if atime > Unix(now - relatime) {
        return false;
      }
      if key in pending || |ch| == queueLen {
        return false;
      }
      ch := ch + [key];
      pending := pending + {key};
      return true;
    }

    method Dequeue() returns (key: string)
      requires Valid() && ch != []
      modifies this`ch, this`inFlight
      ensures Valid() && [key] + ch == old(ch) && inFlight == old(inFlight) + {key} && key !in old(inFlight)
    {
      key := ch[0];
      assert ch == [key] + ch[1..];
      ch := ch[1..];
      inFlight := inFlight + {key};
    }

    // The end of a bump, written or not: the key may be queued again.
    method Done(key: string)
      requires Valid() && key in inFlight
      modifies this`pending, this`inFlight
      ensures Valid() && pending == old(pending) - {key} && inFlight == old(inFlight) - {key}
    {
      pending := pending - {key};
      inFlight := inFlight - {key};
    }
  }
}

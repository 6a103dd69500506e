// gocached's put queue as the object it is: two lanes of reservations, the pending map
// with its running totals, and the hand-offs between requests, movers and the flusher.
module PutQueueing {
  import opened Wrappers
  import opened Totals

  type Key = nat

  const SmallObjectSize := 1024
  const PendingCountCap := 134217728 / 512   // putQueueSpooledMemBudget / putQueueSpooledEntryMem
  const PendingInlineCap := 67108864 / 1024  // putQueueInlineMemBudget / smallObjectSize

  // Room that a PUT has been given: in the inline lane a place among the small ones, in the
  // spooled lane a place among the big ones and a share of the bytes.
  datatype Reservation = Reservation(inline: bool, bytes: nat)

  function BytesOf(r: Reservation): int {
    if r.inline then 0 else r.bytes
  }

  function SlotsOf(r: Reservation): int {
    if r.inline then 0 else 1
  }

  function InlineOf(r: Reservation): int {
    if r.inline then 1 else 0
  }

  // The fields of a pendingPut that the queue reads; addr is its address, which tells two
  // otherwise equal ones apart.
  datatype PendingPut = PendingPut(addr: nat, key: Key, reservation: Reservation)

  function EntryBytes(p: PendingPut): int {
    BytesOf(p.reservation)
  }

  function EntrySlots(p: PendingPut): int {
    SlotsOf(p.reservation)
  }

  function EntryInline(p: PendingPut): int {
    InlineOf(p.reservation)
  }

  function Weight(n: nat): int {
    n
  }

  predicate Found(pending: map<Key, PendingPut>, p: PendingPut) {
    p.key in pending && pending[p.key] == p
  }

  // How a PUT request ends: without room, with its body broken off, as a second PUT of a
  // key that is pending, or as a new entry.
  datatype PutOutcome = Refused | BadBody | Duplicate | Accepted(reservation: Reservation)

  // The entries are those of the map, each once and under its key.
  ghost predicate Listed(pending: map<Key, PendingPut>, entries: multiset<PendingPut>) {
    && (forall p :: entries[p] == if Found(pending, p) then 1 else 0)
    && (forall k :: k in pending ==> pending[k].key == k)
  }

  // Who owns what: byte weight of requests that wait for a count slot, reservations of
  // requests (and of retiring workers), the entries of the pending map, and those of
  // them in a request's, a mover's or the flusher's hands.
  datatype Books = Books(
    halves: multiset<nat>,
    granted: multiset<Reservation>,
    entries: multiset<PendingPut>,
    inHand: multiset<PendingPut>,
    withMovers: multiset<PendingPut>,
    inBatch: multiset<PendingPut>)

  // The semaphores hold exactly what is owned, within the lanes' caps.
  ghost predicate LanesExact(bytesSem: int, countSem: int, inlineSem: int, spoolCap: nat, b: Books) {
    && bytesSem == Total(b.halves, Weight) + Total(b.granted, BytesOf) + Total(b.entries, EntryBytes) && bytesSem <= spoolCap
    && countSem == Total(b.granted, SlotsOf) + Total(b.entries, EntrySlots) && countSem <= PendingCountCap
    && inlineSem == Total(b.granted, InlineOf) + Total(b.entries, EntryInline) && inlineSem <= PendingInlineCap
  }

  // The map lists the entries and the counters add them up.
  ghost predicate MapExact(pending: map<Key, PendingPut>, bytes: int, inline: int, b: Books) {
    && Listed(pending, b.entries)
    && bytes == Total(b.entries, EntryBytes) && inline == Total(b.entries, EntryInline)
  }

  // Each entry is in exactly one place, and only spooled ones go through the movers.
  ghost predicate Placed(moverCh: seq<PendingPut>, flushCh: seq<PendingPut>, b: Books) {
    && b.entries == b.inHand + multiset(moverCh) + b.withMovers + multiset(flushCh) + b.inBatch
    && (forall p :: p in moverCh || p in b.withMovers ==> !p.reservation.inline)
  }

  // What each operation does to the books.
  function Granted(b: Books, r: Reservation): Books {
    b.(granted := More(b.granted, r))
  }

  function Ungranted(b: Books, r: Reservation): Books {
    b.(granted := Less(b.granted, r))
  }

  function Halved(b: Books, reserved: nat): Books {
    b.(halves := More(b.halves, reserved))
  }

  function Unhalved(b: Books, reserved: nat): Books {
    b.(halves := Less(b.halves, reserved))
  }

  // A reservation becomes a new entry's,
  function Joined(b: Books, p: PendingPut): Books {
    b.(granted := Less(b.granted, p.reservation), entries := More(b.entries, p), inHand := More(b.inHand, p))
  }

  // and goes back to whoever retires it.
  function Parted(b: Books, p: PendingPut): Books {
    b.(granted := More(b.granted, p.reservation), entries := Less(b.entries, p),
       withMovers := if p in b.withMovers then Less(b.withMovers, p) else b.withMovers,
       inBatch := if p in b.withMovers then b.inBatch else Less(b.inBatch, p))
  }

  class PutQueue {
    const spoolCap: nat

    // The semaphores' held amounts.
    var bytesSem: int
    var countSem: int
    var inlineSem: int

    var pending: map<Key, PendingPut>
    var inline: int
    var bytes: int

    var moverCh: seq<PendingPut>
    var flushCh: seq<PendingPut>

    ghost var books: Books

    ghost predicate Valid()
      reads this
    {
      && LanesExact(bytesSem, countSem, inlineSem, spoolCap, books)
      && MapExact(pending, bytes, inline, books)
      && Placed(moverCh, flushCh, books)
    }

    constructor (spoolCap: nat)
      ensures Valid() && pending == map[] && this.spoolCap == spoolCap && bytesSem == countSem == inlineSem == 0
      ensures moverCh == flushCh == [] && books == Books(multiset{}, multiset{}, multiset{}, multiset{}, multiset{}, multiset{})
    {
      this.spoolCap := spoolCap;
      bytesSem, countSem, inlineSem := 0, 0, 0;
      pending, inline, bytes := map[], 0, 0;
      moverCh, flushCh := [], [];
      books := Books(multiset{}, multiset{}, multiset{}, multiset{}, multiset{}, multiset{});
    }

    // The semaphores hold r more, or less, than these amounts.
    predicate HoldsMore(bytes: int, count: int, inline: int, r: Reservation)
      reads this
    {
      bytesSem == bytes + BytesOf(r) && countSem == count + SlotsOf(r) && inlineSem == inline + InlineOf(r)
    }

    predicate HoldsLess(bytes: int, count: int, inline: int, r: Reservation)
      reads this
    {
      bytesSem == bytes - BytesOf(r) && countSem == count - SlotsOf(r) && inlineSem == inline - InlineOf(r)
    }

    // ---- reservations ----

    // One slot of the inline lane; queued says that other requests wait ahead for one.
    method ReserveInline(queued: bool) returns (r: Option<Reservation>)
      requires Valid()
      modifies this`inlineSem, this`books
      ensures Valid()
      ensures r == if !queued && old(inlineSem) < PendingInlineCap then Some(Reservation(true, 0)) else None
      ensures books == if r.Some? then Granted(old(books), r.value) else old(books)
      ensures inlineSem == if r.Some? then old(inlineSem) + 1 else old(inlineSem)
    {
      hide Total, MapExact, Placed, More;
      if queued || inlineSem == PendingInlineCap {
        return None;
      }
      inlineSem := inlineSem + 1;
      GrantAdds(books.granted, Reservation(true, 0));
      PlacedAnyway(moverCh, flushCh, books, Granted(books, Reservation(true, 0)));
      MapExactAnyway(pending, bytes, inline, books, Granted(books, Reservation(true, 0)));
      books := Granted(books, Reservation(true, 0));
      return Some(Reservation(true, 0));
    }

    // The byte weight of a bigger PUT: its declared size, or all there is if it is bigger still.
    method ReserveBytes(contentLength: nat, queued: bool) returns (reserved: nat, ok: bool)
      requires Valid()
      modifies this`bytesSem, this`books
      ensures Valid()
      ensures reserved == if contentLength < spoolCap then contentLength else spoolCap
      ensures ok <==> !queued && old(bytesSem) + reserved <= spoolCap
      ensures books == if ok then Halved(old(books), reserved) else old(books)
      ensures bytesSem == if ok then old(bytesSem) + reserved else old(bytesSem)
    {
      hide Total, MapExact, Placed, More;
      reserved := if contentLength < spoolCap then contentLength else spoolCap;
      ok := !queued && bytesSem + reserved <= spoolCap;
      if ok {
        bytesSem := bytesSem + reserved;
        TotalPut(books.halves, reserved, Weight);
        PlacedAnyway(moverCh, flushCh, books, Halved(books, reserved));
        MapExactAnyway(pending, bytes, inline, books, Halved(books, reserved));
        books := Halved(books, reserved);
      }
    }

    // The count slot that completes it.
    method ReserveCount(reserved: nat, queued: bool) returns (ok: bool)
      requires Valid() && reserved in books.halves
      modifies this`countSem, this`books
      ensures Valid()
      ensures ok <==> !queued && old(countSem) < PendingCountCap
      ensures books == if ok then Granted(Unhalved(old(books), reserved), Reservation(false, reserved)) else old(books)
      ensures countSem == if ok then old(countSem) + 1 else old(countSem)
    {
      hide Total, MapExact, Placed, More, Less;
      ok := !queued && countSem < PendingCountCap;
      if ok {
        countSem := countSem + 1;
        TotalTaken(books.halves, reserved, Weight);
        GrantAdds(books.granted, Reservation(false, reserved));
        ghost var after := Granted(Unhalved(books, reserved), Reservation(false, reserved));
        PlacedAnyway(moverCh, flushCh, books, after);
        MapExactAnyway(pending, bytes, inline, books, after);
        books := after;
      }
    }

    // The request is canceled while it waits for the count slot.
    method ReleaseBytes(reserved: nat)
      requires Valid() && reserved in books.halves
      modifies this`bytesSem, this`books
      ensures Valid() && bytesSem == old(bytesSem) - reserved && books == Unhalved(old(books), reserved)
    {
      hide Total, MapExact, Placed, Less;
      bytesSem := bytesSem - reserved;
      TotalTaken(books.halves, reserved, Weight);
      PlacedAnyway(moverCh, flushCh, books, Unhalved(books, reserved));
      MapExactAnyway(pending, bytes, inline, books, Unhalved(books, reserved));
      books := Unhalved(books, reserved);
    }

    // A reservation by a request that is canceled as soon as it would have to wait; the
    // queued arguments say for which of the acquisitions others wait ahead.
    method Reserve(contentLength: nat, queued: bool, queuedForCount: bool) returns (r: Option<Reservation>)
      requires Valid()
      modifies this`bytesSem, this`countSem, this`inlineSem, this`books
      ensures Valid()
      ensures contentLength <= SmallObjectSize ==>
                r == if !queued && old(inlineSem) < PendingInlineCap then Some(Reservation(true, 0)) else None
      ensures contentLength > SmallObjectSize ==>
                var weight := if contentLength < spoolCap then contentLength else spoolCap;
                r == if !queued && old(bytesSem) + weight <= spoolCap && !queuedForCount && old(countSem) < PendingCountCap
                     then Some(Reservation(false, weight)) else None
      ensures books == if r.Some? then Granted(old(books), r.value) else old(books)
      ensures if r.Some? then HoldsMore(old(bytesSem), old(countSem), old(inlineSem), r.value)
              else bytesSem == old(bytesSem) && countSem == old(countSem) && inlineSem == old(inlineSem)
    {
      hide Valid, Granted, Halved, Unhalved;
      HalvedAndBack(books, if contentLength < spoolCap then contentLength else spoolCap);
      if contentLength <= SmallObjectSize {
        r := ReserveInline(queued);
        return;
      }
      var reserved, ok := ReserveBytes(contentLength, queued);
      if !ok {
        return None;
      }
      ok := ReserveCount(reserved, queuedForCount);
      if !ok {
        ReleaseBytes(reserved);
        return None;
      }
      return Some(Reservation(false, reserved));
    }

    method Unreserve(r: Reservation)
      requires Valid() && r in books.granted
      modifies this`bytesSem, this`countSem, this`inlineSem, this`books
      ensures Valid() && HoldsLess(old(bytesSem), old(countSem), old(inlineSem), r)
      ensures books == Ungranted(old(books), r)
    {
      hide Total, MapExact, Placed, Less;
      GrantTakes(books.granted, r);
      PlacedAnyway(moverCh, flushCh, books, Ungranted(books, r));
      MapExactAnyway(pending, bytes, inline, books, Ungranted(books, r));
      books := Ungranted(books, r);
      if r.inline {
        inlineSem := inlineSem - 1;
        return;
      }
      countSem := countSem - 1;
      bytesSem := bytesSem - r.bytes;
    }

    // ---- entries ----

    // The first PUT of a key wins.
    method Insert(p: PendingPut) returns (dup: bool)
      requires Valid() && p.reservation in books.granted
      modifies this`pending, this`bytes, this`inline, this`books
      ensures Valid()
      ensures dup <==> p.key in old(pending)
      ensures dup ==> unchanged(this)
      ensures !dup ==> pending == old(pending)[p.key := p] && books == Joined(old(books), p)
    {
      hide LanesExact, MapExact, Placed, Joined;
      if p.key in pending {
        return true;
      }
      LanesJoined(bytesSem, countSem, inlineSem, spoolCap, books, p);
      MapJoined(pending, bytes, inline, books, p);
      PlacedJoined(moverCh, flushCh, books, p);
      pending := pending[p.key := p];
      bytes := bytes + BytesOf(p.reservation);
      if p.reservation.inline {
        inline := inline + 1;
      }
      books := Joined(books, p);
      return false;
    }

    // The hand-off to the movers or the flusher: there is always room in the channel.
    method Send(p: PendingPut)
      requires Valid() && p in books.inHand
      modifies this`books, this`moverCh, this`flushCh
      ensures Valid()
      ensures books == old(books).(inHand := Less(old(books).inHand, p))
      ensures if p.reservation.inline then moverCh == old(moverCh) && flushCh == old(flushCh) + [p]
              else moverCh == old(moverCh) + [p] && flushCh == old(flushCh)
      ensures |moverCh| <= PendingCountCap && |flushCh| <= PendingCountCap + PendingInlineCap
    {
      hide Total, Listed, Placed, Less;
      PlacedSent(moverCh, flushCh, books, p);
      books := books.(inHand := Less(books.inHand, p));
      if !p.reservation.inline {
        moverCh := moverCh + [p];
      } else {
        flushCh := flushCh + [p];
      }
      LanesHold();
    }

    method Enqueue(p: PendingPut) returns (dup: bool)
      requires Valid() && p.reservation in books.granted
      modifies this`pending, this`bytes, this`inline, this`moverCh, this`flushCh, this`books
      ensures Valid()
      ensures dup <==> p.key in old(pending)
      ensures dup ==> unchanged(this)
      ensures !dup ==>
                && pending == old(pending)[p.key := p]
                && books == Joined(old(books), p).(inHand := old(books).inHand)
                && (if p.reservation.inline then moverCh == old(moverCh) && flushCh == old(flushCh) + [p]
                    else moverCh == old(moverCh) + [p] && flushCh == old(flushCh))
    {
      hide Valid, Joined, More, Less;
      JoinedHand(books, p);
      dup := Insert(p);
      if !dup {
        Send(p);
      }
    }

    // There is room at once for a PUT of this size.
    predicate HasRoom(contentLength: nat, queued: bool, queuedForCount: bool)
      reads this
    {
      if contentLength <= 1024 then !queued && inlineSem < PendingInlineCap
      else
        && !queued && bytesSem + (if contentLength < spoolCap then contentLength else spoolCap) <= spoolCap
        && !queuedForCount && countSem < PendingCountCap
    }

    // A whole PUT request: room, then the body, then the entry. Unless an entry takes it
    // over, the room goes back.
    method HandlePut(addr: nat, key: Key, contentLength: nat, queued: bool, queuedForCount: bool, bodyArrives: bool)
      returns (outcome: PutOutcome)
      requires Valid()
      modifies this`bytesSem, this`countSem, this`inlineSem, this`pending, this`bytes, this`inline, this`moverCh, this`flushCh,
               this`books
      ensures Valid() && books.granted == old(books).granted && books.halves == old(books).halves
      ensures books.inHand == old(books).inHand && books.withMovers == old(books).withMovers && books.inBatch == old(books).inBatch
      ensures !outcome.Accepted? ==>
                && pending == old(pending) && bytes == old(bytes) && inline == old(inline)
                && moverCh == old(moverCh) && flushCh == old(flushCh)
                && bytesSem == old(bytesSem) && countSem == old(countSem) && inlineSem == old(inlineSem)
      ensures outcome.Accepted? ==>
                && key !in old(pending) && bodyArrives
                && pending == old(pending)[key := PendingPut(addr, key, outcome.reservation)]
                && HoldsMore(old(bytesSem), old(countSem), old(inlineSem), outcome.reservation)
      ensures outcome == if !old(HasRoom(contentLength, queued, queuedForCount)) then Refused
                         else if !bodyArrives then BadBody
                         else if key in old(pending) then Duplicate
                         else Accepted(if contentLength <= 1024 then Reservation(true, 0)
                                       else Reservation(false, if contentLength < spoolCap then contentLength else spoolCap))
      ensures outcome.Accepted? ==>
                var p := PendingPut(addr, key, outcome.reservation);
                if contentLength <= 1024 then moverCh == old(moverCh) && flushCh == old(flushCh) + [p]
                else moverCh == old(moverCh) + [p] && flushCh == old(flushCh)
    {
      hide Valid, Joined, Granted, Ungranted, Found;
      var room := Reserve(contentLength, queued, queuedForCount);
      if room.None? {
        return Refused;
      }
      GrantedAndBack(old(books), room.value);
      if !bodyArrives {
        Unreserve(room.value);
        return BadBody;
      }
      var p := PendingPut(addr, key, room.value);
      JoinedGrant(old(books), p);
      var dup := Enqueue(p);
      if dup {
        Unreserve(room.value);
        return Duplicate;
      }
      return Accepted(room.value);
    }

    // A mover receives from moverCh.
    method TakeToCopy() returns (p: PendingPut)
      requires Valid() && moverCh != []
      modifies this`moverCh, this`books
      ensures Valid() && [p] + moverCh == old(moverCh)
      ensures books == old(books).(withMovers := More(old(books).withMovers, p))
    {
      hide Total, Listed, Placed, More;
      PlacedTaken(moverCh, flushCh, books);
      p := moverCh[0];
      moverCh := moverCh[1..];
      books := books.(withMovers := More(books.withMovers, p));
    }

    // And passes the entry on once its blob is in place; again there is room.
    method MoveToFlush(p: PendingPut)
      requires Valid() && p in books.withMovers
      modifies this`books, this`flushCh
      ensures Valid() && flushCh == old(flushCh) + [p]
      ensures books == old(books).(withMovers := Less(old(books).withMovers, p))
      ensures |flushCh| <= PendingCountCap + PendingInlineCap
    {
      hide Total, Listed, Placed, Less;
      PlacedSettled(moverCh, flushCh, books, p);
      books := books.(withMovers := Less(books.withMovers, p));
      flushCh := flushCh + [p];
      LanesHold();
    }

    // The flusher receives from flushCh.
    method Collect() returns (p: PendingPut)
      requires Valid() && flushCh != []
      modifies this`flushCh, this`books
      ensures Valid() && [p] + flushCh == old(flushCh)
      ensures books == old(books).(inBatch := More(old(books).inBatch, p))
    {
      hide Total, Listed, Placed, More;
      PlacedCollected(moverCh, flushCh, books);
      p := flushCh[0];
      flushCh := flushCh[1..];
      books := books.(inBatch := More(books.inBatch, p));
    }

    // retire's locked part: p leaves the map if it, and not another entry of its key, is
    // there; its reservation is then the caller's to return.
    method Unlink(p: PendingPut) returns (ok: bool)
      requires Valid() && (p in books.entries ==> p in books.withMovers || p in books.inBatch)
      modifies this`pending, this`bytes, this`inline, this`books
      ensures Valid()
      ensures ok <==> Found(old(pending), p)
      ensures !ok ==> unchanged(this)
      ensures ok ==> pending == old(pending) - {p.key} && books == Parted(old(books), p) && p !in books.entries
    {
      hide LanesExact, MapExact, Placed, Parted;
      ok := p.key in pending && pending[p.key] == p;
      if ok {
        MapParted(pending, bytes, inline, books, p);
        LanesParted(bytesSem, countSem, inlineSem, spoolCap, books, p);
        PlacedParted(moverCh, flushCh, books, p);
        pending := pending - {p.key};
        bytes := bytes - BytesOf(p.reservation);
        if p.reservation.inline {
          inline := inline - 1;
        }
        books := Parted(books, p);
      }
    }

    // A worker retires an entry: the reservation goes back exactly if the entry was there.
    method Retire(p: PendingPut) returns (ok: bool)
      requires Valid() && (p in books.entries ==> p in books.withMovers || p in books.inBatch)
      modifies this`bytesSem, this`countSem, this`inlineSem, this`pending, this`bytes, this`inline, this`books
      ensures Valid()
      ensures ok <==> Found(old(pending), p)
      ensures !ok ==> unchanged(this)
      ensures ok ==>
                && pending == old(pending) - {p.key} && p !in books.entries
                && books == Parted(old(books), p).(granted := old(books).granted)
                && HoldsLess(old(bytesSem), old(countSem), old(inlineSem), p.reservation)
    {
      hide Valid, Parted, More, Less;
      PartedGrant(books, p);
      ok := Unlink(p);
      if ok {
        Unreserve(p.reservation);
      }
    }

    // ---- what Valid gives ----

    // Neither lane is over its cap, counting what has no entry yet, and so the channels,
    // which are as long as the lanes, have room for every entry that is not in them.
    lemma LanesHold()
      requires Valid()
      ensures |moverCh| + |books.withMovers| <= Total(books.entries, EntrySlots) <= countSem <= PendingCountCap == 262144
      ensures |flushCh| + |books.inBatch| + |books.inHand| <= |books.entries| <= countSem + inlineSem
      ensures 0 <= inline <= inlineSem <= PendingInlineCap == 65536 && 0 <= bytes <= bytesSem <= spoolCap
    {
      hide Total, Listed;
      NothingNegative(books);
      PlacedFew(moverCh, flushCh, books);
    }

    // pendingStats' count: no entry is in two places, or listed twice.
    lemma NoEntryTwice()
      requires Valid()
      ensures forall p :: (books.inHand + multiset(moverCh) + books.withMovers + multiset(flushCh) + books.inBatch)[p] ==
                          if Found(pending, p) then 1 else 0
      ensures |pending| == |books.entries|
    {
      ListedCount(pending, books.entries);
    }
  }

  // ---- what keeps the books straight ----

  lemma PlacedAnyway(moverCh: seq<PendingPut>, flushCh: seq<PendingPut>, b: Books, b': Books)
    requires Placed(moverCh, flushCh, b) && b'.(halves := b.halves, granted := b.granted) == b
    ensures Placed(moverCh, flushCh, b')
  {
  }

  lemma NothingNegative(b: Books)
    ensures Total(b.halves, Weight) >= 0
    ensures Total(b.granted, BytesOf) >= 0 && Total(b.granted, SlotsOf) >= 0 && Total(b.granted, InlineOf) >= 0
    ensures Total(b.entries, EntryBytes) >= 0 && Total(b.entries, EntryInline) >= 0
  {
    hide Total;
    CountedByTotal(multiset{}, b.halves, Weight);
    CountedByTotal(multiset{}, b.granted, BytesOf);
    CountedByTotal(multiset{}, b.granted, SlotsOf);
    CountedByTotal(multiset{}, b.granted, InlineOf);
    CountedByTotal(multiset{}, b.entries, EntryBytes);
    CountedByTotal(multiset{}, b.entries, EntryInline);
  }

  lemma PlacedFew(moverCh: seq<PendingPut>, flushCh: seq<PendingPut>, b: Books)
    requires Placed(moverCh, flushCh, b)
    ensures |moverCh| + |b.withMovers| <= Total(b.entries, EntrySlots)
    ensures |flushCh| + |b.inBatch| + |b.inHand| <= |b.entries| == Total(b.entries, EntrySlots) + Total(b.entries, EntryInline)
  {
    hide Total;
    CountedByTotal(multiset(moverCh) + b.withMovers, b.entries, EntrySlots);
    TotalsOfBoth(b.entries, EntrySlots, EntryInline);
  }

  lemma MapExactAnyway(pending: map<Key, PendingPut>, bytes: int, inline: int, b: Books, b': Books)
    requires MapExact(pending, bytes, inline, b) && b'.entries == b.entries
    ensures MapExact(pending, bytes, inline, b')
  {
  }

  lemma LanesJoined(bytesSem: int, countSem: int, inlineSem: int, spoolCap: nat, b: Books, p: PendingPut)
    requires LanesExact(bytesSem, countSem, inlineSem, spoolCap, b) && p.reservation in b.granted
    ensures LanesExact(bytesSem, countSem, inlineSem, spoolCap, Joined(b, p))
  {
    EntryAdds(b.entries, p);
    GrantTakes(b.granted, p.reservation);
  }

  lemma MapJoined(pending: map<Key, PendingPut>, bytes: int, inline: int, b: Books, p: PendingPut)
    requires MapExact(pending, bytes, inline, b) && p.key !in pending
    ensures MapExact(pending[p.key := p], bytes + BytesOf(p.reservation), inline + InlineOf(p.reservation), Joined(b, p))
  {
    EntryAdds(b.entries, p);
    ListedMore(pending, b.entries, p);
  }

  lemma PlacedJoined(moverCh: seq<PendingPut>, flushCh: seq<PendingPut>, b: Books, p: PendingPut)
    requires Placed(moverCh, flushCh, b)
    ensures Placed(moverCh, flushCh, Joined(b, p)) && p in Joined(b, p).inHand
  {
  }

  lemma JoinedHand(b: Books, p: PendingPut)
    ensures p in Joined(b, p).inHand && Less(Joined(b, p).inHand, p) == b.inHand
  {
  }

  lemma GrantedAndBack(b: Books, r: Reservation)
    ensures r in Granted(b, r).granted && Ungranted(Granted(b, r), r) == b
    ensures Granted(b, r).inHand == b.inHand && Granted(b, r).withMovers == b.withMovers && Granted(b, r).inBatch == b.inBatch
    ensures Granted(b, r).halves == b.halves
  {
  }

  lemma HalvedAndBack(b: Books, reserved: nat)
    ensures reserved in Halved(b, reserved).halves && Unhalved(Halved(b, reserved), reserved) == b
  {
  }

  lemma JoinedGrant(b: Books, p: PendingPut)
    ensures var j := Joined(Granted(b, p.reservation), p);
            j.granted == b.granted && j.halves == b.halves && j.withMovers == b.withMovers && j.inBatch == b.inBatch
  {
  }

  lemma LanesParted(bytesSem: int, countSem: int, inlineSem: int, spoolCap: nat, b: Books, p: PendingPut)
    requires LanesExact(bytesSem, countSem, inlineSem, spoolCap, b) && p in b.entries
    ensures LanesExact(bytesSem, countSem, inlineSem, spoolCap, Parted(b, p)) && p.reservation in Parted(b, p).granted
  {
    EntryTakes(b.entries, p);
    GrantAdds(b.granted, p.reservation);
  }

  lemma PartedGrant(b: Books, p: PendingPut)
    ensures p.reservation in Parted(b, p).granted
    ensures Less(Parted(b, p).granted, p.reservation) == b.granted
  {
  }

  lemma MapParted(pending: map<Key, PendingPut>, bytes: int, inline: int, b: Books, p: PendingPut)
    requires MapExact(pending, bytes, inline, b) && Found(pending, p)
    ensures p in b.entries && p !in Parted(b, p).entries
    ensures MapExact(pending - {p.key}, bytes - BytesOf(p.reservation), inline - InlineOf(p.reservation), Parted(b, p))
  {
    assert b.entries[p] == 1;
    EntryTakes(b.entries, p);
    ListedLess(pending, b.entries, p);
  }

  lemma PlacedParted(moverCh: seq<PendingPut>, flushCh: seq<PendingPut>, b: Books, p: PendingPut)
    requires Placed(moverCh, flushCh, b) && (p in b.withMovers || p in b.inBatch)
    ensures Placed(moverCh, flushCh, Parted(b, p))
  {
  }

  lemma PlacedSent(moverCh: seq<PendingPut>, flushCh: seq<PendingPut>, b: Books, p: PendingPut)
    requires Placed(moverCh, flushCh, b) && p in b.inHand
    ensures var b' := b.(inHand := Less(b.inHand, p));
            if p.reservation.inline then Placed(moverCh, flushCh + [p], b') else Placed(moverCh + [p], flushCh, b')
  {
  }

  lemma PlacedTaken(moverCh: seq<PendingPut>, flushCh: seq<PendingPut>, b: Books)
    requires Placed(moverCh, flushCh, b) && moverCh != []
    ensures [moverCh[0]] + moverCh[1..] == moverCh
    ensures Placed(moverCh[1..], flushCh, b.(withMovers := More(b.withMovers, moverCh[0])))
  {
  }

  lemma PlacedSettled(moverCh: seq<PendingPut>, flushCh: seq<PendingPut>, b: Books, p: PendingPut)
    requires Placed(moverCh, flushCh, b) && p in b.withMovers
    ensures Placed(moverCh, flushCh + [p], b.(withMovers := Less(b.withMovers, p)))
  {
  }

  lemma PlacedCollected(moverCh: seq<PendingPut>, flushCh: seq<PendingPut>, b: Books)
    requires Placed(moverCh, flushCh, b) && flushCh != []
    ensures [flushCh[0]] + flushCh[1..] == flushCh
    ensures Placed(moverCh, flushCh[1..], b.(inBatch := More(b.inBatch, flushCh[0])))
  {
  }

  lemma GrantAdds(granted: multiset<Reservation>, r: Reservation)
    ensures Total(More(granted, r), BytesOf) == Total(granted, BytesOf) + BytesOf(r)
    ensures Total(More(granted, r), SlotsOf) == Total(granted, SlotsOf) + SlotsOf(r)
    ensures Total(More(granted, r), InlineOf) == Total(granted, InlineOf) + InlineOf(r)
  {
    TotalPut(granted, r, BytesOf);
    TotalPut(granted, r, SlotsOf);
    TotalPut(granted, r, InlineOf);
  }

  lemma GrantTakes(granted: multiset<Reservation>, r: Reservation)
    requires r in granted
    ensures Total(Less(granted, r), BytesOf) == Total(granted, BytesOf) - BytesOf(r)
    ensures Total(Less(granted, r), SlotsOf) == Total(granted, SlotsOf) - SlotsOf(r)
    ensures Total(Less(granted, r), InlineOf) == Total(granted, InlineOf) - InlineOf(r)
  {
    TotalTaken(granted, r, BytesOf);
    TotalTaken(granted, r, SlotsOf);
    TotalTaken(granted, r, InlineOf);
  }

  lemma EntryAdds(entries: multiset<PendingPut>, p: PendingPut)
    ensures Total(More(entries, p), EntryBytes) == Total(entries, EntryBytes) + BytesOf(p.reservation)
    ensures Total(More(entries, p), EntrySlots) == Total(entries, EntrySlots) + SlotsOf(p.reservation)
    ensures Total(More(entries, p), EntryInline) == Total(entries, EntryInline) + InlineOf(p.reservation)
  {
    TotalPut(entries, p, EntryBytes);
    TotalPut(entries, p, EntrySlots);
    TotalPut(entries, p, EntryInline);
  }

  lemma EntryTakes(entries: multiset<PendingPut>, p: PendingPut)
    requires p in entries
    ensures Total(Less(entries, p), EntryBytes) == Total(entries, EntryBytes) - BytesOf(p.reservation)
    ensures Total(Less(entries, p), EntrySlots) == Total(entries, EntrySlots) - SlotsOf(p.reservation)
    ensures Total(Less(entries, p), EntryInline) == Total(entries, EntryInline) - InlineOf(p.reservation)
  {
    TotalTaken(entries, p, EntryBytes);
    TotalTaken(entries, p, EntrySlots);
    TotalTaken(entries, p, EntryInline);
  }

  lemma ListedMore(pending: map<Key, PendingPut>, entries: multiset<PendingPut>, p: PendingPut)
    requires Listed(pending, entries) && p.key !in pending
    ensures Listed(pending[p.key := p], More(entries, p))
  {
  }

  lemma ListedLess(pending: map<Key, PendingPut>, entries: multiset<PendingPut>, p: PendingPut)
    requires Listed(pending, entries) && Found(pending, p)
    ensures p in entries && Listed(pending - {p.key}, Less(entries, p)) && p !in Less(entries, p)
  {
  }

  lemma {:induction false} ListedCount(pending: map<Key, PendingPut>, entries: multiset<PendingPut>)
    requires Listed(pending, entries)
    ensures |pending| == |entries|
    decreases |entries|
  {
    if entries == multiset{} {
      assert forall k :: k in pending ==> entries[pending[k]] == 1;
      assert pending == map[];
    } else {
      var p :| p in entries;
      assert entries[p] == 1;
      ListedLess(pending, entries, p);
      ListedCount(pending - {p.key}, Less(entries, p));
      assert pending == (pending - {p.key})[p.key := p];
    }
  }
}

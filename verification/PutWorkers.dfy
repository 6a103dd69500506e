// The goroutines around the put queue: requests that wait for room, requests that have it,
// movers and the flusher. Each turn is what one of them does to the queue at a time; in a
// run they come in any order.
module PutWorkers {
  import opened Wrappers
  import opened Totals
  import opened PutQueueing

  datatype Turn =
    | Weigh(contentLength: nat, queued: bool)        // a big PUT asks for its byte weight,
    | Slot(waiter: nat, asideOthers: bool)           // and, in its own time, for its slot
    | Cancel(canceled: nat)                          // or is canceled in between
    | BeginInline(lineUp: bool)                      // a small PUT asks for its slot
    | Fail(failed: nat)                              // a request with room breaks off
    | Accept(request: nat, addr: nat, key: Key)      // or has its entry enqueued
    | StartCopy                                      // a mover takes an entry
    | FinishCopy(moved: nat, copied: bool)           // and passes it on, or drops it
    | CollectOne                                     // the flusher takes an entry
    | RetireOne(flushed: nat)                        // and retires it, committed or dropped

  // What is where, with no semaphore and no counter.
  datatype View = View(
    waiting: seq<nat>,
    open: seq<Reservation>,
    moverCh: seq<PendingPut>,
    moving: seq<PendingPut>,
    flushCh: seq<PendingPut>,
    batch: seq<PendingPut>,
    pending: map<Key, PendingPut>)

  function EntriesOf(v: View): multiset<PendingPut> {
    multiset(v.moverCh) + multiset(v.moving) + multiset(v.flushCh) + multiset(v.batch)
  }

  ghost function BytesOwned(v: View): int {
    Total(multiset(v.waiting), Weight) + Total(multiset(v.open), BytesOf) + Total(EntriesOf(v), EntryBytes)
  }

  ghost function SlotsOwned(v: View): int {
    Total(multiset(v.open), SlotsOf) + Total(EntriesOf(v), EntrySlots)
  }

  ghost function InlineOwned(v: View): int {
    Total(multiset(v.open), InlineOf) + Total(EntriesOf(v), EntryInline)
  }

  // What a turn comes to: there is room when what is owned leaves some, by adding it up.
  ghost function After(cap: nat, v: View, turn: Turn): View {
    match turn
    case Weigh(contentLength, queued) =>
      var reserved := if contentLength < cap then contentLength else cap;
      if !queued && BytesOwned(v) + reserved <= cap then v.(waiting := v.waiting + [reserved]) else v
    case Slot(w, queued) =>
      if w < |v.waiting| && !queued && SlotsOwned(v) < PendingCountCap then
        v.(waiting := Without(v.waiting, w), open := v.open + [Reservation(false, v.waiting[w])])
      else v
    case Cancel(w) => if w < |v.waiting| then v.(waiting := Without(v.waiting, w)) else v
    case BeginInline(queued) =>
      if !queued && InlineOwned(v) < PendingInlineCap then v.(open := v.open + [Reservation(true, 0)]) else v
    case Fail(o) => if o < |v.open| then v.(open := Without(v.open, o)) else v
    case Accept(o, addr, key) =>
      if o >= |v.open| then v
      else if key in v.pending then v.(open := Without(v.open, o))
      else Entered(v.(open := Without(v.open, o)), PendingPut(addr, key, v.open[o]))
    case StartCopy =>
      if v.moverCh == [] then v else v.(moverCh := v.moverCh[1..], moving := v.moving + [v.moverCh[0]])
    case FinishCopy(m, copied) =>
      if m >= |v.moving| then v
      else if copied then v.(moving := Without(v.moving, m), flushCh := v.flushCh + [v.moving[m]])
      else v.(moving := Without(v.moving, m), pending := v.pending - {v.moving[m].key})
    case CollectOne =>
      if v.flushCh == [] then v else v.(flushCh := v.flushCh[1..], batch := v.batch + [v.flushCh[0]])
    case RetireOne(b) =>
      if b >= |v.batch| then v else v.(batch := Without(v.batch, b), pending := v.pending - {v.batch[b].key})
  }

  // A small PUT's entry goes straight to the flusher.
  function Entered(v: View, p: PendingPut): View {
    var w := v.(pending := v.pending[p.key := p]);
    if p.reservation.inline then w.(flushCh := v.flushCh + [p]) else w.(moverCh := v.moverCh + [p])
  }

  ghost function AfterAll(cap: nat, v: View, turns: seq<Turn>): View
    decreases |turns|
  {
    if turns == [] then v else AfterAll(cap, After(cap, v, turns[0]), turns[1..])
  }

  predicate Done(v: View) {
    v.waiting == [] && v.open == [] && v.moverCh == [] && v.moving == [] && v.flushCh == [] && v.batch == []
  }

  function Work(v: View): nat {
    |v.waiting| + |v.open| + 4 * |v.moverCh| + 3 * |v.moving| + 2 * |v.flushCh| + |v.batch|
  }

  // Nobody waits for ever: from anywhere there are turns after which all is done.
  lemma {:induction false} CanFinish(cap: nat, v: View) returns (turns: seq<Turn>)
    ensures Done(AfterAll(cap, v, turns))
    decreases Work(v)
  {
    if Done(v) {
      return [];
    }
    var turn := if v.waiting != [] then Cancel(0)
                else if v.open != [] then Fail(0)
                else if v.moverCh != [] then StartCopy
                else if v.moving != [] then FinishCopy(0, true)
                else if v.flushCh != [] then CollectOne
                else RetireOne(0);
    var rest := CanFinish(cap, After(cap, v, turn));
    turns := [turn] + rest;
  }

  class Workers {
    const q: PutQueue

    var waiting: seq<nat>           // the weights of requests between their acquisitions
    var open: seq<Reservation>      // the rooms of requests without an entry
    var moving: seq<PendingPut>     // entries with movers
    var batch: seq<PendingPut>      // entries with the flusher

    // Everything that the queue has given out is with one of them.
    ghost predicate Valid()
      reads this, q
    {
      && q.Valid()
      && q.books.halves == multiset(waiting) && q.books.granted == multiset(open)
      && q.books.inHand == multiset{}
      && q.books.withMovers == multiset(moving) && q.books.inBatch == multiset(batch)
    }

    ghost function Now(): View
      reads this, q
    {
      View.View(waiting, open, q.moverCh, moving, q.flushCh, batch, q.pending)
    }

    // The semaphores hold what adding up would give.
    lemma SemaphoresAddUp()
      requires Valid()
      ensures q.bytesSem == BytesOwned(Now()) && q.countSem == SlotsOwned(Now()) && q.inlineSem == InlineOwned(Now())
    {
      assert q.books.entries == EntriesOf(Now());
    }

    // So whether there is room can be told from them.
    lemma AfterWeigh(contentLength: nat, queued: bool)
      requires Valid()
      ensures var reserved := if contentLength < q.spoolCap then contentLength else q.spoolCap;
              After(q.spoolCap, Now(), Turn.Weigh(contentLength, queued)) ==
              if !queued && q.bytesSem + reserved <= q.spoolCap then Now().(waiting := waiting + [reserved]) else Now()
    {
      SemaphoresAddUp();
    }

    lemma AfterSlot(w: nat, queued: bool)
      requires Valid() && w < |waiting|
      ensures After(q.spoolCap, Now(), Turn.Slot(w, queued)) ==
              if !queued && q.countSem < PendingCountCap then
                Now().(waiting := Without(waiting, w), open := open + [Reservation(false, waiting[w])])
              else Now()
    {
      SemaphoresAddUp();
    }

    lemma AfterBeginInline(queued: bool)
      requires Valid()
      ensures After(q.spoolCap, Now(), Turn.BeginInline(queued)) ==
              if !queued && q.inlineSem < PendingInlineCap then Now().(open := open + [Reservation(true, 0)]) else Now()
    {
      SemaphoresAddUp();
    }

    constructor (spoolCap: nat)
      ensures Valid() && fresh(q) && q.spoolCap == spoolCap && Idle()
    {
      hide PutQueue.Valid;
      waiting, open, moving, batch := [], [], [], [];
      q := new PutQueue(spoolCap);
    }

    // Nobody has anything, and nothing is in a channel.
    predicate Idle()
      reads this, q
    {
      waiting == [] && open == [] && moving == [] && batch == [] && q.moverCh == [] && q.flushCh == []
    }

    method Weigh(contentLength: nat, queued: bool) returns (ok: bool)
      requires Valid()
      modifies this`waiting, q`bytesSem, q`books
      ensures Now() == After(q.spoolCap, old(Now()), Turn.Weigh(contentLength, queued))
      ensures Valid()
      ensures waiting == if ok then old(waiting) + [if contentLength < q.spoolCap then contentLength else q.spoolCap]
                         else old(waiting)
    {
      hide After, PutQueue.Valid, More;
      AfterWeigh(contentLength, queued);
      var reserved;
      reserved, ok := q.ReserveBytes(contentLength, queued);
      if ok {
        PushedIsMore(waiting, reserved);
        waiting := waiting + [reserved];
      }
    }

    method Slot(w: nat, queued: bool) returns (ok: bool)
      requires Valid() && w < |waiting|
      modifies this`waiting, this`open, q`countSem, q`books
      ensures Now() == After(q.spoolCap, old(Now()), Turn.Slot(w, queued))
      ensures Valid()
      ensures ok ==> waiting == Without(old(waiting), w) && open == old(open) + [Reservation(false, old(waiting)[w])]
      ensures !ok ==> waiting == old(waiting) && open == old(open)
    {
      hide After, PutQueue.Valid, More, Less, Without;
      AfterSlot(w, queued);
      var reserved := waiting[w];
      ok := q.ReserveCount(reserved, queued);
      if ok {
        WithoutIsLess(waiting, w);
        PushedIsMore(open, Reservation(false, reserved));
        waiting, open := Without(waiting, w), open + [Reservation(false, reserved)];
      }
    }

    method Cancel(w: nat)
      requires Valid() && w < |waiting|
      modifies this`waiting, q`bytesSem, q`books
      ensures Now() == After(q.spoolCap, old(Now()), Turn.Cancel(w))
      ensures Valid() && waiting == Without(old(waiting), w) && q.bytesSem == old(q.bytesSem) - old(waiting)[w]
    {
      hide PutQueue.Valid, Less, Without;
      q.ReleaseBytes(waiting[w]);
      WithoutIsLess(waiting, w);
      waiting := Without(waiting, w);
    }

    method BeginInline(queued: bool)
      requires Valid()
      modifies this`open, q`inlineSem, q`books
      ensures Now() == After(q.spoolCap, old(Now()), Turn.BeginInline(queued))
      ensures Valid() && (open == old(open) || open == old(open) + [Reservation(true, 0)])
    {
      hide After, PutQueue.Valid, More;
      AfterBeginInline(queued);
      var r := q.ReserveInline(queued);
      if r.Some? {
        PushedIsMore(open, r.value);
        open := open + [r.value];
      }
    }

    // An early return gives the room back.
    method Fail(o: nat)
      requires Valid() && o < |open|
      modifies this`open, q`bytesSem, q`countSem, q`inlineSem, q`books
      ensures Now() == After(q.spoolCap, old(Now()), Turn.Fail(o))
      ensures Valid() && open == Without(old(open), o)
      ensures q.HoldsLess(old(q.bytesSem), old(q.countSem), old(q.inlineSem), old(open)[o])
    {
      hide PutQueue.Valid, Less, Without;
      q.Unreserve(open[o]);
      WithoutIsLess(open, o);
      open := Without(open, o);
    }

    // The end of a request: a new entry takes the room over; a duplicate's goes back.
    method Accept(o: nat, addr: nat, key: Key) returns (dup: bool)
      requires Valid() && o < |open|
      modifies this`open, q
      ensures Now() == After(q.spoolCap, old(Now()), Turn.Accept(o, addr, key))
      ensures Valid() && open == Without(old(open), o) && dup == (key in old(q.pending))
      ensures q.pending == if dup then old(q.pending) else old(q.pending)[key := PendingPut(addr, key, old(open)[o])]
    {
      hide PutQueue.Valid, Less, Without, Joined, Found;
      var r := open[o];
      WithoutIsLess(open, o);
      JoinedBooks(q.books, PendingPut(addr, key, r));
      dup := q.Enqueue(PendingPut(addr, key, r));
      if dup {
        q.Unreserve(r);
      }
      open := Without(open, o);
    }

    method StartCopy()
      requires Valid() && q.moverCh != []
      modifies this`moving, q`moverCh, q`books
      ensures Now() == After(q.spoolCap, old(Now()), Turn.StartCopy)
      ensures Valid() && moving == old(moving) + [old(q.moverCh)[0]] && q.moverCh == old(q.moverCh)[1..]
    {
      hide PutQueue.Valid, More;
      var p := q.TakeToCopy();
      PushedIsMore(moving, p);
      assert [p] + q.moverCh == old(q.moverCh);
      moving := moving + [p];
    }

    // The entry is passed on, or dropped: a mover's entry is always still there to retire.
    method FinishCopy(m: nat, copied: bool)
      requires Valid() && m < |moving|
      modifies this`moving, q
      ensures Now() == After(q.spoolCap, old(Now()), Turn.FinishCopy(m, copied))
      ensures Valid() && moving == Without(old(moving), m)
      ensures copied ==> q.flushCh == old(q.flushCh) + [old(moving)[m]] && q.pending == old(q.pending)
      ensures !copied ==>
                && old(moving)[m].key in old(q.pending) && q.pending == old(q.pending) - {old(moving)[m].key}
                && q.HoldsLess(old(q.bytesSem), old(q.countSem), old(q.inlineSem), old(moving)[m].reservation)
    {
      hide PutQueue.Valid, Less, Without, Parted, Found;
      var p := moving[m];
      WithoutIsLess(moving, m);
      InOnePlace(q, p);
      if copied {
        q.MoveToFlush(p);
      } else {
        PartedBooks(q.books, p);
        var ok := q.Retire(p);
        assert ok;
      }
      moving := Without(moving, m);
    }

    method CollectOne()
      requires Valid() && q.flushCh != []
      modifies this`batch, q`flushCh, q`books
      ensures Now() == After(q.spoolCap, old(Now()), Turn.CollectOne)
      ensures Valid() && batch == old(batch) + [old(q.flushCh)[0]] && q.flushCh == old(q.flushCh)[1..]
    {
      hide PutQueue.Valid, More;
      var p := q.Collect();
      PushedIsMore(batch, p);
      assert [p] + q.flushCh == old(q.flushCh);
      batch := batch + [p];
    }

    // And so is the flusher's.
    method RetireOne(b: nat)
      requires Valid() && b < |batch|
      modifies this`batch, q
      ensures Now() == After(q.spoolCap, old(Now()), Turn.RetireOne(b))
      ensures Valid() && batch == Without(old(batch), b)
      ensures old(batch)[b].key in old(q.pending) && q.pending == old(q.pending) - {old(batch)[b].key}
      ensures q.HoldsLess(old(q.bytesSem), old(q.countSem), old(q.inlineSem), old(batch)[b].reservation)
    {
      hide PutQueue.Valid, Less, Without, Parted, Found;
      var p := batch[b];
      WithoutIsLess(batch, b);
      InOnePlace(q, p);
      PartedBooks(q.books, p);
      var ok := q.Retire(p);
      assert ok;
      batch := Without(batch, b);
    }

    // One turn, if whoever takes it is there.
    method Take(turn: Turn)
      requires Valid()
      modifies this, q
      ensures Now() == After(q.spoolCap, old(Now()), turn)
      ensures Valid()
    {
      hide Valid, Without;
      match turn
      case Weigh(contentLength, queued) => var ok := Weigh(contentLength, queued);
      case Slot(w, queued) => if w < |waiting| { var ok := Slot(w, queued); }
      case Cancel(w) => if w < |waiting| { Cancel(w); }
      case BeginInline(queued) => BeginInline(queued);
      case Fail(o) => if o < |open| { Fail(o); }
      case Accept(o, addr, key) => if o < |open| { var dup := Accept(o, addr, key); }
      case StartCopy => if q.moverCh != [] { StartCopy(); }
      case FinishCopy(m, copied) => if m < |moving| { FinishCopy(m, copied); }
      case CollectOne => if q.flushCh != [] { CollectOne(); }
      case RetireOne(b) => if b < |batch| { RetireOne(b); }
    }

    // Any turns in any order come to what adding up says, although it is the semaphores that
    // decide; they hold at every moment what the requests and the pending entries own, and
    // nothing else; and once nobody has anything, nothing, and there is room for any PUT.
    method Run(turns: seq<Turn>)
      requires Valid()
      modifies this, q
      ensures Valid() && Accounted()
      ensures Now() == AfterAll(q.spoolCap, old(Now()), turns)
      ensures Idle() ==> forall n: nat :: q.HasRoom(n, false, false)
      ensures Idle() ==> q.pending == map[] && q.bytesSem == q.countSem == q.inlineSem == q.bytes == q.inline == 0
    {
      hide Valid, Accounted, After;
      assert turns[0..] == turns;
      for i := 0 to |turns|
        invariant Valid() && AfterAll(q.spoolCap, Now(), turns[i..]) == AfterAll(q.spoolCap, old(Now()), turns)
      {
        assert turns[i..][1..] == turns[i + 1..];
        Take(turns[i]);
      }
      AllAccounted();
      if Idle() {
        IdleHoldsNothing();
      }
    }

    ghost predicate Accounted()
      reads this, q
    {
      && q.bytesSem == Total(multiset(waiting), Weight) + Total(multiset(open), BytesOf) + Total(q.books.entries, EntryBytes) <= q.spoolCap
      && q.countSem == Total(multiset(open), SlotsOf) + Total(q.books.entries, EntrySlots) <= PendingCountCap
      && q.inlineSem == Total(multiset(open), InlineOf) + Total(q.books.entries, EntryInline) <= PendingInlineCap
      && (forall p :: q.books.entries[p] == if Found(q.pending, p) then 1 else 0)
      && q.books.entries == multiset(q.moverCh) + multiset(moving) + multiset(q.flushCh) + multiset(batch)
    }

    lemma AllAccounted()
      requires Valid()
      ensures Accounted()
    {
    }

    lemma IdleHoldsNothing()
      requires Valid() && Idle()
      ensures q.pending == map[] && q.bytesSem == q.countSem == q.inlineSem == q.bytes == q.inline == 0
    {
      AllAccounted();
      assert q.books.entries == multiset{};
      ListedCount(q.pending, q.books.entries);
    }
  }

  lemma JoinedBooks(b: Books, p: PendingPut)
    ensures var j := Joined(b, p);
            && j.halves == b.halves && j.withMovers == b.withMovers && j.inBatch == b.inBatch
            && j.granted == Less(b.granted, p.reservation)
  {
  }

  // An entry with a worker is in the map, and with no other worker.
  lemma InOnePlace(q: PutQueue, p: PendingPut)
    requires q.Valid() && (p in q.books.withMovers || p in q.books.inBatch)
    ensures Found(q.pending, p) && p in q.books.entries
    ensures p in q.books.withMovers ==> p !in q.books.inBatch
  {
    q.NoEntryTwice();
    assert q.books.entries[p] > 0;
  }

  lemma PartedBooks(b: Books, p: PendingPut)
    ensures var after := Parted(b, p);
            && after.halves == b.halves && after.inHand == b.inHand
            && (p in b.withMovers ==> after.withMovers == Less(b.withMovers, p) && after.inBatch == b.inBatch)
            && (p !in b.withMovers ==> after.withMovers == b.withMovers && after.inBatch == Less(b.inBatch, p))
  {
  }
}

// guestbd's copy-on-write block device: a snapshot maps page numbers to slots of an
// append-only dirty file and falls through to a shared read-only base image.

// Bytes, files and pages as values.
module Bytes {
  import opened Pages

  function ZeroExtended(content: seq<Byte>, i: nat): Byte {
    if i < |content| then content[i] else 0
  }

  // The ps bytes starting at offset at of a file that reads as zero past its end.
  function PageAt(content: seq<Byte>, at: nat, ps: nat): seq<Byte> {
    seq(ps, j requires 0 <= j < ps => ZeroExtended(content, at + j))
  }

  // pwrite: data lands at offset at, and a gap before it reads as zeros.
  function Overwritten(file: seq<Byte>, data: seq<Byte>, at: nat): (after: seq<Byte>)
    ensures |after| >= |file|
    ensures data != [] ==> |after| >= at + |data|
    ensures at + |data| <= |file| ==> |after| == |file|
    ensures forall i: nat :: ZeroExtended(after, i) ==
                             if at <= i < at + |data| then data[i - at] else ZeroExtended(file, i)
  {
    if data == [] then file
    else
      var size := if |file| < at + |data| then at + |data| else |file|;
      seq(size, i requires 0 <= i < size => if at <= i < at + |data| then data[i - at] else ZeroExtended(file, i))
  }

  // Moving within one page does not change the page number.
  lemma SamePage(a: nat, j: nat, ps: nat)
    requires ps > 0 && a % ps + j < ps
    ensures (a + j) / ps == a / ps && (a + j) % ps == a % ps + j
  {
    var q, r := a / ps, a % ps;
    assert a + j == q * ps + (r + j);
    QuotientOf(q, r + j, ps);
  }

  // What is left of a page ends where the next one begins.
  lemma NextPageStart(a: nat, ps: nat)
    requires ps > 0
    ensures (a + (ps - a % ps)) % ps == 0
  {
    var q, r := a / ps, a % ps;
    assert a + (ps - r) == (q + 1) * ps + 0;
    QuotientOf(q + 1, 0, ps);
  }

  // Rounding an offset up to a page number.
  lemma PagesFrom(offset: nat, q: nat, ps: nat)
    requires ps > 0
    ensures (offset + ps - 1) / ps <= q <==> offset <= q * ps
  {
    var a := offset + ps - 1;
    assert a == (a / ps) * ps + a % ps;
    if a / ps <= q {
      assert (a / ps) * ps <= q * ps;
    } else {
      SlotsApart(q, a / ps, ps);
    }
  }

  // Rounding an offset down to a page number.
  lemma PagesBelow(end: nat, q: nat, ps: nat)
    requires ps > 0
    ensures q < end / ps <==> q * ps + ps <= end
  {
    assert end == (end / ps) * ps + end % ps;
    if q < end / ps {
      SlotsApart(q, end / ps, ps);
    } else {
      assert (end / ps) * ps <= q * ps;
    }
  }

  // Quotient and remainder, as plain numbers.
  lemma DivMod(a: nat, ps: nat) returns (q: nat, r: nat)
    requires ps > 0
    ensures q == a / ps && r == a % ps && a == q * ps + r && r < ps
  {
    q, r := a / ps, a % ps;
  }

  // The n bytes from offset a, when they lie in one page, are a span of that page.
  lemma SpanInPage(a: nat, n: nat, i: nat, ps: nat)
    requires ps > 0 && a % ps + n <= ps
    ensures a <= i < a + n <==> i / ps == a / ps && a % ps <= i % ps < a % ps + n
    ensures i / ps == a / ps ==> i % ps - a % ps == i - a
  {
    assert i == (i / ps) * ps + i % ps;
    assert a == (a / ps) * ps + a % ps;
    if a <= i < a + n {
      SamePage(a, i - a, ps);
    }
  }

  lemma QuotientOf(q: nat, r: nat, ps: nat)
    requires r < ps
    ensures (q * ps + r) / ps == q && (q * ps + r) % ps == r
  {
    var a := q * ps + r;
    assert a == (a / ps) * ps + a % ps;
    if a / ps < q {
      SlotsApart(a / ps, q, ps);
    } else if q < a / ps {
      SlotsApart(q, a / ps, ps);
    }
  }

  lemma SlotsApart(a: nat, b: nat, ps: nat)
    requires a < b
    ensures a * ps + ps <= b * ps
  {
    assert (a + 1) * ps <= b * ps;
    assert (a + 1) * ps == a * ps + ps;
  }
}

module BaseImages {
  import opened Pages
  import opened RecencyList
  import opened PageCaching
  import opened Bytes

  datatype IOError = NoError | EOF | Failed

  datatype ReadResult = FromCache | FromDiskCold | FromDiskMiss

  // Which of the files may fail during an operation: the base image, a snapshot's dirty
  // file, and the image that a snapshot is persisted to.
  datatype Disks = Disks(baseFails: bool, dirtyFails: bool, imageFails: bool)

  // An opened base image. Its bytes never change while it is open.
  class BaseImage {
    const content: seq<Byte>

    constructor (content: seq<Byte>)
      ensures this.content == content
    {
      this.content := content;
    }

    // io.ReaderAt: a short read reports EOF; a failing one may leave anything in
    // the range it was asked to fill.
    method ReadAt(buf: array<Byte>, lo: nat, n: nat, off: nat, mayFail: bool) returns (nr: nat, err: IOError)
      requires lo + n <= buf.Length
      modifies buf
      ensures err == Failed ==> mayFail
      ensures forall k :: 0 <= k < buf.Length && !(lo <= k < lo + n) ==> buf[k] == old(buf[k])
      ensures err != Failed ==> nr == if off + n <= |content| then n else if off < |content| then |content| - off else 0
      ensures err != Failed ==> forall k :: lo <= k < lo + nr ==> buf[k] == content[off + (k - lo)]
    {
      var fails: bool :| fails ==> mayFail;
      var upto :| 0 <= upto <= n;
      var wanted := if off + n <= |content| then n else if off < |content| then |content| - off else 0;
      nr := 0;
      while nr < wanted && !(fails && nr == upto)
        invariant nr <= wanted
        invariant forall k :: 0 <= k < buf.Length && !(lo <= k < lo + n) ==> buf[k] == old(buf[k])
        invariant forall k :: lo <= k < lo + nr ==> buf[k] == content[off + (k - lo)]
      {
        buf[lo + nr] := content[off + nr];
        nr := nr + 1;
      }
      err := if fails then Failed else if nr < n then EOF else NoError;
    }
  }

  class Server {
    const pageSize: nat
    const cache: PageCache?  // null when caching is disabled

    constructor (pageSize: nat, maxPages: nat, caching: bool)
      requires pageSize > 0 && maxPages > 0
      ensures Valid() && this.pageSize == pageSize
      ensures (cache != null) == caching && (cache != null ==> fresh(cache))
    {
      this.pageSize := pageSize;
      if caching {
        var c := new PageCache(maxPages, pageSize);
        this.cache := c;
      } else {
        this.cache := null;
      }
    }

    // The cache has a page of this hash.
    ghost predicate Cached(h: PageHash)
      reads cache
    {
      cache != null && Has(cache.lru, h)
    }

    ghost predicate Valid()
      reads cache
    {
      pageSize > 0 && (cache != null ==> cache.Valid() && cache.maxPages > 0 && ContentAddressed(cache.lru))
    }
  }

  // A base image shared by every snapshot over it, with its lazily filled table of
  // page hashes.
  class BaseImageState {
    const srv: Server
    const base: BaseImage
    const size: nat
    var pageHashes: map<nat, PageHash>

    constructor (srv: Server, base: BaseImage)
      ensures this.srv == srv && this.base == base && HashesTrue()
    {
      this.srv, this.base, this.size := srv, base, |base.content|;
      pageHashes := map[];
    }

    ghost predicate HashesTrue()
      reads this
    {
      && size == |base.content|
      && forall n :: n in pageHashes ==>
                       pageHashes[n] == Sha(PageAt(base.content, n * srv.pageSize, srv.pageSize))
    }

    ghost predicate Valid()
      reads this, srv.cache
    {
      srv.Valid() && HashesTrue()
    }

    // Page n is to be had without the disk.
    ghost predicate AtHand(n: nat)
      reads this, srv.cache
    {
      n in pageHashes && srv.Cached(pageHashes[n])
    }

    // Reads page n into buf[lo..lo + pageSize]: from the cache whatever the disk does. It is
    // in the cache afterwards.
    method ReadPage(buf: array<Byte>, lo: nat, n: nat, mayFail: bool) returns (hash: PageHash, result: ReadResult, ok: bool)
      requires Valid() && lo + srv.pageSize <= buf.Length
      modifies buf, this`pageHashes, srv.cache
      ensures Valid()
      ensures forall k :: 0 <= k < buf.Length && !(lo <= k < lo + srv.pageSize) ==> buf[k] == old(buf[k])
      ensures ok ==> buf[lo..lo + srv.pageSize] == PageAt(base.content, n * srv.pageSize, srv.pageSize)
      ensures ok && srv.cache != null ==> n in pageHashes && hash == pageHashes[n]
      ensures ok && srv.cache != null ==>
                (result == FromCache <==> n in old(pageHashes) && Has(old(srv.cache.lru), pageHashes[n])) &&
                (result == FromDiskCold <==> n !in old(pageHashes))
      ensures !mayFail || old(AtHand(n)) ==> ok
      ensures ok && srv.cache != null ==> AtHand(n)
    {
      var cache := srv.cache;
      if cache == null {
        ok := ReadFromDisk(buf, lo, n, mayFail);
        return Unset, FromDiskCold, ok;
      }

      var hashKnown := n in pageHashes;
      if hashKnown {
        var h := pageHashes[n];
        var d, hit := cache.Get(h);
        if hit {
          CopyInto(buf, lo, d);
          return h, FromCache, true;
        }
      }

      ok := ReadFromDisk(buf, lo, n, mayFail);
      if !ok {
        return Unset, FromDiskCold, false;
      }
      hash := Note(n, buf[lo..lo + srv.pageSize]);
      result := if hashKnown then FromDiskMiss else FromDiskCold;
    }

    // Records the hash of a page just read from disk, and caches the page.
    method Note(n: nat, page: seq<Byte>) returns (hash: PageHash)
      requires Valid() && srv.cache != null
      requires page == PageAt(base.content, n * srv.pageSize, srv.pageSize)
      modifies this`pageHashes, srv.cache
      ensures Valid()
      ensures pageHashes == old(pageHashes)[n := hash] && AtHand(n)
    {
      hash := HashPage(page);
      if n !in pageHashes {
        pageHashes := pageHashes[n := hash];
      }
      srv.cache.Put(hash, page);
    }

    // The disk read both paths of ReadPage end in, with the short last page filled up.
    method ReadFromDisk(buf: array<Byte>, lo: nat, n: nat, mayFail: bool) returns (ok: bool)
      requires lo + srv.pageSize <= buf.Length
      modifies buf
      ensures !mayFail ==> ok
      ensures forall k :: 0 <= k < buf.Length && !(lo <= k < lo + srv.pageSize) ==> buf[k] == old(buf[k])
      ensures ok ==> buf[lo..lo + srv.pageSize] == PageAt(base.content, n * srv.pageSize, srv.pageSize)
    {
      var nr, err := base.ReadAt(buf, lo, srv.pageSize, n * srv.pageSize, mayFail);
      ok := err != Failed;
      if ok {
        ZeroFill(buf, lo, nr, n);
      }
    }

    // Zero-fills the rest of a page of which the base image supplied nr bytes.
    method ZeroFill(buf: array<Byte>, lo: nat, nr: nat, n: nat)
      requires lo + srv.pageSize <= buf.Length
      requires var off := n * srv.pageSize;
               nr == if off + srv.pageSize <= |base.content| then srv.pageSize
                     else if off < |base.content| then |base.content| - off else 0
      requires forall k :: lo <= k < lo + nr ==> buf[k] == base.content[n * srv.pageSize + (k - lo)]
      modifies buf
      ensures forall k :: 0 <= k < buf.Length && !(lo <= k < lo + srv.pageSize) ==> buf[k] == old(buf[k])
      ensures buf[lo..lo + srv.pageSize] == PageAt(base.content, n * srv.pageSize, srv.pageSize)
    {
      var i := nr;
      while i < srv.pageSize
        invariant nr <= i <= srv.pageSize
        invariant forall k :: 0 <= k < buf.Length && !(lo <= k < lo + srv.pageSize) ==> buf[k] == old(buf[k])
        invariant forall k :: lo <= k < lo + i ==> buf[k] == ZeroExtended(base.content, n * srv.pageSize + (k - lo))
      {
        buf[lo + i] := 0;
        i := i + 1;
      }
    }
  }

  // Go's copy(buf[lo:], data).
  method CopyInto(buf: array<Byte>, lo: nat, data: seq<Byte>)
    requires lo + |data| <= buf.Length
    modifies buf
    ensures buf[lo..lo + |data|] == data
    ensures forall k :: 0 <= k < buf.Length && !(lo <= k < lo + |data|) ==> buf[k] == old(buf[k])
  {
    var i := 0;
    while i < |data|
      invariant 0 <= i <= |data|
      invariant forall k :: 0 <= k < buf.Length ==> buf[k] == if lo <= k < lo + i then data[k - lo] else old(buf[k])
    {
      buf[lo + i] := data[i];
      i := i + 1;
    }
  }
}

module Snapshots {
  import opened Pages
  import opened RecencyList
  import opened PageCaching
  import opened Bytes
  import opened BaseImages

  datatype DirtyPageInfo = DirtyPageInfo(hash: PageHash, dirtyNum: nat)

  // A slot a page may be mapped to: allocated before nextDirtyNum, written in full,
  // and, when pages are hashed at all, recorded under the hash of its bytes.
  ghost predicate SlotWritten(info: DirtyPageInfo, file: seq<Byte>, nextDirtyNum: nat, ps: nat, hashed: bool) {
    && info.dirtyNum < nextDirtyNum
    && info.dirtyNum * ps + ps <= |file|
    && (hashed ==> info.hash == Sha(PageAt(file, info.dirtyNum * ps, ps)))
  }

  // Writing to the next slot leaves every written slot as it was: slots are never reused.
  lemma SlotsNeverReused(info: DirtyPageInfo, file: seq<Byte>, next: nat, ps: nat, hashed: bool, data: seq<Byte>)
    requires SlotWritten(info, file, next, ps, hashed) && |data| <= ps
    ensures SlotWritten(info, Overwritten(file, data, next * ps), next + 1, ps, hashed)
    ensures PageAt(Overwritten(file, data, next * ps), info.dirtyNum * ps, ps) == PageAt(file, info.dirtyNum * ps, ps)
  {
    SlotsApart(info.dirtyNum, next, ps);
    PageKept(file, data, next * ps, info.dirtyNum * ps, ps);
  }

  lemma PageKept(file: seq<Byte>, data: seq<Byte>, at: nat, off: nat, ps: nat)
    requires off + ps <= at
    ensures PageAt(Overwritten(file, data, at), off, ps) == PageAt(file, off, ps)
  {
  }

  // Byte i of a device given by its pages.
  ghost function FlatAt(pages: imap<nat, seq<Byte>>, ps: nat, i: nat): Byte
    requires ps > 0 && forall m: nat :: m in pages && |pages[m]| == ps
  {
    pages[i / ps][i % ps]
  }

  lemma SplicedBytes(before: imap<nat, seq<Byte>>, after: imap<nat, seq<Byte>>, bytes: seq<Byte>,
                     at: nat, page: nat, offset: nat, ps: nat)
    requires ps > 0 && offset + |bytes| <= ps && page == at / ps && offset == at % ps
    requires forall m: nat :: m in before && m in after && |before[m]| == |after[m]| == ps
    requires forall m: nat, j: nat :: j < ps ==>
               after[m][j] == if m == page && offset <= j < offset + |bytes| then bytes[j - offset] else before[m][j]
    ensures forall i: nat :: FlatAt(after, ps, i) ==
                             if at <= i < at + |bytes| then bytes[i - at] else FlatAt(before, ps, i)
  {
    forall i: nat
      ensures FlatAt(after, ps, i) == if at <= i < at + |bytes| then bytes[i - at] else FlatAt(before, ps, i)
    {
      var m, j := DivMod(i, ps);
      SpanInPage(at, |bytes|, i, ps);
      SplicedByte(before, after, bytes, page, offset, m, j, ps);
    }
  }

  lemma SplicedByte(before: imap<nat, seq<Byte>>, after: imap<nat, seq<Byte>>, bytes: seq<Byte>,
                    page: nat, offset: nat, m: nat, j: nat, ps: nat)
    requires j < ps && m in before && m in after && |before[m]| == |after[m]| == ps
    requires forall m: nat, j: nat :: j < ps && m in before && m in after && |before[m]| == |after[m]| == ps ==>
               after[m][j] == if m == page && offset <= j < offset + |bytes| then bytes[j - offset] else before[m][j]
    ensures after[m][j] == if m == page && offset <= j < offset + |bytes| then bytes[j - offset] else before[m][j]
  {
  }

  class Snapshot {
    const server: Server
    const roFile: BaseImageState
    var dirtyPages: map<nat, DirtyPageInfo>
    var dirtyFile: seq<Byte>
    var nextDirtyNum: nat

    constructor (server: Server, roFile: BaseImageState)
      requires roFile.srv == server && roFile.Valid()
      ensures this.server == server && this.roFile == roFile && Valid()
      ensures forall i: nat :: ByteAt(i) == ZeroExtended(roFile.base.content, i)
    {
      this.server, this.roFile := server, roFile;
      dirtyPages, dirtyFile, nextDirtyNum := map[], [], 0;
      new;
      forall i: nat ensures ByteAt(i) == ZeroExtended(roFile.base.content, i) {
        assert i == (i / server.pageSize) * server.pageSize + i % server.pageSize;
      }
    }

    ghost predicate Mapped()
      reads this
    {
      forall n :: n in dirtyPages ==>
                    SlotWritten(dirtyPages[n], dirtyFile, nextDirtyNum, server.pageSize, server.cache != null)
    }

    ghost predicate Valid()
      reads this, roFile, server.cache
    {
      roFile.srv == server && roFile.Valid() && Mapped()
    }

    // The bytes of page n as a reader of the device sees them.
    ghost function PageBytes(n: nat): seq<Byte>
      reads this
    {
      var ps := server.pageSize;
      if n in dirtyPages then PageAt(dirtyFile, dirtyPages[n].dirtyNum * ps, ps)
      else PageAt(roFile.base.content, n * ps, ps)
    }

    // The flat byte array the device stands for.
    ghost function ByteAt(i: nat): Byte
      requires server.pageSize > 0
      reads this
    {
      PageBytes(i / server.pageSize)[i % server.pageSize]
    }

    // Page n is in the cache.
    ghost predicate AtHand(n: nat)
      reads this, roFile, server.cache
    {
      if n in dirtyPages then server.Cached(dirtyPages[n].hash)
      else n in roFile.pageHashes && server.Cached(roFile.pageHashes[n])
    }

    // The file that page n is read from, if it is not, may fail.
    ghost predicate MayFail(n: nat, disks: Disks)
      reads this
    {
      if n in dirtyPages then disks.dirtyFails else disks.baseFails
    }

    // Reads page pageNum into buf[lo..lo + pageSize]: from the cache whatever the disks do.
    // It is in the cache afterwards.
    method ReadPageData(buf: array<Byte>, lo: nat, pageNum: nat, disks: Disks) returns (ok: bool)
      requires Valid() && lo + server.pageSize <= buf.Length
      modifies buf, roFile, server.cache
      ensures Valid()
      ensures forall k :: 0 <= k < buf.Length && !(lo <= k < lo + server.pageSize) ==> buf[k] == old(buf[k])
      ensures ok ==> buf[lo..lo + server.pageSize] == PageBytes(pageNum)
      ensures !MayFail(pageNum, disks) || old(AtHand(pageNum)) ==> ok
      ensures ok && server.cache != null ==> AtHand(pageNum)
    {
      if pageNum in dirtyPages {
        ok := ReadDirtyPage(buf, lo, pageNum, disks.dirtyFails);
      } else {
        var hash, result;
        hash, result, ok := roFile.ReadPage(buf, lo, pageNum, disks.baseFails);
      }
    }

    // The dirty branch of ReadPageData: the cache first, then the page's slot.
    method ReadDirtyPage(buf: array<Byte>, lo: nat, pageNum: nat, mayFail: bool) returns (ok: bool)
      requires Valid() && lo + server.pageSize <= buf.Length && pageNum in dirtyPages
      modifies buf, server.cache
      ensures Valid()
      ensures forall k :: 0 <= k < buf.Length && !(lo <= k < lo + server.pageSize) ==> buf[k] == old(buf[k])
      ensures ok ==> buf[lo..lo + server.pageSize] == PageBytes(pageNum)
      ensures !mayFail || old(AtHand(pageNum)) ==> ok
      ensures ok && server.cache != null ==> AtHand(pageNum)
    {
      var dp := dirtyPages[pageNum];
      var cache := server.cache;
      if cache != null {
        var data, hit := cache.Get(dp.hash);
        if hit {
          CopyInto(buf, lo, data);
          return true;
        }
      }
      ok := ReadSlot(buf, lo, dp.dirtyNum, mayFail);
      if ok && cache != null {
        cache.Put(dp.hash, buf[lo..lo + server.pageSize]);
      }
    }

    // dirtyFile.ReadAt of one slot; a failing one may have filled part of the range.
    method ReadSlot(buf: array<Byte>, lo: nat, dirtyNum: nat, mayFail: bool) returns (ok: bool)
      requires lo + server.pageSize <= buf.Length
      requires dirtyNum * server.pageSize + server.pageSize <= |dirtyFile|
      modifies buf
      ensures !mayFail ==> ok
      ensures forall k :: 0 <= k < buf.Length && !(lo <= k < lo + server.pageSize) ==> buf[k] == old(buf[k])
      ensures ok ==> buf[lo..lo + server.pageSize] ==
                     PageAt(dirtyFile, dirtyNum * server.pageSize, server.pageSize)
    {
      var page := PageAt(dirtyFile, dirtyNum * server.pageSize, server.pageSize);
      var nr :| 0 <= nr <= |page| && (nr < |page| ==> mayFail);
      if nr < |page| {
        CopyInto(buf, lo, page[..nr]);
        return false;
      }
      CopyInto(buf, lo, page);
      return true;
    }

    // Reads p.Length bytes from offset off. On failure the first n are good, and the next one
    // is in a page whose file may fail.
    method ReadAt(p: array<Byte>, off: nat, disks: Disks) returns (n: nat, ok: bool)
      requires Valid()
      modifies p, roFile, server.cache
      ensures Valid()
      ensures n <= p.Length && (ok <==> n == p.Length)
      ensures forall k :: 0 <= k < n ==> p[k] == ByteAt(off + k)
      ensures !ok ==> MayFail((off + n) / server.pageSize, disks)
      ensures off % server.pageSize + p.Length <= server.pageSize && old(AtHand(off / server.pageSize)) ==> ok
      ensures 0 < n < p.Length ==> (off + n) % server.pageSize == 0
    {
      var length := p.Length;
      var pageSize := server.pageSize;
      var pos := 0;
      while pos < length
        invariant Valid() && 0 <= pos <= length
        invariant forall k :: 0 <= k < pos ==> p[k] == ByteAt(off + k)
        invariant 0 < pos < length ==> (off + pos) % pageSize == 0
        invariant 0 < pos < length ==> off % pageSize + pos >= pageSize
        invariant pos == 0 ==> AtHand(off / pageSize) == old(AtHand(off / pageSize))
        decreases length - pos
      {
        var absOffset := off + pos;
        var pageNum := absOffset / pageSize;
        var pageOffset := absOffset % pageSize;
        var n := if pageSize - pageOffset < length - pos then pageSize - pageOffset else length - pos;
        var good := ReadWithinPage(p, pos, n, pageNum, pageOffset, disks);
        if !good {
          return pos, false;
        }
        WithinPage(absOffset, n);
        if n < length - pos {
          NextPageStart(absOffset, pageSize);
        }
        pos := pos + n;
      }
      return pos, true;
    }

    // One turn of ReadAt's loop: the part of the read that falls in one page.
    method ReadWithinPage(p: array<Byte>, pos: nat, n: nat, pageNum: nat, pageOffset: nat, disks: Disks) returns (ok: bool)
      requires Valid() && pos + n <= p.Length && pageOffset + n <= server.pageSize
      modifies p, roFile, server.cache
      ensures Valid()
      ensures !MayFail(pageNum, disks) || old(AtHand(pageNum)) ==> ok
      ensures forall k :: 0 <= k < p.Length && !(pos <= k < pos + n) ==> p[k] == old(p[k])
      ensures ok ==> forall k :: pos <= k < pos + n ==> p[k] == PageBytes(pageNum)[pageOffset + (k - pos)]
    {
      hide AtHand, PageBytes, Mapped;
      var pageSize := server.pageSize;
      if pageOffset == 0 && n == pageSize {
        // A whole page needs no buffer in between.
        ok := ReadPageData(p, pos, pageNum, disks);
        assert ok ==> forall k :: pos <= k < pos + n ==> p[k] == p[pos..pos + n][k - pos];
        return;
      }
      var buf := new Byte[pageSize];  // a pooled buffer: whatever its last user left
      ok := ReadPageData(buf, 0, pageNum, disks);
      if ok {
        assert buf[0..pageSize] == buf[..];
        CopyInto(p, pos, buf[pageOffset..pageOffset + n]);
        assert forall k :: pos <= k < pos + n ==> p[k] == p[pos..pos + n][k - pos];
      }
    }

    // The n bytes at offset a, when they lie in one page, are that page's.
    lemma WithinPage(a: nat, n: nat)
      requires server.pageSize > 0 && a % server.pageSize + n <= server.pageSize
      ensures forall i {:trigger ByteAt(i)} :: a <= i < a + n ==>
                ByteAt(i) == PageBytes(a / server.pageSize)[a % server.pageSize + (i - a)]
      ensures forall i: nat {:trigger i / server.pageSize} :: a <= i < a + n ==>
                i / server.pageSize == a / server.pageSize && i % server.pageSize == a % server.pageSize + (i - a)
    {
      forall i: nat | a <= i < a + n
        ensures i / server.pageSize == a / server.pageSize && i % server.pageSize == a % server.pageSize + (i - a)
      {
        SamePage(a, i - a, server.pageSize);
      }
    }

    // The critical section of WriteAt: takes the next slot, writes the page to it and
    // only then maps the page to it. A failing file write may leave part of the page
    // in the slot, which stays taken.
    method MapPage(pageNum: nat, pageData: seq<Byte>, h: PageHash, mayFail: bool) returns (ok: bool)
      requires Valid() && |pageData| == server.pageSize
      requires server.cache != null ==> h == Sha(pageData)
      modifies this
      ensures !mayFail ==> ok
      ensures ok ==> pageNum in dirtyPages && dirtyPages[pageNum].hash == h
      ensures Valid() && nextDirtyNum == old(nextDirtyNum) + 1
      ensures forall m: nat :: PageBytes(m) == if ok && m == pageNum then pageData else old(PageBytes(m))
      ensures dirtyPages.Keys == old(dirtyPages.Keys) + if ok then {pageNum} else {}
    {
      var dirtyNum := nextDirtyNum;
      nextDirtyNum := nextDirtyNum + 1;
      var nr :| 0 <= nr <= |pageData| && (nr < |pageData| ==> mayFail);
      ghost var file := dirtyFile;
      forall n | n in dirtyPages
        ensures SlotWritten(dirtyPages[n], Overwritten(file, pageData[..nr], dirtyNum * server.pageSize),
                            nextDirtyNum, server.pageSize, server.cache != null)
        ensures PageAt(Overwritten(file, pageData[..nr], dirtyNum * server.pageSize),
                       dirtyPages[n].dirtyNum * server.pageSize, server.pageSize) ==
                PageAt(file, dirtyPages[n].dirtyNum * server.pageSize, server.pageSize)
      {
        SlotsNeverReused(dirtyPages[n], file, dirtyNum, server.pageSize, server.cache != null, pageData[..nr]);
      }
      dirtyFile := Overwritten(dirtyFile, pageData[..nr], dirtyNum * server.pageSize);
      if nr < |pageData| {
        return false;
      }
      assert pageData[..nr] == pageData;
      assert PageAt(dirtyFile, dirtyNum * server.pageSize, server.pageSize) == pageData;
      dirtyPages := dirtyPages[pageNum := DirtyPageInfo(h, dirtyNum)];
      return true;
    }

    // Writes p at offset off. On failure exactly the first n bytes are written, and a
    // write that lies within one page is written whole or not at all. The page written last
    // is in the cache.
    method WriteAt(p: seq<Byte>, off: nat, disks: Disks) returns (n: nat, ok: bool)
      requires Valid()
      modifies this, roFile, server.cache
      ensures Valid()
      ensures !ok ==> disks.dirtyFails || disks.baseFails
      ensures ok && p != [] ==> (off + |p| - 1) / server.pageSize in dirtyPages
      ensures ok && p != [] && server.cache != null ==> AtHand((off + |p| - 1) / server.pageSize)
      ensures n <= |p| && (ok <==> n == |p|)
      ensures 0 < n < |p| ==> off % server.pageSize + n >= server.pageSize
      ensures forall i: nat :: ByteAt(i) == if off <= i < off + n then p[i - off] else old(ByteAt(i))
      ensures forall m: nat :: m !in dirtyPages ==> m !in old(dirtyPages)
    {
      var length := |p|;
      var pos := 0;
      while pos < length
        invariant Valid() && 0 <= pos <= length
        invariant forall i: nat :: ByteAt(i) == if off <= i < off + pos then p[i - off] else old(ByteAt(i))
        invariant forall m: nat :: m !in dirtyPages ==> m !in old(dirtyPages)
        invariant 0 < pos < length ==> off % server.pageSize + pos >= server.pageSize
        invariant 0 < pos ==> (off + pos - 1) / server.pageSize in dirtyPages
        invariant 0 < pos && server.cache != null ==> AtHand((off + pos - 1) / server.pageSize)
        decreases length - pos
      {
        var n, good := WriteWithinPage(p[pos..], off + pos, disks);
        if !good {
          return pos, false;
        }
        pos := pos + n;
      }
      return pos, true;
    }

    // One turn of WriteAt's loop: as much of the rest as falls in one page.
    method WriteWithinPage(rest: seq<Byte>, absOffset: nat, disks: Disks) returns (n: nat, ok: bool)
      requires Valid() && rest != []
      modifies this, roFile, server.cache
      ensures Valid()
      ensures !ok ==> disks.dirtyFails || (disks.baseFails && n < server.pageSize)
      ensures ok ==> (absOffset + n - 1) / server.pageSize == absOffset / server.pageSize
      ensures ok && server.cache != null ==> AtHand(absOffset / server.pageSize)
      ensures 0 < n <= |rest|
      ensures n < |rest| ==> absOffset % server.pageSize + n >= server.pageSize
      ensures forall i: nat ::
                ByteAt(i) == if ok && absOffset <= i < absOffset + n then rest[i - absOffset] else old(ByteAt(i))
      ensures dirtyPages.Keys == old(dirtyPages.Keys) + if ok then {absOffset / server.pageSize} else {}
    {
      hide AtHand, PagesSpliced, PageBytes, ByteAt, FlatAt, Pages, Mapped;
      var pageSize := server.pageSize;
      var pageNum := absOffset / pageSize;
      var pageOffset := absOffset % pageSize;
      n := pageSize - pageOffset;
      if n > |rest| {
        n := |rest|;
      }
      ghost var before := Pages();
      FlatPages();
      SamePage(absOffset, n - 1, pageSize);
      ok := Splice(pageNum, pageOffset, rest[..n], disks);
      Spliced(before, if ok then rest[..n] else [], absOffset, pageNum, pageOffset);
    }

    // All pages at once.
    ghost function Pages(): imap<nat, seq<Byte>>
      reads this
    {
      imap m: nat | true :: PageBytes(m)
    }

    lemma FlatPages()
      requires server.pageSize > 0
      ensures forall m: nat :: m in Pages() && |Pages()[m]| == server.pageSize
      ensures forall i: nat :: ByteAt(i) == FlatAt(Pages(), server.pageSize, i)
    {
    }

    // bytes went into the pages before, seen byte by byte.
    lemma Spliced(before: imap<nat, seq<Byte>>, bytes: seq<Byte>, at: nat, page: nat, offset: nat)
      requires server.pageSize > 0 && offset + |bytes| <= server.pageSize
      requires page == at / server.pageSize && offset == at % server.pageSize
      requires forall m: nat :: m in before && |before[m]| == server.pageSize
      requires PagesSpliced(before, bytes, page, offset)
      ensures forall i: nat ::
                ByteAt(i) == if at <= i < at + |bytes| then bytes[i - at] else FlatAt(before, server.pageSize, i)
    {
      SplicedBytes(before, Pages(), bytes, at, page, offset, server.pageSize);
      FlatPages();
    }

    // bytes went into page from offset on, and no other byte of a page changed.
    ghost predicate PagesSpliced(before: imap<nat, seq<Byte>>, bytes: seq<Byte>, page: nat, offset: nat)
      requires forall m: nat :: m in before && |before[m]| == server.pageSize
      reads this
    {
      forall m: nat, j: nat :: j < server.pageSize ==>
        PageBytes(m)[j] == if m == page && offset <= j < offset + |bytes| then bytes[j - offset] else before[m][j]
    }

    // Puts bytes into a page at pageOffset: read-modify-write unless they fill it.
    method Splice(pageNum: nat, pageOffset: nat, bytes: seq<Byte>, disks: Disks) returns (ok: bool)
      requires Valid() && pageOffset + |bytes| <= server.pageSize
      modifies this, roFile, server.cache
      ensures Valid()
      ensures !ok ==> disks.dirtyFails || (|bytes| < server.pageSize && old(MayFail(pageNum, disks)))
      ensures ok && server.cache != null ==> AtHand(pageNum)
      ensures PagesSpliced(old(Pages()), if ok then bytes else [], pageNum, pageOffset)
      ensures dirtyPages.Keys == old(dirtyPages.Keys) + if ok then {pageNum} else {}
    {
      ghost var before := Pages();
      var pageData;
      pageData, ok := PageToWrite(pageNum, pageOffset, bytes, disks);
      assert Pages() == before;
      if ok {
        ok := InstallPage(pageNum, pageData, disks.dirtyFails);
      }
    }

    // Hashes, maps and caches a finished page.
    method InstallPage(pageNum: nat, pageData: seq<Byte>, mayFail: bool) returns (ok: bool)
      requires Valid() && |pageData| == server.pageSize
      modifies this, server.cache
      ensures Valid()
      ensures !mayFail ==> ok
      ensures ok && server.cache != null ==> AtHand(pageNum)
      ensures forall m: nat :: PageBytes(m) == if ok && m == pageNum then pageData else old(PageBytes(m))
      ensures dirtyPages.Keys == old(dirtyPages.Keys) + if ok then {pageNum} else {}
    {
      var cache := server.cache;
      var h := if cache != null then HashPage(pageData) else Unset;
      ok := MapPage(pageNum, pageData, h, mayFail);
      if ok && cache != null {
        cache.Put(h, pageData);
      }
    }

    // The page WriteAt is about to map: the new bytes alone if they fill it, else
    // spliced into the page as it reads now.
    method PageToWrite(pageNum: nat, pageOffset: nat, bytes: seq<Byte>, disks: Disks) returns (pageData: seq<Byte>, ok: bool)
      requires Valid() && pageOffset + |bytes| <= server.pageSize
      modifies roFile, server.cache
      ensures Valid()
      ensures |bytes| == server.pageSize || !MayFail(pageNum, disks) ==> ok
      ensures ok ==> |pageData| == server.pageSize
      ensures ok ==> forall j: nat :: j < server.pageSize ==>
                pageData[j] == if pageOffset <= j < pageOffset + |bytes| then bytes[j - pageOffset]
                               else PageBytes(pageNum)[j]
    {
      if pageOffset == 0 && |bytes| == server.pageSize {
        return bytes, true;
      }
      var buf := new Byte[server.pageSize];
      ok := ReadPageData(buf, 0, pageNum, disks);
      if !ok {
        return [], false;
      }
      assert buf[..] == buf[0..server.pageSize];
      CopyInto(buf, pageOffset, bytes);
      pageData := buf[..];
    }

    // Zeroes the partly covered pages at both ends of the range, then drops the fully
    // covered ones, which go back to the base image. When it fails nothing is dropped
    // and at most the first page's part of the range is zero: headZeroed says which.
    method HandleTrim(offset: nat, length: nat, disks: Disks) returns (ok: bool, ghost headZeroed: bool)
      requires Valid()
      modifies this, roFile, server.cache
      ensures Valid()
      ensures !ok ==> disks.dirtyFails || disks.baseFails
      ensures !ok ==> offset % server.pageSize != 0 || (offset + length) % server.pageSize != 0
      ensures ok ==> forall i: nat :: ByteAt(i) ==
                       TrimmedByte(roFile.base.content, server.pageSize, offset, length, i, old(ByteAt(i)))
      ensures !ok ==> forall i: nat :: ByteAt(i) ==
                       if headZeroed && InHead(server.pageSize, offset, length, i) then 0 else old(ByteAt(i))
    {
      ok, headZeroed := ZeroEnds(offset, length, disks);
      if !ok {
        return;
      }
      var pageSize := server.pageSize;
      DropPages((offset + pageSize - 1) / pageSize, (offset + length) / pageSize);
      forall i: nat
        ensures ByteAt(i) == TrimmedByte(roFile.base.content, pageSize, offset, length, i, old(ByteAt(i)))
      {
        TrimDecides(roFile.base.content, pageSize, offset, length, i, old(ByteAt(i)));
        BasePageByte(roFile.base.content, pageSize, i);
      }
    }

    // The zeroing half of HandleTrim.
    method ZeroEnds(offset: nat, length: nat, disks: Disks) returns (ok: bool, ghost headZeroed: bool)
      requires Valid()
      modifies this, roFile, server.cache
      ensures Valid()
      ensures !ok ==> disks.dirtyFails || disks.baseFails
      ensures !ok ==> offset % server.pageSize != 0 || (offset + length) % server.pageSize != 0
      ensures forall i: nat :: ByteAt(i) ==
                if headZeroed && InHead(server.pageSize, offset, length, i) then 0
                else if ok && InTail(server.pageSize, offset, length, i) then 0
                else old(ByteAt(i))
      ensures ok ==> headZeroed
    {
      var end := offset + length;
      var pageSize := server.pageSize;
      var firstFullPage := (offset + pageSize - 1) / pageSize;
      var lastFullPageExcl := end / pageSize;
      ok := ZeroHead(offset, length, disks);
      headZeroed := ok;
      var endRem := end % pageSize;
      if ok && endRem != 0 && lastFullPageExcl >= firstFullPage {
        ok := ZeroTail(lastFullPageExcl, endRem, disks);
      }
    }

    // Zeroes the part of the range in a partly covered first page.
    method ZeroHead(offset: nat, length: nat, disks: Disks) returns (ok: bool)
      requires Valid()
      modifies this, roFile, server.cache
      ensures Valid()
      ensures !ok ==> (disks.dirtyFails || disks.baseFails) && offset % server.pageSize != 0
      ensures forall i: nat :: ByteAt(i) ==
                if ok && InHead(server.pageSize, offset, length, i) then 0 else old(ByteAt(i))
    {
      var pageSize := server.pageSize;
      var startRem := offset % pageSize;
      if startRem == 0 {
        return true;
      }
      var n := if pageSize - startRem < length then pageSize - startRem else length;
      var wrote;
      wrote, ok := WriteAt(Zeros(n), offset, disks);
      forall i: nat
        ensures ByteAt(i) == if ok && InHead(pageSize, offset, length, i) then 0 else old(ByteAt(i))
      {
        HeadBytes(pageSize, offset, length, i);
      }
    }

    // Zeroes the first endRem bytes of a partly covered last page.
    method ZeroTail(page: nat, endRem: nat, disks: Disks) returns (ok: bool)
      requires Valid() && endRem < server.pageSize
      modifies this, roFile, server.cache
      ensures Valid()
      ensures !ok ==> disks.dirtyFails || disks.baseFails
      ensures forall i: nat :: ByteAt(i) ==
                if ok && page * server.pageSize <= i < page * server.pageSize + endRem then 0 else old(ByteAt(i))
    {
      var wrote;
      QuotientOf(page, 0, server.pageSize);
      wrote, ok := WriteAt(Zeros(endRem), page * server.pageSize, disks);
    }

    // The loop that unmaps pages first <= p < end.
    method DropPages(first: nat, end: nat)
      requires Valid()
      modifies this`dirtyPages
      ensures Valid()
      ensures forall m: nat :: PageBytes(m) ==
                if first <= m < end then PageAt(roFile.base.content, m * server.pageSize, server.pageSize)
                else old(PageBytes(m))
    {
      var p := first;
      while p < end
        invariant Valid() && first <= p
        invariant p <= end || p == first
        invariant forall m: nat :: PageBytes(m) ==
                    if first <= m < p then PageAt(roFile.base.content, m * server.pageSize, server.pageSize)
                    else old(PageBytes(m))
      {
        dirtyPages := dirtyPages - {p};
        p := p + 1;
      }
    }

    // Writes every dirty page below the image's size to w, the last one cut to size.
    // Over a copy of the base image the result is the device's contents.
    method WriteDirtyTo(w: ImageFile, disks: Disks) returns (pages: nat, ok: bool)
      requires Valid()
      modifies w, roFile, server.cache
      ensures Valid()
      ensures !ok ==> disks.dirtyFails || disks.imageFails
      ensures ok && old(w.data) == roFile.base.content ==> ImageEqualsDevice(w.data)
      ensures ok ==> pages == |set p | p in dirtyPages && p * server.pageSize < roFile.size|
    {
      var pageNums := SortedKeys(dirtyPages.Keys);
      ghost var was := w.data;
      pages, ok := PersistPages(w, pageNums, disks);
      if ok {
        ghost var below := set p | p in dirtyPages && p * server.pageSize < roFile.size;
        CountInIsCardinality(pageNums, dirtyPages.Keys, below);
        assert dirtyPages.Keys * below == below;
        if was == roFile.base.content {
          CleanPages();
        }
      }
    }

    // WriteDirtyTo's loop over the sorted page numbers.
    method PersistPages(w: ImageFile, pageNums: seq<nat>, disks: Disks) returns (pages: nat, ok: bool)
      requires Valid() && forall p :: p in pageNums ==> p in dirtyPages
      modifies w, roFile, server.cache
      ensures Valid()
      ensures !ok ==> disks.dirtyFails || disks.imageFails
      ensures ok ==> Persisted(pageNums, old(w.data), w.data)
      ensures ok ==> |old(w.data)| <= |w.data| && (|old(w.data)| >= roFile.size ==> |w.data| == |old(w.data)|)
      ensures ok ==> pages == CountIn(pageNums, set p | p in dirtyPages && p * server.pageSize < roFile.size)
    {
      var pageSize := server.pageSize;
      var buf := new Byte[pageSize];
      pages := 0;
      ghost var was := w.data;
      ghost var below := set p | p in dirtyPages && p * pageSize < roFile.size;
      for i := 0 to |pageNums|
        invariant Valid()
        invariant |was| <= |w.data| && (|was| >= roFile.size ==> |w.data| == |was|)
        invariant Persisted(pageNums[..i], was, w.data)
        invariant pages == CountIn(pageNums[..i], below)
      {
        var p := pageNums[i];
        ghost var mid := w.data;
        if p * pageSize < roFile.size {
          var good := PersistPage(w, buf, p, disks);
          if !good {
            return pages, false;
          }
          pages := pages + 1;
        } else {
          InPage(p);
        }
        PersistedStep(pageNums[..i], p, was, mid, w.data);
        assert pageNums[..i + 1] == pageNums[..i] + [p];
      }
      assert pageNums[..|pageNums|] == pageNums;
      return pages, true;
    }

    // The image holds the device's first size bytes and nothing else.
    ghost predicate ImageEqualsDevice(image: seq<Byte>)
      requires server.pageSize > 0
      reads this, roFile
    {
      |image| == roFile.size && forall i: nat :: i < |image| ==> image[i] == ByteAt(i)
    }

    // The pages in done are written over the image was, cut to the image's size.
    ghost predicate Persisted(done: seq<nat>, was: seq<Byte>, image: seq<Byte>)
      requires server.pageSize > 0
      reads this, roFile
    {
      forall k: nat :: ZeroExtended(image, k) ==
                       if k < roFile.size && k / server.pageSize in done then ByteAt(k) else ZeroExtended(was, k)
    }

    lemma PersistedStep(done: seq<nat>, p: nat, was: seq<Byte>, mid: seq<Byte>, image: seq<Byte>)
      requires server.pageSize > 0 && Persisted(done, was, mid) && PageWritten(p, mid, image)
      ensures Persisted(done + [p], was, image)
    {
    }

    // Page p is written over the image was.
    ghost predicate PageWritten(p: nat, was: seq<Byte>, image: seq<Byte>)
      requires server.pageSize > 0
      reads this, roFile
    {
      forall k: nat :: ZeroExtended(image, k) ==
                       if k < roFile.size && k / server.pageSize == p then ByteAt(k) else ZeroExtended(was, k)
    }

    // One turn of WriteDirtyTo's loop.
    method PersistPage(w: ImageFile, buf: array<Byte>, p: nat, disks: Disks) returns (ok: bool)
      requires Valid() && buf.Length == server.pageSize && p * server.pageSize < roFile.size
      modifies buf, w, roFile, server.cache
      ensures Valid()
      ensures !ok ==> MayFail(p, disks) || disks.imageFails
      ensures ok ==> PageWritten(p, old(w.data), w.data)
      ensures ok ==> |old(w.data)| <= |w.data| && (|old(w.data)| >= roFile.size ==> |w.data| == |old(w.data)|)
    {
      var off := p * server.pageSize;
      ok := ReadPageData(buf, 0, p, disks);
      if ok {
        var n := if server.pageSize < roFile.size - off then server.pageSize else roFile.size - off;
        assert buf[..] == buf[0..server.pageSize];
        var page := buf[..];
        WrittenPage(p, n, w.data);
        ok := w.WriteAt(page[..n], off, disks.imageFails);
      }
    }

    lemma WrittenPage(p: nat, n: nat, was: seq<Byte>)
      requires server.pageSize > 0 && p * server.pageSize < roFile.size
      requires n == if server.pageSize < roFile.size - p * server.pageSize then server.pageSize
                    else roFile.size - p * server.pageSize
      ensures PageWritten(p, was, Overwritten(was, PageBytes(p)[..n], p * server.pageSize))
    {
      InPage(p);
    }

    // The bytes of page p.
    lemma InPage(p: nat)
      requires server.pageSize > 0
      ensures forall k: nat :: k / server.pageSize == p <==>
                p * server.pageSize <= k < p * server.pageSize + server.pageSize
      ensures forall k: nat :: k / server.pageSize == p ==> ByteAt(k) == PageBytes(p)[k - p * server.pageSize]
    {
      var ps := server.pageSize;
      forall k: nat
        ensures k / ps == p <==> p * ps <= k < p * ps + ps
        ensures k / ps == p ==> k % ps == k - p * ps
      {
        assert k == (k / ps) * ps + k % ps;
        if p * ps <= k < p * ps + ps {
          QuotientOf(p, k - p * ps, ps);
        }
      }
    }

    lemma CleanPages()
      requires server.pageSize > 0
      ensures forall i: nat :: i / server.pageSize !in dirtyPages ==> ByteAt(i) == ZeroExtended(roFile.base.content, i)
    {
      forall i: nat | i / server.pageSize !in dirtyPages
        ensures ByteAt(i) == ZeroExtended(roFile.base.content, i)
      {
        BasePageByte(roFile.base.content, server.pageSize, i);
      }
    }
  }

  // A file opened for writing, as WriteDirtyTo sees it.
  class ImageFile {
    var data: seq<Byte>

    method WriteAt(bytes: seq<Byte>, off: nat, mayFail: bool) returns (ok: bool)
      modifies this
      ensures !mayFail ==> ok
      ensures ok ==> data == Overwritten(old(data), bytes, off)
    {
      var nr :| 0 <= nr <= |bytes| && (nr < |bytes| ==> mayFail);
      data := Overwritten(data, bytes[..nr], off);
      ok := nr == |bytes|;
      assert ok ==> bytes[..nr] == bytes;
    }
  }

  function CountIn(pageNums: seq<nat>, chosen: set<nat>): nat {
    if pageNums == [] then 0
    else
      var last := |pageNums| - 1;
      CountIn(pageNums[..last], chosen) + if pageNums[last] in chosen then 1 else 0
  }

  lemma {:induction false} CountInIsCardinality(pageNums: seq<nat>, keys: set<nat>, chosen: set<nat>)
    requires forall p :: p in pageNums <==> p in keys
    requires forall i, j :: 0 <= i < j < |pageNums| ==> pageNums[i] != pageNums[j]
    ensures CountIn(pageNums, chosen) == |keys * chosen|
  {
    if pageNums == [] {
      assert keys * chosen == {};
    } else {
      var last := |pageNums| - 1;
      var p := pageNums[last];
      var init := pageNums[..last];
      assert pageNums == init + [p];
      assert forall q :: q in init <==> q in keys - {p};
      CountInIsCardinality(init, keys - {p}, chosen);
      var rest := (keys - {p}) * chosen;
      if p in chosen {
        assert keys * chosen == rest + {p};
      } else {
        assert keys * chosen == rest;
      }
    }
  }

  // slices.Sorted of a map's keys.
  method SortedKeys(keys: set<nat>) returns (sorted: seq<nat>)
    ensures forall p :: p in sorted <==> p in keys
    ensures forall i, j :: 0 <= i < j < |sorted| ==> sorted[i] < sorted[j]
  {
    sorted := [];
    var rest := keys;
    while rest != {}
      invariant forall p :: p in keys <==> p in sorted || p in rest
      invariant forall i, j :: 0 <= i < j < |sorted| ==> sorted[i] < sorted[j]
      invariant forall i, p :: 0 <= i < |sorted| && p in rest ==> sorted[i] < p
      decreases |rest|
    {
      LeastExists(rest);
      var least :| least in rest && forall p :: p in rest ==> least <= p;
      sorted := sorted + [least];
      rest := rest - {least};
    }
  }

  lemma LeastExists(s: set<nat>)
    requires s != {}
    ensures exists least :: least in s && forall p :: p in s ==> least <= p
  {
    var x :| x in s;
    if s != {x} {
      LeastExists(s - {x});
      var y :| y in s - {x} && forall p :: p in s - {x} ==> y <= p;
      var least := if x < y then x else y;
      assert least in s && forall p :: p in s ==> least <= p by {
        assert forall p :: p in s ==> p == x || p in s - {x};
      }
    } else {
      assert forall p :: p in s ==> x <= p;
    }
  }

  function Zeros(n: nat): seq<Byte> {
    seq(n, _ => 0 as Byte)
  }

  // A byte after its range is trimmed: base contents in a page wholly inside the
  // range, zero elsewhere inside it, and what it was outside it.
  function TrimmedByte(base: seq<Byte>, ps: nat, offset: nat, length: nat, i: nat, was: Byte): Byte
    requires ps > 0
  {
    var page := i / ps;
    if offset <= page * ps && page * ps + ps <= offset + length then ZeroExtended(base, i)
    else if offset <= i < offset + length then 0
    else was
  }

  // The part of the range in a first page that the range enters midway.
  predicate InHead(ps: nat, offset: nat, length: nat, i: nat)
    requires ps > 0
  {
    offset % ps != 0 && offset <= i < offset + length && i / ps == offset / ps
  }

  // The part of the range in a last page that the range enters at its start and
  // leaves midway.
  predicate InTail(ps: nat, offset: nat, length: nat, i: nat)
    requires ps > 0
  {
    var end := offset + length;
    end % ps != 0 && end / ps >= (offset + ps - 1) / ps && (end / ps) * ps <= i < (end / ps) * ps + end % ps
  }

  // A page is dropped by a trim exactly when it lies wholly inside the range.
  lemma DroppedPages(ps: nat, offset: nat, length: nat, page: nat)
    requires ps > 0
    ensures (offset + ps - 1) / ps <= page < (offset + length) / ps <==>
            offset <= page * ps && page * ps + ps <= offset + length
  {
    PagesFrom(offset, page, ps);
    PagesBelow(offset + length, page, ps);
  }

  lemma HeadBytes(ps: nat, offset: nat, length: nat, i: nat)
    requires ps > 0 && offset % ps != 0
    ensures var n := if ps - offset % ps < length then ps - offset % ps else length;
            offset <= i < offset + n <==> InHead(ps, offset, length, i)
  {
    assert offset == (offset / ps) * ps + offset % ps;
    assert i == (i / ps) * ps + i % ps;
    if offset <= i < offset + (ps - offset % ps) {
      SamePage(offset, i - offset, ps);
    }
  }

  // What a trim makes of a byte, told by page numbers as the code computes them.
  lemma TrimDecides(base: seq<Byte>, ps: nat, offset: nat, length: nat, i: nat, was: Byte)
    requires ps > 0
    ensures TrimmedByte(base, ps, offset, length, i, was) ==
            if (offset + ps - 1) / ps <= i / ps < (offset + length) / ps then ZeroExtended(base, i)
            else if InHead(ps, offset, length, i) || InTail(ps, offset, length, i) then 0
            else was
  {
    DroppedPages(ps, offset, length, i / ps);
    if !(offset <= (i / ps) * ps && (i / ps) * ps + ps <= offset + length) {
      TrimEnds(ps, offset, length, i);
    }
  }

  lemma BasePageByte(base: seq<Byte>, ps: nat, i: nat)
    requires ps > 0
    ensures PageAt(base, (i / ps) * ps, ps)[i % ps] == ZeroExtended(base, i)
  {
  }

  // The bytes of the range outside dropped pages are those of its two ends.
  lemma TrimEnds(ps: nat, offset: nat, length: nat, i: nat)
    requires ps > 0
    requires !(offset <= (i / ps) * ps && (i / ps) * ps + ps <= offset + length)
    ensures offset <= i < offset + length <==> InHead(ps, offset, length, i) || InTail(ps, offset, length, i)
  {
    if InTail(ps, offset, length, i) {
      TailInRange(ps, offset, length, i);
    }
    if offset <= i < offset + length && !InHead(ps, offset, length, i) {
      FirstPageOf(ps, offset, i);
      LastPageOf(ps, offset, length, i);
    }
  }

  lemma TailInRange(ps: nat, offset: nat, length: nat, i: nat)
    requires ps > 0 && InTail(ps, offset, length, i)
    ensures offset <= i < offset + length
  {
    var end := offset + length;
    PagesFrom(offset, end / ps, ps);
    assert end == (end / ps) * ps + end % ps;
  }

  lemma LastPageOf(ps: nat, offset: nat, length: nat, i: nat)
    requires ps > 0 && i < offset + length
    requires offset <= (i / ps) * ps && (i / ps) * ps + ps > offset + length
    ensures InTail(ps, offset, length, i)
  {
    var end, page := offset + length, i / ps;
    assert i == page * ps + i % ps;
    QuotientOf(page, end - page * ps, ps);
    PagesFrom(offset, page, ps);
  }

  lemma FirstPageOf(ps: nat, offset: nat, i: nat)
    requires ps > 0 && offset <= i
    requires offset % ps == 0 || i / ps != offset / ps
    ensures offset <= (i / ps) * ps
  {
    var page, j := DivMod(i, ps);
    var p, r := DivMod(offset, ps);
    StartOfLaterPage(ps, p, r, page, j);
  }

  lemma StartOfLaterPage(ps: nat, p: nat, r: nat, page: nat, j: nat)
    requires r < ps && j < ps && p * ps + r <= page * ps + j && (r == 0 || page != p)
    ensures p * ps + r <= page * ps
  {
    if page < p {
      SlotsApart(page, p, ps);
    } else if p < page {
      SlotsApart(p, page, ps);
    }
  }
}

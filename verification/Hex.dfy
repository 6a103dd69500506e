// Hexadecimal text: fmt's %0*x, strconv's ParseUint, and the byte order of strings.
module Hex {
  import opened Wrappers

  function Pow16(k: nat): (p: nat)
    ensures p >= 1
  {
    if k == 0 then 1 else 16 * Pow16(k - 1)
  }

  // ---- digits ----

  function Digit(d: nat): char
    requires d < 16
  {
    "0123456789abcdef"[d]
  }

  predicate IsDigit(c: char) {
    '0' <= c <= '9' || 'a' <= c <= 'f' || 'A' <= c <= 'F'
  }

  // The digits validHex accepts, which are the ones %x writes.
  predicate IsLower(c: char) {
    '0' <= c <= '9' || 'a' <= c <= 'f'
  }

  function DigitValue(c: char): (d: nat)
    requires IsDigit(c)
    ensures d < 16
  {
    if c <= '9' then (c - '0') as nat else if c <= 'F' then (c - 'A') as nat + 10 else (c - 'a') as nat + 10
  }

  lemma DigitRoundTrip(d: nat)
    requires d < 16
    ensures IsLower(Digit(d)) && DigitValue(Digit(d)) == d
  {
  }

  predicate AllDigits(s: string) {
    forall i :: 0 <= i < |s| ==> IsDigit(s[i])
  }

  predicate AllLower(s: string) {
    forall i :: 0 <= i < |s| ==> IsLower(s[i])
  }

  // ---- numbers ----

  function Value(s: string): nat
    requires AllDigits(s)
  {
    if s == "" then 0 else DigitValue(s[0]) * Pow16(|s| - 1) + Value(s[1..])
  }

  // strconv.ParseUint(s, 16, bits), for strings short enough not to overflow.
  function ParseUint(s: string): Option<nat> {
    if s == "" || !AllDigits(s) then None else Some(Value(s))
  }

  function Zeros(k: nat): string {
    seq(k, _ => '0')
  }

  function Unpadded(n: nat): string {
    if n < 16 then [Digit(n)] else Unpadded(n / 16) + [Digit(n % 16)]
  }

  // %0*x of a number that is not negative: a number too big for its width is not cut.
  function Padded(n: nat, width: nat): string {
    var s := Unpadded(n);
    if |s| < width then Zeros(width - |s|) + s else s
  }

  lemma {:induction false} ValueLess(s: string)
    requires AllDigits(s)
    ensures Value(s) < Pow16(|s|)
  {
    if s != "" {
      ValueLess(s[1..]);
      LeadingDigit(DigitValue(s[0]), 16, Pow16(|s| - 1));
    }
  }

  lemma {:induction false} ValuePushed(s: string, c: char)
    requires AllDigits(s) && IsDigit(c)
    ensures AllDigits(s + [c]) && Value(s + [c]) == 16 * Value(s) + DigitValue(c)
  {
    if s == "" {
      assert [c][1..] == "";
      assert DigitValue(c) * Pow16(0) == DigitValue(c);
    } else {
      assert (s + [c])[1..] == s[1..] + [c];
      ValuePushed(s[1..], c);
      SixteenTimes(DigitValue(s[0]), Pow16(|s| - 1));
    }
  }

  lemma SixteenTimes(d: nat, p: nat)
    ensures d * (16 * p) == 16 * (d * p)
  {
  }

  lemma {:induction false} UnpaddedRoundTrip(n: nat)
    ensures Unpadded(n) != "" && AllLower(Unpadded(n)) && AllDigits(Unpadded(n)) && Value(Unpadded(n)) == n
    ensures n > 0 ==> Unpadded(n)[0] != '0'
  {
    if n < 16 {
      DigitRoundTrip(n);
      assert Unpadded(n)[1..] == "";
      assert DigitValue(Digit(n)) * Pow16(0) == n;
    } else {
      UnpaddedRoundTrip(n / 16);
      DigitRoundTrip(n % 16);
      ValuePushed(Unpadded(n / 16), Digit(n % 16));
    }
  }

  // A number takes k digits when it is below 16^k, and no fewer.
  lemma {:induction false} UnpaddedLength(n: nat, k: nat)
    requires k > 0
    ensures |Unpadded(n)| <= k <==> n < Pow16(k)
  {
    if k == 1 {
      assert Pow16(1) == 16 * Pow16(0);
      if n >= 16 {
        UnpaddedRoundTrip(n / 16);
      }
    } else if n >= 16 {
      UnpaddedLength(n / 16, k - 1);
      assert n / 16 < Pow16(k - 1) <==> n < 16 * Pow16(k - 1);
    } else {
      PowGrows(1, k);
    }
  }

  lemma {:induction false} PowGrows(j: nat, k: nat)
    requires j <= k
    ensures Pow16(j) <= Pow16(k)
    decreases k
  {
    if j < k {
      PowGrows(j, k - 1);
    }
  }

  lemma {:induction false} ZerosValue(k: nat, s: string)
    requires AllDigits(s)
    ensures AllDigits(Zeros(k) + s) && Value(Zeros(k) + s) == Value(s)
  {
    if k == 0 {
      assert Zeros(0) + s == s;
    } else {
      assert (Zeros(k) + s)[1..] == Zeros(k - 1) + s;
      ZerosValue(k - 1, s);
      assert DigitValue('0') * Pow16(|s| + k - 1) == 0;
    }
  }

  // Padding never changes the number, and gives exactly the width when that is enough.
  lemma PaddedRoundTrip(n: nat, width: nat)
    requires width > 0
    ensures var s := Padded(n, width);
            && AllLower(s) && AllDigits(s) && ParseUint(s) == Some(n)
            && |s| >= width && (|s| == width <==> n < Pow16(width))
  {
    UnpaddedRoundTrip(n);
    UnpaddedLength(n, width);
    if |Unpadded(n)| < width {
      ZerosValue(width - |Unpadded(n)|, Unpadded(n));
    }
  }

  // Lowercase digits of a width are the padded form of their number.
  lemma {:induction false} SameDigits(a: string, b: string)
    requires AllLower(a) && AllLower(b) && |a| == |b| && AllDigits(a) && AllDigits(b) && Value(a) == Value(b)
    ensures a == b
  {
    if Before(a, b) {
      OrderOfValues(a, b);
    } else if Before(b, a) {
      OrderOfValues(b, a);
    } else {
      Trichotomy(a, b);
    }
  }

  // ---- order ----

  // Byte order of strings.
  predicate Before(a: string, b: string) {
    b != "" && (a == "" || a[0] < b[0] || (a[0] == b[0] && Before(a[1..], b[1..])))
  }

  lemma {:induction false} Trichotomy(a: string, b: string)
    ensures a == b || Before(a, b) || Before(b, a)
    ensures !(Before(a, b) && Before(b, a)) && !Before(a, a)
  {
    if a != "" && b != "" && a[0] == b[0] {
      Trichotomy(a[1..], b[1..]);
      assert a == [a[0]] + a[1..] && b == [b[0]] + b[1..];
    }
    if a != "" {
      Trichotomy(a[1..], a[1..]);
    }
  }

  // Among lowercase digits of one width, byte order is the order of the numbers.
  lemma {:induction false} OrderOfValues(a: string, b: string)
    requires AllLower(a) && AllLower(b) && AllDigits(a) && AllDigits(b) && |a| == |b|
    ensures Before(a, b) <==> Value(a) < Value(b)
  {
    if a != "" {
      var p := Pow16(|a| - 1);
      var x, y := DigitValue(a[0]), DigitValue(b[0]);
      ValueLess(a[1..]);
      ValueLess(b[1..]);
      OrderOfValues(a[1..], b[1..]);
      if x < y {
        LeadingDigit(x, y, p);
      } else if y < x {
        LeadingDigit(y, x, p);
      }
    }
  }

  lemma LeadingDigit(x: nat, y: nat, p: nat)
    requires x < y
    ensures x * p + p <= y * p
  {
    assert (x + 1) * p <= y * p;
  }

  // Against a string no longer than b, only b's beginning matters.
  lemma {:induction false} OrderOfPrefix(a: string, b: string)
    requires |a| <= |b|
    ensures Before(b, a) <==> Before(b[..|a|], a)
  {
    if a != "" {
      assert b[..|a|][1..] == b[1..][..|a[1..]|];
      OrderOfPrefix(a[1..], b[1..]);
    }
  }
}

// The partition of blobs into usage shards by the first digits of their SHA-256.
module Shards {
  import opened Wrappers
  import opened Hex

  function NumShards(prefixLen: nat): nat {
    Pow16(prefixLen)
  }

  function ShardPrefix(prefixLen: nat, i: nat): string {
    Padded(i, prefixLen)
  }

  function ShardRange(prefixLen: nat, i: nat): (string, string) {
    (ShardPrefix(prefixLen, i),
     if i + 1 == NumShards(prefixLen) then seq(prefixLen, _ => 'g') else ShardPrefix(prefixLen, i + 1))
  }

  // scanShard's WHERE clause.
  predicate Scans(prefixLen: nat, i: nat, sha: string) {
    !Before(sha, ShardRange(prefixLen, i).0) && Before(sha, ShardRange(prefixLen, i).1)
  }

  // The index addBlobDelta files a blob under, if any.
  function DeltaIndex(prefixLen: int, sha: string): Option<nat> {
    if prefixLen <= 0 || |sha| < prefixLen then None
    else
      var n := ParseUint(sha[..prefixLen]);
      if n.None? || n.value >= NumShards(prefixLen) then None else n
  }

  lemma {:induction false} BeforeSentinel(s: string)
    requires AllLower(s) && s != ""
    ensures Before(s, seq(|s|, _ => 'g'))
  {
  }

  // Every lowercase-hex digest is scanned in exactly one shard, the one its deltas go to.
  lemma ShardsPartition(prefixLen: nat, sha: string)
    requires 1 <= prefixLen <= |sha| && AllLower(sha)
    ensures DeltaIndex(prefixLen, sha).Some?
    ensures forall i: nat :: i < NumShards(prefixLen) ==> (Scans(prefixLen, i, sha) <==> DeltaIndex(prefixLen, sha) == Some(i))
  {
    var head := sha[..prefixLen];
    assert AllDigits(head) && AllLower(head);
    ValueLess(head);
    forall i: nat | i < NumShards(prefixLen)
      ensures Scans(prefixLen, i, sha) <==> DeltaIndex(prefixLen, sha) == Some(i)
    {
      ShardBounds(prefixLen, i, sha);
    }
  }

  lemma ShardBounds(prefixLen: nat, i: nat, sha: string)
    requires 1 <= prefixLen <= |sha| && AllLower(sha) && i < NumShards(prefixLen)
    requires AllDigits(sha[..prefixLen])
    ensures Scans(prefixLen, i, sha) <==> Value(sha[..prefixLen]) == i
  {
    var head := sha[..prefixLen];
    var (lo, hi) := ShardRange(prefixLen, i);
    PaddedRoundTrip(i, prefixLen);
    OrderOfPrefix(lo, sha);
    OrderOfValues(head, lo);
    if i + 1 == NumShards(prefixLen) {
      BeforeSentinel(head);
      OrderOfPrefix(hi, sha);
      ValueLess(head);
    } else {
      PaddedRoundTrip(i + 1, prefixLen);
      OrderOfPrefix(hi, sha);
      OrderOfValues(head, hi);
    }
  }
}

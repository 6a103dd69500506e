// Adding something up over a multiset.
module Totals {
  function More<T>(m: multiset<T>, x: T): multiset<T> {
    m + multiset{x}
  }

  function Less<T>(m: multiset<T>, x: T): multiset<T> {
    m - multiset{x}
  }

  function Without<T>(s: seq<T>, i: nat): seq<T>
    requires i < |s|
  {
    s[..i] + s[i + 1..]
  }

  lemma WithoutIsLess<T>(s: seq<T>, i: nat)
    requires i < |s|
    ensures multiset(Without(s, i)) == Less(multiset(s), s[i])
  {
    assert s == s[..i] + [s[i]] + s[i + 1..];
  }

  lemma PushedIsMore<T>(s: seq<T>, x: T)
    ensures multiset(s + [x]) == More(multiset(s), x)
  {
  }

  ghost function Total<T>(m: multiset<T>, f: T -> int): int {
    if m == multiset{} then 0
    else
      var x :| x in m;
      f(x) + Total(m - multiset{x}, f)
  }

  // Whatever Total takes out first, it may as well have been x.
  lemma {:induction false} TotalTaken<T>(m: multiset<T>, x: T, f: T -> int)
    requires x in m
    ensures Total(m, f) == f(x) + Total(Less(m, x), f)
    decreases |m|
  {
    var y :| y in m && Total(m, f) == f(y) + Total(m - multiset{y}, f);
    if x != y {
      TotalTaken(m - multiset{y}, x, f);
      TotalTaken(m - multiset{x}, y, f);
      assert m - multiset{y} - multiset{x} == m - multiset{x} - multiset{y};
    }
  }

  lemma TotalPut<T>(m: multiset<T>, x: T, f: T -> int)
    ensures Total(More(m, x), f) == f(x) + Total(m, f)
  {
    TotalTaken(m + multiset{x}, x, f);
    assert m + multiset{x} - multiset{x} == m;
  }

  // What counts one apiece is no more than the total.
  lemma {:induction false} CountedByTotal<T>(some: multiset<T>, m: multiset<T>, f: T -> int)
    requires some <= m && (forall x :: x in some ==> f(x) == 1) && forall x :: x in m ==> f(x) >= 0
    ensures |some| <= Total(m, f)
    decreases |some|, |m|
  {
    if some == multiset{} {
      if m != multiset{} {
        var x :| x in m;
        TotalTaken(m, x, f);
        CountedByTotal(some, m - multiset{x}, f);
      }
    } else {
      var x :| x in some;
      TotalTaken(m, x, f);
      CountedByTotal(some - multiset{x}, m - multiset{x}, f);
    }
  }

  lemma {:induction false} TotalsOfBoth<T>(m: multiset<T>, f: T -> int, g: T -> int)
    requires forall x :: x in m ==> f(x) + g(x) == 1
    ensures Total(m, f) + Total(m, g) == |m|
    decreases |m|
  {
    if m != multiset{} {
      var x :| x in m;
      TotalTaken(m, x, f);
      TotalTaken(m, x, g);
      TotalsOfBoth(m - multiset{x}, f, g);
    }
  }

  // Only the values on m matter.
  lemma {:induction false} TotalSame<T>(m: multiset<T>, f: T -> int, g: T -> int)
    requires forall x :: x in m ==> f(x) == g(x)
    ensures Total(m, f) == Total(m, g)
    decreases |m|
  {
    if m != multiset{} {
      var x :| x in m;
      TotalTaken(m, x, f);
      TotalTaken(m, x, g);
      TotalSame(m - multiset{x}, f, g);
    }
  }

  lemma {:induction false} TotalOfUnion<T>(a: multiset<T>, b: multiset<T>, f: T -> int)
    ensures Total(a + b, f) == Total(a, f) + Total(b, f)
    decreases |a|
  {
    if a == multiset{} {
      assert a + b == b;
    } else {
      var x :| x in a;
      TotalTaken(a, x, f);
      TotalTaken(a + b, x, f);
      assert a + b - multiset{x} == (a - multiset{x}) + b;
      TotalOfUnion(a - multiset{x}, b, f);
    }
  }
}

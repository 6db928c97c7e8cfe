/** Byte order on strings and sort.Strings, with the fact that makes sorted output canonical. */
module Sorting {
  import opened Text

  /** Byte-wise lexicographic order. */
  predicate Le(a: string, b: string) {
    |a| == 0 || (|b| > 0 && (a[0] < b[0] || (a[0] == b[0] && Le(a[1..], b[1..]))))
  }

  lemma {:induction false} LeTotal(a: string, b: string)
    ensures Le(a, b) || Le(b, a)
    ensures Le(a, a)
  {
    if |a| > 0 && |b| > 0 {
      LeTotal(a[1..], b[1..]);
    } else if |a| > 0 {
      LeTotal(a[1..], b);
    }
  }

  lemma {:induction false} LeAntisymmetric(a: string, b: string)
    requires Le(a, b) && Le(b, a)
    ensures a == b
  {
    if |a| > 0 {
      LeAntisymmetric(a[1..], b[1..]);
      assert a == [a[0]] + a[1..] && b == [b[0]] + b[1..];
    }
  }

  lemma {:induction false} LeTransitive(a: string, b: string, c: string)
    requires Le(a, b) && Le(b, c)
    ensures Le(a, c)
  {
    if |a| > 0 && a[0] == b[0] == c[0] {
      LeTransitive(a[1..], b[1..], c[1..]);
    }
  }

  /** Less in byte order: a proper beginning, or the first differing byte is smaller. */
  predicate ByteLess(a: string, b: string) {
    (|a| < |b| && a == b[..|a|]) || exists i :: 0 <= i < |a| && i < |b| && DiffersAt(a, b, i) && a[i] < b[i]
  }

  predicate DiffersAt(a: string, b: string, i: nat)
    requires i < |a| && i < |b|
  {
    a[..i] == b[..i] && a[i] != b[i]
  }

  lemma DiffersLater(a: string, b: string, i: nat)
    requires |a| > 0 && |b| > 0 && a[0] == b[0] && i < |a[1..]| && i < |b[1..]|
    ensures DiffersAt(a, b, i + 1) <==> DiffersAt(a[1..], b[1..], i)
  {
    assert a[..i + 1] == [a[0]] + a[1..][..i] && b[..i + 1] == [b[0]] + b[1..][..i];
  }

  lemma ByteLessTail(a: string, b: string)
    requires |a| > 0 && |b| > 0 && a[0] == b[0]
    ensures ByteLess(a, b) <==> ByteLess(a[1..], b[1..])
  {
    assert a == [a[0]] + a[1..] && b == [b[0]] + b[1..];
    if |a| < |b| {
      assert b[..|a|] == [b[0]] + b[1..][..|a| - 1];
    }
    forall i: nat | i < |a[1..]| && i < |b[1..]|
      ensures DiffersAt(a, b, i + 1) <==> DiffersAt(a[1..], b[1..], i)
    {
      DiffersLater(a, b, i);
    }
    if i :| 0 <= i < |a| && i < |b| && DiffersAt(a, b, i) && a[i] < b[i] {
      assert i > 0 && DiffersAt(a[1..], b[1..], i - 1);
    }
    if i :| 0 <= i < |a[1..]| && i < |b[1..]| && DiffersAt(a[1..], b[1..], i) && a[1..][i] < b[1..][i] {
      assert DiffersAt(a, b, i + 1);
    }
  }

  /** The order is byte order. */
  lemma {:induction false} LeIsByteOrder(a: string, b: string)
    ensures Le(a, b) <==> a == b || ByteLess(a, b)
  {
    if |a| > 0 && |b| > 0 {
      if a[0] == b[0] {
        LeIsByteOrder(a[1..], b[1..]);
        ByteLessTail(a, b);
        assert a == [a[0]] + a[1..] && b == [b[0]] + b[1..];
      } else {
        assert a[..0] == b[..0] && DiffersAt(a, b, 0);
        assert forall i :: 0 < i < |a| && i < |b| ==> a[..i][0] != b[..i][0];
      }
    }
  }

  predicate Sorted(xs: seq<string>) {
    |xs| <= 1 || (Le(xs[0], xs[1]) && Sorted(xs[1..]))
  }

  lemma {:induction false} HeadIsLeast(xs: seq<string>, x: string)
    requires Sorted(xs) && x in xs
    ensures Le(xs[0], x)
  {
    LeTotal(xs[0], xs[0]);
    if x != xs[0] {
      assert x in xs[1..];
      HeadIsLeast(xs[1..], x);
      LeTransitive(xs[0], xs[1], x);
    }
  }

  function Insert(x: string, xs: seq<string>): seq<string> {
    if |xs| == 0 || Le(x, xs[0]) then [x] + xs else [xs[0]] + Insert(x, xs[1..])
  }

  /** sort.Strings. */
  function SortStrings(xs: seq<string>): seq<string> {
    if |xs| == 0 then [] else Insert(xs[0], SortStrings(xs[1..]))
  }

  lemma {:induction false} InsertSorted(x: string, xs: seq<string>)
    requires Sorted(xs)
    ensures Sorted(Insert(x, xs))
    ensures multiset(Insert(x, xs)) == multiset(xs) + multiset{x}
  {
    if |xs| == 0 || Le(x, xs[0]) {
      assert ([x] + xs)[1..] == xs;
    } else {
      LeTotal(x, xs[0]);
      InsertSorted(x, xs[1..]);
      var rest := Insert(x, xs[1..]);
      assert ([xs[0]] + rest)[1..] == rest;
      assert xs == [xs[0]] + xs[1..];
    }
  }

  lemma HeadAndTail(xs: seq<string>)
    requires |xs| > 0
    ensures multiset(xs) == multiset(xs[1..]) + multiset{xs[0]}
  {
    assert xs == [xs[0]] + xs[1..];
  }

  lemma {:induction false} SortIsSorted(xs: seq<string>)
    ensures Sorted(SortStrings(xs))
    ensures multiset(SortStrings(xs)) == multiset(xs)
  {
    if |xs| > 0 {
      SortIsSorted(xs[1..]);
      InsertSorted(xs[0], SortStrings(xs[1..]));
      HeadAndTail(xs);
    }
  }

  /** Two sorted lists with the same elements are the same list. */
  lemma {:induction false} SortedIsCanonical(a: seq<string>, b: seq<string>)
    requires Sorted(a) && Sorted(b) && multiset(a) == multiset(b)
    ensures a == b
  {
    if |a| == 0 {
      assert |multiset(b)| == 0;
    } else {
      assert |multiset(a)| == |multiset(b)|;
      assert a[0] in multiset(b) && b[0] in multiset(a);
      HeadIsLeast(a, b[0]);
      HeadIsLeast(b, a[0]);
      LeAntisymmetric(a[0], b[0]);
      assert a == [a[0]] + a[1..] && b == [b[0]] + b[1..];
      assert multiset(a[1..]) == multiset(a) - multiset{a[0]};
      SortedIsCanonical(a[1..], b[1..]);
    }
  }

  /** Sorting forgets the order its input came in. */
  lemma SortForgetsOrder(a: seq<string>, b: seq<string>)
    requires multiset(a) == multiset(b)
    ensures SortStrings(a) == SortStrings(b)
  {
    SortIsSorted(a);
    SortIsSorted(b);
    SortedIsCanonical(SortStrings(a), SortStrings(b));
  }
}

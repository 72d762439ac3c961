/** Three-way comparators, lexicographic comparison, and sorting by a comparator.

Go's `cmp.Compare`, `slices.Compare`, `sort.Slice` and `slices.SortFunc` all work with a function that
returns a negative number, zero or a positive number. The library sorts are not stable, so a claim
about their result is only made where the sorted permutation is unique. */
module Ordering {

  /** A comparator that ranks every pair consistently; equivalent values may differ. */
  ghost predicate Preorder<T(!new)>(cmp: (T, T) -> int) {
    && (forall a, b :: cmp(a, b) < 0 <==> cmp(b, a) > 0)
    && (forall a, b, c :: cmp(a, b) <= 0 && cmp(b, c) <= 0 ==> cmp(a, c) <= 0)
  }

  /** A comparator that in addition is zero on equal values only. */
  ghost predicate TotalOrder<T(!new)>(cmp: (T, T) -> int) {
    && Preorder(cmp)
    && (forall a, b :: cmp(a, b) == 0 <==> a == b)
  }

  predicate Sorted<T>(cmp: (T, T) -> int, s: seq<T>) {
    forall i, j :: 0 <= i < j < |s| ==> cmp(s[i], s[j]) <= 0
  }

  predicate StrictlySorted<T>(cmp: (T, T) -> int, s: seq<T>) {
    forall i, j :: 0 <= i < j < |s| ==> cmp(s[i], s[j]) < 0
  }

  function Insert<T>(cmp: (T, T) -> int, x: T, s: seq<T>): (r: seq<T>)
    ensures multiset(r) == multiset(s) + multiset{x}
  {
    if s == [] then [x]
    else if cmp(x, s[0]) <= 0 then [x] + s
    else
      assert s == [s[0]] + s[1..];
      [s[0]] + Insert(cmp, x, s[1..])
  }

  lemma {:induction false} InsertKeepsSorted<T(!new)>(cmp: (T, T) -> int, x: T, s: seq<T>)
    requires Preorder(cmp) && Sorted(cmp, s)
    ensures Sorted(cmp, Insert(cmp, x, s))
  {
    if s == [] {
    } else if cmp(x, s[0]) <= 0 {
      forall j | 0 <= j < |s| ensures cmp(x, s[j]) <= 0 {
        assert cmp(s[0], s[j]) <= 0;
      }
      PrependSorted(cmp, x, s);
    } else {
      var rest := Insert(cmp, x, s[1..]);
      InsertKeepsSorted(cmp, x, s[1..]);
      forall j | 0 <= j < |rest| ensures cmp(s[0], rest[j]) <= 0 {
        assert rest[j] in multiset(rest);
        if rest[j] != x {
          assert rest[j] in multiset(s[1..]);
          var k :| 1 <= k < |s| && s[k] == rest[j];
        }
      }
      PrependSorted(cmp, s[0], rest);
    }
  }

  lemma PrependSorted<T>(cmp: (T, T) -> int, x: T, s: seq<T>)
    requires Sorted(cmp, s) && forall j :: 0 <= j < |s| ==> cmp(x, s[j]) <= 0
    ensures Sorted(cmp, [x] + s)
  {
  }

  /** One sorted permutation of `s`. */
  function Sort<T(!new)>(cmp: (T, T) -> int, s: seq<T>): (r: seq<T>)
    requires Preorder(cmp)
    ensures Sorted(cmp, r)
    ensures multiset(r) == multiset(s)
  {
    if s == [] then []
    else
      assert s == [s[0]] + s[1..];
      InsertKeepsSorted(cmp, s[0], Sort(cmp, s[1..]));
      Insert(cmp, s[0], Sort(cmp, s[1..]))
  }

  /** Under a total order there is only one sorted permutation, whatever algorithm produced it. */
  lemma {:induction false} SortedPermutationUnique<T(!new)>(cmp: (T, T) -> int, a: seq<T>, b: seq<T>)
    requires TotalOrder(cmp)
    requires Sorted(cmp, a) && Sorted(cmp, b) && multiset(a) == multiset(b)
    ensures a == b
  {
    hide TotalOrder, Preorder, Sorted;
    assert |multiset(a)| == |a| && |multiset(b)| == |b|;
    if a != [] {
      SameFirst(cmp, a, b);
      SameTails(cmp, a, b);
      SortedPermutationUnique(cmp, a[1..], b[1..]);
      assert a == [a[0]] + a[1..] && b == [b[0]] + b[1..];
    }
  }

  lemma SameFirst<T(!new)>(cmp: (T, T) -> int, a: seq<T>, b: seq<T>)
    requires TotalOrder(cmp)
    requires Sorted(cmp, a) && Sorted(cmp, b) && multiset(a) == multiset(b) && a != [] && b != []
    ensures a[0] == b[0]
  {
    assert a[0] in multiset(b) && b[0] in multiset(a);
    var i :| 0 <= i < |b| && b[i] == a[0];
    var j :| 0 <= j < |a| && a[j] == b[0];
    assert cmp(a[0], b[0]) <= 0 && cmp(b[0], a[0]) <= 0;
  }

  lemma SameTails<T(!new)>(cmp: (T, T) -> int, a: seq<T>, b: seq<T>)
    requires Sorted(cmp, a) && Sorted(cmp, b) && multiset(a) == multiset(b) && a != [] && b != [] && a[0] == b[0]
    ensures multiset(a[1..]) == multiset(b[1..])
    ensures Sorted(cmp, a[1..]) && Sorted(cmp, b[1..])
  {
    assert a == [a[0]] + a[1..] && b == [b[0]] + b[1..];
    assert multiset(a[1..]) == multiset(a) - multiset{a[0]};
    assert multiset(b[1..]) == multiset(b) - multiset{b[0]};
  }

  /** Strictly increasing sequences are determined by the set of their elements. */
  lemma {:induction false} StrictlySortedUnique<T(!new)>(cmp: (T, T) -> int, a: seq<T>, b: seq<T>)
    requires TotalOrder(cmp)
    requires StrictlySorted(cmp, a) && StrictlySorted(cmp, b)
    requires forall x :: x in a <==> x in b
    ensures a == b
  {
    assert a == [] ==> forall x :: x !in b;
    assert a != [] ==> a[0] in b;
    assert b != [] ==> b[0] in a;
    if a != [] && b != [] {
      FirstIsLeast(cmp, a, b[0]);
      FirstIsLeast(cmp, b, a[0]);
      assert a == [a[0]] + a[1..] && b == [b[0]] + b[1..];
      TailElements(cmp, a);
      TailElements(cmp, b);
      StrictlySortedUnique(cmp, a[1..], b[1..]);
    }
  }

  lemma FirstIsLeast<T(!new)>(cmp: (T, T) -> int, a: seq<T>, x: T)
    requires TotalOrder(cmp) && StrictlySorted(cmp, a) && x in a
    ensures cmp(a[0], x) <= 0
  {
    var i :| 0 <= i < |a| && a[i] == x;
    assert i == 0 || cmp(a[0], a[i]) < 0;
  }

  lemma TailElements<T(!new)>(cmp: (T, T) -> int, a: seq<T>)
    requires TotalOrder(cmp) && StrictlySorted(cmp, a) && a != []
    ensures forall x :: x in a[1..] <==> x in a && x != a[0]
  {
    assert a == [a[0]] + a[1..];
    assert forall i :: 0 < i < |a| ==> cmp(a[0], a[i]) < 0;
  }

  lemma StrictlyTransitive<T(!new)>(cmp: (T, T) -> int, a: T, b: T, c: T)
    requires Preorder(cmp) && cmp(a, b) < 0 && cmp(b, c) < 0
    ensures cmp(a, c) < 0
  {
    assert cmp(c, a) <= 0 ==> cmp(c, b) <= 0;
  }

  /** Element-wise comparison of two sequences; a proper prefix comes first. */
  function Lex<T>(cmp: (T, T) -> int, a: seq<T>, b: seq<T>): int {
    if a == [] then (if b == [] then 0 else -1)
    else if b == [] then 1
    else
      var c := cmp(a[0], b[0]);
      if c != 0 then c else Lex(cmp, a[1..], b[1..])
  }

  lemma {:induction false} LexAntisymmetric<T(!new)>(cmp: (T, T) -> int, a: seq<T>, b: seq<T>)
    requires Preorder(cmp)
    ensures Lex(cmp, a, b) < 0 <==> Lex(cmp, b, a) > 0
    ensures Lex(cmp, b, a) < 0 <==> Lex(cmp, a, b) > 0
  {
    if a != [] && b != [] {
      LexAntisymmetric(cmp, a[1..], b[1..]);
    }
  }

  lemma {:induction false} LexTransitive<T(!new)>(cmp: (T, T) -> int, a: seq<T>, b: seq<T>, c: seq<T>)
    requires Preorder(cmp)
    requires Lex(cmp, a, b) <= 0 && Lex(cmp, b, c) <= 0
    ensures Lex(cmp, a, c) <= 0
  {
    if a != [] && b != [] && c != [] {
      if cmp(a[0], b[0]) == 0 && cmp(b[0], c[0]) == 0 {
        LexTransitive(cmp, a[1..], b[1..], c[1..]);
      }
    }
  }

  lemma {:induction false} LexZero<T(!new)>(cmp: (T, T) -> int, a: seq<T>, b: seq<T>)
    requires TotalOrder(cmp)
    ensures Lex(cmp, a, b) == 0 <==> a == b
  {
    if a != [] && b != [] {
      LexZero(cmp, a[1..], b[1..]);
      assert a == [a[0]] + a[1..] && b == [b[0]] + b[1..];
    }
  }

  function CompareChars(a: char, b: char): int {
    if a < b then -1 else if a > b then 1 else 0
  }

  /** `cmp.Compare` on strings: byte by byte, a proper prefix first. */
  function CompareStrings(a: string, b: string): int {
    Lex(CompareChars, a, b)
  }

  /** `slices.Compare` on string slices. */
  function CompareStringLists(a: seq<string>, b: seq<string>): int {
    Lex(CompareStrings, a, b)
  }

  lemma CompareStringsIsTotalOrder()
    ensures TotalOrder(CompareStrings)
  {
    assert TotalOrder(CompareChars);
    forall a, b ensures CompareStrings(a, b) < 0 <==> CompareStrings(b, a) > 0 {
      LexAntisymmetric(CompareChars, a, b);
    }
    forall a, b ensures CompareStrings(a, b) == 0 <==> a == b {
      LexZero(CompareChars, a, b);
    }
    forall a, b, c | CompareStrings(a, b) <= 0 && CompareStrings(b, c) <= 0
      ensures CompareStrings(a, c) <= 0
    {
      LexTransitive(CompareChars, a, b, c);
    }
  }

  lemma CompareStringListsIsTotalOrder()
    ensures TotalOrder(CompareStringLists)
  {
    CompareStringsIsTotalOrder();
    forall a, b ensures CompareStringLists(a, b) < 0 <==> CompareStringLists(b, a) > 0 {
      LexAntisymmetric(CompareStrings, a, b);
    }
    forall a, b ensures CompareStringLists(a, b) == 0 <==> a == b {
      LexZero(CompareStrings, a, b);
    }
    forall a, b, c | CompareStringLists(a, b) <= 0 && CompareStringLists(b, c) <= 0
      ensures CompareStringLists(a, c) <= 0
    {
      LexTransitive(CompareStrings, a, b, c);
    }
  }

  function SortStrings(s: seq<string>): (r: seq<string>)
    ensures Sorted(CompareStrings, r) && multiset(r) == multiset(s)
  {
    CompareStringsIsTotalOrder();
    Sort(CompareStrings, s)
  }

  /** A text comes before another one if it begins it, or has the lesser character where they first differ. */
  ghost predicate StringBefore(a: string, b: string) {
    || (a <= b && a != b)
    || exists k :: 0 <= k < |a| && k < |b| && a[..k] == b[..k] && a[k] < b[k]
  }

  lemma {:induction false} LexIff<T(!new)>(cmp: (T, T) -> int, a: seq<T>, b: seq<T>)
    requires forall x, y :: cmp(x, y) == 0 <==> x == y
    ensures Lex(cmp, a, b) < 0 <==>
      || (a <= b && a != b)
      || exists k :: 0 <= k < |a| && k < |b| && a[..k] == b[..k] && cmp(a[k], b[k]) < 0
  {
    if a != [] && b != [] && a[0] == b[0] {
      var x, y := a[1..], b[1..];
      LexIff(cmp, x, y);
      assert a == [a[0]] + x && b == [b[0]] + y;
      if k :| 0 <= k < |x| && k < |y| && x[..k] == y[..k] && cmp(x[k], y[k]) < 0 {
        assert a[..k + 1] == [a[0]] + x[..k] == b[..k + 1] && a[k + 1] == x[k] && b[k + 1] == y[k];
      }
      if k :| 0 <= k < |a| && k < |b| && a[..k] == b[..k] && cmp(a[k], b[k]) < 0 {
        assert k > 0;
        assert x[..k - 1] == a[..k][1..] == b[..k][1..] == y[..k - 1] && x[k - 1] == a[k] && y[k - 1] == b[k];
      }
    } else if a != [] && b != [] {
      assert a[..0] == b[..0];
      forall k | 0 < k < |a| && k < |b| ensures a[..k] != b[..k] {
        assert a[..k][0] == a[0] && b[..k][0] == b[0];
      }
    }
  }

  lemma CompareStringsIff(a: string, b: string)
    ensures CompareStrings(a, b) < 0 <==> StringBefore(a, b)
  {
    LexIff(CompareChars, a, b);
  }
}

/** The library sort, as a stable sort by an ordering, and text order by code unit. */
module Sorting {
  ghost predicate Ordering<T(!new)>(leq: (T, T) -> bool) {
    && (forall a, b :: leq(a, b) || leq(b, a))
    && (forall a, b, c :: leq(a, b) && leq(b, c) ==> leq(a, c))
  }

  ghost predicate Sorted<T>(s: seq<T>, leq: (T, T) -> bool) {
    forall i, j :: 0 <= i < j < |s| ==> leq(s[i], s[j])
  }

  function Insert<T>(x: T, s: seq<T>, leq: (T, T) -> bool): seq<T> {
    if s == [] || leq(x, s[0]) then [x] + s else [s[0]] + Insert(x, s[1..], leq)
  }

  function Sort<T>(s: seq<T>, leq: (T, T) -> bool): seq<T> {
    if s == [] then [] else Insert(s[0], Sort(s[1..], leq), leq)
  }

  lemma {:induction false} InsertKeeps<T>(x: T, s: seq<T>, leq: (T, T) -> bool)
    ensures multiset(Insert(x, s, leq)) == multiset{x} + multiset(s)
    ensures |Insert(x, s, leq)| == |s| + 1
  {
    if !(s == [] || leq(x, s[0])) {
      InsertKeeps(x, s[1..], leq);
      assert s == [s[0]] + s[1..];
    }
  }

  lemma {:induction false} InsertSorts<T(!new)>(x: T, s: seq<T>, leq: (T, T) -> bool)
    requires Ordering(leq) && Sorted(s, leq)
    ensures Sorted(Insert(x, s, leq), leq)
  {
    if s == [] {
    } else if leq(x, s[0]) {
      assert forall j :: 0 <= j < |s| ==> leq(x, s[j]);
    } else {
      var rest := Insert(x, s[1..], leq);
      InsertSorts(x, s[1..], leq);
      InsertKeeps(x, s[1..], leq);
      forall j | 0 <= j < |rest|
        ensures leq(s[0], rest[j])
      {
        assert rest[j] in multiset(rest);
        assert rest[j] == x || rest[j] in s[1..];
      }
    }
  }

  lemma {:induction false} SortPermutes<T>(s: seq<T>, leq: (T, T) -> bool)
    ensures multiset(Sort(s, leq)) == multiset(s)
    ensures |Sort(s, leq)| == |s|
  {
    if s != [] {
      SortPermutes(s[1..], leq);
      InsertKeeps(s[0], Sort(s[1..], leq), leq);
      assert s == [s[0]] + s[1..];
    }
  }

  lemma {:induction false} SortSorts<T(!new)>(s: seq<T>, leq: (T, T) -> bool)
    requires Ordering(leq)
    ensures Sorted(Sort(s, leq), leq)
  {
    if s != [] {
      SortSorts(s[1..], leq);
      InsertSorts(s[0], Sort(s[1..], leq), leq);
    }
  }

  lemma {:induction false} SortMembers<T>(s: seq<T>, leq: (T, T) -> bool)
    ensures forall x :: x in Sort(s, leq) ==> x in s
    ensures forall x :: x in s ==> x in Sort(s, leq)
  {
    SortPermutes(s, leq);
    forall x | x in Sort(s, leq)
      ensures x in s
    {
      assert x in multiset(Sort(s, leq));
    }
    forall x | x in s
      ensures x in Sort(s, leq)
    {
      assert x in multiset(s);
    }
  }

  /** Sorting what is already in order changes nothing. */
  lemma {:induction false} SortOfSorted<T(!new)>(s: seq<T>, leq: (T, T) -> bool)
    requires Sorted(s, leq)
    ensures Sort(s, leq) == s
  {
    if s != [] {
      SortOfSorted(s[1..], leq);
      assert s == [s[0]] + s[1..];
    }
  }

  ghost predicate DistinctBy<T, K>(s: seq<T>, key: T -> K) {
    forall i, j :: 0 <= i < j < |s| ==> key(s[i]) != key(s[j])
  }

  lemma {:induction false} InsertDistinct<T, K>(x: T, s: seq<T>, leq: (T, T) -> bool, key: T -> K)
    requires DistinctBy(s, key) && forall y :: y in s ==> key(y) != key(x)
    ensures DistinctBy(Insert(x, s, leq), key)
    ensures forall y :: y in Insert(x, s, leq) ==> y == x || y in s
  {
    if s == [] || leq(x, s[0]) {
      assert forall j :: 0 <= j < |s| ==> s[j] in s;
    } else {
      var rest := Insert(x, s[1..], leq);
      assert forall y :: y in s[1..] ==> y in s;
      InsertDistinct(x, s[1..], leq, key);
      forall j | 0 <= j < |rest|
        ensures key(rest[j]) != key(s[0])
      {
        assert rest[j] in rest && s[0] in s;
        if rest[j] in s[1..] {
          var k :| 0 <= k < |s[1..]| && s[1..][k] == rest[j];
          assert s[k + 1] == rest[j];
        }
      }
    }
  }

  /** Sorting keeps distinct keys distinct. */
  lemma {:induction false} SortDistinct<T, K>(s: seq<T>, leq: (T, T) -> bool, key: T -> K)
    requires DistinctBy(s, key)
    ensures DistinctBy(Sort(s, leq), key)
  {
    if s != [] {
      var first, rest := s[0], s[1..];
      SortDistinct(rest, leq, key);
      SortMembers(rest, leq);
      forall y | y in Sort(rest, leq)
        ensures key(y) != key(first)
      {
        var j :| 0 <= j < |rest| && rest[j] == y;
        assert s[j + 1] == y;
      }
      InsertDistinct(first, Sort(rest, leq), leq, key);
    }
  }

  // ----- text order

  /** Lexicographic order by rank: the order of code units, a prefix before what extends it. */
  predicate LexLeq<T(==)>(a: seq<T>, b: seq<T>, rank: T -> int) {
    a == [] || (b != [] && (rank(a[0]) < rank(b[0]) || (a[0] == b[0] && LexLeq(a[1..], b[1..], rank))))
  }

  ghost predicate Distinguishes<T(!new)>(rank: T -> int) {
    forall x, y :: rank(x) == rank(y) ==> x == y
  }

  lemma {:induction false} LexTotal<T(!new)>(a: seq<T>, b: seq<T>, rank: T -> int)
    requires Distinguishes(rank)
    ensures LexLeq(a, b, rank) || LexLeq(b, a, rank)
    ensures LexLeq(a, b, rank) && LexLeq(b, a, rank) ==> a == b
  {
    if a != [] && b != [] && a[0] == b[0] {
      LexTotal(a[1..], b[1..], rank);
      assert a == [a[0]] + a[1..] && b == [b[0]] + b[1..];
    }
  }

  lemma {:induction false} LexTransitive<T(!new)>(a: seq<T>, b: seq<T>, c: seq<T>, rank: T -> int)
    requires LexLeq(a, b, rank) && LexLeq(b, c, rank)
    ensures LexLeq(a, c, rank)
  {
    if a != [] && b != [] && c != [] && a[0] == b[0] && b[0] == c[0] {
      LexTransitive(a[1..], b[1..], c[1..], rank);
    }
  }

  function CodeUnit(c: char): int { c as int }

  predicate TextLeq(a: string, b: string) {
    LexLeq(a, b, CodeUnit)
  }

  lemma {:induction false} TextOrder()
    ensures forall a, b :: TextLeq(a, b) || TextLeq(b, a)
    ensures forall a, b :: TextLeq(a, b) && TextLeq(b, a) ==> a == b
    ensures forall a, b, c :: TextLeq(a, b) && TextLeq(b, c) ==> TextLeq(a, c)
  {
    forall a, b
      ensures TextLeq(a, b) || TextLeq(b, a)
      ensures TextLeq(a, b) && TextLeq(b, a) ==> a == b
    {
      LexTotal(a, b, CodeUnit);
    }
    forall a, b, c | TextLeq(a, b) && TextLeq(b, c)
      ensures TextLeq(a, c)
    {
      LexTransitive(a, b, c, CodeUnit);
    }
  }

  /** `a` and `b` agree up to `k`, where `a` ends or has the lesser element. */
  predicate DiffersAt<T(==)>(a: seq<T>, b: seq<T>, rank: T -> int, k: nat) {
    k <= |a| && k < |b| && a[..k] == b[..k] && (k == |a| || rank(a[k]) < rank(b[k]))
  }

  lemma {:induction false} LexDiffers<T>(a: seq<T>, b: seq<T>, rank: T -> int) returns (k: nat)
    requires LexLeq(a, b, rank) && a != b
    ensures DiffersAt(a, b, rank, k)
  {
    if a != [] && b != [] && !(rank(a[0]) < rank(b[0])) {
      assert a == [a[0]] + a[1..] && b == [b[0]] + b[1..];
      var later := LexDiffers(a[1..], b[1..], rank);
      k := later + 1;
      assert a[..k] == [a[0]] + a[1..][..later] && b[..k] == [b[0]] + b[1..][..later];
    } else {
      k := 0;
    }
  }

  /** `a` stands before `b` in the order of code units. */
  ghost predicate TextBefore(a: string, b: string) {
    exists k: nat :: k <= |a| && k < |b| && a[..k] == b[..k] && (k == |a| || a[k] < b[k])
  }

  lemma {:induction false} TextLeqMeans(a: string, b: string)
    requires TextLeq(a, b)
    ensures a == b || TextBefore(a, b)
  {
    if a != b {
      var k := LexDiffers(a, b, CodeUnit);
    }
  }
}

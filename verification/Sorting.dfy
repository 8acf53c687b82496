/** The library sorts and flattening the source calls, as functions, with the facts
    every caller relies on: what is sorted is kept, there is one sorted order, and
    joining ascending parts in ascending order ascends. */
module Sorting {

  ghost predicate Order<T(!new)>(less: (T, T) -> bool) {
    && (forall x :: !less(x, x))
    && (forall x, y, z :: less(x, y) && less(y, z) ==> less(x, z))
  }

  ghost predicate Comparable<T>(less: (T, T) -> bool, s: seq<T>) {
    forall i, j :: 0 <= i < j < |s| ==> less(s[i], s[j]) || less(s[j], s[i])
  }

  ghost predicate Ascending<T>(less: (T, T) -> bool, s: seq<T>) {
    forall i, j :: 0 <= i < j < |s| ==> less(s[i], s[j])
  }

  ghost predicate SameElements<T(!new)>(a: seq<T>, b: seq<T>) {
    forall e :: e in a <==> e in b
  }

  function Insert<T>(less: (T, T) -> bool, e: T, sorted: seq<T>): seq<T> {
    if sorted == [] || less(e, sorted[0]) then [e] + sorted
    else [sorted[0]] + Insert(less, e, sorted[1..])
  }

  function Sort<T>(less: (T, T) -> bool, s: seq<T>): seq<T> {
    if s == [] then [] else Insert(less, s[0], Sort(less, s[1..]))
  }

  lemma AscendingHead<T(!new)>(less: (T, T) -> bool, s: seq<T>)
    requires Ascending(less, s) && s != []
    ensures Ascending(less, s[1..]) && forall e :: e in s[1..] ==> less(s[0], e)
  {
  }

  lemma AscendingCons<T(!new)>(less: (T, T) -> bool, e: T, s: seq<T>)
    requires Ascending(less, s) && forall x :: x in s ==> less(e, x)
    ensures Ascending(less, [e] + s)
  {
  }

  lemma {:induction false} InsertAscends<T(!new)>(less: (T, T) -> bool, e: T, sorted: seq<T>)
    requires Order(less) && Ascending(less, sorted)
    requires forall x :: x in sorted ==> less(e, x) || less(x, e)
    ensures Ascending(less, Insert(less, e, sorted))
    ensures forall x :: x in Insert(less, e, sorted) <==> x == e || x in sorted
  {
    if sorted != [] {
      var head, rest := sorted[0], sorted[1..];
      assert sorted == [head] + rest;
      AscendingHead(less, sorted);
      if less(e, head) {
        AscendingCons(less, e, sorted);
      } else {
        InsertAscends(less, e, rest);
        AscendingCons(less, head, Insert(less, e, rest));
      }
    }
  }

  lemma {:induction false} SortAscends<T(!new)>(less: (T, T) -> bool, s: seq<T>)
    requires Order(less) && Comparable(less, s)
    ensures Ascending(less, Sort(less, s)) && SameElements(Sort(less, s), s)
  {
    if s != [] {
      var rest := s[1..];
      assert s == [s[0]] + rest;
      SortAscends(less, rest);
      forall x | x in rest
        ensures less(s[0], x) || less(x, s[0])
      {
        var m :| 0 <= m < |rest| && rest[m] == x;
        assert s[m + 1] == x;
      }
      InsertAscends(less, s[0], Sort(less, rest));
    }
  }

  /** A collection has only one ascending listing. */
  lemma {:induction false} AscendingUnique<T(!new)>(less: (T, T) -> bool, a: seq<T>, b: seq<T>)
    requires Order(less) && Ascending(less, a) && Ascending(less, b) && SameElements(a, b)
    ensures a == b
  {
    if a != [] {
      assert a[0] in a;
    }
    if b != [] {
      assert b[0] in b;
    }
    if a != [] && b != [] {
      AscendingHead(less, a);
      AscendingHead(less, b);
      assert a == [a[0]] + a[1..] && b == [b[0]] + b[1..];
      assert a[0] == b[0];
      assert forall e :: e in a[1..] <==> e in a && e != a[0];
      assert forall e :: e in b[1..] <==> e in b && e != b[0];
      AscendingUnique(less, a[1..], b[1..]);
    }
  }

  /** So the result of a sort does not depend on the order of its input. */
  lemma SortIgnoresOrder<T(!new)>(less: (T, T) -> bool, a: seq<T>, b: seq<T>)
    requires Order(less) && Comparable(less, a) && Comparable(less, b) && SameElements(a, b)
    ensures Sort(less, a) == Sort(less, b)
  {
    SortAscends(less, a);
    SortAscends(less, b);
    AscendingUnique(less, Sort(less, a), Sort(less, b));
  }

  /** `String`'s order: by the first differing unit, a prefix before its extensions. */
  predicate Before(a: string, b: string) {
    if b == [] then false
    else if a == [] then true
    else a[0] < b[0] || (a[0] == b[0] && Before(a[1..], b[1..]))
  }

  lemma {:induction false} BeforeIrreflexive(a: string)
    ensures !Before(a, a)
  {
    if a != [] {
      BeforeIrreflexive(a[1..]);
    }
  }

  lemma {:induction false} BeforeTransitive(a: string, b: string, c: string)
    requires Before(a, b) && Before(b, c)
    ensures Before(a, c)
  {
    if a != [] && a[0] == b[0] && b[0] == c[0] {
      BeforeTransitive(a[1..], b[1..], c[1..]);
    }
  }

  lemma {:induction false} BeforeTotal(a: string, b: string)
    requires a != b
    ensures Before(a, b) || Before(b, a)
  {
    if a != [] && b != [] && a[0] == b[0] {
      assert a == [a[0]] + a[1..] && b == [b[0]] + b[1..];
      BeforeTotal(a[1..], b[1..]);
    }
  }

  lemma BeforeIsOrder()
    ensures Order(Before)
  {
    forall x: string
      ensures !Before(x, x)
    {
      BeforeIrreflexive(x);
    }
    forall x, y, z | Before(x, y) && Before(y, z)
      ensures Before(x, z)
    {
      BeforeTransitive(x, y, z);
    }
  }

  predicate Lexicographic(a: string, b: string) {
    a < b || exists k :: 0 <= k < |a| && k < |b| && a[..k] == b[..k] && a[k] < b[k]
  }

  lemma {:induction false} BeforeIsLexicographic(a: string, b: string)
    ensures Before(a, b) <==> Lexicographic(a, b)
  {
    if a != [] && b != [] {
      BeforeIsLexicographic(a[1..], b[1..]);
      LexicographicTail(a, b);
    }
  }

  lemma LexicographicTail(a: string, b: string)
    requires a != [] && b != []
    ensures Lexicographic(a, b) <==> a[0] < b[0] || (a[0] == b[0] && Lexicographic(a[1..], b[1..]))
  {
    var x, y := a[1..], b[1..];
    if a[0] < b[0] {
      assert a[..0] == b[..0];
    }
    if a[0] == b[0] && Lexicographic(x, y) && !(x < y) {
      var k :| 0 <= k < |x| && k < |y| && x[..k] == y[..k] && x[k] < y[k];
      assert a[..k + 1] == [a[0]] + x[..k] && b[..k + 1] == [b[0]] + y[..k];
    }
    if Lexicographic(a, b) && !(a < b) {
      var k :| 0 <= k < |a| && k < |b| && a[..k] == b[..k] && a[k] < b[k];
      if k > 0 {
        assert a[0] == a[..k][0] && b[0] == b[..k][0];
        assert x[..k - 1] == a[..k][1..] && y[..k - 1] == b[..k][1..];
      }
    }
  }

  // ------------------------------------------------------------------
  // Concatenation
  // ------------------------------------------------------------------

  function Concat<T>(parts: seq<seq<T>>): seq<T> {
    if parts == [] then [] else Concat(parts[..|parts| - 1]) + parts[|parts| - 1]
  }

  lemma {:induction false} InConcat<T(!new)>(e: T, parts: seq<seq<T>>)
    ensures e in Concat(parts) <==> exists i :: 0 <= i < |parts| && e in parts[i]
  {
    if parts != [] {
      InConcat(e, parts[..|parts| - 1]);
    }
  }

  lemma {:induction false} ConcatCons<T(!new)>(part: seq<T>, parts: seq<seq<T>>)
    ensures Concat([part] + parts) == part + Concat(parts)
  {
    var all := [part] + parts;
    if parts == [] {
      assert Concat(all) == Concat([]) + part;
    } else {
      var before := parts[..|parts| - 1];
      ConcatCons(part, before);
      assert all[..|all| - 1] == [part] + before;
      assert Concat(all) == (part + Concat(before)) + parts[|parts| - 1];
    }
  }

  lemma OneMore(n: nat, size: nat)
    requires n > 0
    ensures n * size == (n - 1) * size + size
  {
  }

  lemma {:induction false} ConcatSize<T(!new)>(parts: seq<seq<T>>, size: nat)
    requires forall i :: 0 <= i < |parts| ==> |parts[i]| == size
    ensures |Concat(parts)| == |parts| * size
  {
    if parts != [] {
      ConcatSize(parts[..|parts| - 1], size);
      OneMore(|parts|, size);
    }
  }

  lemma AppendAscends<T(!new)>(less: (T, T) -> bool, a: seq<T>, b: seq<T>)
    requires Ascending(less, a) && Ascending(less, b)
    requires forall x, y :: x in a && y in b ==> less(x, y)
    ensures Ascending(less, a + b)
  {
  }

  lemma {:induction false} ConcatAscends<T(!new)>(less: (T, T) -> bool, parts: seq<seq<T>>)
    requires forall i :: 0 <= i < |parts| ==> Ascending(less, parts[i])
    requires forall i, j, x, y :: 0 <= i < j < |parts| && x in parts[i] && y in parts[j] ==> less(x, y)
    ensures Ascending(less, Concat(parts))
  {
    if parts != [] {
      var before, last := parts[..|parts| - 1], parts[|parts| - 1];
      ConcatAscends(less, before);
      forall x, y | x in Concat(before) && y in last
        ensures less(x, y)
      {
        InConcat(x, before);
      }
      AppendAscends(less, Concat(before), last);
    }
  }
}

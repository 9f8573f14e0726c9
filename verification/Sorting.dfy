/**
 Sorted key lists. Several places of the program collect keys in a map and then sort them, so
 that the unspecified iteration order of a map never shows in a result. This module states what
 that relies on: a strictly ascending sequence is determined by the set of its elements.
 */
module Sorting {
  /** A strict total order, such as `<` on integers. */
  ghost predicate StrictTotal<T(!new)>(lt: (T, T) -> bool) {
    && (forall x :: !lt(x, x))
    && (forall x, y, z :: lt(x, y) && lt(y, z) ==> lt(x, z))
    && (forall x, y :: x != y ==> lt(x, y) || lt(y, x))
  }

  ghost predicate Ascending<T>(s: seq<T>, lt: (T, T) -> bool) {
    forall i, j :: 0 <= i < j < |s| ==> lt(s[i], s[j])
  }

  ghost function Elems<T>(s: seq<T>): set<T> {
    set x | x in s
  }

  lemma ElemsConcat<T>(a: seq<T>, b: seq<T>)
    ensures Elems(a + b) == Elems(a) + Elems(b)
  {
    forall x ensures x in Elems(a + b) <==> x in Elems(a) + Elems(b) {
      assert x in a + b <==> x in a || x in b;
    }
  }

  lemma Member<T>(s: set<T>) returns (x: T)
    requires s != {}
    ensures x in s
  {
    x :| x in s;
  }

  /** The last of an ascending sequence is above every other element. */
  lemma AscendingLast<T(!new)>(s: seq<T>, lt: (T, T) -> bool)
    requires StrictTotal(lt) && Ascending(s, lt) && s != []
    ensures s[|s| - 1] !in s[..|s| - 1]
    ensures Elems(s[..|s| - 1]) == Elems(s) - {s[|s| - 1]}
    ensures forall x :: x in Elems(s) && x != s[|s| - 1] ==> lt(x, s[|s| - 1])
  {
    var front, last := s[..|s| - 1], s[|s| - 1];
    assert s == front + [last];
    ElemsConcat(front, [last]);
    assert forall i :: 0 <= i < |front| ==> lt(front[i], last) && front[i] != last;
  }

  /** Two ascending sequences with the same elements are the same sequence. */
  lemma {:induction false} AscendingUnique<T(!new)>(a: seq<T>, b: seq<T>, lt: (T, T) -> bool)
    requires StrictTotal(lt) && Ascending(a, lt) && Ascending(b, lt)
    requires Elems(a) == Elems(b)
    ensures a == b
    decreases |a|
  {
    assert b != [] ==> b[0] in Elems(b);
    if a != [] {
      assert a[|a| - 1] in Elems(b);
      AscendingLast(a, lt);
      AscendingLast(b, lt);
      var x, y := a[|a| - 1], b[|b| - 1];
      assert y in Elems(a) && x in Elems(b);
      assert x == y;
      AscendingUnique(a[..|a| - 1], b[..|b| - 1], lt);
      assert a == a[..|a| - 1] + [x] && b == b[..|b| - 1] + [y];
    }
  }

  /** One step of an insertion sort: the place of `x` in an ascending sequence. */
  function Insert<T>(x: T, s: seq<T>, lt: (T, T) -> bool): (r: seq<T>)
    ensures multiset(r) == multiset(s) + multiset{x}
  {
    if s == [] then [x]
    else if lt(x, s[0]) then [x] + s
    else
      assert s == [s[0]] + s[1..];
      [s[0]] + Insert(x, s[1..], lt)
  }

  lemma {:induction false} InsertAscending<T(!new)>(x: T, s: seq<T>, lt: (T, T) -> bool)
    requires StrictTotal(lt) && Ascending(s, lt) && x !in s
    ensures Ascending(Insert(x, s, lt), lt)
    ensures Elems(Insert(x, s, lt)) == Elems(s) + {x}
    decreases |s|
  {
    if s == [] || lt(x, s[0]) {
      assert Insert(x, s, lt) == [x] + s;
      ElemsConcat([x], s);
    } else {
      var rest := Insert(x, s[1..], lt);
      InsertAscending(x, s[1..], lt);
      assert s == [s[0]] + s[1..];
      ElemsConcat([s[0]], rest);
      ElemsConcat([s[0]], s[1..]);
      forall y | y in rest ensures lt(s[0], y) {
        assert y in Elems(rest);
      }
    }
  }

  /** The library sort, on the keys of a map: any sort that orders by `lt` gives this result. */
  function Sort<T>(s: seq<T>, lt: (T, T) -> bool): (r: seq<T>)
    ensures multiset(r) == multiset(s)
  {
    if s == [] then []
    else
      assert s == [s[0]] + s[1..];
      Insert(s[0], Sort(s[1..], lt), lt)
  }

  ghost predicate Distinct<T>(s: seq<T>) {
    forall i, j :: 0 <= i < j < |s| ==> s[i] != s[j]
  }

  lemma DistinctTail<T>(s: seq<T>)
    requires Distinct(s) && s != []
    ensures Distinct(s[1..]) && s[0] !in Elems(s[1..]) && Elems(s) == Elems(s[1..]) + {s[0]}
  {
    assert s == [s[0]] + s[1..];
    ElemsConcat([s[0]], s[1..]);
    assert forall i :: 0 <= i < |s| - 1 ==> s[1..][i] == s[i + 1];
  }

  lemma NotIn<T>(x: T, s: seq<T>)
    requires x !in Elems(s)
    ensures x !in s
  {
  }

  lemma {:induction false} SortAscending<T(!new)>(s: seq<T>, lt: (T, T) -> bool)
    requires StrictTotal(lt) && Distinct(s)
    ensures Ascending(Sort(s, lt), lt)
    ensures Elems(Sort(s, lt)) == Elems(s)
    decreases |s|
  {
    hide Insert, StrictTotal, Elems, Distinct;
    if s != [] {
      var rest := Sort(s[1..], lt);
      DistinctTail(s);
      SortAscending(s[1..], lt);
      NotIn(s[0], rest);
      InsertAscending(s[0], rest, lt);
    }
  }

  /** An order that need not tell all elements apart, such as by one field. */
  ghost predicate StrictOrder<T(!new)>(lt: (T, T) -> bool) {
    (forall x :: !lt(x, x)) && (forall x, y, z :: lt(x, y) && lt(y, z) ==> lt(x, z))
  }

  ghost predicate SortedBy<T>(s: seq<T>, lt: (T, T) -> bool) {
    forall i, j :: 0 <= i < j < |s| ==> !lt(s[j], s[i])
  }

  lemma {:induction false} InsertSorted<T(!new)>(x: T, s: seq<T>, lt: (T, T) -> bool)
    requires StrictOrder(lt) && SortedBy(s, lt)
    ensures SortedBy(Insert(x, s, lt), lt)
    decreases |s|
  {
    if s != [] && !lt(x, s[0]) {
      var rest := Insert(x, s[1..], lt);
      InsertSorted(x, s[1..], lt);
      forall y | y in rest ensures !lt(y, s[0]) {
        assert y in multiset(rest);
      }
    }
  }

  /** Sorting by such an order leaves no pair the wrong way round. */
  lemma {:induction false} SortedByOrder<T(!new)>(s: seq<T>, lt: (T, T) -> bool)
    requires StrictOrder(lt)
    ensures SortedBy(Sort(s, lt), lt)
    decreases |s|
  {
    if s != [] {
      SortedByOrder(s[1..], lt);
      InsertSorted(s[0], Sort(s[1..], lt), lt);
    }
  }

  /** Every finite set has an ascending listing. */
  lemma {:induction false} ListingExists<T(!new)>(s: set<T>, lt: (T, T) -> bool) returns (r: seq<T>)
    requires StrictTotal(lt)
    ensures Ascending(r, lt) && Elems(r) == s
    decreases |s|
  {
    if s == {} {
      r := [];
    } else {
      var x :| x in s;
      r := ListingExists(s - {x}, lt);
      assert x !in Elems(r);
      InsertAscending(x, r, lt);
      r := Insert(x, r, lt);
    }
  }

  /** The ascending listing of a set. */
  ghost function Listing<T(!new)>(s: set<T>, lt: (T, T) -> bool): (r: seq<T>)
    requires StrictTotal(lt)
    ensures Ascending(r, lt) && Elems(r) == s
  {
    ListingDefined(s, lt);
    var r :| Ascending(r, lt) && Elems(r) == s;
    r
  }

  lemma ListingDefined<T(!new)>(s: set<T>, lt: (T, T) -> bool)
    requires StrictTotal(lt)
    ensures exists r :: Ascending(r, lt) && Elems(r) == s
  {
    var r := ListingExists(s, lt);
  }

  /** Sorting the keys of a set in any order gives its listing. */
  lemma SortIsListing<T(!new)>(s: seq<T>, lt: (T, T) -> bool)
    requires StrictTotal(lt) && Distinct(s)
    ensures Sort(s, lt) == Listing(Elems(s), lt)
  {
    SortAscending(s, lt);
    AscendingUnique(Sort(s, lt), Listing(Elems(s), lt), lt);
  }

  /** An ascending sequence lists its own elements. */
  lemma ListingOfElems<T(!new)>(s: seq<T>, lt: (T, T) -> bool)
    requires StrictTotal(lt) && Ascending(s, lt)
    ensures Listing(Elems(s), lt) == s
  {
    AscendingUnique(s, Listing(Elems(s), lt), lt);
  }

  predicate IntLess(x: int, y: int) {
    x < y
  }

  lemma IntLessTotal()
    ensures StrictTotal(IntLess)
  {
  }

  /** Order of Go strings: code point by code point, a proper prefix first. */
  predicate LexLess(a: string, b: string) {
    if b == [] then false
    else if a == [] then true
    else if a[0] == b[0] then LexLess(a[1..], b[1..])
    else a[0] < b[0]
  }

  /** `b` goes on after `a`, or it is greater where the two first differ. */
  ghost predicate DiffersAt(a: string, b: string, n: nat) {
    && n <= |a| && n < |b| && a[..n] == b[..n]
    && (n == |a| || a[n] < b[n])
  }

  lemma SameFirst(a: string, b: string, n: nat)
    requires DiffersAt(a, b, n)
    ensures n > 0 ==> a[0] == b[0]
  {
    assert n > 0 ==> a[..n][0] == b[..n][0];
  }

  lemma {:induction false} LexLessIff(a: string, b: string)
    ensures LexLess(a, b) <==> exists n: nat :: DiffersAt(a, b, n)
  {
    if a != [] && b != [] && a[0] == b[0] {
      LexLessIff(a[1..], b[1..]);
      if n: nat :| DiffersAt(a[1..], b[1..], n) {
        assert a[..n + 1] == [a[0]] + a[1..][..n] && b[..n + 1] == [b[0]] + b[1..][..n];
        assert DiffersAt(a, b, n + 1);
      }
      if n: nat :| DiffersAt(a, b, n) {
        assert a[1..][..n - 1] == a[..n][1..] && b[1..][..n - 1] == b[..n][1..];
        assert DiffersAt(a[1..], b[1..], n - 1);
      }
    } else if b != [] && (a == [] || a[0] < b[0]) {
      assert DiffersAt(a, b, 0);
    } else if n: nat :| DiffersAt(a, b, n) {
      SameFirst(a, b, n);
    }
  }

  lemma {:induction false} LexIrreflexive(a: string)
    ensures !LexLess(a, a)
  {
    if a != [] {
      LexIrreflexive(a[1..]);
    }
  }

  lemma {:induction false} LexTransitive(a: string, b: string, c: string)
    requires LexLess(a, b) && LexLess(b, c)
    ensures LexLess(a, c)
  {
    if a != [] && a[0] == b[0] && b[0] == c[0] {
      LexTransitive(a[1..], b[1..], c[1..]);
    }
  }

  lemma {:induction false} LexConnected(a: string, b: string)
    requires a != b
    ensures LexLess(a, b) || LexLess(b, a)
  {
    if a != [] && b != [] && a[0] == b[0] {
      assert a == [a[0]] + a[1..] && b == [b[0]] + b[1..];
      LexConnected(a[1..], b[1..]);
    }
  }

  lemma LexTotal()
    ensures StrictTotal(LexLess)
  {
    forall a ensures !LexLess(a, a) {
      LexIrreflexive(a);
    }
    forall a, b, c | LexLess(a, b) && LexLess(b, c) ensures LexLess(a, c) {
      LexTransitive(a, b, c);
    }
    forall a, b | a != b ensures LexLess(a, b) || LexLess(b, a) {
      LexConnected(a, b);
    }
  }
}

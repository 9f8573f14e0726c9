/** Label lists (internal/app/events/cluster.go): normalised, without duplicates, sorted. */
module Labels {
  import opened Text
  import opened Sorting

  function NormalizeString(u: Unicode, value: string): (r: string) {
    u.ToLower(TrimSpace(value))
  }

  /** The normalised non-empty labels of a list. */
  ghost function NormalSet(u: Unicode, values: seq<string>): set<string> {
    set v | v in values && NormalizeString(u, v) != "" :: NormalizeString(u, v)
  }

  /** The sorted list of a set of labels. */
  ghost function LabelList(labels: set<string>): seq<string> {
    LexTotal();
    Listing(labels, LexLess)
  }

  /** The sorted list of a set of article numbers. */
  ghost function IdList(ids: set<int>): seq<int> {
    IntLessTotal();
    Listing(ids, IntLess)
  }

  lemma LabelListIs(labels: set<string>)
    ensures Elems(LabelList(labels)) == labels && Ascending(LabelList(labels), LexLess)
  {
    LexTotal();
  }

  lemma IdListIs(ids: set<int>)
    ensures Elems(IdList(ids)) == ids && Ascending(IdList(ids), IntLess)
    ensures |IdList(ids)| == |ids|
  {
    IntLessTotal();
    AscendingSize(IdList(ids));
  }

  lemma {:induction false} AscendingSize(s: seq<int>)
    requires Ascending(s, IntLess)
    ensures |Elems(s)| == |s|
  {
    if s != [] {
      AscendingLast(s, IntLess);
      AscendingSize(s[..|s| - 1]);
      assert s[|s| - 1] in Elems(s);
    }
  }

  lemma Collect<T>(out: seq<T>, key: T)
    requires Distinct(out) && key !in Elems(out)
    ensures Distinct(out + [key]) && Elems(out + [key]) == Elems(out) + {key}
  {
    ElemsConcat(out, [key]);
    assert key !in out;
  }

  lemma SortedLabels(out: seq<string>, labels: set<string>)
    requires Distinct(out) && Elems(out) == labels
    ensures Sort(out, LexLess) == LabelList(labels)
  {
    LexTotal();
    SortIsListing(out, LexLess);
  }

  lemma SortedIds(out: seq<int>, ids: set<int>)
    requires Distinct(out) && Elems(out) == ids
    ensures Sort(out, IntLess) == IdList(ids)
  {
    IntLessTotal();
    SortIsListing(out, IntLess);
  }

  /** The keys of a map in whatever order they come, collected and sorted: always the same list. */
  method MapKeysSorted(keys: set<string>) returns (out: seq<string>)
    ensures out == LabelList(keys - {""})
  {
    out := [];
    var rest := keys;
    while rest != {}
      invariant rest <= keys
      invariant Elems(out) == keys - {""} - rest
      invariant Distinct(out)
      decreases |rest|
    {
      var key :| key in rest;
      if key != "" {
        Collect(out, key);
        out := out + [key];
      }
      rest := rest - {key};
    }
    SortedLabels(out, keys - {""});
    out := Sort(out, LexLess);
  }

  method MapInt64KeysSorted(keys: set<int>) returns (out: seq<int>)
    ensures out == IdList(keys)
  {
    out := [];
    var rest := keys;
    while rest != {}
      invariant rest <= keys
      invariant Elems(out) == keys - rest
      invariant Distinct(out)
      decreases |rest|
    {
      ghost var some := Member(rest);
      var key :| key in rest;
      Collect(out, key);
      out := out + [key];
      rest := rest - {key};
    }
    SortedIds(out, keys);
    out := Sort(out, IntLess);
  }

  method NormalizeStringSlice(u: Unicode, values: seq<string>) returns (out: seq<string>)
    ensures out == LabelList(NormalSet(u, values))
  {
    var keys: set<string> := {};
    for i := 0 to |values|
      invariant keys == NormalSet(u, values[..i])
    {
      NormalSetSnoc(u, values, i);
      var n := NormalizeString(u, values[i]);
      if n == "" {
        continue;
      }
      keys := keys + {n};
    }
    assert values[..|values|] == values;
    out := MapKeysSorted(keys);
    assert keys - {""} == keys;
  }

  lemma NormalSetSnoc(u: Unicode, values: seq<string>, i: nat)
    requires i < |values|
    ensures NormalSet(u, values[..i + 1])
         == NormalSet(u, values[..i])
            + (if NormalizeString(u, values[i]) == "" then {} else {NormalizeString(u, values[i])})
  {
    assert values[..i + 1] == values[..i] + [values[i]];
    var short, long := NormalSet(u, values[..i]), NormalSet(u, values[..i + 1]);
    var n := NormalizeString(u, values[i]);
    forall x | x in short ensures x in long {
      var v :| v in values[..i] && NormalizeString(u, v) != "" && NormalizeString(u, v) == x;
      assert v in values[..i + 1];
    }
    assert values[i] in values[..i + 1];
  }

  /** A label as normalisation leaves it. */
  ghost predicate IsNormal(u: Unicode, n: string) {
    && n != ""
    && !IsSpace(n[0]) && !IsSpace(n[|n| - 1])
    && forall i :: 0 <= i < |n| ==> u.lower(n[i]) == n[i]
  }

  lemma NormalizedIsNormal(u: Unicode, value: string)
    requires u.Sound() && NormalizeString(u, value) != ""
    ensures IsNormal(u, NormalizeString(u, value))
  {
    var t := TrimSpace(value);
    TrimLeftDrops(value);
    TrimRightDrops(TrimLeft(value));
    assert t[0] == TrimLeft(value)[0];
    var n := u.ToLower(t);
    assert n[0] == u.lower(t[0]) && n[|n| - 1] == u.lower(t[|t| - 1]);
  }

  lemma NormalIsFixed(u: Unicode, n: string)
    requires IsNormal(u, n)
    ensures NormalizeString(u, n) == n
  {
    TrimmedIsFixed(n);
    assert u.ToLower(n) == n;
  }

  lemma NormalSetIsNormal(u: Unicode, values: seq<string>)
    requires u.Sound()
    ensures forall n :: n in NormalSet(u, values) ==> IsNormal(u, n)
  {
    forall n | n in NormalSet(u, values) ensures IsNormal(u, n) {
      var v :| v in values && NormalizeString(u, v) != "" && NormalizeString(u, v) == n;
      NormalizedIsNormal(u, v);
    }
  }

  /** Normalising a list of normal labels gives the same labels. */
  lemma NormalSetOfList(u: Unicode, labels: set<string>)
    requires forall n :: n in labels ==> IsNormal(u, n)
    ensures NormalSet(u, LabelList(labels)) == labels
  {
    LabelListIs(labels);
    var list := LabelList(labels);
    forall n ensures n in NormalSet(u, list) <==> n in labels {
      if n in labels {
        NormalIsFixed(u, n);
        assert n in Elems(list) && n in list;
      }
      if n in NormalSet(u, list) {
        var v :| v in list && NormalizeString(u, v) != "" && NormalizeString(u, v) == n;
        assert v in Elems(list);
        NormalIsFixed(u, v);
      }
    }
  }
}

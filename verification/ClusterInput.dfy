/**
 The rows that clustering reads (internal/repository/extraction/repository_events.go): complete
 done rows after a timestamp, in order of finishing time and article.
 */
module ClusterInput {
  import opened Results
  import opened Sorting
  import opened Extract
  import opened ExtractionTable
  import opened ClusterKey
  import opened Aggregation

  /** A finishing time and an article. */
  type RowKey = (int, int)

  predicate KeyLess(a: RowKey, b: RowKey) {
    a.0 < b.0 || (a.0 == b.0 && a.1 < b.1)
  }

  lemma KeyLessTotal()
    ensures StrictTotal(KeyLess)
  {
  }

  /** The columns that the query asks to be present. */
  predicate IsInput(row: Row) {
    && row.status == DONE && row.finishedAt.Some?
    && row.eventType.Some? && row.geoCluster.Some? && row.impactDirection.Some?
    && row.impactStrength.Some? && row.confidence.Some?
  }

  function InputOf(id: int, row: Row): (x: Extraction)
    requires IsInput(row)
  {
    Extraction(id, row.eventType.value, row.geoCluster.value, OrEmpty(row.countries), OrEmpty(row.sectors),
               OrEmpty(row.industries), row.impactDirection.value, row.impactStrength.value,
               row.confidence.value, row.finishedAt.value)
  }

  /** The extraction is a result, column by column, with the time at which it was stored. */
  ghost predicate Carries(x: Extraction, out: ExtractResult, at: int) {
    && x.articleId == out.articleId
    && x.eventType == out.eventType && x.geoCluster == out.geoCluster
    && x.countries == out.countries.Elems()
    && x.sectors == out.sectors.Elems()
    && x.industries == out.industries.Elems()
    && x.impactDirection == out.impactDirection && x.impactStrength == out.impactStrength
    && x.confidence == out.confidence
    && x.finishedAt == at
  }

  /** What clustering reads of a done row is the result that the row holds. */
  lemma InputIsResult(id: int, row: Row, out: ExtractResult, at: int)
    requires row.status == DONE && Holds(id, row, out) && row.finishedAt == Some(at)
    ensures IsInput(row) && Carries(InputOf(id, row), out, at)
  {
  }

  /** The inputs that finished after `since` and not after `until`. */
  ghost function KeysBetween(t: Table, since: int, until: int): set<RowKey> {
    set id | id in t && IsInput(t[id]) && since < t[id].finishedAt.value <= until :: (t[id].finishedAt.value, id)
  }

  function KeysSince(t: Table, since: int): set<RowKey> {
    set id | id in t && IsInput(t[id]) && since < t[id].finishedAt.value :: (t[id].finishedAt.value, id)
  }

  ghost predicate AreKeys(t: Table, keys: seq<RowKey>) {
    forall p :: p in keys ==> p.1 in t && IsInput(t[p.1]) && t[p.1].finishedAt.value == p.0
  }

  ghost function Rows(t: Table, keys: seq<RowKey>): (xs: seq<Extraction>)
    requires AreKeys(t, keys)
    ensures |xs| == |keys|
    ensures forall i :: 0 <= i < |keys| ==> xs[i] == InputOf(keys[i].1, t[keys[i].1])
  {
    seq(|keys|, i requires 0 <= i < |keys| && keys[i] in keys => InputOf(keys[i].1, t[keys[i].1]))
  }

  ghost function OrderedKeys(keys: set<RowKey>): (s: seq<RowKey>)
    ensures Elems(s) == keys && Ascending(s, KeyLess)
  {
    KeyLessTotal();
    Listing(keys, KeyLess)
  }

  lemma OrderedAreKeys(t: Table, keys: set<RowKey>)
    requires forall p :: p in keys ==> p.1 in t && IsInput(t[p.1]) && t[p.1].finishedAt.value == p.0
    ensures AreKeys(t, OrderedKeys(keys))
  {
    forall p | p in OrderedKeys(keys) ensures p in keys {
      assert p in Elems(OrderedKeys(keys));
    }
  }

  /** The inputs between two times, in order. */
  ghost function RowsBetween(t: Table, since: int, until: int): (xs: seq<Extraction>) {
    OrderedAreKeys(t, KeysBetween(t, since, until));
    Rows(t, OrderedKeys(KeysBetween(t, since, until)))
  }

  /** The inputs after a time, in order. */
  ghost function RowsSince(t: Table, since: int): (xs: seq<Extraction>) {
    OrderedAreKeys(t, KeysSince(t, since));
    Rows(t, OrderedKeys(KeysSince(t, since)))
  }

  lemma OrderedConcat(a: set<RowKey>, b: set<RowKey>)
    requires forall p, q :: p in a && q in b ==> KeyLess(p, q)
    ensures OrderedKeys(a + b) == OrderedKeys(a) + OrderedKeys(b)
  {
    var s, r := OrderedKeys(a), OrderedKeys(b);
    ElemsConcat(s, r);
    forall i, j | 0 <= i < j < |s + r| ensures KeyLess((s + r)[i], (s + r)[j]) {
      if i < |s| && j >= |s| {
        assert s[i] in Elems(s) && r[j - |s|] in Elems(r);
      }
    }
    KeyLessTotal();
    AscendingUnique(OrderedKeys(a + b), s + r, KeyLess);
  }

  /** The inputs up to a time come before the later ones. */
  lemma RowsSplit(t: Table, since: int, mid: int, until: int)
    requires since <= mid <= until
    ensures RowsBetween(t, since, until) == RowsBetween(t, since, mid) + RowsBetween(t, mid, until)
  {
    var a, b := KeysBetween(t, since, mid), KeysBetween(t, mid, until);
    assert KeysBetween(t, since, until) == a + b;
    OrderedConcat(a, b);
    OrderedAreKeys(t, a);
    OrderedAreKeys(t, b);
    OrderedAreKeys(t, a + b);
  }

  lemma RowsIn(t: Table, since: int, until: int, i: nat)
    requires i < |RowsBetween(t, since, until)|
    ensures var x := RowsBetween(t, since, until)[i];
            && x.articleId in t && IsInput(t[x.articleId]) && x == InputOf(x.articleId, t[x.articleId])
            && since < x.finishedAt <= until
  {
    var keys := KeysBetween(t, since, until);
    OrderedAreKeys(t, keys);
    assert OrderedKeys(keys)[i] in Elems(OrderedKeys(keys));
  }

  lemma RowsContain(t: Table, since: int, until: int, id: int)
    requires id in t && IsInput(t[id]) && since < t[id].finishedAt.value <= until
    ensures InputOf(id, t[id]) in RowsBetween(t, since, until)
  {
    var keys := KeysBetween(t, since, until);
    OrderedAreKeys(t, keys);
    var key := (t[id].finishedAt.value, id);
    assert key in Elems(OrderedKeys(keys));
    var i :| 0 <= i < |OrderedKeys(keys)| && OrderedKeys(keys)[i] == key;
    assert RowsBetween(t, since, until)[i] == InputOf(id, t[id]);
  }

  lemma RowsAscend(t: Table, since: int, until: int, i: nat, j: nat)
    requires i <= j < |RowsBetween(t, since, until)|
    ensures RowsBetween(t, since, until)[i].finishedAt <= RowsBetween(t, since, until)[j].finishedAt
  {
    var keys := OrderedKeys(KeysBetween(t, since, until));
    OrderedAreKeys(t, KeysBetween(t, since, until));
    assert keys[i] in keys && keys[j] in keys;
    assert i < j ==> KeyLess(keys[i], keys[j]);
  }

  lemma HasElems<T>(s: seq<T>)
    requires s != []
    ensures Elems(s) != {}
  {
    assert s[0] in Elems(s);
  }

  lemma NoRows(t: Table, since: int, until: int)
    requires KeysBetween(t, since, until) == {}
    ensures RowsBetween(t, since, until) == []
  {
    if OrderedKeys({}) != [] {
      HasElems(OrderedKeys({}));
    }
  }

  lemma NoRowsSince(t: Table, since: int)
    requires KeysSince(t, since) == {}
    ensures RowsSince(t, since) == []
  {
    if OrderedKeys({}) != [] {
      HasElems(OrderedKeys({}));
    }
  }

  /** An article is listed once. */
  lemma RowsDistinct(t: Table, since: int, until: int)
    ensures DistinctArticles(RowsBetween(t, since, until))
  {
    var keys := OrderedKeys(KeysBetween(t, since, until));
    OrderedAreKeys(t, KeysBetween(t, since, until));
    forall i, j | 0 <= i < j < |keys| ensures keys[i].1 != keys[j].1 {
      assert KeyLess(keys[i], keys[j]);
      assert keys[i] in keys && keys[j] in keys;
    }
  }

  /** A list without an upper bound, when nothing finished later. */
  lemma RowsSinceIs(t: Table, since: int, until: int)
    requires forall id :: id in t && IsInput(t[id]) && since < t[id].finishedAt.value ==> t[id].finishedAt.value <= until
    ensures RowsSince(t, since) == RowsBetween(t, since, until)
  {
    assert KeysSince(t, since) == KeysBetween(t, since, until);
  }

  lemma SameKeysSameRows(t: Table, since: int, from: int, until: int)
    requires KeysSince(t, since) == KeysBetween(t, from, until)
    ensures RowsSince(t, since) == RowsBetween(t, from, until)
  {
  }

  /** The last row of a list finished last. */
  lemma RowsSinceLast(t: Table, since: int)
    ensures var xs := RowsSince(t, since);
            forall id :: id in t && IsInput(t[id]) && since < t[id].finishedAt.value
                         ==> xs != [] && t[id].finishedAt.value <= xs[|xs| - 1].finishedAt
    ensures var xs := RowsSince(t, since); xs != [] ==> xs[|xs| - 1].finishedAt > since
  {
    var keySet, xs := KeysSince(t, since), RowsSince(t, since);
    var keys := OrderedKeys(keySet);
    OrderedAreKeys(t, keySet);
    assert keys != [] ==> keys[|keys| - 1] in keys && keys[|keys| - 1] in Elems(keys);
    forall id | id in t && IsInput(t[id]) && since < t[id].finishedAt.value
      ensures xs != [] && t[id].finishedAt.value <= xs[|xs| - 1].finishedAt
    {
      var key := (t[id].finishedAt.value, id);
      assert key in Elems(keys);
      var i :| 0 <= i < |keys| && keys[i] == key;
      assert i < |keys| - 1 ==> KeyLess(keys[i], keys[|keys| - 1]);
    }
  }

  /** The list has exactly the complete done rows after the time, by finishing time and then by article. */
  lemma RowsSinceAre(t: Table, since: int)
    ensures var xs := RowsSince(t, since);
            && (forall i :: 0 <= i < |xs| ==>
                  && xs[i].articleId in t && t[xs[i].articleId].status == "done"
                  && t[xs[i].articleId].finishedAt == Some(xs[i].finishedAt) && since < xs[i].finishedAt)
            && (forall id :: id in t && t[id].status == "done" && HasResult(ReadRow(id, t[id]))
                             && t[id].finishedAt.Some? && since < t[id].finishedAt.value
                             ==> exists i :: 0 <= i < |xs| && xs[i].articleId == id)
            && forall i, j :: 0 <= i < j < |xs| ==>
                                || xs[i].finishedAt < xs[j].finishedAt
                                || (xs[i].finishedAt == xs[j].finishedAt && xs[i].articleId < xs[j].articleId)
  {
    var keys := OrderedKeys(KeysSince(t, since));
    OrderedAreKeys(t, KeysSince(t, since));
    forall i | 0 <= i < |keys| ensures keys[i] in KeysSince(t, since) {
      assert keys[i] in Elems(keys);
    }
    forall i, j | 0 <= i < j < |keys| ensures KeyLess(keys[i], keys[j]) {
    }
    forall id | id in t && IsInput(t[id]) && since < t[id].finishedAt.value
      ensures exists i :: 0 <= i < |keys| && RowsSince(t, since)[i].articleId == id
    {
      assert (t[id].finishedAt.value, id) in Elems(keys);
      var i :| 0 <= i < |keys| && keys[i] == (t[id].finishedAt.value, id);
      assert RowsSince(t, since)[i].articleId == id;
    }
  }

  /** Lists depend on nothing but the inputs between their bounds. */
  ghost predicate SameInputs(t: Table, t': Table, until: int) {
    && (forall id :: id in t && IsInput(t[id]) ==> id in t' && t'[id] == t[id])
    && (forall id :: id in t' && IsInput(t'[id]) && !(id in t && IsInput(t[id])) ==> t'[id].finishedAt.value > until)
  }

  lemma RowsStay(t: Table, t': Table, since: int, until: int)
    requires SameInputs(t, t', until)
    ensures RowsBetween(t', since, until) == RowsBetween(t, since, until)
  {
    var keys := KeysBetween(t, since, until);
    assert KeysBetween(t', since, until) == keys;
    OrderedAreKeys(t, keys);
    OrderedAreKeys(t', keys);
    forall i | 0 <= i < |OrderedKeys(keys)|
      ensures RowsBetween(t', since, until)[i] == RowsBetween(t, since, until)[i]
    {
      assert OrderedKeys(keys)[i] in OrderedKeys(keys);
    }
  }
}

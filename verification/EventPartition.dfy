/**
 What holds of every one-pass store (internal/app/events over internal/event): the events divide
 the articles among them, carry exactly the labels of their members, and pass validation.
 */
module EventPartition {
  import opened Results
  import opened Text
  import opened Sorting
  import opened Labels
  import opened ClusterKey
  import opened Events
  import opened Aggregation
  import opened EventFold

  lemma EventIs(k: Keying, rows: seq<Extraction>, key: string)
    requires k.Sound() && DistinctArticles(rows) && key in FoldStore(k, rows)
    ensures var e, items := FoldStore(k, rows)[key], Members(k, rows, key);
            && items != [] && DistinctArticles(items)
            && e == Aggregate(k, key, items) && WellFormed(k, e)
            && Elems(e.articleIds) == Ids(items) && e.sourceCount == |items|
  {
    hide FoldStore, Members, Aggregate;
    FoldIs(k, rows, key);
    MembersDistinct(k, rows, key);
    AggregateContains(k, key, Members(k, rows, key));
    DistinctCount(Members(k, rows, key));
  }

  /** Different events have no article in common. */
  lemma EventsDisjoint(k: Keying, rows: seq<Extraction>, a: string, b: string)
    requires k.Sound() && DistinctArticles(rows)
    requires a in FoldStore(k, rows) && b in FoldStore(k, rows) && a != b
    ensures Elems(FoldStore(k, rows)[a].articleIds) !! Elems(FoldStore(k, rows)[b].articleIds)
  {
    hide FoldStore, Members, Aggregate, WellFormed;
    EventIs(k, rows, a);
    EventIs(k, rows, b);
    MembersAre(k, rows, a);
    MembersAre(k, rows, b);
    forall id | id in Ids(Members(k, rows, a)) && id in Ids(Members(k, rows, b)) ensures false {
      var x :| x in Members(k, rows, a) && x.articleId == id;
      var y :| y in Members(k, rows, b) && y.articleId == id;
      SameArticle(rows, x, y);
    }
  }

  lemma SameArticle(rows: seq<Extraction>, x: Extraction, y: Extraction)
    requires DistinctArticles(rows) && x in rows && y in rows && x.articleId == y.articleId
    ensures x == y
  {
  }

  /** An article is in some event exactly if its extraction was absorbed. */
  lemma EventsCover(k: Keying, rows: seq<Extraction>, id: int)
    requires k.Sound() && DistinctArticles(rows)
    ensures id in Ids(rows) <==> exists key :: key in FoldStore(k, rows) && id in FoldStore(k, rows)[key].articleIds
  {
    hide FoldStore, Members, Aggregate, WellFormed;
    if id in Ids(rows) {
      var x :| x in rows && x.articleId == id;
      var key := Key(k, x);
      MembersAre(k, rows, key);
      FoldIs(k, rows, key);
      EventIs(k, rows, key);
      assert id in Elems(FoldStore(k, rows)[key].articleIds);
    }
    if key :| key in FoldStore(k, rows) && id in FoldStore(k, rows)[key].articleIds {
      EventIs(k, rows, key);
      MembersAre(k, rows, key);
      assert id in Elems(FoldStore(k, rows)[key].articleIds);
      var x :| x in Members(k, rows, key) && x.articleId == id;
      assert x in rows;
    }
  }

  /** The sources of the events with the given keys. */
  ghost function SourcesOver(store: Store, keys: seq<string>): nat {
    if keys == [] then 0
    else
      var n := |keys| - 1;
      SourcesOver(store, keys[..n]) + (if keys[n] in store then store[keys[n]].sourceCount else 0)
  }

  ghost function SourceTotal(store: Store): nat {
    SourcesOver(store, LabelList(store.Keys))
  }

  ghost function MembersOver(k: Keying, rows: seq<Extraction>, keys: seq<string>): nat {
    if keys == [] then 0
    else
      var n := |keys| - 1;
      MembersOver(k, rows, keys[..n]) + |Members(k, rows, keys[n])|
  }

  lemma {:induction false} MembersOverSnoc(k: Keying, rows: seq<Extraction>, keys: seq<string>)
    requires rows != [] && Distinct(keys)
    ensures MembersOver(k, rows, keys)
         == MembersOver(k, rows[..|rows| - 1], keys) + (if Key(k, rows[|rows| - 1]) in keys then 1 else 0)
  {
    hide Members, Key;
    if keys != [] {
      var n := |keys| - 1;
      MembersOverSnoc(k, rows, keys[..n]);
      MembersSnoc(k, rows, keys[n]);
      InFront(keys, Key(k, rows[|rows| - 1]));
    }
  }

  lemma MembersSnoc(k: Keying, rows: seq<Extraction>, key: string)
    requires rows != []
    ensures |Members(k, rows, key)|
         == |Members(k, rows[..|rows| - 1], key)| + (if Key(k, rows[|rows| - 1]) == key then 1 else 0)
  {
    hide Key;
  }

  lemma InFront(keys: seq<string>, key: string)
    requires keys != [] && Distinct(keys)
    ensures Distinct(keys[..|keys| - 1])
    ensures key in keys <==> key in keys[..|keys| - 1] || key == keys[|keys| - 1]
    ensures keys[|keys| - 1] !in keys[..|keys| - 1]
  {
    assert keys == keys[..|keys| - 1] + [keys[|keys| - 1]];
  }

  lemma {:induction false} MembersOverNone(k: Keying, keys: seq<string>)
    ensures MembersOver(k, [], keys) == 0
  {
    if keys != [] {
      MembersOverNone(k, keys[..|keys| - 1]);
    }
  }

  lemma {:induction false} MembersOverAll(k: Keying, rows: seq<Extraction>, keys: seq<string>)
    requires Distinct(keys) && forall x :: x in rows ==> Key(k, x) in keys
    ensures MembersOver(k, rows, keys) == |rows|
  {
    if rows == [] {
      MembersOverNone(k, keys);
    } else {
      var n := |rows| - 1;
      assert rows[n] in rows && forall x :: x in rows[..n] ==> x in rows;
      MembersOverAll(k, rows[..n], keys);
      MembersOverSnoc(k, rows, keys);
    }
  }

  lemma {:induction false} SourcesAreMembers(k: Keying, rows: seq<Extraction>, keys: seq<string>)
    requires k.Sound() && DistinctArticles(rows)
    ensures SourcesOver(FoldStore(k, rows), keys) == MembersOver(k, rows, keys)
  {
    hide FoldStore, Members, Aggregate, WellFormed;
    if keys != [] {
      var n := |keys| - 1;
      SourcesAreMembers(k, rows, keys[..n]);
      FoldIs(k, rows, keys[n]);
      if keys[n] in FoldStore(k, rows) {
        EventIs(k, rows, keys[n]);
      }
    }
  }

  /** The source counts add up to the number of absorbed extractions. */
  lemma SourcesConserved(k: Keying, rows: seq<Extraction>)
    requires k.Sound() && DistinctArticles(rows)
    ensures SourceTotal(FoldStore(k, rows)) == |rows|
  {
    hide FoldStore, Members, Aggregate;
    var keys := LabelList(FoldStore(k, rows).Keys);
    LabelListIs(FoldStore(k, rows).Keys);
    LexTotal();
    forall x | x in rows ensures Key(k, x) in keys {
      MembersAre(k, rows, Key(k, x));
      FoldIs(k, rows, Key(k, x));
      assert Key(k, x) in Elems(keys);
    }
    SourcesAreMembers(k, rows, keys);
    MembersOverAll(k, rows, keys);
  }

  /** The event has exactly the normalised labels of the extraction. */
  ghost predicate SameLabelLists(u: Unicode, e: Event, x: Extraction) {
    && NormalizeString(u, e.eventType) == NormalizeString(u, x.eventType)
    && NormalizeString(u, e.geoCluster) == NormalizeString(u, x.geoCluster)
    && e.countries == LabelList(NormalSet(u, x.countries))
    && e.sectors == LabelList(NormalSet(u, x.sectors))
    && e.industries == LabelList(NormalSet(u, x.industries))
  }

  lemma MergedSame(u: Unicode, values: seq<string>, added: seq<string>)
    requires u.Sound() && NormalSet(u, values) == NormalSet(u, added)
    ensures MergedLabels(u, LabelList(NormalSet(u, values)), added) == LabelList(NormalSet(u, added))
  {
    NormalSetIsNormal(u, values);
    NormalSetOfList(u, NormalSet(u, values));
    assert NormalSet(u, added) + NormalSet(u, added) == NormalSet(u, added);
  }

  lemma {:induction false} AggregateLabels(k: Keying, key: string, items: seq<Extraction>, x: Extraction)
    requires k.Sound() && items != []
    requires forall y :: y in items ==> SameCluster(k.unicode, y, x)
    ensures SameLabelLists(k.unicode, Aggregate(k, key, items), x)
    decreases |items|
  {
    var n := |items| - 1;
    assert items[n] in items;
    if n > 0 {
      assert forall y :: y in items[..n] ==> y in items;
      AggregateLabels(k, key, items[..n], items[n]) by {
        forall y | y in items[..n] ensures SameCluster(k.unicode, y, items[n]) {
        }
      }
      MergedSame(k.unicode, items[n].countries, x.countries);
      MergedSame(k.unicode, items[n].sectors, x.sectors);
      MergedSame(k.unicode, items[n].industries, x.industries);
    }
  }

  /** Among the rows, the key stands for one cluster. */
  ghost predicate OneCluster(k: Keying, rows: seq<Extraction>, key: string) {
    forall y, z :: y in rows && z in rows && Key(k, y) == key && Key(k, z) == key ==> SameCluster(k.unicode, y, z)
  }

  /** The rows whose articles are in the event are the rows with its key. */
  lemma MemberIff(k: Keying, rows: seq<Extraction>, key: string, x: Extraction)
    requires k.Sound() && DistinctArticles(rows) && key in FoldStore(k, rows) && x in rows
    ensures x.articleId in FoldStore(k, rows)[key].articleIds <==> Key(k, x) == key
  {
    hide FoldStore, Members, Aggregate, Key;
    var e, items := FoldStore(k, rows)[key], Members(k, rows, key);
    EventIs(k, rows, key);
    MembersAre(k, rows, key);
    assert x.articleId in e.articleIds <==> x.articleId in Elems(e.articleIds);
    if x.articleId in e.articleIds {
      var member :| member in items && member.articleId == x.articleId;
      SameArticle(rows, member, x);
    }
  }

  /** If a key stands for one cluster, its event has the labels of each of its members. */
  lemma EventHasLabelsOfMembers(k: Keying, rows: seq<Extraction>, key: string, x: Extraction)
    requires k.Sound() && DistinctArticles(rows) && key in FoldStore(k, rows)
    requires OneCluster(k, rows, key)
    requires x in rows && x.articleId in FoldStore(k, rows)[key].articleIds
    ensures SameLabelLists(k.unicode, FoldStore(k, rows)[key], x)
  {
    hide FoldStore, Members, Aggregate, SameCluster, SameLabelLists, Key;
    EventIs(k, rows, key);
    MembersAre(k, rows, key);
    MemberIff(k, rows, key, x);
    AggregateLabels(k, key, Members(k, rows, key), x);
  }

  /** The event has the labels of all its members. */
  ghost predicate LabelsOfAll(k: Keying, rows: seq<Extraction>, key: string)
    requires key in FoldStore(k, rows)
  {
    forall x :: x in rows && x.articleId in FoldStore(k, rows)[key].articleIds
                ==> SameLabelLists(k.unicode, FoldStore(k, rows)[key], x)
  }

  lemma SameListsSameCluster(u: Unicode, e: Event, y: Extraction, z: Extraction)
    requires SameLabelLists(u, e, y) && SameLabelLists(u, e, z)
    ensures SameCluster(u, y, z)
  {
    ListEqualSets(u, y.countries, z.countries);
    ListEqualSets(u, y.sectors, z.sectors);
    ListEqualSets(u, y.industries, z.industries);
  }

  /** An event has the labels of all its members exactly if equal keys mean equal fields among them. */
  lemma EventLabelsIff(k: Keying, rows: seq<Extraction>, key: string)
    requires k.Sound() && DistinctArticles(rows) && key in FoldStore(k, rows)
    ensures LabelsOfAll(k, rows, key) <==> OneCluster(k, rows, key)
  {
    hide FoldStore, SameCluster, SameLabelLists, Key;
    var e := FoldStore(k, rows)[key];
    if OneCluster(k, rows, key) {
      forall x | x in rows && x.articleId in e.articleIds ensures SameLabelLists(k.unicode, e, x) {
        EventHasLabelsOfMembers(k, rows, key, x);
      }
    }
    if LabelsOfAll(k, rows, key) {
      forall y, z | y in rows && z in rows && Key(k, y) == key && Key(k, z) == key
        ensures SameCluster(k.unicode, y, z)
      {
        MemberIff(k, rows, key, y);
        MemberIff(k, rows, key, z);
        SameListsSameCluster(k.unicode, e, y, z);
      }
    }
  }

  /** Plain labels are enough for that. */
  lemma PlainIsOneCluster(k: Keying, rows: seq<Extraction>, key: string)
    requires k.Sound() && forall y :: y in rows && Key(k, y) == key ==> Plain(y)
    ensures OneCluster(k, rows, key)
  {
    hide Plain, SameCluster, Key;
    forall y, z | y in rows && z in rows && Key(k, y) == key && Key(k, z) == key
      ensures SameCluster(k.unicode, y, z)
    {
      KeyIff(k, y, z);
    }
  }

  /** What clustering can rely on in a stored extraction. */
  ghost predicate GoodInput(x: Extraction) {
    && x.eventType != "" && x.geoCluster != "" && x.impactDirection != ""
    && 0 <= x.impactStrength <= 100 && 0.0 <= x.confidence <= 1.0
    && x.finishedAt > ZERO_TIME
  }

  lemma CreatedAcceptable(k: Keying, key: string, x: Extraction, now: Instant)
    requires k.Sound() && key != "" && GoodInput(x)
    ensures IsAcceptable(Created(k, key, x, now))
  {
  }

  lemma AscendingIds(ids: set<int>)
    requires ids != {}
    ensures var s := IdList(ids); s != [] && forall i :: 1 <= i < |s| ==> s[i - 1] <= s[i]
  {
    IdListIs(ids);
    var id :| id in Elems(IdList(ids));
  }

  lemma MergedAcceptable(k: Keying, e: Event, x: Extraction, now: Instant)
    requires k.Sound() && WellFormed(k, e) && IsAcceptable(e) && GoodInput(x)
    ensures IsAcceptable(Merged(k, e, x, now))
  {
    var ids := Elems(e.articleIds) + {x.articleId};
    AscendingIds(ids);
    IdListIs(ids);
    hide LabelList, IdList, NormalSet, RunningMean;
  }

  ghost predicate AllAcceptable(store: Store) {
    forall key :: key in store ==> IsAcceptable(store[key])
  }

  /** No write is ever rejected: the event of every good extraction passes validation. */
  lemma UpsertAcceptable(k: Keying, store: Store, rows: seq<Extraction>, x: Extraction, now: Instant)
    requires k.Sound() && CoreStore(store) == FoldStore(k, rows) && AllAcceptable(store)
    requires GoodInput(x)
    ensures IsAcceptable(Upserted(k, store, x, now))
    ensures AllAcceptable(Absorb(k, store, x, now))
  {
    hide Merged, Created, FoldStore, Members, Aggregate;
    var key := Key(k, x);
    if key in store {
      assert CoreStore(store)[key] == Core(store[key]);
      FoldIs(k, rows, key);
      AggregateContains(k, key, Members(k, rows, key));
      CoreContains(k, store[key]);
      MergedAcceptable(k, store[key], x, now);
    } else {
      CreatedAcceptable(k, key, x, now);
    }
  }
}

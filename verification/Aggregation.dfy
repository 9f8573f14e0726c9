/**
 Events as folds over their articles: what an event is after its first article and any number of
 merges. The persisted times and the status, which depend on when a run happens, are left aside by
 `Core`; everything else of an event is a function of its articles in order.
 */
module Aggregation {
  import opened Text
  import opened Sorting
  import opened Labels
  import opened ClusterKey
  import opened Events
  import opened Means

  /** An event without its run times and its status. */
  function Core(e: Event): (c: Event) {
    e.(status := "", createdAt := 0, updatedAt := 0)
  }

  /** The event of a non-empty list of articles. */
  ghost function Aggregate(k: Keying, key: string, items: seq<Extraction>): (e: Event)
    requires items != []
    ensures e.sourceCount >= 1 && Core(e) == e && e.clusterKey == key
  {
    var n := |items| - 1;
    if n == 0 then Core(Created(k, key, items[0], 0))
    else
      var before := Aggregate(k, key, items[..n]);
      assert items[n].articleId in Elems(before.articleIds) + {items[n].articleId};
      Core(Merged(k, before, items[n], 0))
  }

  /** When a run happens shows only in what `Core` leaves aside. */
  lemma MergeIgnoresTime(k: Keying, e: Event, x: Extraction, now: int)
    ensures Core(Merged(k, e, x, now)) == Core(Merged(k, Core(e), x, 0))
  {
  }

  lemma CreateIgnoresTime(k: Keying, key: string, x: Extraction, now: int)
    ensures Core(Created(k, key, x, now)) == Core(Created(k, key, x, 0))
  {
  }

  ghost predicate NormalList(u: Unicode, list: seq<string>) {
    && list == LabelList(Elems(list))
    && forall n :: n in Elems(list) ==> IsNormal(u, n)
  }

  /** What creation establishes and merging keeps. */
  ghost predicate WellFormed(k: Keying, e: Event) {
    && e.id == k.digest(e.clusterKey)
    && e.articleIds == IdList(Elems(e.articleIds))
    && e.sourceCount == |Elems(e.articleIds)| >= 1
    && NormalList(k.unicode, e.countries)
    && NormalList(k.unicode, e.sectors)
    && NormalList(k.unicode, e.industries)
    && e.firstSeenAt <= e.lastSeenAt
  }

  /** The extraction has left all its traces in the event. */
  ghost predicate Contains(k: Keying, e: Event, x: Extraction) {
    && x.articleId in e.articleIds
    && NormalSet(k.unicode, x.countries) <= Elems(e.countries)
    && NormalSet(k.unicode, x.sectors) <= Elems(e.sectors)
    && NormalSet(k.unicode, x.industries) <= Elems(e.industries)
    && e.firstSeenAt <= x.finishedAt <= e.lastSeenAt
  }

  lemma MergedLabelsAre(u: Unicode, list: seq<string>, added: seq<string>)
    requires u.Sound() && NormalList(u, list)
    ensures Elems(MergedLabels(u, list, added)) == Elems(list) + NormalSet(u, added)
    ensures NormalList(u, MergedLabels(u, list, added))
  {
    NormalSetOfList(u, Elems(list));
    NormalSetIsNormal(u, added);
    LabelListIs(Elems(list) + NormalSet(u, added));
  }

  lemma CreatedLabelsAre(u: Unicode, values: seq<string>)
    requires u.Sound()
    ensures NormalList(u, LabelList(NormalSet(u, values)))
    ensures Elems(LabelList(NormalSet(u, values))) == NormalSet(u, values)
  {
    LabelListIs(NormalSet(u, values));
    NormalSetIsNormal(u, values);
  }

  lemma CreatedContains(k: Keying, key: string, x: Extraction, now: int)
    requires k.Sound()
    ensures WellFormed(k, Created(k, key, x, now)) && Contains(k, Created(k, key, x, now), x)
    ensures Elems(Created(k, key, x, now).articleIds) == {x.articleId}
  {
    CreatedLabelsAre(k.unicode, x.countries);
    CreatedLabelsAre(k.unicode, x.sectors);
    CreatedLabelsAre(k.unicode, x.industries);
    var ids := [x.articleId];
    assert Elems(ids) == {x.articleId};
    IntLessTotal();
    ListingOfElems(ids, IntLess);
  }

  /** A merge keeps what was in the event and adds the new extraction. */
  lemma MergedContains(k: Keying, e: Event, x: Extraction, now: int)
    requires k.Sound() && WellFormed(k, e)
    ensures WellFormed(k, Merged(k, e, x, now)) && Contains(k, Merged(k, e, x, now), x)
    ensures Elems(Merged(k, e, x, now).articleIds) == Elems(e.articleIds) + {x.articleId}
    ensures forall y :: Contains(k, e, y) ==> Contains(k, Merged(k, e, x, now), y)
  {
    MergedLabelsAre(k.unicode, e.countries, x.countries);
    MergedLabelsAre(k.unicode, e.sectors, x.sectors);
    MergedLabelsAre(k.unicode, e.industries, x.industries);
    var ids := Elems(e.articleIds) + {x.articleId};
    IdListIs(ids);
    assert forall id :: id in ids <==> id in IdList(ids) by {
      assert forall id :: id in IdList(ids) <==> id in Elems(IdList(ids));
    }
  }

  /** Merging an extraction that is already in changes nothing but times and status. */
  lemma MergeAgain(k: Keying, e: Event, x: Extraction, now: int)
    requires k.Sound() && WellFormed(k, e) && Contains(k, e, x)
    ensures Core(Merged(k, e, x, now)) == Core(e)
  {
    MergedLabelsAgain(k.unicode, e.countries, x.countries);
    MergedLabelsAgain(k.unicode, e.sectors, x.sectors);
    MergedLabelsAgain(k.unicode, e.industries, x.industries);
    assert Elems(e.articleIds) + {x.articleId} == Elems(e.articleIds);
  }

  lemma MergedLabelsAgain(u: Unicode, list: seq<string>, added: seq<string>)
    requires u.Sound() && NormalList(u, list) && NormalSet(u, added) <= Elems(list)
    ensures MergedLabels(u, list, added) == list
  {
    NormalSetOfList(u, Elems(list));
    assert Elems(list) + NormalSet(u, added) == Elems(list);
  }

  ghost function Ids(items: seq<Extraction>): set<int> {
    set x | x in items :: x.articleId
  }

  lemma IdsSnoc(items: seq<Extraction>)
    requires items != []
    ensures Ids(items) == Ids(items[..|items| - 1]) + {items[|items| - 1].articleId}
  {
    var n := |items| - 1;
    assert items == items[..n] + [items[n]];
    forall id | id in Ids(items) ensures id in Ids(items[..n]) + {items[n].articleId} {
      var x :| x in items && x.articleId == id;
    }
    forall id | id in Ids(items[..n]) ensures id in Ids(items) {
      var x :| x in items[..n] && x.articleId == id;
      assert x in items;
    }
    assert items[n] in items;
  }

  ghost predicate ContainsAll(k: Keying, e: Event, items: seq<Extraction>) {
    forall x :: x in items ==> Contains(k, e, x)
  }

  /** An event consists of exactly the articles it was made of. */
  lemma {:induction false} AggregateContains(k: Keying, key: string, items: seq<Extraction>)
    requires k.Sound() && items != []
    ensures WellFormed(k, Aggregate(k, key, items))
    ensures Elems(Aggregate(k, key, items).articleIds) == Ids(items)
    ensures ContainsAll(k, Aggregate(k, key, items), items)
    decreases |items|
  {
    var n := |items| - 1;
    IdsSnoc(items);
    assert items == items[..n] + [items[n]];
    if n == 0 {
      CreatedContains(k, key, items[0], 0);
      assert Ids(items[..0]) == {};
      CoreContains(k, Created(k, key, items[0], 0));
    } else {
      var before := Aggregate(k, key, items[..n]);
      AggregateContains(k, key, items[..n]);
      MergedContains(k, before, items[n], 0);
      CoreContains(k, Merged(k, before, items[n], 0));
    }
  }

  lemma CoreContains(k: Keying, e: Event)
    ensures WellFormed(k, e) == WellFormed(k, Core(e))
    ensures forall x :: Contains(k, e, x) == Contains(k, Core(e), x)
  {
  }

  ghost predicate SeenAt(items: seq<Extraction>, time: int) {
    exists x :: x in items && x.finishedAt == time
  }

  /** The event is of the first article's kind and spans exactly the times of its articles. */
  ghost predicate Spans(e: Event, items: seq<Extraction>)
    requires items != []
  {
    && e.eventType == items[0].eventType && e.geoCluster == items[0].geoCluster
    && SeenAt(items, e.firstSeenAt) && SeenAt(items, e.lastSeenAt)
    && forall x :: x in items ==> e.firstSeenAt <= x.finishedAt <= e.lastSeenAt
  }

  lemma {:induction false} AggregateSpans(k: Keying, key: string, items: seq<Extraction>)
    requires items != []
    ensures Spans(Aggregate(k, key, items), items)
    decreases |items|
  {
    var n := |items| - 1;
    assert items == items[..n] + [items[n]] && items[n] in items;
    if n > 0 {
      AggregateSpans(k, key, items[..n]);
      var before := Aggregate(k, key, items[..n]);
      var first :| first in items[..n] && first.finishedAt == before.firstSeenAt;
      var last :| last in items[..n] && last.finishedAt == before.lastSeenAt;
      assert first in items && last in items;
    }
  }

  ghost predicate DistinctArticles(items: seq<Extraction>) {
    forall i, j :: 0 <= i < j < |items| ==> items[i].articleId != items[j].articleId
  }

  lemma {:induction false} DistinctCount(items: seq<Extraction>)
    requires DistinctArticles(items)
    ensures |Ids(items)| == |items|
  {
    if items != [] {
      var n := |items| - 1;
      IdsSnoc(items);
      DistinctCount(items[..n]);
      assert items[n].articleId !in Ids(items[..n]);
    } else {
      assert Ids(items) == {};
    }
  }

  /** The merge of a new article, seen from the aggregate. */
  lemma AggregateNew(k: Keying, key: string, items: seq<Extraction>)
    requires k.Sound() && |items| > 1 && DistinctArticles(items)
    ensures var n := |items| - 1;
            var before, e, x := Aggregate(k, key, items[..n]), Aggregate(k, key, items), items[n];
            && before.sourceCount == n && e.sourceCount == n + 1
            && e.strength == MergedStrength(before.strength, n, x.impactStrength)
            && e.confidence == MergedConfidence(before.confidence, n, x.confidence, n + 1)
            && e.direction == Elected(before.direction, n, x.impactDirection)
  {
    var n := |items| - 1;
    AggregateContains(k, key, items[..n]);
    AggregateContains(k, key, items);
    DistinctCount(items[..n]);
    DistinctCount(items);
    var before := Aggregate(k, key, items[..n]);
    assert items[n].articleId !in Ids(items[..n]);
    assert items[n].articleId !in Elems(before.articleIds);
  }

  lemma DirectionOfTwo(k: Keying, key: string, items: seq<Extraction>)
    requires k.Sound() && |items| == 2 && DistinctArticles(items)
    ensures Aggregate(k, key, items).direction == Elected(items[0].impactDirection, 1, items[1].impactDirection)
  {
    hide Elected;
    AggregateNew(k, key, items);
    assert items[..1][0] == items[0];
  }

  lemma DirectionStays(k: Keying, key: string, items: seq<Extraction>)
    requires k.Sound() && |items| > 2 && DistinctArticles(items)
    ensures Aggregate(k, key, items).direction == Aggregate(k, key, items[..|items| - 1]).direction
  {
    hide Aggregate;
    AggregateNew(k, key, items);
  }

  /** Equal votes are one to one, so from the second article on the direction never changes. */
  lemma {:induction false} DirectionDecidedByFirstTwo(k: Keying, key: string, items: seq<Extraction>)
    requires k.Sound() && |items| >= 2 && DistinctArticles(items)
    ensures Aggregate(k, key, items).direction == Elected(items[0].impactDirection, 1, items[1].impactDirection)
    decreases |items|
  {
    hide Aggregate, Elected;
    if |items| == 2 {
      DirectionOfTwo(k, key, items);
    } else {
      DirectionStays(k, key, items);
      DirectionDecidedByFirstTwo(k, key, items[..|items| - 1]);
    }
  }

  ghost predicate InRange(items: seq<Extraction>) {
    forall i :: 0 <= i < |items| ==> 0 <= items[i].impactStrength <= 100 && 0.0 <= items[i].confidence <= 1.0
  }

  ghost function StrengthSum(items: seq<Extraction>): int {
    if items == [] then 0 else StrengthSum(items[..|items| - 1]) + items[|items| - 1].impactStrength
  }

  ghost function ConfidenceSum(items: seq<Extraction>): real {
    if items == [] then 0.0 else ConfidenceSum(items[..|items| - 1]) + items[|items| - 1].confidence
  }

  /**
   The strength of an event drifts from the exact mean by a bounded amount, for any number of
   articles, and never leaves the range of its articles, so it is never clamped.
   */
  lemma {:induction false} StrengthDrift(k: Keying, key: string, items: seq<Extraction>, lo: int, hi: int)
    requires k.Sound() && items != [] && DistinctArticles(items) && InRange(items)
    requires forall i :: 0 <= i < |items| ==> lo <= items[i].impactStrength <= hi
    ensures lo <= Aggregate(k, key, items).strength <= hi
    ensures Drift(|items|, Aggregate(k, key, items).strength, StrengthSum(items))
    decreases |items|
  {
    if |items| == 1 {
      assert 0 <= items[0].impactStrength <= 100;
      assert items[..0] == [];
      assert StrengthSum(items) == items[0].impactStrength;
    } else {
      StrengthDrift(k, key, items[..|items| - 1], lo, hi);
      StrengthNext(k, key, items, lo, hi);
    }
  }

  lemma StrengthNext(k: Keying, key: string, items: seq<Extraction>, lo: int, hi: int)
    requires k.Sound() && |items| > 1 && DistinctArticles(items) && InRange(items)
    requires lo <= items[|items| - 1].impactStrength <= hi
    requires lo <= Aggregate(k, key, items[..|items| - 1]).strength <= hi
    requires Drift(|items| - 1, Aggregate(k, key, items[..|items| - 1]).strength,
                   StrengthSum(items[..|items| - 1]))
    ensures lo <= Aggregate(k, key, items).strength <= hi
    ensures Drift(|items|, Aggregate(k, key, items).strength, StrengthSum(items))
  {
    var n := |items| - 1;
    assert 0 <= items[n].impactStrength <= 100;
    var before := Aggregate(k, key, items[..n]).strength;
    StrengthRange(k, key, items[..n]);
    AggregateNew(k, key, items);
    StrengthStep(before, n, items[n].impactStrength);
    DriftStepTo(n, Aggregate(k, key, items).strength, before, items[n].impactStrength, StrengthSum(items[..n]),
                |items|, StrengthSum(items));
  }

  lemma StrengthRange(k: Keying, key: string, items: seq<Extraction>)
    requires k.Sound() && items != [] && DistinctArticles(items) && InRange(items)
    ensures 0 <= Aggregate(k, key, items).strength <= 100
  {
    if |items| == 1 {
      assert items[0].impactStrength >= 0;
    } else {
      AggregateNew(k, key, items);
    }
  }

  /** One more article, as far as the confidence is concerned. */
  lemma ConfidenceNext(k: Keying, key: string, items: seq<Extraction>)
    requires k.Sound() && |items| > 1 && DistinctArticles(items) && InRange(items)
    requires ConfidenceFits(Aggregate(k, key, items[..|items| - 1]).confidence, |items| - 1,
                            ConfidenceSum(items[..|items| - 1]))
    ensures ConfidenceFits(Aggregate(k, key, items).confidence, |items|, ConfidenceSum(items))
    ensures FullBonus(Aggregate(k, key, items).confidence, |items|, ConfidenceSum(items))
       <==> && Leaves(|items|, ConfidenceSum(items))
            && (|items| > 2 ==> FullBonus(Aggregate(k, key, items[..|items| - 1]).confidence, |items| - 1,
                                          ConfidenceSum(items[..|items| - 1])))
  {
    var n := |items| - 1;
    assert 0.0 <= items[n].confidence <= 1.0;
    AggregateNew(k, key, items);
    ConfidenceStepTo(Aggregate(k, key, items[..n]).confidence, n, ConfidenceSum(items[..n]), items[n].confidence,
                     Aggregate(k, key, items).confidence, |items|, ConfidenceSum(items));
  }

  lemma ConfidenceOfOne(k: Keying, key: string, items: seq<Extraction>)
    requires |items| == 1 && InRange(items)
    ensures ConfidenceFits(Aggregate(k, key, items).confidence, 1, ConfidenceSum(items))
  {
    assert 0.0 <= items[0].confidence <= 1.0;
    assert ConfidenceSum(items[..0]) == 0.0;
  }

  lemma {:induction false} ConfidenceOf(k: Keying, key: string, items: seq<Extraction>)
    requires k.Sound() && items != [] && DistinctArticles(items) && InRange(items)
    ensures ConfidenceFits(Aggregate(k, key, items).confidence, |items|, ConfidenceSum(items))
    decreases |items|
  {
    if |items| == 1 {
      ConfidenceOfOne(k, key, items);
    } else {
      ConfidenceOf(k, key, items[..|items| - 1]);
      ConfidenceNext(k, key, items);
    }
  }

  /** The bonus never compounds: the confidence is the mean, or above it by at most one bonus. */
  lemma BonusNeverCompounds(k: Keying, key: string, items: seq<Extraction>)
    requires k.Sound() && |items| >= 2 && DistinctArticles(items) && InRange(items)
    ensures OneBonusAtMost(Aggregate(k, key, items).confidence, |items|, ConfidenceSum(items))
  {
    hide ConfidenceFits, OneBonusAtMost;
    ConfidenceOf(k, key, items);
    FitsOneBonus(Aggregate(k, key, items).confidence, |items|, ConfidenceSum(items));
  }

  /** No mean of the first articles, from two on up to all of them, has been above 0.98. */
  ghost predicate MeansLeaveRoom(items: seq<Extraction>) {
    |items| >= 2 ==> MeansLeaveRoom(items[..|items| - 1]) && Leaves(|items|, ConfidenceSum(items))
  }

  /** The event has the whole bonus on top of its mean. */
  ghost predicate HasFullBonus(k: Keying, key: string, items: seq<Extraction>)
    requires items != []
  {
    FullBonus(Aggregate(k, key, items).confidence, |items|, ConfidenceSum(items))
  }

  lemma FullBonusNext(k: Keying, key: string, items: seq<Extraction>)
    requires k.Sound() && |items| >= 2 && DistinctArticles(items) && InRange(items)
    ensures HasFullBonus(k, key, items)
       <==> && Leaves(|items|, ConfidenceSum(items))
            && (|items| > 2 ==> HasFullBonus(k, key, items[..|items| - 1]))
  {
    hide Aggregate, ConfidenceSum, ConfidenceFits, FullBonus, Leaves;
    ConfidenceOf(k, key, items[..|items| - 1]);
    ConfidenceNext(k, key, items);
  }

  /** The full bonus is there exactly as long as no mean of the first articles exceeded 0.98. */
  lemma {:induction false} FullBonusIff(k: Keying, key: string, items: seq<Extraction>)
    requires k.Sound() && |items| >= 2 && DistinctArticles(items) && InRange(items)
    ensures HasFullBonus(k, key, items) <==> MeansLeaveRoom(items)
    decreases |items|
  {
    FullBonusNext(k, key, items);
    if |items| > 2 {
      FullBonusIff(k, key, items[..|items| - 1]);
    }
  }
}

/** Aggregated events (internal/event and internal/app/events): creation, merging, validation. */
module Events {
  import opened Results
  import opened Text
  import opened Sorting
  import opened Labels
  import opened ClusterKey

  const ACTIVE := "active"
  const STALE := "stale"
  const CLOSED := "closed"

  const MIXED := "mixed"

  const HOUR: int := 3_600_000_000_000

  /** A time that a clock can show, which is never Go's zero time. */
  type Instant = t: int | t != ZERO_TIME witness 0

  datatype Event = Event(
    id: string,
    clusterKey: string,
    eventType: string,
    geoCluster: string,
    countries: seq<string>,
    sectors: seq<string>,
    industries: seq<string>,
    direction: string,
    strength: int,
    confidence: real,
    status: string,
    articleIds: seq<int>,
    sourceCount: nat,
    firstSeenAt: int,
    lastSeenAt: int,
    createdAt: int,
    updatedAt: int)

  /** The checks before an event is stored. */
  predicate IsAcceptable(e: Event) {
    && e.id != "" && e.clusterKey != "" && e.eventType != "" && e.geoCluster != "" && e.direction != ""
    && e.status in {ACTIVE, STALE, CLOSED}
    && 0 <= e.strength <= 100
    && 0.0 <= e.confidence <= 1.0
    && e.articleIds != []
    && (forall i :: 1 <= i < |e.articleIds| ==> e.articleIds[i - 1] <= e.articleIds[i])
    && e.sourceCount == |e.articleIds|
    && e.firstSeenAt != ZERO_TIME && e.lastSeenAt != ZERO_TIME
    && e.createdAt != ZERO_TIME && e.updatedAt != ZERO_TIME
    && e.firstSeenAt <= e.lastSeenAt
  }

  function ClampInt(value: int, lo: int, hi: int): int {
    if value < lo then lo else if value > hi then hi else value
  }

  function ClampReal(value: real, lo: real, hi: real): real {
    if value < lo then lo else if value > hi then hi else value
  }

  /** Rounding to the nearest integer, halves away from zero. */
  function Round(r: real): int {
    if r >= 0.0 then (r + 0.5).Floor else -((0.5 - r).Floor)
  }

  /** Rounding gives the nearest integer; of two that are equally near, the one away from zero. */
  lemma RoundIs(r: real)
    ensures var n := Round(r) as real;
            && -0.5 <= n - r <= 0.5
            && (n - r == 0.5 ==> r >= 0.0) && (n - r == -0.5 ==> r < 0.0)
  {
  }

  function MultiSourceBonus(sourceCount: int): real {
    if sourceCount > 1 then 0.02 else 0.0
  }

  function EventStatus(lastSeenAt: int, now: int): string {
    if now - lastSeenAt < 2 * HOUR then ACTIVE
    else if now - lastSeenAt <= 12 * HOUR then STALE
    else CLOSED
  }

  /** The directions with the most votes. */
  ghost function Winners(votes: map<string, int>): set<string> {
    set d | d in votes && forall other :: other in votes ==> votes[other] <= votes[d]
  }

  /** The outcome of a vote: a single winner, else "mixed" if it is among them, else the first. */
  ghost predicate IsElected(votes: map<string, int>, d: string) {
    && d in Winners(votes)
    && (d != MIXED && |Winners(votes)| > 1 ==>
          MIXED !in Winners(votes) && forall other :: other in Winners(votes) && other != d ==> LexLess(d, other))
  }

  /** The directions seen so far that reach a number of votes. */
  ghost function Reaching(votes: map<string, int>, seen: set<string>, count: int): set<string> {
    set d | d in seen && d in votes && votes[d] == count
  }

  lemma ReachingNext(votes: map<string, int>, seen: set<string>, d: string, count: int)
    requires d in votes
    ensures Reaching(votes, seen + {d}, count)
         == Reaching(votes, seen, count) + (if votes[d] == count then {d} else {})
  {
  }

  lemma ReachingTop(votes: map<string, int>, seen: set<string>, d: string)
    requires d in votes && forall s :: s in seen && s in votes ==> votes[s] < votes[d]
    ensures Reaching(votes, seen + {d}, votes[d]) == {d}
  {
  }

  lemma ReachingAll(votes: map<string, int>, count: int, d: string)
    requires d in votes && votes[d] == count && forall s :: s in votes ==> votes[s] <= count
    ensures Reaching(votes, votes.Keys, count) == Winners(votes)
  {
  }

  /** The state of the scan: the best count so far, and who reaches it. */
  ghost predicate Leading(votes: map<string, int>, seen: set<string>, maxCount: int, winners: seq<string>) {
    && Distinct(winners)
    && Elems(winners) == Reaching(votes, seen, maxCount)
    && (forall d :: d in seen && d in votes ==> votes[d] <= maxCount)
    && maxCount >= 0 && (if seen == {} then maxCount == 0 else winners != [])
  }

  lemma NoneLeading(votes: map<string, int>)
    ensures Leading(votes, {}, 0, [])
  {
  }

  lemma LeadingWin(votes: map<string, int>, maxCount: int, winners: seq<string>)
    requires votes.Keys != {} && Leading(votes, votes.Keys, maxCount, winners)
    ensures Elems(winners) == Winners(votes) && Distinct(winners) && winners != []
  {
    assert winners[0] in Elems(winners);
    ReachingAll(votes, maxCount, winners[0]);
  }

  /** One direction of the scan. */
  method CountDirection(votes: map<string, int>, ghost seen: set<string>, d: string, maxCount: int, winners: seq<string>)
    returns (newMax: int, newWinners: seq<string>)
    requires d in votes && d !in seen && votes[d] >= 0 && Leading(votes, seen, maxCount, winners)
    ensures Leading(votes, seen + {d}, newMax, newWinners)
  {
    newMax, newWinners := maxCount, winners;
    ReachingNext(votes, seen, d, maxCount);
    if votes[d] > maxCount {
      ReachingTop(votes, seen, d);
      assert Elems([d]) == {d};
      newMax, newWinners := votes[d], [d];
    } else if votes[d] == maxCount {
      Collect(winners, d);
      newWinners := winners + [d];
    }
  }

  /** The scan of the votes: it meets the map in whatever order, and its winners do not depend on it. */
  method CollectWinners(votes: map<string, int>) returns (winners: seq<string>)
    requires votes.Keys != {} && forall d :: d in votes ==> votes[d] >= 0
    ensures Elems(winners) == Winners(votes) && Distinct(winners) && winners != []
  {
    hide Leading, Winners, Distinct, Elems;
    var maxCount := 0;
    winners := [];
    var rest := votes.Keys;
    NoneLeading(votes);
    ghost var seen: set<string> := {};
    while rest != {}
      invariant seen + rest == votes.Keys && seen !! rest
      invariant Leading(votes, seen, maxCount, winners)
      decreases |rest|
    {
      var d :| d in rest;
      rest := rest - {d};
      maxCount, winners := CountDirection(votes, seen, d, maxCount, winners);
      seen := seen + {d};
    }
    assert seen == votes.Keys;
    LeadingWin(votes, maxCount, winners);
  }

  /** The vote of the program. */
  method MajorityDirection(votes: map<string, int>) returns (elected: string)
    requires votes.Keys != {} && forall d :: d in votes ==> votes[d] >= 0
    ensures IsElected(votes, elected)
  {
    var winners := CollectWinners(votes);
    DistinctSize(winners);
    assert winners[0] in Elems(winners);
    if |winners| == 1 {
      return winners[0];
    }
    for i := 0 to |winners|
      invariant MIXED !in winners[..i]
    {
      if winners[i] == MIXED {
        assert winners[i] in Elems(winners);
        return MIXED;
      }
    }
    assert winners[..|winners|] == winners;
    elected := FirstOf(winners);
  }

  method FirstOf(winners: seq<string>) returns (first: string)
    requires Distinct(winners) && winners != []
    ensures first in Elems(winners)
    ensures forall other :: other in Elems(winners) && other != first ==> LexLess(first, other)
  {
    LexTotal();
    SortAscending(winners, LexLess);
    var sorted := Sort(winners, LexLess);
    assert winners[0] in Elems(sorted);
    first := sorted[0];
    assert first in Elems(sorted);
  }

  lemma {:induction false} DistinctSize<T>(s: seq<T>)
    requires Distinct(s)
    ensures |Elems(s)| == |s|
  {
    if s != [] {
      var front, last := s[..|s| - 1], s[|s| - 1];
      DistinctSize(front);
      assert s == front + [last];
      ElemsConcat(front, [last]);
      assert last !in Elems(front);
      assert Elems([last]) == {last};
    }
  }

  /** There is one outcome of a vote, whatever the order of the map. */
  lemma ElectedUnique(votes: map<string, int>, a: string, b: string)
    requires IsElected(votes, a) && IsElected(votes, b)
    ensures a == b
  {
    hide LexLess, Winners;
    if a != b {
      TwoIn(Winners(votes), a, b);
      LexTotal();
    }
  }

  lemma TwoIn<T>(s: set<T>, a: T, b: T)
    requires a in s && b in s && a != b
    ensures |s| > 1
  {
    var t := s - {a};
    assert s == t + {a};
    assert b in t;
    assert t != {};
  }

  /** The vote between an event and a new article: the event has one vote per source. */
  function Elected(standing: string, votes: nat, newcomer: string): string {
    if votes > 1 || newcomer == standing then standing
    else if votes == 0 then newcomer
    else if standing == MIXED || newcomer == MIXED then MIXED
    else if LexLess(standing, newcomer) then standing
    else newcomer
  }

  lemma ElectedIs(standing: string, votes: nat, newcomer: string)
    ensures IsElected(map[standing := votes][newcomer := 1], Elected(standing, votes, newcomer))
  {
    var ballot := map[standing := votes][newcomer := 1];
    LexTotal();
    assert ballot.Keys == {standing, newcomer};
    assert standing in ballot && newcomer in ballot && ballot[newcomer] == 1;
    if newcomer != standing {
      assert ballot[standing] == votes;
    }
    assert forall d :: d in ballot ==> d == standing || d == newcomer;
    var top := Elected(standing, votes, newcomer);
    if newcomer == standing || votes > 1 {
      assert Winners(ballot) == {standing};
    } else if votes == 0 {
      assert Winners(ballot) == {newcomer};
    } else {
      assert Winners(ballot) == {standing, newcomer};
    }
  }

  /** The event a first article creates. */
  ghost function Created(k: Keying, key: string, x: Extraction, now: int): Event {
    Event(k.digest(key), key, x.eventType, x.geoCluster,
          LabelList(NormalSet(k.unicode, x.countries)),
          LabelList(NormalSet(k.unicode, x.sectors)),
          LabelList(NormalSet(k.unicode, x.industries)),
          x.impactDirection, ClampInt(x.impactStrength, 0, 100), ClampReal(x.confidence, 0.0, 1.0),
          EventStatus(x.finishedAt, now), [x.articleId], 1, x.finishedAt, x.finishedAt, now, now)
  }

  method NewEventFromExtraction(k: Keying, key: string, x: Extraction, now: int) returns (r: Result<Event>)
    ensures r.Ok? <==> key != "" && IsAcceptable(Created(k, key, x, now))
    ensures r.Ok? ==> r.value == Created(k, key, x, now)
  {
    if key == "" {
      return Err("cluster_key must not be empty");
    }
    var countries := NormalizeStringSlice(k.unicode, x.countries);
    var sectors := NormalizeStringSlice(k.unicode, x.sectors);
    var industries := NormalizeStringSlice(k.unicode, x.industries);
    var e := Event(k.digest(key), key, x.eventType, x.geoCluster, countries, sectors, industries,
                   x.impactDirection, ClampInt(x.impactStrength, 0, 100), ClampReal(x.confidence, 0.0, 1.0),
                   EventStatus(x.finishedAt, now), [x.articleId], 1, x.finishedAt, x.finishedAt, now, now);
    if !IsAcceptable(e) {
      return Err("event is not valid");
    }
    return Ok(e);
  }

  ghost function MergedLabels(u: Unicode, existing: seq<string>, added: seq<string>): seq<string> {
    LabelList(NormalSet(u, existing) + NormalSet(u, added))
  }

  /** The mean of `n` values with mean `mean` and one more value. */
  function RunningMean(mean: real, n: nat, added: real): real {
    (mean * n as real + added) / (n + 1) as real
  }

  function MergedStrength(strength: int, sources: nat, added: int): int {
    ClampInt(Round(RunningMean(strength as real, sources, added as real)), 0, 100)
  }

  /** The bonus of the old mean is taken off before the new mean is formed, and put on again. */
  function MergedConfidence(confidence: real, sources: nat, added: real, newSources: nat): real {
    var base := ClampReal(confidence - MultiSourceBonus(sources), 0.0, 1.0);
    ClampReal(RunningMean(base, sources, added) + MultiSourceBonus(newSources), 0.0, 1.0)
  }

  /** An event with one more extraction; an article that is already in changes no score. */
  ghost function Merged(k: Keying, e: Event, x: Extraction, now: int): Event
  {
    var ids := Elems(e.articleIds) + {x.articleId};
    var isNew := x.articleId !in e.articleIds;
    var lastSeenAt := if x.finishedAt > e.lastSeenAt then x.finishedAt else e.lastSeenAt;
    e.(id := k.digest(e.clusterKey),
    articleIds := IdList(ids),
    sourceCount := |ids|,
    countries := MergedLabels(k.unicode, e.countries, x.countries),
    sectors := MergedLabels(k.unicode, e.sectors, x.sectors),
    industries := MergedLabels(k.unicode, e.industries, x.industries),
    firstSeenAt := if x.finishedAt < e.firstSeenAt then x.finishedAt else e.firstSeenAt,
    lastSeenAt := lastSeenAt,
    direction := if isNew then Elected(e.direction, e.sourceCount, x.impactDirection) else e.direction,
    strength := if isNew then MergedStrength(e.strength, e.sourceCount, x.impactStrength) else e.strength,
    confidence := if isNew then MergedConfidence(e.confidence, e.sourceCount, x.confidence, |ids|) else e.confidence,
    status := EventStatus(lastSeenAt, now),
    updatedAt := now)
  }

  lemma AddKey(keys: set<string>, n: string)
    ensures (keys + {n}) - {""} == (keys - {""}) + (if n == "" then {} else {n})
  {
  }

  /** The union of label lists as the program builds it: old labels normalised, new ones added. */
  method UnionLabels(u: Unicode, existing: seq<string>, added: seq<string>) returns (out: seq<string>)
    ensures out == MergedLabels(u, existing, added)
  {
    var keys: set<string> := {};
    for i := 0 to |existing|
      invariant keys - {""} == NormalSet(u, existing[..i])
    {
      NormalSetSnoc(u, existing, i);
      var norm := NormalizeString(u, existing[i]);
      AddKey(keys, norm);
      keys := keys + {norm};
    }
    assert existing[..|existing|] == existing;
    ghost var before := NormalSet(u, existing);
    for i := 0 to |added|
      invariant keys - {""} == before + NormalSet(u, added[..i])
    {
      NormalSetSnoc(u, added, i);
      var norm := NormalizeString(u, added[i]);
      AddKey(keys, norm);
      if norm == "" {
        continue;
      }
      keys := keys + {norm};
    }
    assert added[..|added|] == added;
    out := MapKeysSorted(keys);
  }

  method CollectIds(ids: seq<int>) returns (keys: set<int>)
    ensures keys == Elems(ids)
  {
    keys := {};
    for i := 0 to |ids|
      invariant keys == Elems(ids[..i])
    {
      assert ids[..i + 1] == ids[..i] + [ids[i]];
      ElemsConcat(ids[..i], [ids[i]]);
      keys := keys + {ids[i]};
    }
    assert ids[..|ids|] == ids;
  }

  method MergeEvent(k: Keying, existing: Event, x: Extraction, now: int) returns (merged: Event)
    ensures merged == Merged(k, existing, x, now)
  {
    merged := existing.(id := k.digest(existing.clusterKey));
    var articleSet := CollectIds(existing.articleIds);
    var alreadyPresent := x.articleId in articleSet;
    articleSet := articleSet + {x.articleId};
    IdListIs(articleSet);
    var articleIds := MapInt64KeysSorted(articleSet);
    merged := merged.(articleIds := articleIds, sourceCount := |articleIds|);
    var countries := UnionLabels(k.unicode, existing.countries, x.countries);
    var sectors := UnionLabels(k.unicode, existing.sectors, x.sectors);
    var industries := UnionLabels(k.unicode, existing.industries, x.industries);
    merged := merged.(countries := countries, sectors := sectors, industries := industries);
    if x.finishedAt < merged.firstSeenAt {
      merged := merged.(firstSeenAt := x.finishedAt);
    }
    if x.finishedAt > merged.lastSeenAt {
      merged := merged.(lastSeenAt := x.finishedAt);
    }
    if !alreadyPresent {
      var direction := MergedDirection(existing, x);
      var strength, confidence := MergedScores(existing, x, merged.sourceCount);
      merged := merged.(direction := direction, strength := strength, confidence := confidence);
    }
    merged := merged.(status := EventStatus(merged.lastSeenAt, now), updatedAt := now);
  }

  /** The two running means of a merge. */
  method MergedScores(existing: Event, x: Extraction, newSources: nat) returns (strength: int, confidence: real)
    ensures strength == MergedStrength(existing.strength, existing.sourceCount, x.impactStrength)
    ensures confidence == MergedConfidence(existing.confidence, existing.sourceCount, x.confidence, newSources)
  {
    var mean := RunningMean(existing.strength as real, existing.sourceCount, x.impactStrength as real);
    strength := ClampInt(Round(mean), 0, 100);
    var base := ClampReal(existing.confidence - MultiSourceBonus(existing.sourceCount), 0.0, 1.0);
    confidence := RunningMean(base, existing.sourceCount, x.confidence);
    confidence := confidence + MultiSourceBonus(newSources);
    confidence := ClampReal(confidence, 0.0, 1.0);
  }

  method MergedDirection(existing: Event, x: Extraction) returns (direction: string)
    ensures direction == Elected(existing.direction, existing.sourceCount, x.impactDirection)
  {
    var votes := map[existing.direction := existing.sourceCount][x.impactDirection := 1];
    assert existing.direction in votes.Keys;
    direction := MajorityDirection(votes);
    ElectedIs(existing.direction, existing.sourceCount, x.impactDirection);
    ElectedUnique(votes, direction, Elected(existing.direction, existing.sourceCount, x.impactDirection));
  }
}

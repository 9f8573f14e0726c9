/**
 What holds of the stored events (internal/app/events/cluster.go) after every run of extraction and
 clustering, failed or not.
 */
module ClusteringTheorems {
  import opened Results
  import opened Text
  import opened Sorting
  import opened Labels
  import opened ArticleRun
  import opened Extract
  import opened ExtractionTable
  import opened ClusterKey
  import opened Events
  import opened Means
  import opened Aggregation
  import opened EventFold
  import opened EventPartition
  import opened ClusterInput
  import opened IncrementalClustering

  /** The extractions of which the stored events consist. */
  ghost predicate Absorbed(k: Keying, w: World, rows: seq<Extraction>) {
    && rows <= Settled(w) && DistinctArticles(rows)
    && CoreStore(w.store) == FoldStore(k, rows)
  }

  lemma {:induction false} SomeAbsorbed(k: Keying, moves: seq<Move>) returns (rows: seq<Extraction>)
    requires k.Sound()
    ensures Absorbed(k, Exec(k, START, moves), rows)
    ensures forall x :: x in rows ==> GoodInput(x)
  {
    hide Apply, RowsBetween, TableSound, RunAt, GoodInput;
    var n := ExecKeeps(k, moves);
    var w := Exec(k, START, moves);
    rows := Settled(w)[..n];
    RowsDistinct(w.sys.table, EPOCH, Horizon(w));
    forall i | 0 <= i < n ensures GoodInput(rows[i]) {
      InputIsGood(w.sys, EPOCH, Horizon(w), i);
    }
  }

  ghost predicate IsPartition(store: Store, ids: set<int>) {
    && (forall a, b :: a in store && b in store && a != b ==> Elems(store[a].articleIds) !! Elems(store[b].articleIds))
    && (forall id :: id in ids <==> exists key :: key in store && id in store[key].articleIds)
    && SourceTotal(store) == |ids|
  }

  lemma CoreArticles(store: Store)
    ensures CoreStore(store).Keys == store.Keys
    ensures forall key :: key in store ==> CoreStore(store)[key].articleIds == store[key].articleIds
  {
  }

  lemma {:induction false} CoreSources(store: Store, keys: seq<string>)
    ensures SourcesOver(CoreStore(store), keys) == SourcesOver(store, keys)
  {
    if keys != [] {
      CoreSources(store, keys[..|keys| - 1]);
    }
  }

  lemma StoreDisjoint(k: Keying, store: Store, rows: seq<Extraction>, a: string, b: string)
    requires k.Sound() && DistinctArticles(rows) && CoreStore(store) == FoldStore(k, rows)
    requires a in store && b in store && a != b
    ensures Elems(store[a].articleIds) !! Elems(store[b].articleIds)
  {
    hide FoldStore, CoreStore;
    CoreArticles(store);
    EventsDisjoint(k, rows, a, b);
  }

  lemma StoreCovers(k: Keying, store: Store, rows: seq<Extraction>, id: int)
    requires k.Sound() && DistinctArticles(rows) && CoreStore(store) == FoldStore(k, rows)
    ensures id in Ids(rows) <==> exists key :: key in store && id in store[key].articleIds
  {
    hide FoldStore, CoreStore, Ids;
    CoreArticles(store);
    EventsCover(k, rows, id);
    if id in Ids(rows) {
      var key :| key in FoldStore(k, rows) && id in FoldStore(k, rows)[key].articleIds;
      assert key in store && id in store[key].articleIds;
    }
    if key :| key in store && id in store[key].articleIds {
      assert id in FoldStore(k, rows)[key].articleIds;
    }
  }

  lemma StoreCounts(k: Keying, store: Store, rows: seq<Extraction>)
    requires k.Sound() && DistinctArticles(rows) && CoreStore(store) == FoldStore(k, rows)
    ensures SourceTotal(store) == |Ids(rows)|
  {
    hide FoldStore, CoreStore, Ids;
    CoreArticles(store);
    SourcesConserved(k, rows);
    CoreSources(store, LabelList(store.Keys));
    DistinctCount(rows);
  }

  /** The stored events divide the processed articles among them, and their counts add up. */
  lemma EventsPartitionArticles(k: Keying, moves: seq<Move>)
    requires k.Sound()
    ensures var w := Exec(k, START, moves);
            exists rows :: Absorbed(k, w, rows) && IsPartition(w.store, Ids(rows))
  {
    hide Apply, Settled, FoldStore, CoreStore, Ids;
    var store := Exec(k, START, moves).store;
    var rows := SomeAbsorbed(k, moves);
    forall a, b | a in store && b in store && a != b
      ensures Elems(store[a].articleIds) !! Elems(store[b].articleIds)
    {
      StoreDisjoint(k, store, rows, a, b);
    }
    forall id ensures id in Ids(rows) <==> exists key :: key in store && id in store[key].articleIds {
      StoreCovers(k, store, rows, id);
    }
    StoreCounts(k, store, rows);
  }

  lemma UpsertGoesOn(k: Keying, w: World, n: nat)
    requires k.Sound() && Inv(k, w, n) && w.run.Folding? && w.run.next < |w.run.inputs|
    ensures var run := Apply(k, w, Upsert(Healthy)).run;
            run.Folding? && run.next == w.run.next + 1
  {
    hide CP.Inv, CP.Apply, StoreAt, RunAt, IsAcceptable, RowsBetween, Upserted, Absorb;
    var n' := UpsertKeeps(k, w, Healthy, n);
  }

  /** No upsert is ever rejected: without a fault of the database a run goes on to its end. */
  lemma UpsertNeverRejected(k: Keying, moves: seq<Move>)
    requires k.Sound()
    requires var w := Exec(k, START, moves); w.run.Folding? && w.run.next < |w.run.inputs|
    ensures var w := Exec(k, START, moves);
            var run := Apply(k, w, Upsert(Healthy)).run;
            run.Folding? && run.next == w.run.next + 1
  {
    hide Apply, Inv;
    var n := ExecKeeps(k, moves);
    UpsertGoesOn(k, Exec(k, START, moves), n);
  }

  /** What every stored event is. */
  lemma StoredEventsValid(k: Keying, moves: seq<Move>, key: string)
    requires k.Sound() && key in Exec(k, START, moves).store
    ensures IsAcceptable(Exec(k, START, moves).store[key])
    ensures var e := Exec(k, START, moves).store[key];
            && e.id != "" && e.clusterKey != "" && e.eventType != "" && e.geoCluster != "" && e.direction != ""
            && e.status in {"active", "stale", "closed"}
            && 0 <= e.strength <= 100 && 0.0 <= e.confidence <= 1.0
            && 1 <= e.sourceCount == |e.articleIds|
            && (forall i :: 1 <= i < |e.articleIds| ==> e.articleIds[i - 1] <= e.articleIds[i])
            && e.firstSeenAt <= e.lastSeenAt
            && ZERO_TIME !in {e.firstSeenAt, e.lastSeenAt, e.createdAt, e.updatedAt}
  {
    hide Apply, CP.Inv, RunAt, RowsBetween;
    var n := ExecKeeps(k, moves);
  }

  /** A listed row whose article is in the event. */
  ghost predicate Member(w: World, key: string, x: Extraction)
    requires key in w.store
  {
    x in Settled(w) && x.articleId in w.store[key].articleIds
  }

  lemma StoredIsCore(k: Keying, w: World, rows: seq<Extraction>, key: string)
    requires Absorbed(k, w, rows) && key in w.store
    ensures key in FoldStore(k, rows) && FoldStore(k, rows)[key] == Core(w.store[key])
  {
    hide FoldStore, Core;
    assert CoreStore(w.store)[key] == Core(w.store[key]);
  }

  /** The members of a stored event are the absorbed rows with its key. */
  lemma MembersAreRows(k: Keying, w: World, rows: seq<Extraction>, key: string, x: Extraction)
    requires k.Sound() && Absorbed(k, w, rows) && key in w.store
    ensures Member(w, key, x) <==> x in rows && Key(k, x) == key
  {
    hide FoldStore, CoreStore, RowsBetween, Key;
    StoredIsCore(k, w, rows, key);
    RowsDistinct(w.sys.table, EPOCH, Horizon(w));
    assert forall z :: z in rows ==> z in Settled(w);
    if x in rows {
      MemberIff(k, rows, key, x);
    } else if Member(w, key, x) {
      EventsCover(k, rows, x.articleId);
      assert x.articleId in FoldStore(k, rows)[key].articleIds;
      var y :| y in rows && y.articleId == x.articleId;
      SameArticle(Settled(w), x, y);
    }
  }

  lemma LabelsOfCore(u: Unicode, e: Event, x: Extraction)
    ensures SameLabelLists(u, Core(e), x) == SameLabelLists(u, e, x)
  {
    hide LabelList, NormalSet;
  }

  /**
   A stored event has the normalised labels of each of its articles exactly if equal keys mean
   equal normalised fields among them; other events do not matter.
   */
  lemma StoredLabelsIff(k: Keying, moves: seq<Move>, key: string)
    requires k.Sound() && key in Exec(k, START, moves).store
    ensures var w := Exec(k, START, moves);
            (forall x :: Member(w, key, x) ==> SameLabelLists(k.unicode, w.store[key], x))
            <==> (forall y, z :: Member(w, key, y) && Member(w, key, z) ==> SameCluster(k.unicode, y, z))
    ensures forall x :: Member(Exec(k, START, moves), key, x) ==> Key(k, x) == key
  {
    hide Apply, FoldStore, Settled, Key, Member, SameCluster, SameLabelLists, Core;
    var w := Exec(k, START, moves);
    var rows := SomeAbsorbed(k, moves);
    forall x ensures Member(w, key, x) <==> x in rows && Key(k, x) == key {
      MembersAreRows(k, w, rows, key, x);
    }
    StoredIsCore(k, w, rows, key);
    EventLabelsIff(k, rows, key);
    forall x ensures SameLabelLists(k.unicode, FoldStore(k, rows)[key], x)
                  == SameLabelLists(k.unicode, w.store[key], x) {
      LabelsOfCore(k.unicode, w.store[key], x);
    }
    forall x | x in rows ensures x.articleId in FoldStore(k, rows)[key].articleIds <==> Key(k, x) == key {
      MemberIff(k, rows, key, x);
    }
  }

  /** Plain labels of its articles are enough for that. */
  lemma StoredLabels(k: Keying, moves: seq<Move>, key: string, x: Extraction)
    requires k.Sound() && key in Exec(k, START, moves).store
    requires forall y :: Member(Exec(k, START, moves), key, y) ==> Plain(y)
    requires Member(Exec(k, START, moves), key, x)
    ensures Key(k, x) == key && SameLabelLists(k.unicode, Exec(k, START, moves).store[key], x)
  {
    hide Apply, Exec, Key, Plain, SameCluster, SameLabelLists, Member;
    var w := Exec(k, START, moves);
    StoredLabelsIff(k, moves, key);
    forall y, z | Member(w, key, y) && Member(w, key, z) ensures SameCluster(k.unicode, y, z) {
      KeyIff(k, y, z);
    }
  }

  ghost predicate StrengthsWithin(items: seq<Extraction>, lo: int, hi: int) {
    forall i :: 0 <= i < |items| ==> lo <= items[i].impactStrength <= hi
  }

  /** What the scores of an event are, as far as the articles determine them without rounding. */
  ghost predicate ScoresFit(e: Event, items: seq<Extraction>)
    requires items != []
  {
    && e.sourceCount == |items| && Elems(e.articleIds) == Ids(items)
    && Spans(e, items)
    && Drift(|items|, e.strength, StrengthSum(items))
    && (forall lo, hi :: StrengthsWithin(items, lo, hi) ==> lo <= e.strength <= hi)
    && (|items| >= 2 ==>
          && e.direction == Elected(items[0].impactDirection, 1, items[1].impactDirection)
          && OneBonusAtMost(e.confidence, |items|, ConfidenceSum(items))
          && (FullBonus(e.confidence, |items|, ConfidenceSum(items)) <==> MeansLeaveRoom(items)))
  }

  lemma AggregateScores(k: Keying, key: string, items: seq<Extraction>)
    requires k.Sound() && items != [] && DistinctArticles(items) && InRange(items)
    ensures ScoresFit(Aggregate(k, key, items), items)
  {
    hide Aggregate, Drift, OneBonusAtMost, FullBonus, MeansLeaveRoom, Elected, Spans;
    AggregateContains(k, key, items);
    AggregateSpans(k, key, items);
    DistinctCount(items);
    StrengthDrift(k, key, items, 0, 100);
    forall lo, hi | StrengthsWithin(items, lo, hi) ensures lo <= Aggregate(k, key, items).strength <= hi {
      StrengthDrift(k, key, items, lo, hi);
    }
    if |items| >= 2 {
      DirectionDecidedByFirstTwo(k, key, items);
      BonusNeverCompounds(k, key, items);
      FullBonusIff(k, key, items);
    }
  }

  /** The scores of a stored event, from its articles in the order in which they were absorbed. */
  lemma StoredScores(k: Keying, moves: seq<Move>, key: string)
    requires k.Sound() && key in Exec(k, START, moves).store
    ensures var w := Exec(k, START, moves);
            exists rows :: Absorbed(k, w, rows) && Members(k, rows, key) != []
                           && ScoresFit(w.store[key], Members(k, rows, key))
  {
    hide Apply, Settled, FoldStore, Members, Aggregate, Drift, OneBonusAtMost, FullBonus, MeansLeaveRoom, Key, ScoresFit;
    var w := Exec(k, START, moves);
    var rows := SomeAbsorbed(k, moves);
    assert CoreStore(w.store)[key] == Core(w.store[key]);
    var items := Members(k, rows, key);
    EventIs(k, rows, key);
    MembersAre(k, rows, key);
    forall i | 0 <= i < |items| ensures 0 <= items[i].impactStrength <= 100 && 0.0 <= items[i].confidence <= 1.0 {
      assert items[i] in rows && GoodInput(items[i]);
    }
    AggregateScores(k, key, items);
    CoreScores(w.store[key], items);
  }

  lemma CoreScores(e: Event, items: seq<Extraction>)
    requires items != [] && ScoresFit(Core(e), items)
    ensures ScoresFit(e, items)
  {
    hide Drift, OneBonusAtMost, FullBonus, MeansLeaveRoom, Elected, Ids;
  }

  function Upserts(count: nat): seq<Move> {
    if count == 0 then [] else Upserts(count - 1) + [Upsert(Healthy)]
  }

  /** A run without faults, after whatever a failed run left behind. */
  function CleanRun(now: Instant, count: nat): seq<Move> {
    [Abort, Load(now), List] + Upserts(count) + [SaveCursor(Healthy)]
  }

  lemma {:induction false} ExecConcat(k: Keying, w: World, a: seq<Move>, b: seq<Move>)
    ensures Exec(k, w, a + b) == Exec(k, Exec(k, w, a), b)
    decreases |b|
  {
    hide Apply;
    if b == [] {
      assert a + b == a;
    } else {
      var n := |b| - 1;
      assert (a + b)[..|a + b| - 1] == a + b[..n];
      ExecConcat(k, w, a, b[..n]);
    }
  }

  lemma {:induction false} UpsertsLength(count: nat)
    ensures |Upserts(count)| == count
  {
    if count > 0 {
      UpsertsLength(count - 1);
    }
  }

  lemma NoUpserts(k: Keying, w: World)
    ensures Exec(k, w, Upserts(0)) == w
  {
  }

  lemma ExecUpserts(k: Keying, w: World, count: nat)
    ensures Exec(k, w, Upserts(count + 1)) == Apply(k, Exec(k, w, Upserts(count)), Upsert(Healthy))
  {
    hide Apply;
    UpsertsLength(count);
    assert Upserts(count + 1)[..count] == Upserts(count);
  }

  /** What the upserts of a run leave alone. */
  ghost predicate SameRun(w: World, w': World) {
    && w'.sys == w.sys && w'.cursor == w.cursor && Horizon(w') == Horizon(w)
    && w.run.Folding? && w'.run.Folding?
    && w'.run.inputs == w.run.inputs && w'.run.since == w.run.since && w'.run.now == w.run.now
  }

  lemma UpsertOnce(k: Keying, w: World, n: nat) returns (n': nat)
    requires k.Sound() && Inv(k, w, n) && w.run.Folding? && w.run.next < |w.run.inputs|
    ensures var w' := Apply(k, w, Upsert(Healthy));
            n' >= n && Inv(k, w', n') && SameRun(w, w') && w'.run.next == w.run.next + 1
  {
    hide CP.Inv, StoreAt, RunAt, IsAcceptable, RowsBetween, Upserted, Absorb;
    n' := UpsertKeeps(k, w, Healthy, n);
    StoreAfterUpsert(k, w, n);
    RunAfterUpsert(k, w, n);
  }

  lemma {:induction false} UpsertsGoOn(k: Keying, w: World, n: nat, count: nat) returns (n': nat)
    requires k.Sound() && Inv(k, w, n) && w.run.Folding? && w.run.next + count <= |w.run.inputs|
    ensures n' >= n && Inv(k, Exec(k, w, Upserts(count)), n') && SameRun(w, Exec(k, w, Upserts(count)))
    ensures Exec(k, w, Upserts(count)).run.next == w.run.next + count
  {
    hide Inv, Apply, Exec, Upserts;
    n' := n;
    if count == 0 {
      NoUpserts(k, w);
    } else {
      var before := UpsertsGoOn(k, w, n, count - 1);
      ExecUpserts(k, w, count - 1);
      n' := UpsertOnce(k, Exec(k, w, Upserts(count - 1)), before);
    }
  }

  lemma BeginsList(k: Keying, w: World, now: Instant)
    ensures Exec(k, w, [Abort, Load(now), List]) == ListInputs(w.(run := Loaded(Since(w), now)))
  {
    hide RowsSince;
    var a: seq<Move> := [Abort];
    var b: seq<Move> := [Abort, Load(now)];
    var c: seq<Move> := [Abort, Load(now), List];
    assert c[..2] == b && b[..1] == a && a[..0] == [];
    assert Exec(k, w, a) == w.(run := Idle);
    assert Exec(k, w, b) == w.(run := Loaded(Since(w), now));
  }

  /** After a list, every done row is settled. */
  lemma ListedAll(k: Keying, w: World, n: nat)
    requires Inv(k, w, n) && w.run.Loaded?
    ensures Settled(ListInputs(w)) == AllDone(w)
  {
    hide CoreStore, FoldStore, AllAcceptable, CP.Inv, RowsSince, RowsBetween;
    RowsSinceLast(w.sys.table, Since(w));
    RowsSinceIs(w.sys.table, EPOCH, Horizon(ListInputs(w)));
  }

  lemma CleanRunIs(k: Keying, w: World, now: Instant, count: nat)
    ensures var listed := ListInputs(w.(run := Loaded(Since(w), now)));
            Exec(k, w, CleanRun(now, count)) == Apply(k, Exec(k, listed, Upserts(count)), SaveCursor(Healthy))
  {
    hide Apply, ListInputs;
    BeginsList(k, w, now);
    ExecConcat(k, w, [Abort, Load(now), List], Upserts(count));
    var moves := CleanRun(now, count);
    assert moves[..|moves| - 1] == [Abort, Load(now), List] + Upserts(count);
  }

  /** A run without faults completes, and makes the store that of one pass over all done rows. */
  lemma CleanRunCompletes(k: Keying, w: World, n: nat, now: Instant)
    requires k.Sound() && Inv(k, w, n)
    ensures var w' := Exec(k, w, CleanRun(now, |RowsSince(w.sys.table, Since(w))|));
            && w'.run.Idle? && w'.sys == w.sys && w'.cursor.Some?
            && CoreStore(w'.store) == FoldStore(k, AllDone(w))
  {
    hide CP.Inv, IsAcceptable, RowsBetween, RowsSince, CoreStore, FoldStore, AllAcceptable, UpsertNext, TableSound;
    var loaded := w.(run := Loaded(Since(w), now));
    RunEnds(k, w, loaded, n);
    ListKeeps(k, loaded, n);
    ListedAll(k, loaded, n);
    var listed := ListInputs(loaded);
    var count := |RowsSince(w.sys.table, Since(w))|;
    var m := UpsertsGoOn(k, listed, n, count);
    var folded := Exec(k, listed, Upserts(count));
    FoldedAll(k, folded, m);
    CleanRunIs(k, w, now, count);
    assert Settled(folded)[..m] == Settled(folded) == Settled(listed);
  }

  /**
   Whatever failed before, one run without faults catches up: the stored events are then those of
   a single pass over all done rows.
   */
  lemma CatchesUp(k: Keying, moves: seq<Move>, now: Instant)
    requires k.Sound()
    ensures var w := Exec(k, START, moves);
            var w' := Exec(k, START, moves + CleanRun(now, |RowsSince(w.sys.table, Since(w))|));
            && w'.run.Idle? && w'.sys == w.sys && w'.cursor.Some?
            && CoreStore(w'.store) == FoldStore(k, AllDone(w))
  {
    hide Apply, Inv, CleanRun, RowsSince, CoreStore, FoldStore, AllDone;
    var w := Exec(k, START, moves);
    var n := ExecKeeps(k, moves);
    CleanRunCompletes(k, w, n, now);
    ExecConcat(k, START, moves, CleanRun(now, |RowsSince(w.sys.table, Since(w))|));
  }

  /** The article is in no event. */
  ghost predicate NoTrace(store: Store, id: int) {
    forall key :: key in store ==> id !in store[key].articleIds
  }

  lemma AbsorbOther(k: Keying, store: Store, x: Extraction, now: int, id: int)
    requires NoTrace(store, id) && x.articleId != id
    ensures NoTrace(Absorb(k, store, x, now), id)
  {
    var key := Key(k, x);
    if key in store {
      var ids := Elems(store[key].articleIds) + {x.articleId};
      IdListIs(ids);
      assert forall other :: other in IdList(ids) ==> other in Elems(IdList(ids));
    }
  }

  lemma UpsertOther(k: Keying, w: World, id: int)
    requires NoTrace(w.store, id) && (w.run.Folding? ==> forall x :: x in w.run.inputs ==> x.articleId != id)
    ensures var w' := Apply(k, w, Upsert(Healthy));
            NoTrace(w'.store, id) && (w'.run.Folding? ==> w.run.Folding? && w'.run.inputs == w.run.inputs)
  {
    hide Upserted, Absorb, IsAcceptable;
    if w.run.Folding? && w.run.next < |w.run.inputs| {
      AbsorbOther(k, w.store, w.run.inputs[w.run.next], w.run.now, id);
    }
  }

  /** A run that does not list an article leaves no trace of it. */
  lemma {:induction false} UpsertsOther(k: Keying, w: World, count: nat, id: int)
    requires NoTrace(w.store, id) && w.run.Folding? && forall x :: x in w.run.inputs ==> x.articleId != id
    ensures var w' := Exec(k, w, Upserts(count));
            NoTrace(w'.store, id) && (w'.run.Folding? ==> w'.run.inputs == w.run.inputs)
  {
    hide Apply, NoTrace, Exec, Upserts;
    if count == 0 {
      NoUpserts(k, w);
    } else {
      ExecUpserts(k, w, count - 1);
      UpsertsOther(k, w, count - 1, id);
      UpsertOther(k, Exec(k, w, Upserts(count - 1)), id);
    }
  }

  /** A row that appears at or below the cursor is never listed. */
  lemma LateIsNotListed(t: Table, since: int, id: int)
    requires id in t && IsInput(t[id]) && t[id].finishedAt.value <= since
    ensures forall x :: x in RowsSince(t, since) ==> x.articleId != id
  {
    RowsSinceLast(t, since);
    var keys := KeysSince(t, since);
    OrderedAreKeys(t, keys);
    forall i | 0 <= i < |OrderedKeys(keys)| ensures OrderedKeys(keys)[i].1 != id {
      assert OrderedKeys(keys)[i] in Elems(OrderedKeys(keys));
    }
  }

  lemma LateIsLost(k: Keying, w: World, now: Instant, count: nat, id: int)
    requires NoTrace(w.store, id)
    requires id in w.sys.table && IsInput(w.sys.table[id]) && w.sys.table[id].finishedAt.value <= Since(w)
    ensures NoTrace(Exec(k, w, CleanRun(now, count)).store, id)
  {
    hide RowsSince, Upserted, Absorb, IsAcceptable;
    LateIsNotListed(w.sys.table, Since(w), id);
    var listed := ListInputs(w.(run := Loaded(Since(w), now)));
    CleanRunIs(k, w, now, count);
    UpsertsOther(k, listed, count, id);
  }

  lemma AllDoneHas(k: Keying, w: World, id: int)
    requires k.Sound() && TableSound(w.sys) && id in w.sys.table && IsInput(w.sys.table[id])
    ensures !NoTrace(FoldStore(k, AllDone(w)), id)
  {
    hide CP.Inv, FoldStore, RowsBetween, RowsSince;
    RowsSinceLast(w.sys.table, EPOCH);
    var xs := RowsSince(w.sys.table, EPOCH);
    var last := xs[|xs| - 1].finishedAt;
    RowsSinceIs(w.sys.table, EPOCH, last);
    RowsContain(w.sys.table, EPOCH, last, id);
    RowsDistinct(w.sys.table, EPOCH, last);
    assert id in Ids(xs);
    EventsCover(k, xs, id);
  }

  lemma NewHasNoTrace(k: Keying, w: World, n: nat, id: int)
    requires k.Sound() && Inv(k, w, n) && !(id in w.sys.table && IsInput(w.sys.table[id]))
    ensures NoTrace(w.store, id)
  {
    hide CP.Inv, FoldStore, RowsBetween;
    var rows := Settled(w)[..n];
    RowsDistinct(w.sys.table, EPOCH, Horizon(w));
    forall i | 0 <= i < n ensures rows[i].articleId != id {
      RowsIn(w.sys.table, EPOCH, Horizon(w), i);
    }
    EventsCover(k, rows, id);
    CoreArticles(w.store);
    forall key | key in w.store ensures id !in w.store[key].articleIds {
      assert CoreStore(w.store)[key].articleIds == w.store[key].articleIds;
    }
  }

  /** The inputs that are new in a table. */
  ghost predicate IsNew(t: Table, t': Table, id: int) {
    id in t' && IsInput(t'[id]) && !(id in t && IsInput(t[id]))
  }

  ghost predicate InputsKept(t: Table, t': Table) {
    forall id :: id in t && IsInput(t[id]) ==> id in t' && t'[id] == t[id]
  }

  /** The new rows of a table all finished after a time. */
  ghost predicate NewAfter(t: Table, t': Table, time: int) {
    forall id :: IsNew(t, t', id) ==> t'[id].finishedAt.value > time
  }

  /** The store after a run without faults, from a state of the extractions that is given. */
  ghost function CaughtUp(k: Keying, w: World, sys: CP.System, now: Instant): Store {
    Exec(k, w.(sys := sys), CleanRun(now, |RowsSince(sys.table, Since(w))|)).store
  }

  /**
   How much visibility is enough between runs, after whatever failed: if every new row finished
   after all that was absorbed or stored as a cursor, the next run makes the one-pass store.
   */
  lemma CatchesUpIf(k: Keying, w: World, n: nat, sys: CP.System, now: Instant)
    requires k.Sound() && Inv(k, w, n) && w.run.Idle?
    requires TableSound(sys) && InputsKept(w.sys.table, sys.table)
    requires NewAfter(w.sys.table, sys.table, w.reached)
    ensures CoreStore(CaughtUp(k, w, sys, now)) == FoldStore(k, RowsSince(sys.table, EPOCH))
  {
    hide CP.Inv, CleanRun, RowsSince, CoreStore, FoldStore, StoreAt, Exec;
    InputsAddedKeep(k, w, sys, n);
    CleanRunCompletes(k, w.(sys := sys), n, now);
  }

  /** How much is needed, in every state between runs: a new row at or below the cursor is lost. */
  lemma CatchesUpOnlyIf(k: Keying, w: World, n: nat, sys: CP.System, now: Instant)
    requires k.Sound() && Inv(k, w, n) && w.run.Idle? && TableSound(sys)
    requires CoreStore(CaughtUp(k, w, sys, now)) == FoldStore(k, RowsSince(sys.table, EPOCH))
    ensures NewAfter(w.sys.table, sys.table, Since(w))
  {
    hide CP.Inv, CleanRun, RowsSince, CoreStore, FoldStore, StoreAt, Exec, NoTrace;
    var w1 := w.(sys := sys);
    forall id | IsNew(w.sys.table, sys.table, id) ensures sys.table[id].finishedAt.value > Since(w) {
      if sys.table[id].finishedAt.value <= Since(w) {
        NewHasNoTrace(k, w, n, id);
        LateIsLost(k, w1, now, |RowsSince(sys.table, Since(w))|, id);
        AllDoneHas(k, w1, id);
        TraceInCore(CaughtUp(k, w, sys, now), id);
        assert false;
      }
    }
  }

  /** Both meet where the cursor is at the last row absorbed, as after every run that completed with a row. */
  lemma CatchesUpIff(k: Keying, w: World, n: nat, sys: CP.System, now: Instant)
    requires k.Sound() && Inv(k, w, n) && w.run.Idle? && Since(w) == w.reached
    requires TableSound(sys) && InputsKept(w.sys.table, sys.table)
    ensures CoreStore(CaughtUp(k, w, sys, now)) == FoldStore(k, RowsSince(sys.table, EPOCH))
       <==> NewAfter(w.sys.table, sys.table, Since(w))
  {
    hide CP.Inv, CaughtUp, RowsSince, CoreStore, FoldStore, StoreAt;
    if NewAfter(w.sys.table, sys.table, Since(w)) {
      CatchesUpIf(k, w, n, sys, now);
    }
    if CoreStore(CaughtUp(k, w, sys, now)) == FoldStore(k, RowsSince(sys.table, EPOCH)) {
      CatchesUpOnlyIf(k, w, n, sys, now);
    }
  }

  /** The extractions of a list that are not among the rows yet, in order. */
  ghost function Fresh(rows: seq<Extraction>, xs: seq<Extraction>): seq<Extraction> {
    if xs == [] then []
    else
      var before, x := Fresh(rows, xs[..|xs| - 1]), xs[|xs| - 1];
      before + (if x in rows + before then [] else [x])
  }

  /** One more extraction on a store that is a fold: it goes to the end, unless it is in already. */
  lemma AbsorbFresh(k: Keying, store: Store, rows: seq<Extraction>, x: Extraction, now: int)
    requires k.Sound() && CoreStore(store) == FoldStore(k, rows)
    ensures CoreStore(Absorb(k, store, x, now)) == FoldStore(k, rows + (if x in rows then [] else [x]))
  {
    hide CoreStore, Absorb;
    AbsorbIgnoresTime(k, store, x, now);
    if x in rows {
      ReplayIsIdle(k, rows, x);
      assert rows + [] == rows;
    } else {
      assert (rows + [x])[..|rows|] == rows;
    }
  }

  /** A run on its way: its store is a fold, whatever was absorbed before and in whatever order. */
  ghost predicate Folds(k: Keying, w: World, rows: seq<Extraction>) {
    && w.run.Folding? && CoreStore(w.store) == FoldStore(k, rows) && AllAcceptable(w.store)
    && forall x :: x in w.run.inputs ==> GoodInput(x)
  }

  lemma UpsertFolds(k: Keying, w: World, rows: seq<Extraction>)
    requires k.Sound() && w.run.Folding? && Folds(k, w, rows) && w.run.next < |w.run.inputs|
    ensures var x, w' := w.run.inputs[w.run.next], Apply(k, w, Upsert(Healthy));
            && Folds(k, w', rows + (if x in rows then [] else [x]))
            && w'.run.Folding? && w'.run.next == w.run.next + 1 && w'.run.inputs == w.run.inputs
  {
    hide CoreStore, FoldStore, AllAcceptable, Absorb, Upserted, IsAcceptable, GoodInput;
    var x := w.run.inputs[w.run.next];
    UpsertAcceptable(k, w.store, rows, x, w.run.now);
    AbsorbFresh(k, w.store, rows, x, w.run.now);
  }

  lemma FreshNext(rows: seq<Extraction>, xs: seq<Extraction>, i: nat)
    requires i < |xs|
    ensures var before := rows + Fresh(rows, xs[..i]);
            rows + Fresh(rows, xs[..i + 1]) == before + (if xs[i] in before then [] else [xs[i]])
  {
    assert xs[..i + 1][..i] == xs[..i];
  }

  lemma {:induction false} UpsertsFold(k: Keying, w: World, rows: seq<Extraction>, inputs: seq<Extraction>, count: nat)
    requires k.Sound() && Folds(k, w, rows) && w.run.Folding? && w.run.inputs == inputs
    requires w.run.next == 0 && count <= |inputs|
    ensures var w' := Exec(k, w, Upserts(count));
            && Folds(k, w', rows + Fresh(rows, inputs[..count]))
            && w'.run.Folding? && w'.run.next == count && w'.run.inputs == inputs
  {
    hide Apply, Folds, Fresh, Exec, Upserts;
    if count == 0 {
      NoUpserts(k, w);
      FreshNone(rows, inputs);
    } else {
      UpsertsFold(k, w, rows, inputs, count - 1);
      ExecUpserts(k, w, count - 1);
      var before := rows + Fresh(rows, inputs[..count - 1]);
      UpsertFolds(k, Exec(k, w, Upserts(count - 1)), before);
      FreshNext(rows, inputs, count - 1);
    }
  }

  lemma FreshNone(rows: seq<Extraction>, xs: seq<Extraction>)
    ensures rows + Fresh(rows, xs[..0]) == rows
  {
    assert rows + [] == rows;
  }

  lemma GoodInputs(sys: CP.System, since: int)
    requires TableSound(sys)
    ensures forall x :: x in RowsSince(sys.table, since) ==> GoodInput(x)
  {
    hide CP.Inv, RowsSince, GoodInput, RowsBetween;
    var xs := RowsSince(sys.table, since);
    if xs != [] {
      RowsSinceIsUpTo(sys.table, since);
      forall i | 0 <= i < |xs| ensures GoodInput(xs[i]) {
        InputIsGood(sys, since, xs[|xs| - 1].finishedAt, i);
      }
    }
  }

  lemma RowsSinceIsUpTo(t: Table, since: int)
    requires RowsSince(t, since) != []
    ensures var xs := RowsSince(t, since); xs == RowsBetween(t, since, xs[|xs| - 1].finishedAt)
  {
    hide RowsSince, RowsBetween;
    RowsSinceLast(t, since);
    RowsSinceIs(t, since, RowsSince(t, since)[|RowsSince(t, since)| - 1].finishedAt);
  }

  /**
   What the next run makes, between runs, after whatever failed and whatever new rows appeared: the
   fold of what was absorbed, followed by the rows after the cursor that were not, in order.
   */
  lemma CatchesUpTo(k: Keying, w: World, n: nat, sys: CP.System, now: Instant)
    requires k.Sound() && Inv(k, w, n) && w.run.Idle? && TableSound(sys)
    ensures var absorbed := Settled(w)[..n];
            CoreStore(CaughtUp(k, w, sys, now))
            == FoldStore(k, absorbed + Fresh(absorbed, RowsSince(sys.table, Since(w))))
  {
    hide CP.Inv, RowsSince, CoreStore, FoldStore, AllAcceptable, GoodInput, RowsBetween;
    var w1 := w.(sys := sys);
    var listed := ListInputs(w1.(run := Loaded(Since(w1), now)));
    var inputs := RowsSince(sys.table, Since(w));
    GoodInputs(sys, Since(w));
    UpsertsFold(k, listed, Settled(w)[..n], inputs, |inputs|);
    CleanRunIs(k, w1, now, |inputs|);
    assert inputs[..|inputs|] == inputs;
    SaveFolds(k, Exec(k, listed, Upserts(|inputs|)));
  }

  lemma SaveFolds(k: Keying, w: World)
    requires w.run.Folding?
    ensures Apply(k, w, SaveCursor(Healthy)).store == w.store
  {
  }

  lemma TraceInCore(store: Store, id: int)
    ensures NoTrace(CoreStore(store), id) == NoTrace(store, id)
  {
    CoreArticles(store);
    forall key | key in store ensures id in CoreStore(store)[key].articleIds <==> id in store[key].articleIds {
    }
  }

  lemma EmptyRun(k: Keying, now: Instant)
    ensures var w := Exec(k, START, CleanRun(now, 0));
            && w.sys == START.sys && w.store == map[] && Since(w) == now && w.run.Idle?
  {
    BeginsList(k, START, now);
    CleanRunIs(k, START, now, 0);
    assert KeysSince(map[], EPOCH) == {};
    NoRowsSince(map[], EPOCH);
  }

  /** One request extracts one article: claim, extraction, and the write of the result. */
  function OneExtraction(a: Article, model: string, reply: Reply, started: int, finished: int): seq<CP.Move> {
    [CP.Spawn(CP.Request(0), a, model),
     CP.Advance(CP.Request(0), CP.Choice(Healthy, started, reply)),
     CP.Advance(CP.Request(0), CP.Choice(Healthy, started, reply)),
     CP.Advance(CP.Request(0), CP.Choice(Healthy, finished, reply))]
  }

  /** The state of a single caller that has the table to itself. */
  ghost predicate Alone(s: CP.System, t: Table, c: CP.Caller) {
    s.table == t && CP.Request(0) in s.callers && s.callers[CP.Request(0)] == c
  }

  lemma AloneAdvances(u: Unicode, s: CP.System, t: Table, c: CP.Caller, ch: CP.Choice)
    requires Alone(s, t, c)
    ensures var e := CP.Step(u, t, c, ch);
            Alone(CP.Apply(u, s, CP.Advance(CP.Request(0), ch)), e.table, e.caller)
  {
    hide CP.Step;
  }

  lemma ClaimStep(u: Unicode, a: Article, model: string, ch: CP.Choice)
    requires a.id > 0 && model != "" && ch.fault == Healthy
    ensures var e := CP.Step(u, map[], CP.Caller(a, model, CP.Inserting), ch);
            e.table == map[a.id := PendingRow(model, ch.now)] && e.caller == CP.Caller(a, model, CP.Extracting)
  {
  }

  lemma StoreStep(u: Unicode, a: Article, model: string, row: Row, out: ExtractResult, ch: CP.Choice)
    requires a.id > 0 && model != "" && ch.fault == Healthy && IsValid(out) && out.articleId == a.id
    ensures CP.Step(u, map[a.id := row], CP.Caller(a, model, CP.StoringSuccess(out)), ch).table
         == map[a.id := SucceededRow(row, model, ch.now, out)]
  {
    hide IsValid, SucceededRow;
  }

  lemma ExtractionStores(u: Unicode, a: Article, model: string, reply: Reply, started: int, finished: int)
    requires IsExtractable(u, a) && IsAccepted(a, reply) && model != ""
    ensures CP.Exec(u, CP.INITIAL, OneExtraction(a, model, reply, started, finished)).table
         == map[a.id := SucceededRow(PendingRow(model, started), model, finished, Normalized(reply.result))]
  {
    hide CP.Step, CP.Apply, Report, SucceededRow, PendingRow, CP.Exec;
    var claim, store := CP.Choice(Healthy, started, reply), CP.Choice(Healthy, finished, reply);
    var moves := OneExtraction(a, model, reply, started, finished);
    var pending := map[a.id := PendingRow(model, started)];
    var out := Normalized(reply.result);
    var s1 := CP.Apply(u, CP.INITIAL, moves[0]);
    SpawnedAlone(u, a, model);
    ClaimStep(u, a, model, claim);
    AloneAdvances(u, s1, map[], CP.Caller(a, model, CP.Inserting), claim);
    var s2 := CP.Apply(u, s1, moves[1]);
    AcceptedReport(u, a, reply);
    CP.ExtractingIs(u, pending, CP.Caller(a, model, CP.Extracting), claim);
    AloneAdvances(u, s2, pending, CP.Caller(a, model, CP.Extracting), claim);
    var s3 := CP.Apply(u, s2, moves[2]);
    StoreStep(u, a, model, PendingRow(model, started), out, store);
    AloneAdvances(u, s3, pending, CP.Caller(a, model, CP.StoringSuccess(out)), store);
    FourMoves(u, moves, s1, s2, s3);
  }

  lemma SpawnedAlone(u: Unicode, a: Article, model: string)
    ensures Alone(CP.Apply(u, CP.INITIAL, CP.Spawn(CP.Request(0), a, model)), map[], CP.Caller(a, model, CP.Inserting))
  {
  }

  lemma AcceptedReport(u: Unicode, a: Article, reply: Reply)
    requires IsExtractable(u, a) && IsAccepted(a, reply)
    ensures Report(u, a, reply) == RunReport(true, Ok(Normalized(reply.result)))
  {
  }

  lemma FourMoves(u: Unicode, moves: seq<CP.Move>, s1: CP.System, s2: CP.System, s3: CP.System)
    requires |moves| == 4 && s1 == CP.Apply(u, CP.INITIAL, moves[0])
    requires s2 == CP.Apply(u, s1, moves[1]) && s3 == CP.Apply(u, s2, moves[2])
    ensures CP.Exec(u, CP.INITIAL, moves) == CP.Apply(u, s3, moves[3])
  {
    hide CP.Apply;
    assert moves[..3][..2] == moves[..2] && moves[..2][..1] == moves[..1] && moves[..1][..0] == [];
    assert CP.Exec(u, CP.INITIAL, moves[..1]) == s1;
    assert CP.Exec(u, CP.INITIAL, moves[..2]) == s2;
    assert CP.Exec(u, CP.INITIAL, moves[..3]) == s3;
  }

  /**
   A run that goes wrong: an empty run stores its own time, and an article whose extraction is
   written after it with an earlier time is lost to the next run, though one pass would have it.
   */
  lemma EmptyRunSkipsLateRow(k: Keying, now: Instant, a: Article, model: string, reply: Reply, started: int,
                             finished: int)
    requires k.Sound() && IsExtractable(k.unicode, a) && IsAccepted(a, reply) && model != ""
    requires EPOCH < finished <= now
    ensures var sys := CP.Exec(k.unicode, CP.INITIAL, OneExtraction(a, model, reply, started, finished));
            var w := Exec(k, START, CleanRun(now, 0));
            CoreStore(CaughtUp(k, w, sys, now)) != FoldStore(k, RowsSince(sys.table, EPOCH))
  {
    hide CP.Inv, CP.Apply, CleanRun, RowsSince, CoreStore, FoldStore, Apply, CaughtUp, StoreAt, IsExtractable;
    var w := Exec(k, START, CleanRun(now, 0));
    var moves := OneExtraction(a, model, reply, started, finished);
    var sys := CP.Exec(k.unicode, CP.INITIAL, moves);
    EmptyRun(k, now);
    var n := ExecKeeps(k, CleanRun(now, 0));
    ExtractionStores(k.unicode, a, model, reply, started, finished);
    StartIsSound();
    CP.ExecKeepsInv(k.unicode, CP.INITIAL, moves);
    assert IsNew(w.sys.table, sys.table, a.id);
    if CoreStore(CaughtUp(k, w, sys, now)) == FoldStore(k, RowsSince(sys.table, EPOCH)) {
      CatchesUpOnlyIf(k, w, n, sys, now);
    }
  }

  lemma StartIsSound()
    ensures CP.Inv(CP.INITIAL)
  {
  }
}

/**
 The clustering process over its repository (internal/app/events/cluster.go and
 internal/repository/extraction/repository_events.go), call by call. Every run of it is a run of
 the step system of `IncrementalClustering`.
 */
module ClusterService {
  import opened Results
  import opened Sorting
  import opened Labels
  import opened ExtractionTable
  import opened ClusterKey
  import opened Events
  import opened EventFold
  import opened EventPartition
  import opened ClusterInput
  import opened IncrementalClustering
  import opened ClusteringTheorems

  /** The upserts of a list of extractions, one after the other. */
  ghost function AbsorbAll(k: Keying, store: Store, xs: seq<Extraction>, now: int): Store {
    if xs == [] then store
    else Absorb(k, AbsorbAll(k, store, xs[..|xs| - 1], now), xs[|xs| - 1], now)
  }

  /** The table is keyed by cluster key. */
  ghost predicate Keyed(store: Store) {
    forall key :: key in store ==> store[key].clusterKey == key
  }

  lemma AbsorbKeyed(k: Keying, store: Store, x: Extraction, now: int)
    requires Keyed(store)
    ensures Keyed(Absorb(k, store, x, now))
    ensures Upserted(k, store, x, now).clusterKey == Key(k, x)
    ensures var key := Key(k, x); key in store ==> Upserted(k, store, x, now).createdAt == store[key].createdAt
  {
  }

  /** The events that the upserts of a list of extractions write, in order. */
  ghost function Written(k: Keying, store: Store, xs: seq<Extraction>, now: int): (es: seq<Event>)
    ensures |es| == |xs|
  {
    if xs == [] then []
    else
      var front := xs[..|xs| - 1];
      Written(k, store, front, now) + [Upserted(k, AbsorbAll(k, store, front, now), xs[|xs| - 1], now)]
  }

  /** Upserts keep the creation time of a stored event and give a new one the time of the run. */
  lemma {:induction false} CreationKept(k: Keying, store: Store, xs: seq<Extraction>, now: int, key: string)
    requires key in AbsorbAll(k, store, xs, now)
    ensures AbsorbAll(k, store, xs, now)[key].createdAt == if key in store then store[key].createdAt else now
    decreases |xs|
  {
    if xs != [] {
      var front := xs[..|xs| - 1];
      if key in AbsorbAll(k, store, front, now) {
        CreationKept(k, store, front, now, key);
      } else {
        NeverRemoved(k, store, front, now, key);
      }
    }
  }

  lemma {:induction false} NeverRemoved(k: Keying, store: Store, xs: seq<Extraction>, now: int, key: string)
    ensures key in store ==> key in AbsorbAll(k, store, xs, now)
    decreases |xs|
  {
    if xs != [] {
      NeverRemoved(k, store, xs[..|xs| - 1], now, key);
    }
  }

  lemma UpsertedTimes(k: Keying, store: Store, x: Extraction, now: int)
    ensures var e, key := Upserted(k, store, x, now), Key(k, x);
            && e.updatedAt == now && e.createdAt == (if key in store then store[key].createdAt else now)
            && (e.status == "active" <==> now < e.lastSeenAt + 7_200_000_000_000)
            && (e.status == "closed" <==> now > e.lastSeenAt + 43_200_000_000_000)
            && e.status in {"active", "stale", "closed"}
  {
    hide Key, MergedLabels, MergedStrength, MergedConfidence, Elected, NormalSet, LabelList, IdList;
  }

  /**
   The times of the events that a run writes: written now, created now unless they were stored before,
   and active for two hours after the last article, stale up to twelve, closed after that.
   */
  lemma {:induction false} WrittenTimes(k: Keying, store: Store, xs: seq<Extraction>, now: int, i: nat)
    requires i < |xs|
    ensures var e, key := Written(k, store, xs, now)[i], Key(k, xs[i]);
            && e.updatedAt == now
            && e.createdAt == (if key in store then store[key].createdAt else now)
            && (e.status == "active" <==> now < e.lastSeenAt + 7_200_000_000_000)
            && (e.status == "closed" <==> now > e.lastSeenAt + 43_200_000_000_000)
            && e.status in {"active", "stale", "closed"}
    decreases |xs|
  {
    hide Upserted, Absorb, Key;
    var front := xs[..|xs| - 1];
    if i < |front| {
      WrittenTimes(k, store, front, now, i);
    } else {
      var key := Key(k, xs[i]);
      UpsertedTimes(k, AbsorbAll(k, store, front, now), xs[i], now);
      NeverRemoved(k, store, front, now, key);
      if key in AbsorbAll(k, store, front, now) {
        CreationKept(k, store, front, now, key);
      }
    }
  }

  predicate ById(a: Event, b: Event) {
    LexLess(a.id, b.id)
  }

  lemma ByIdOrders()
    ensures StrictOrder(ById)
  {
    LexTotal();
  }

  lemma AbsorbAllNext(k: Keying, store: Store, xs: seq<Extraction>, i: nat, now: int)
    requires i < |xs|
    ensures AbsorbAll(k, store, xs[..i + 1], now) == Absorb(k, AbsorbAll(k, store, xs[..i], now), xs[i], now)
    ensures Written(k, store, xs[..i + 1], now)
         == Written(k, store, xs[..i], now) + [Upserted(k, AbsorbAll(k, store, xs[..i], now), xs[i], now)]
  {
    hide Absorb, Upserted;
    assert xs[..i + 1][..i] == xs[..i];
  }

  lemma ExecNext(k: Keying, w: World, moves: seq<Move>, m: Move)
    ensures Exec(k, w, moves + [m]) == Apply(k, Exec(k, w, moves), m)
  {
    assert (moves + [m])[..|moves|] == moves;
  }

  lemma StartsThere(k: Keying, w: World, store: Store, xs: seq<Extraction>, now: int)
    ensures Exec(k, w, []) == w && Upserts(0) == []
    ensures AbsorbAll(k, store, xs[..0], now) == store && Written(k, store, xs[..0], now) == []
  {
  }

  lemma LoadsCursor(k: Keying, w: World, now: Instant)
    requires w.run.Idle?
    ensures Exec(k, w, [Abort]) == w
    ensures Exec(k, w, [Abort, Load(now)]) == w.(run := Loaded(Since(w), now))
  {
    var a: seq<Move> := [Abort];
    var b: seq<Move> := [Abort, Load(now)];
    assert a[..0] == [] && b[..1] == a;
  }

  lemma CleanMoves(now: Instant, count: nat)
    ensures [Abort, Load(now)] + ([List] + Upserts(count) + [SaveCursor(Healthy)]) == CleanRun(now, count)
  {
  }

  /** The events are those of a single pass over all done rows. */
  ghost predicate IsOnePass(k: Keying, store: Store, t: Table) {
    CoreStore(store) == FoldStore(k, RowsSince(t, EPOCH))
  }

  lemma AllCaughtUp(k: Keying, w: World, now: Instant)
    requires k.Sound()
    ensures var after := Exec(k, w, CleanRun(now, |RowsSince(w.sys.table, Since(w))|));
            forall n :: Inv(k, w, n) ==> IsOnePass(k, after.store, w.sys.table)
  {
    hide Exec, CleanRun, CoreStore, FoldStore, Inv;
    var after := Exec(k, w, CleanRun(now, |RowsSince(w.sys.table, Since(w))|));
    forall n | Inv(k, w, n) ensures IsOnePass(k, after.store, w.sys.table) {
      CleanRunCompletes(k, w, n, now);
    }
  }

  lemma SingleMove(k: Keying, w: World, m: Move)
    ensures Exec(k, w, [m]) == Apply(k, w, m)
  {
    hide Apply;
    assert [m][..0] == [];
  }

  /** The cursor after a completed run: the last finishing time it listed, or its own time. */
  function CursorAfter(inputs: seq<Extraction>, now: int): int {
    if inputs == [] then now else inputs[|inputs| - 1].finishedAt
  }

  lemma FirstMove(k: Keying, w: World, m: Move)
    requires w.run.Loaded? && (m == List || m == Abort)
    ensures var w' := Apply(k, w, m);
            && w'.sys == w.sys && w'.cursor == w.cursor && w'.store == w.store
            && w'.run == if m == Abort then Idle
                         else Folding(w.run.since, w.run.now, RowsSince(w.sys.table, w.run.since), 0, w.run.since)
  {
  }

  lemma LastMove(k: Keying, w: World, fault: Fault)
    requires w.run.Folding? && w.run.next == |w.run.inputs|
    ensures var w' := Apply(k, w, SaveCursor(fault));
            && w'.sys == w.sys && w'.store == w.store && w'.run.Idle?
            && w'.cursor == if fault == FailsBefore then w.cursor else Some(NewCursor(w.run))
  {
  }

  function UpsertMove(find: Fault, upsert: Fault): Move {
    if find != Healthy then Abort else Upsert(upsert)
  }

  /** What the database calls for one input amount to in the step system. */
  lemma OneMove(k: Keying, w: World, find: Fault, upsert: Fault)
    requires w.run.Folding? && w.run.next < |w.run.inputs|
    ensures var x := w.run.inputs[w.run.next];
            var e := Upserted(k, w.store, x, w.run.now);
            var w' := Apply(k, w, UpsertMove(find, upsert));
            && w'.sys == w.sys && w'.cursor == w.cursor
            && w'.store == (if find != Healthy || !IsAcceptable(e) || upsert == FailsBefore then w.store
                            else Absorb(k, w.store, x, w.run.now))
            && w'.run == (if find == Healthy && IsAcceptable(e) && upsert == Healthy
                          then w.run.(next := w.run.next + 1, latest := Max(w.run.latest, x.finishedAt)) else Idle)
  {
    hide Upserted, Absorb, IsAcceptable;
  }

  lemma RowsSinceAscend(t: Table, since: int, i: nat)
    requires i < |RowsSince(t, since)|
    ensures since < RowsSince(t, since)[i].finishedAt
    ensures i > 0 ==> RowsSince(t, since)[i - 1].finishedAt <= RowsSince(t, since)[i].finishedAt
  {
    RowsSinceLast(t, since);
    var xs := RowsSince(t, since);
    var last := xs[|xs| - 1].finishedAt;
    RowsSinceIs(t, since, last);
    RowsIn(t, since, last, i);
    if i > 0 {
      RowsAscend(t, since, last, i - 1, i);
    }
  }

  lemma SortedRowKeys(out: seq<RowKey>, keys: set<RowKey>)
    requires Distinct(out) && Elems(out) == keys
    ensures Sort(out, KeyLess) == OrderedKeys(keys)
  {
    KeyLessTotal();
    SortIsListing(out, KeyLess);
  }

  /** The order in which the query lists its inputs. */
  ghost predicate OrderedAfter(inputs: seq<Extraction>, since: int) {
    && (forall i :: 0 <= i < |inputs| ==> since < inputs[i].finishedAt)
    && (forall i :: 1 <= i < |inputs| ==> inputs[i - 1].finishedAt <= inputs[i].finishedAt)
  }

  lemma RowsSinceOrdered(t: Table, since: int)
    ensures OrderedAfter(RowsSince(t, since), since)
  {
    hide RowsSince;
    forall i | 0 <= i < |RowsSince(t, since)|
      ensures since < RowsSince(t, since)[i].finishedAt
      ensures i > 0 ==> RowsSince(t, since)[i - 1].finishedAt <= RowsSince(t, since)[i].finishedAt
    {
      RowsSinceAscend(t, since, i);
    }
  }

  /** The inputs of a query in the order it asks for, whatever order the rows come in. */
  method SortedKeys(keys: set<RowKey>) returns (out: seq<RowKey>)
    ensures out == OrderedKeys(keys)
  {
    out := [];
    var rest := keys;
    while rest != {}
      invariant rest <= keys
      invariant Elems(out) == keys - rest
      invariant Distinct(out)
      decreases |rest|
    {
      var key :| key in rest;
      Collect(out, key);
      out := out + [key];
      rest := rest - {key};
    }
    SortedRowKeys(out, keys);
    out := Sort(out, KeyLess);
  }

  method SortEvents(events: seq<Event>) returns (sorted: seq<Event>)
    ensures multiset(sorted) == multiset(events) && |sorted| == |events|
    ensures SortedBy(sorted, ById)
  {
    ByIdOrders();
    SortedByOrder(events, ById);
    sorted := Sort(events, ById);
    assert |multiset(sorted)| == |multiset(events)|;
  }

  class EventRepository {
    var rows: Table
    var events: Store
    var cursor: Option<int>

    constructor (rows: Table)
      ensures this.rows == rows && events == map[] && cursor == None
    {
      this.rows, events, cursor := rows, map[], None;
    }

    method ListSuccessfulExtractionsSince(since: int, fault: Fault) returns (r: Result<seq<Extraction>>)
      ensures fault == Healthy ==> r == Ok(RowsSince(rows, since))
      ensures fault != Healthy ==> r.Err?
    {
      if fault != Healthy {
        return Err("list successful extractions since");
      }
      OrderedAreKeys(rows, KeysSince(rows, since));
      var keys := SortedKeys(KeysSince(rows, since));
      var items: seq<Extraction> := [];
      for i := 0 to |keys|
        invariant |items| == i
        invariant forall j :: 0 <= j < i ==> items[j] == RowsSince(rows, since)[j]
      {
        assert keys[i] in keys;
        var row := rows[keys[i].1];
        var item := Extraction(keys[i].1, row.eventType.value, row.geoCluster.value, [], [], [],
                               row.impactDirection.value, row.impactStrength.value, row.confidence.value,
                               row.finishedAt.value);
        if row.countries.Some? {
          item := item.(countries := row.countries.value);
        }
        if row.sectors.Some? {
          item := item.(sectors := row.sectors.value);
        }
        if row.industries.Some? {
          item := item.(industries := row.industries.value);
        }
        items := items + [item];
      }
      assert items == RowsSince(rows, since);
      return Ok(items);
    }

    method GetEventByClusterKey(key: string, fault: Fault) returns (r: Result<Option<Event>>)
      ensures fault == Healthy ==> r == Ok(if key in events then Some(events[key]) else None)
      ensures fault != Healthy ==> r.Err?
    {
      if fault != Healthy {
        return Err("get aggregated event by cluster key");
      }
      return Ok(if key in events then Some(events[key]) else None);
    }

    /** Insert, or update of everything but the creation time. */
    method UpsertEventByClusterKey(e: Event, fault: Fault) returns (err: Option<string>)
      modifies `events
      ensures !IsAcceptable(e) || fault == FailsBefore ==> err.Some? && events == old(events)
      ensures IsAcceptable(e) && fault != FailsBefore ==>
                && (err == None <==> fault == Healthy)
                && events == old(events)[e.clusterKey :=
                               if e.clusterKey in old(events)
                               then e.(createdAt := old(events)[e.clusterKey].createdAt) else e]
    {
      if !IsAcceptable(e) {
        return Some("validate event");
      }
      if fault == FailsBefore {
        return Some("upsert aggregated event by cluster key");
      }
      if e.clusterKey in events {
        events := events[e.clusterKey := e.(createdAt := events[e.clusterKey].createdAt)];
      } else {
        events := events[e.clusterKey := e];
      }
      return if fault == FailsAfter then Some("upsert aggregated event by cluster key") else None;
    }

    method GetClusteringCursor(fault: Fault) returns (r: Result<Option<int>>)
      ensures fault == Healthy ==> r == Ok(cursor)
      ensures fault != Healthy ==> r.Err?
    {
      if fault != Healthy {
        return Err("get clustering cursor");
      }
      return Ok(cursor);
    }

    method SetClusteringCursor(lastRunAt: int, fault: Fault) returns (err: Option<string>)
      modifies `cursor
      ensures cursor == if fault == FailsBefore then old(cursor) else Some(lastRunAt)
      ensures err == None <==> fault == Healthy
    {
      if fault != FailsBefore {
        cursor := Some(lastRunAt);
      }
      return if fault == Healthy then None else Some("set clustering cursor");
    }
  }

  datatype RunResult = RunResult(considered: nat, upserted: nat, events: seq<Event>)

  /** A run that has listed and folded all its inputs. */
  ghost predicate Folded(k: Keying, w: World, start: Store, events: Store, inputs: seq<Extraction>, latest: int,
                         upserted: seq<Event>, moves: seq<Move>)
    requires w.run.Loaded?
  {
    && events == AbsorbAll(k, start, inputs, w.run.now)
    && upserted == Written(k, start, inputs, w.run.now)
    && moves == [List] + Upserts(|inputs|)
    && (if latest > w.run.since then latest else w.run.now) == CursorAfter(inputs, w.run.now)
    && Exec(k, w, moves).run == Folding(w.run.since, w.run.now, inputs, |inputs|, latest)
  }

  lemma FoldedIs(k: Keying, w: World, start: Store, events: Store, inputs: seq<Extraction>, latest: int,
                 upserted: seq<Event>, moves: seq<Move>)
    requires w.run.Loaded? && Folded(k, w, start, events, inputs, latest, upserted, moves)
    ensures events == AbsorbAll(k, start, inputs, w.run.now)
    ensures upserted == Written(k, start, inputs, w.run.now) && |upserted| == |inputs|
    ensures moves == [List] + Upserts(|inputs|)
    ensures (if latest > w.run.since then latest else w.run.now) == CursorAfter(inputs, w.run.now)
    ensures var run := Exec(k, w, moves).run;
            && run.Folding? && run.next == |run.inputs|
            && run.since == w.run.since && run.now == w.run.now && run.latest == latest
  {
  }

  /** What a run reports: its counts, and the events it wrote in the order of their numbers. */
  ghost predicate IsResult(k: Keying, start: Store, inputs: seq<Extraction>, now: int, r: RunResult) {
    && r.considered == r.upserted == |inputs|
    && multiset(r.events) == multiset(Written(k, start, inputs, now))
    && SortedBy(r.events, ById)
  }

  lemma ReportedResult(k: Keying, start: Store, inputs: seq<Extraction>, now: int, upserted: seq<Event>,
                       events: seq<Event>)
    requires upserted == Written(k, start, inputs, now)
    requires multiset(events) == multiset(upserted) && SortedBy(events, ById)
    ensures IsResult(k, start, inputs, now, RunResult(|inputs|, |upserted|, events))
  {
    hide SortedBy, Written;
  }

  /** What the database does to the calls of one run; the counted ones by the number of their input. */
  datatype Faults = Faults(load: Fault, list: Fault, find: nat -> Fault, upsert: nat -> Fault, save: Fault) {
    /** No call of a run with so many inputs fails. */
    ghost predicate Without(count: nat) {
      && load == Healthy && list == Healthy && save == Healthy
      && forall i: nat :: i < count ==> find(i) == Healthy && upsert(i) == Healthy
    }
  }

  /** The step system is where the repository is. */
  ghost predicate Matches(w: World, repo: EventRepository)
    reads repo
  {
    w.sys.table == repo.rows && w.store == repo.events && w.cursor == repo.cursor
  }

  class Service {
    const repo: EventRepository

    constructor (repo: EventRepository)
      ensures this.repo == repo
    {
      this.repo := repo;
    }

    /** One input: find its event, create or merge, and write it. */
    method ClusterOne(k: Keying, x: Extraction, now: int, find: Fault, upsert: Fault) returns (r: Result<Event>)
      requires k.Sound() && Keyed(repo.events)
      modifies repo`events
      ensures find != Healthy ==> r.Err? && repo.events == old(repo.events)
      ensures var e := Upserted(k, old(repo.events), x, now);
              find == Healthy ==>
                && repo.events == (if !IsAcceptable(e) || upsert == FailsBefore then old(repo.events)
                                   else Absorb(k, old(repo.events), x, now))
                && r.Ok? == (IsAcceptable(e) && upsert == Healthy)
                && (r.Ok? ==> r.value == e)
      ensures Keyed(repo.events)
    {
      AbsorbKeyed(k, repo.events, x, now);
      var key := BuildClusterKey(k, x);
      var found := repo.GetEventByClusterKey(key, find);
      if found.Err? {
        return Err("get event by cluster key");
      }
      var merged: Event;
      if found.value.Some? {
        merged := MergeEvent(k, found.value.value, x, now);
      } else {
        var created := NewEventFromExtraction(k, key, x, now);
        if created.Err? {
          return Err("build new event for cluster key");
        }
        merged := created.value;
      }
      var failed := repo.UpsertEventByClusterKey(merged, upsert);
      if failed.Some? {
        return Err("upsert event by cluster key");
      }
      return Ok(merged);
    }

    /** One input, as a move of the step system. */
    method FoldNext(k: Keying, x: Extraction, now: Instant, find: Fault, upsert: Fault, ghost w: World)
      returns (r: Result<Event>, ghost took: bool)
      requires k.Sound() && Keyed(repo.events) && Matches(w, repo)
      requires w.run.Folding? && w.run.next < |w.run.inputs| && w.run.inputs[w.run.next] == x && w.run.now == now
      modifies repo`events
      ensures Keyed(repo.events) && Matches(Apply(k, w, UpsertMove(find, upsert)), repo)
      ensures repo.events == if took then Absorb(k, old(repo.events), x, w.run.now) else old(repo.events)
      ensures var run := Apply(k, w, UpsertMove(find, upsert)).run;
              if r.Ok? then took && run == w.run.(next := w.run.next + 1, latest := Max(w.run.latest, x.finishedAt))
              else run.Idle?
      ensures r.Ok? <==> !CannotWrite(k, old(repo.events), x, w.run.now, find, upsert)
      ensures r.Ok? ==> r.value == Upserted(k, old(repo.events), x, w.run.now)
    {
      hide Apply, Upserted, Absorb, IsAcceptable, Keyed;
      OneMove(k, w, find, upsert);
      ghost var e := Upserted(k, repo.events, x, w.run.now);
      took := find == Healthy && IsAcceptable(e) && upsert != FailsBefore;
      r := ClusterOne(k, x, now, find, upsert);
    }

    /** The loop over the inputs, up to the first failure. */
    method FoldInputs(k: Keying, inputs: seq<Extraction>, since: int, now: Instant, faults: Faults, ghost w: World)
      returns (ok: bool, latest: int, upserted: seq<Event>, ghost absorbed: nat, ghost moves: seq<Move>)
      requires k.Sound() && Keyed(repo.events)
      requires Matches(w, repo) && w.run == Folding(since, now, inputs, 0, since)
      requires OrderedAfter(inputs, since)
      modifies repo`events
      ensures Keyed(repo.events)
      ensures if ok then Progress(k, w, old(repo.events), repo.events, upserted, |inputs|, latest, moves)
              else Stopped(k, w, old(repo.events), repo.events, faults, absorbed, moves)
      ensures ok ==> NoFailure(k, old(repo.events), inputs, now, faults, |inputs|)
    {
      hide Apply, Exec, Absorb, Upserted, Keyed, CannotWrite, Progress, Stopped, OrderedAfter, UpsertMove, Failure;
      latest, upserted, absorbed, moves := since, [], 0, [];
      ProgressStarts(k, w);
      for i := 0 to |inputs|
        invariant repo.rows == old(repo.rows) && repo.cursor == old(repo.cursor)
        invariant Keyed(repo.events)
        invariant Progress(k, w, old(repo.events), repo.events, upserted, i, latest, moves)
        invariant NoFailure(k, old(repo.events), inputs, now, faults, i)
      {
        ghost var before := repo.events;
        var seen := latest;
        var item := inputs[i];
        if item.finishedAt > latest {
          latest := item.finishedAt;
        }
        ProgressIs(k, w, old(repo.events), before, upserted, i, seen, moves);
        var written;
        ghost var took;
        written, took := FoldNext(k, item, now, faults.find(i), faults.upsert(i), Exec(k, w, moves));
        if written.Err? {
          ok := false;
          ProgressStops(k, w, old(repo.events), before, upserted, i, seen, moves, faults, took);
          absorbed := if took then i + 1 else i;
          moves := moves + [UpsertMove(faults.find(i), faults.upsert(i))];
          return;
        }
        ProgressNext(k, w, old(repo.events), before, upserted, i, seen, moves, faults);
        moves := moves + [Upsert(Healthy)];
        upserted := upserted + [written.value];
      }
      ok := true;
    }

    /** The listing, as a move of the step system. */
    method LoadInputs(k: Keying, since: int, fault: Fault, ghost w: World)
      returns (list: Result<seq<Extraction>>, ghost listed: World)
      requires Matches(w, repo) && w.run.Loaded? && w.run.since == since
      ensures listed == Exec(k, w, [if list.Ok? then List else Abort]) && Matches(listed, repo)
      ensures list.Ok? <==> fault == Healthy
      ensures if list.Err? then listed.run.Idle?
              else
                && list.value == RowsSince(repo.rows, since) && OrderedAfter(list.value, since)
                && listed.run == Folding(since, w.run.now, list.value, 0, since)
    {
      hide Apply, Exec, RowsSince;
      list := repo.ListSuccessfulExtractionsSince(since, fault);
      ghost var first := if list.Ok? then List else Abort;
      SingleMove(k, w, first);
      FirstMove(k, w, first);
      listed := Exec(k, w, [first]);
      RowsSinceOrdered(repo.rows, since);
    }

    /** The write of the cursor, as a move of the step system. */
    method StoreCursor(k: Keying, since: int, now: Instant, latest: int, fault: Fault, ghost w: World)
      returns (failed: Option<string>)
      requires Matches(w, repo) && w.run.Folding? && w.run.next == |w.run.inputs|
      requires w.run.since == since && w.run.now == now && w.run.latest == latest
      modifies repo`cursor
      ensures var w' := Apply(k, w, SaveCursor(fault)); Matches(w', repo) && w'.run.Idle?
      ensures failed == None <==> fault == Healthy
      ensures failed == None ==> repo.cursor == Some(if latest > since then latest else now)
    {
      hide Apply;
      var cursorToStore: int := now;
      if latest > since {
        cursorToStore := latest;
      }
      failed := repo.SetClusteringCursor(cursorToStore, fault);
      LastMove(k, w, fault);
    }

    /** The listing and the loop, up to the first failure. */
    method ListAndFold(k: Keying, since: int, at: Instant, faults: Faults, ghost w: World)
      returns (ok: bool, considered: nat, latest: int, upserted: seq<Event>, ghost moves: seq<Move>)
      requires k.Sound() && Keyed(repo.events)
      requires Matches(w, repo) && w.run == Loaded(since, at)
      modifies repo`events
      ensures Keyed(repo.events) && Matches(Exec(k, w, moves), repo)
      ensures ok ==> Folded(k, w, old(repo.events), repo.events, RowsSince(repo.rows, since), latest, upserted, moves)
      ensures ok ==> considered == |RowsSince(repo.rows, since)|
      ensures !ok ==> Exec(k, w, moves).run.Idle?
      ensures ok ==> faults.list == Healthy
      ensures ok ==> NoFailure(k, old(repo.events), RowsSince(repo.rows, since), at, faults, considered)
      ensures !ok ==> if faults.list != Healthy then moves == [Abort]
                      else FailsAt(k, old(repo.events), RowsSince(repo.rows, since), at, faults, moves)
    {
      hide Apply, Exec, AbsorbAll, Written, Keyed, RowsSince, Upserts, Progress, Stopped, NoFailure, OrderedAfter,
        CursorAfter, UpsertMove, FirstFailure, FailsAt;
      ok, considered, latest, upserted, moves := false, 0, since, [], [Abort];
      var list;
      ghost var listed, absorbed;
      list, listed := LoadInputs(k, since, faults.list, w);
      if list.Err? {
        return;
      }
      considered := |list.value|;
      ok, latest, upserted, absorbed, moves := FoldInputs(k, list.value, since, at, faults, listed);
      ExecConcat(k, w, [List], moves);
      if ok {
        ProgressDone(k, listed, old(repo.events), repo.events, upserted, latest, moves);
      } else {
        StoppedIs(k, listed, old(repo.events), repo.events, faults, absorbed, moves);
        FailsThere(k, old(repo.events), list.value, at, faults, moves);
      }
      moves := [List] + moves;
    }

    /** Lists, folds, and stores the cursor; a failure ends the run where it happens. */
    method ClusterNewExtractResults(k: Keying, since: int, now: int, clock: Instant, faults: Faults, ghost w: World)
      returns (r: Result<RunResult>, ghost moves: seq<Move>)
      requires k.Sound() && Keyed(repo.events)
      requires Matches(w, repo) && w.run == Loaded(since, RunTime(now, clock))
      modifies repo`events, repo`cursor
      ensures Keyed(repo.events)
      ensures Matches(Exec(k, w, moves), repo) && Exec(k, w, moves).run.Idle?
      ensures var inputs := RowsSince(repo.rows, since);
              r.Ok? ==>
                && moves == [List] + Upserts(|inputs|) + [SaveCursor(Healthy)]
                && repo.events == AbsorbAll(k, old(repo.events), inputs, RunTime(now, clock))
                && repo.cursor == Some(CursorAfter(inputs, RunTime(now, clock)))
                && IsResult(k, old(repo.events), inputs, RunTime(now, clock), r.value)
      ensures Takes(k, old(repo.events), RowsSince(repo.rows, since), RunTime(now, clock), faults, moves)
      ensures var inputs := RowsSince(repo.rows, since);
              r.Ok? <==> faults.list == Healthy && faults.save == Healthy
                         && NoFailure(k, old(repo.events), inputs, RunTime(now, clock), faults, |inputs|)
    {
      hide Apply, Exec, AbsorbAll, Written, Keyed, RowsSince, Upserts, NoFailure, FailsAt, CursorAfter, IsResult,
        Folded;
      var at: Instant := if now == ZERO_TIME then clock else now;
      var ok, considered, latest, upserted;
      ok, considered, latest, upserted, moves := ListAndFold(k, since, at, faults, w);
      if !ok {
        FailsNotAll(k, old(repo.events), RowsSince(repo.rows, since), at, faults, moves);
        return Err("cluster"), moves;
      }
      FoldedIs(k, w, old(repo.events), repo.events, RowsSince(repo.rows, since), latest, upserted, moves);
      ExecNext(k, w, moves, SaveCursor(faults.save));
      var failed := StoreCursor(k, since, at, latest, faults.save, Exec(k, w, moves));
      moves := moves + [SaveCursor(faults.save)];
      if failed.Some? {
        return Err("store clustering cursor"), moves;
      }
      var events := SortEvents(upserted);
      ReportedResult(k, old(repo.events), RowsSince(repo.rows, since), at, upserted, events);
      return Ok(RunResult(considered, |upserted|, events)), moves;
    }

    /**
     A scheduled run, from the stored cursor. It is a run of the step system, and its moves are fixed by
     the faults. In a sound store it reports success exactly if no call of the database failed, and the
     store is then that of one pass.
     */
    method ClusterFromStoredCursor(k: Keying, now: int, clock: Instant, faults: Faults, ghost w: World)
      returns (r: Result<RunResult>, ghost moves: seq<Move>)
      requires k.Sound() && Keyed(repo.events)
      requires Matches(w, repo) && w.run.Idle?
      modifies repo`events, repo`cursor
      ensures Keyed(repo.events)
      ensures Matches(Exec(k, w, moves), repo) && Exec(k, w, moves).run.Idle?
      ensures r.Ok? ==> moves == CleanRun(RunTime(now, clock), |RowsSince(repo.rows, Since(w))|)
      ensures r.Ok? ==> IsResult(k, old(repo.events), RowsSince(repo.rows, Since(w)), RunTime(now, clock), r.value)
      ensures if faults.load != Healthy then moves == [Abort]
              else
                && |moves| >= 2 && moves[..2] == [Abort, Load(RunTime(now, clock))]
                && Takes(k, old(repo.events), RowsSince(repo.rows, Since(w)), RunTime(now, clock), faults, moves[2..])
      ensures var inputs := RowsSince(repo.rows, Since(w));
              r.Ok? <==> faults.load == Healthy && faults.list == Healthy && faults.save == Healthy
                         && NoFailure(k, old(repo.events), inputs, RunTime(now, clock), faults, |inputs|)
      ensures forall n: nat :: Inv(k, w, n) ==> (r.Ok? <==> faults.Without(|RowsSince(repo.rows, Since(w))|))
      ensures forall n :: r.Ok? && Inv(k, w, n) ==> IsOnePass(k, repo.events, repo.rows)
    {
      hide Apply, Exec, Keyed, RowsSince, Upserts, FoldStore, CoreStore, Inv, CleanRun, NoFailure, IsResult, Takes,
        AbsorbAll;
      ghost var at := RunTime(now, clock);
      LoadsCursor(k, w, at);
      OnlyFaultsStop(k, w, at, faults);
      moves := [Abort];
      var stored := repo.GetClusteringCursor(faults.load);
      if stored.Err? {
        return Err("load clustering cursor"), moves;
      }
      var since := 0;
      if stored.value.Some? {
        since := stored.value.value;
      }
      ghost var more;
      r, more := ClusterNewExtractResults(k, since, now, clock, faults, w.(run := Loaded(since, at)));
      moves := [Abort, Load(at)] + more;
      ExecConcat(k, w, [Abort, Load(at)], more);
      if r.Ok? {
        CleanMoves(at, |RowsSince(repo.rows, since)|);
        AllCaughtUp(k, w, at);
      }
    }
  }

  /** A run without a time of its own takes that of the clock. */
  function RunTime(now: int, clock: Instant): Instant {
    if now == ZERO_TIME then clock else now
  }

  /** After `i` inputs without a failure. */
  ghost predicate Progress(k: Keying, w: World, start: Store, events: Store, upserted: seq<Event>, i: nat,
                           latest: int, moves: seq<Move>)
    requires w.run.Folding? && i <= |w.run.inputs|
  {
    var w' := Exec(k, w, moves);
    && events == AbsorbAll(k, start, w.run.inputs[..i], w.run.now)
    && upserted == Written(k, start, w.run.inputs[..i], w.run.now)
    && latest == (if i == 0 then w.run.since else w.run.inputs[i - 1].finishedAt)
    && moves == Upserts(i)
    && w'.run == w.run.(next := i, latest := latest)
    && w'.store == events && w'.sys == w.sys && w'.cursor == w.cursor
  }

  /** After a failure; the first `absorbed` inputs have been written. */
  ghost predicate Stopped(k: Keying, w: World, start: Store, events: Store, faults: Faults, absorbed: nat,
                          moves: seq<Move>)
    requires w.run.Folding?
  {
    var w' := Exec(k, w, moves);
    && absorbed <= |w.run.inputs|
    && events == AbsorbAll(k, start, w.run.inputs[..absorbed], w.run.now)
    && w'.run.Idle? && w'.store == events && w'.sys == w.sys && w'.cursor == w.cursor
    && exists i :: FirstFailure(k, start, w.run.inputs, w.run.now, faults, i, moves)
  }

  lemma ProgressStarts(k: Keying, w: World)
    requires w.run.Folding? && w.run.next == 0 && w.run.latest == w.run.since
    ensures Progress(k, w, w.store, w.store, [], 0, w.run.since, [])
  {
    hide Apply;
    StartsThere(k, w, w.store, w.run.inputs, w.run.now);
  }

  lemma ProgressIs(k: Keying, w: World, start: Store, events: Store, upserted: seq<Event>, i: nat, latest: int,
                   moves: seq<Move>)
    requires w.run.Folding? && i <= |w.run.inputs| && Progress(k, w, start, events, upserted, i, latest, moves)
    ensures var w' := Exec(k, w, moves);
            && w'.run == w.run.(next := i, latest := latest)
            && w'.store == events && w'.sys == w.sys && w'.cursor == w.cursor
  {
  }

  /** What a completed loop has done. */
  lemma ProgressDone(k: Keying, w: World, start: Store, events: Store, upserted: seq<Event>, latest: int,
                     moves: seq<Move>)
    requires w.run.Folding? && Progress(k, w, start, events, upserted, |w.run.inputs|, latest, moves)
    requires OrderedAfter(w.run.inputs, w.run.since)
    ensures (if latest > w.run.since then latest else w.run.now) == CursorAfter(w.run.inputs, w.run.now)
    ensures var inputs, w' := w.run.inputs, Exec(k, w, moves);
            && events == AbsorbAll(k, start, inputs, w.run.now)
            && upserted == Written(k, start, inputs, w.run.now)
            && moves == Upserts(|inputs|)
            && w'.run == w.run.(next := |inputs|, latest := latest)
            && w'.store == events && w'.sys == w.sys && w'.cursor == w.cursor
  {
    hide Exec, AbsorbAll, Written;
    assert w.run.inputs[..|w.run.inputs|] == w.run.inputs;
  }

  lemma StoppedIs(k: Keying, w: World, start: Store, events: Store, faults: Faults, absorbed: nat, moves: seq<Move>)
    requires w.run.Folding? && Stopped(k, w, start, events, faults, absorbed, moves)
    ensures var w' := Exec(k, w, moves);
            w'.run.Idle? && w'.store == events && w'.sys == w.sys && w'.cursor == w.cursor
    ensures exists i :: FirstFailure(k, start, w.run.inputs, w.run.now, faults, i, moves)
  {
    hide FirstFailure;
  }

  lemma ProgressNext(k: Keying, w: World, start: Store, events: Store, upserted: seq<Event>, i: nat, latest: int,
                     moves: seq<Move>, faults: Faults)
    requires w.run.Folding? && i < |w.run.inputs| && Progress(k, w, start, events, upserted, i, latest, moves)
    requires OrderedAfter(w.run.inputs, w.run.since)
    requires !CannotWrite(k, events, w.run.inputs[i], w.run.now, faults.find(i), faults.upsert(i))
    ensures Progress(k, w, start, Absorb(k, events, w.run.inputs[i], w.run.now),
                     upserted + [Upserted(k, events, w.run.inputs[i], w.run.now)], i + 1,
                     Max(latest, w.run.inputs[i].finishedAt), moves + [Upsert(Healthy)])
    ensures NoFailure(k, start, w.run.inputs, w.run.now, faults, i) ==>
              NoFailure(k, start, w.run.inputs, w.run.now, faults, i + 1)
  {
    hide Apply, Upserted, Absorb, IsAcceptable, AbsorbAll, Written, Exec;
    AbsorbAllNext(k, start, w.run.inputs, i, w.run.now);
    OneMove(k, Exec(k, w, moves), Healthy, Healthy);
    ExecNext(k, w, moves, Upsert(Healthy));
  }

  lemma ProgressStops(k: Keying, w: World, start: Store, events: Store, upserted: seq<Event>, i: nat, latest: int,
                      moves: seq<Move>, faults: Faults, took: bool)
    requires w.run.Folding? && i < |w.run.inputs| && Progress(k, w, start, events, upserted, i, latest, moves)
    requires CannotWrite(k, events, w.run.inputs[i], w.run.now, faults.find(i), faults.upsert(i))
    requires NoFailure(k, start, w.run.inputs, w.run.now, faults, i)
    requires Apply(k, Exec(k, w, moves), UpsertMove(faults.find(i), faults.upsert(i))).store
          == if took then Absorb(k, events, w.run.inputs[i], w.run.now) else events
    ensures Stopped(k, w, start, if took then Absorb(k, events, w.run.inputs[i], w.run.now) else events, faults,
                    if took then i + 1 else i, moves + [UpsertMove(faults.find(i), faults.upsert(i))])
  {
    hide Apply, Upserted, Absorb, IsAcceptable, AbsorbAll, Written, Exec, NoFailure, UpsertMove;
    var all := moves + [UpsertMove(faults.find(i), faults.upsert(i))];
    AbsorbAllNext(k, start, w.run.inputs, i, w.run.now);
    OneMove(k, Exec(k, w, moves), faults.find(i), faults.upsert(i));
    ExecNext(k, w, moves, UpsertMove(faults.find(i), faults.upsert(i)));
    assert FirstFailure(k, start, w.run.inputs, w.run.now, faults, i, all);
  }

  ghost predicate CannotWrite(k: Keying, store: Store, x: Extraction, now: int, find: Fault, upsert: Fault) {
    find != Healthy || upsert != Healthy || !IsAcceptable(Upserted(k, store, x, now))
  }

  /** The input at which a run fails: a fault of the database, or an event that is not valid. */
  ghost predicate Failure(k: Keying, store: Store, inputs: seq<Extraction>, now: int, faults: Faults, i: int) {
    && 0 <= i < |inputs|
    && CannotWrite(k, AbsorbAll(k, store, inputs[..i], now), inputs[i], now, faults.find(i), faults.upsert(i))
  }

  ghost predicate NoFailure(k: Keying, store: Store, inputs: seq<Extraction>, now: int, faults: Faults, count: nat) {
    forall i :: 0 <= i < count ==> !Failure(k, store, inputs, now, faults, i)
  }

  /** The loop ends at its first failure, with the call that failed as its last move. */
  ghost predicate FirstFailure(k: Keying, store: Store, inputs: seq<Extraction>, now: int, faults: Faults, i: nat,
                               moves: seq<Move>) {
    && Failure(k, store, inputs, now, faults, i) && NoFailure(k, store, inputs, now, faults, i)
    && moves == Upserts(i) + [UpsertMove(faults.find(i), faults.upsert(i))]
  }

  /** The same for a run that lists its inputs first. */
  ghost predicate FailsAt(k: Keying, store: Store, inputs: seq<Extraction>, now: int, faults: Faults, moves: seq<Move>) {
    moves != [] && moves[0] == List && exists i :: FirstFailure(k, store, inputs, now, faults, i, moves[1..])
  }

  /** The moves of a run from its listing on. */
  ghost predicate Takes(k: Keying, store: Store, inputs: seq<Extraction>, now: int, faults: Faults, moves: seq<Move>) {
    if faults.list != Healthy then moves == [Abort]
    else if NoFailure(k, store, inputs, now, faults, |inputs|) then
      moves == [List] + Upserts(|inputs|) + [SaveCursor(faults.save)]
    else FailsAt(k, store, inputs, now, faults, moves)
  }

  lemma FailsThere(k: Keying, store: Store, inputs: seq<Extraction>, now: int, faults: Faults, moves: seq<Move>)
    requires exists i :: FirstFailure(k, store, inputs, now, faults, i, moves)
    ensures FailsAt(k, store, inputs, now, faults, [List] + moves)
  {
    hide FirstFailure;
    assert ([List] + moves)[1..] == moves;
  }

  lemma FailsNotAll(k: Keying, store: Store, inputs: seq<Extraction>, now: int, faults: Faults, moves: seq<Move>)
    requires faults.list == Healthy ==> FailsAt(k, store, inputs, now, faults, moves)
    ensures faults.list == Healthy ==> !NoFailure(k, store, inputs, now, faults, |inputs|)
  {
    hide CannotWrite, AbsorbAll;
  }

  /** Absorbing a list into a store that is a fold makes the fold with the new ones at its end. */
  lemma {:induction false} AbsorbAllFolds(k: Keying, store: Store, rows: seq<Extraction>, xs: seq<Extraction>,
                                          now: Instant)
    requires k.Sound() && CoreStore(store) == FoldStore(k, rows) && AllAcceptable(store)
    requires forall x :: x in xs ==> GoodInput(x)
    ensures CoreStore(AbsorbAll(k, store, xs, now)) == FoldStore(k, rows + Fresh(rows, xs))
    ensures AllAcceptable(AbsorbAll(k, store, xs, now))
  {
    hide CoreStore, FoldStore, AllAcceptable, GoodInput, Absorb;
    if xs == [] {
      assert rows + [] == rows;
    } else {
      var front, x := xs[..|xs| - 1], xs[|xs| - 1];
      AbsorbAllFolds(k, store, rows, front, now);
      var before := rows + Fresh(rows, front);
      UpsertAcceptable(k, AbsorbAll(k, store, front, now), before, x, now);
      AbsorbFresh(k, AbsorbAll(k, store, front, now), before, x, now);
      assert rows + Fresh(rows, xs) == before + (if x in before then [] else [x]);
    }
  }

  /** In a store that is a fold every input can be written, so only faults of the database are failures. */
  lemma FailureIsFault(k: Keying, store: Store, rows: seq<Extraction>, inputs: seq<Extraction>, now: Instant,
                       faults: Faults, i: nat)
    requires k.Sound() && CoreStore(store) == FoldStore(k, rows) && AllAcceptable(store)
    requires i < |inputs| && forall x :: x in inputs ==> GoodInput(x)
    ensures Failure(k, store, inputs, now, faults, i) <==> faults.find(i) != Healthy || faults.upsert(i) != Healthy
  {
    hide CoreStore, FoldStore, AllAcceptable, GoodInput, AbsorbAll, Upserted, IsAcceptable;
    AbsorbAllFolds(k, store, rows, inputs[..i], now);
    UpsertAcceptable(k, AbsorbAll(k, store, inputs[..i], now), rows + Fresh(rows, inputs[..i]), inputs[i], now);
  }

  lemma OnlyFaultsStop(k: Keying, w: World, now: Instant, faults: Faults)
    requires k.Sound()
    ensures var inputs := RowsSince(w.sys.table, Since(w));
            forall n: nat :: Inv(k, w, n) ==>
                          (faults.Without(|inputs|) <==>
                           faults.load == Healthy && faults.list == Healthy && faults.save == Healthy
                           && NoFailure(k, w.store, inputs, now, faults, |inputs|))
  {
    hide Inv, RowsSince, Failure;
    var inputs := RowsSince(w.sys.table, Since(w));
    forall n: nat | Inv(k, w, n)
      ensures NoFailure(k, w.store, inputs, now, faults, |inputs|)
         <==> forall i: nat :: i < |inputs| ==> faults.find(i) == Healthy && faults.upsert(i) == Healthy
    {
      SoundStore(k, w, n);
      forall i: nat | i < |inputs|
        ensures Failure(k, w.store, inputs, now, faults, i) <==> faults.find(i) != Healthy || faults.upsert(i) != Healthy
      {
        FailureIsFault(k, w.store, Settled(w)[..n], inputs, now, faults, i);
      }
    }
  }

  lemma SoundStore(k: Keying, w: World, n: nat)
    requires Inv(k, w, n)
    ensures n <= |Settled(w)| && CoreStore(w.store) == FoldStore(k, Settled(w)[..n]) && AllAcceptable(w.store)
    ensures forall x :: x in RowsSince(w.sys.table, Since(w)) ==> GoodInput(x)
  {
    hide CoreStore, FoldStore, AllAcceptable, GoodInput, RowsSince, RowsBetween, CP.Inv;
    GoodInputs(w.sys, Since(w));
  }
}

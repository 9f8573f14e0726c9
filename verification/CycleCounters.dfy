/**
 The counters of a cycle (internal/app/scheduler/scheduler.go): what a batch and its items add to
 them, and what they add up to over a cycle.
 */
module CycleCounters {
  import opened Results
  import opened Text
  import Sorting
  import opened WorkerPool
  import opened Counting
  import opened Scheduler

  const SAMPLE_IDS := 3

  /** The counters of a cycle; how often a cause occurred is its multiplicity. */
  datatype CycleStats = CycleStats(
    pagesFetched: nat,
    articleCount: nat,
    dispatchBatches: nat,
    newlyExtracted: nat,
    alreadyDone: nat,
    alreadyPending: nat,
    alreadyFailed: nat,
    failed: nat,
    dispatchErrors: nat,
    errorCauses: multiset<string>,
    errorSampleIDs: map<string, seq<int>>,
    discoveredIDs: seq<int>,
    dispatchedIDSize: nat,
    rateLimitedCount: nat,
    throttleApplied: bool)

  const NO_STATS := CycleStats(0, 0, 0, 0, 0, 0, 0, 0, 0, multiset{}, map[], [], 0, 0, false)

  datatype Class = IsNew | IsDone | IsPending | IsOldFailure | IsFailure

  function ClassOf(item: Item): Class {
    if item.execution == Some(C.ExecFailed) then IsOldFailure
    else if item.error != "" || item.execution == None then IsFailure
    else if item.execution == Some(C.NewlyExtracted) then IsNew
    else if item.execution == Some(C.ExecDone) then IsDone
    else if item.execution == Some(C.ExecPending) then IsPending
    else IsFailure
  }

  ghost function Count(items: seq<Item>, c: Class): nat {
    if items == [] then 0
    else Count(items[..|items| - 1], c) + (if ClassOf(items[|items| - 1]) == c then 1 else 0)
  }

  lemma CountNext(items: seq<Item>, item: Item, c: Class)
    ensures Count(items + [item], c) == Count(items, c) + (if ClassOf(item) == c then 1 else 0)
    ensures Count([item], c) == if ClassOf(item) == c then 1 else 0
  {
    assert (items + [item])[..|items|] == items;
    assert [item][..0] == [];
  }

  ghost function CauseOf(w: World, item: Item): multiset<string> {
    if item.error != "" then multiset{w.cause(item.error)} else multiset{}
  }

  /** The causes of the items with an error, with multiplicity. */
  ghost function Causes(w: World, items: seq<Item>): multiset<string> {
    if items == [] then multiset{}
    else Causes(w, items[..|items| - 1]) + CauseOf(w, items[|items| - 1])
  }

  lemma CausesNext(w: World, items: seq<Item>, item: Item)
    ensures Causes(w, items + [item]) == Causes(w, items) + CauseOf(w, item)
    ensures Causes(w, [item]) == CauseOf(w, item)
  {
    assert (items + [item])[..|items|] == items;
    assert [item][..0] == [];
  }

  ghost function WithError(items: seq<Item>): nat {
    if items == [] then 0
    else WithError(items[..|items| - 1]) + (if items[|items| - 1].error != "" then 1 else 0)
  }

  /** The articles whose error has a cause, in order. */
  ghost function IdsOfCause(w: World, items: seq<Item>, key: string): seq<int> {
    if items == [] then []
    else
      var last := items[|items| - 1];
      IdsOfCause(w, items[..|items| - 1], key)
      + (if last.error != "" && w.cause(last.error) == key then [last.articleId] else [])
  }

  function FirstThree(ids: seq<int>): seq<int> {
    if |ids| <= SAMPLE_IDS then ids else ids[..SAMPLE_IDS]
  }

  /** Every cause has the first few of its articles as samples. */
  ghost predicate SamplesFit(w: World, items: seq<Item>, samples: map<string, seq<int>>) {
    forall key :: (key in samples <==> IdsOfCause(w, items, key) != [])
                  && (key in samples ==> samples[key] == FirstThree(IdsOfCause(w, items, key)))
  }

  function RateLimitedItem(u: Unicode, item: Item): bool {
    item.execution != Some(C.ExecFailed) && IsRateLimited(u, item.error)
  }

  ghost function RateLimitedItems(u: Unicode, items: seq<Item>): nat {
    if items == [] then 0
    else RateLimitedItems(u, items[..|items| - 1]) + (if RateLimitedItem(u, items[|items| - 1]) then 1 else 0)
  }

  method CountRateLimitedItems(u: Unicode, items: seq<Item>) returns (count: nat)
    ensures count == RateLimitedItems(u, items)
  {
    hide IsRateLimited;
    count := 0;
    for i := 0 to |items|
      invariant count == RateLimitedItems(u, items[..i])
    {
      assert items[..i + 1][..i] == items[..i];
      if items[i].execution == Some(C.ExecFailed) {
        continue;
      }
      if IsRateLimited(u, items[i].error) {
        count := count + 1;
      }
    }
    assert items[..|items|] == items;
  }

  /** The counters after the items of one more batch. */
  ghost function Tallied(w: World, s: CycleStats, items: seq<Item>, samples: map<string, seq<int>>): CycleStats {
    s.(newlyExtracted := s.newlyExtracted + Count(items, IsNew),
    alreadyDone := s.alreadyDone + Count(items, IsDone),
    alreadyPending := s.alreadyPending + Count(items, IsPending),
    alreadyFailed := s.alreadyFailed + Count(items, IsOldFailure),
    failed := s.failed + Count(items, IsFailure),
    errorCauses := s.errorCauses + Causes(w, items),
    errorSampleIDs := samples)
  }

  lemma IdsNext(w: World, seen: seq<Item>, item: Item, key: string)
    ensures IdsOfCause(w, seen + [item], key)
         == IdsOfCause(w, seen, key) + (if item.error != "" && w.cause(item.error) == key then [item.articleId] else [])
  {
    assert (seen + [item])[..|seen|] == seen;
  }

  lemma FirstThreeNext(ids: seq<int>, id: int)
    ensures FirstThree([]) == [] && |FirstThree(ids)| <= |ids|
    ensures FirstThree(ids + [id])
         == if |FirstThree(ids)| < SAMPLE_IDS then FirstThree(ids) + [id] else FirstThree(ids)
  {
  }

  method AddSample(w: World, samples: map<string, seq<int>>, item: Item, ghost seen: seq<Item>)
    returns (longer: map<string, seq<int>>)
    requires SamplesFit(w, seen, samples) && item.error != ""
    ensures SamplesFit(w, seen + [item], longer)
  {
    hide FirstThree;
    var key := w.cause(item.error);
    FirstThreeNext(IdsOfCause(w, seen, key), item.articleId);
    var known := if key in samples then samples[key] else [];
    longer := if |known| < SAMPLE_IDS then samples[key := known + [item.articleId]] else samples;
    hide IdsOfCause;
    forall other
      ensures other in longer <==> IdsOfCause(w, seen + [item], other) != []
      ensures other in longer ==> longer[other] == FirstThree(IdsOfCause(w, seen + [item], other))
    {
      IdsNext(w, seen, item, other);
      assert IdsOfCause(w, seen, other) + [] == IdsOfCause(w, seen, other);
      assert other in samples <==> IdsOfCause(w, seen, other) != [];
    }
  }

  lemma SampleNone(w: World, samples: map<string, seq<int>>, item: Item, seen: seq<Item>)
    requires SamplesFit(w, seen, samples) && item.error == ""
    ensures SamplesFit(w, seen + [item], samples)
  {
    hide IdsOfCause;
    forall other ensures IdsOfCause(w, seen + [item], other) == IdsOfCause(w, seen, other) {
      IdsNext(w, seen, item, other);
    }
  }

  /** One item of a batch. */
  method CountItem(w: World, s: CycleStats, item: Item) returns (r: CycleStats)
    ensures r == Tallied(w, s, [item], s.errorSampleIDs)
  {
    hide Count, Causes;
    CountNext([], item, IsNew);
    CountNext([], item, IsDone);
    CountNext([], item, IsPending);
    CountNext([], item, IsOldFailure);
    CountNext([], item, IsFailure);
    CausesNext(w, [], item);
    assert s.errorCauses + multiset{} == s.errorCauses;
    r := s;
    if item.error != "" {
      r := r.(errorCauses := r.errorCauses + multiset{w.cause(item.error)});
    }
    if item.execution == Some(C.ExecFailed) {
      return r.(alreadyFailed := r.alreadyFailed + 1);
    }
    if item.error != "" {
      return r.(failed := r.failed + 1);
    }
    if item.execution == Some(C.NewlyExtracted) {
      r := r.(newlyExtracted := r.newlyExtracted + 1);
    } else if item.execution == Some(C.ExecDone) {
      r := r.(alreadyDone := r.alreadyDone + 1);
    } else if item.execution == Some(C.ExecPending) {
      r := r.(alreadyPending := r.alreadyPending + 1);
    } else {
      r := r.(failed := r.failed + 1);
    }
  }

  lemma TalliedNext(w: World, s: CycleStats, items: seq<Item>, i: nat, a: map<string, seq<int>>, b: map<string, seq<int>>)
    requires i < |items|
    ensures Tallied(w, Tallied(w, s, items[..i], a).(errorSampleIDs := b), [items[i]], b)
         == Tallied(w, s, items[..i + 1], b)
  {
    hide Count, Causes;
    assert items[..i + 1] == items[..i] + [items[i]];
    forall c ensures Count(items[..i + 1], c) == Count(items[..i], c) + Count([items[i]], c) {
      CountNext(items[..i], items[i], c);
    }
    CausesNext(w, items[..i], items[i]);
  }

  /** The places of the items with an outcome and no error. */
  ghost function WithOutcome(items: seq<Item>, execution: C.Execution): set<int> {
    set i | 0 <= i < |items| && items[i].execution == Some(execution) && items[i].error == ""
  }

  /** The places of the items whose extraction had failed before, with or without an error text. */
  ghost function FailedBefore(items: seq<Item>): set<int> {
    set i | 0 <= i < |items| && items[i].execution == Some(C.ExecFailed)
  }

  /** The places of the items that failed now: with an error, or without an outcome. */
  ghost function FailedNow(items: seq<Item>): set<int> {
    set i | 0 <= i < |items| && items[i].execution != Some(C.ExecFailed)
            && (items[i].error != "" || items[i].execution == None)
  }

  /** The places of the items whose error has a cause. */
  ghost function OfCause(w: World, items: seq<Item>, key: string): set<int> {
    set i | 0 <= i < |items| && items[i].error != "" && w.cause(items[i].error) == key
  }

  /**
   The counters are higher by so many: each item goes to one of them, by its outcome and its error, and
   `lost` articles without an item have failed.
   */
  ghost predicate Higher(w: World, s: CycleStats, r: CycleStats, items: seq<Item>, lost: nat) {
    && r.newlyExtracted == s.newlyExtracted + |WithOutcome(items, C.NewlyExtracted)|
    && r.alreadyDone == s.alreadyDone + |WithOutcome(items, C.ExecDone)|
    && r.alreadyPending == s.alreadyPending + |WithOutcome(items, C.ExecPending)|
    && r.alreadyFailed == s.alreadyFailed + |FailedBefore(items)|
    && r.failed == s.failed + |FailedNow(items)| + lost
    && forall key :: r.errorCauses[key] == s.errorCauses[key] + |OfCause(w, items, key)|
  }

  /** Every place of a set, in order. */
  ghost predicate InOrder(at: seq<int>, places: set<int>) {
    && (forall i :: i in at <==> i in places)
    && forall j, k :: 0 <= j < k < |at| ==> at[j] < at[k]
  }

  /** The samples of a cause: the articles of its first places, three at most. */
  ghost predicate Sampled(w: World, items: seq<Item>, samples: map<string, seq<int>>, key: string) {
    && (key in samples <==> OfCause(w, items, key) != {})
    && (key in samples ==>
          exists at :: InOrder(at, OfCause(w, items, key)) && |samples[key]| == (if |at| < 3 then |at| else 3)
                       && forall k :: 0 <= k < |samples[key]| ==>
                                        0 <= at[k] < |items| && samples[key][k] == items[at[k]].articleId)
  }

  lemma {:induction false} CountIsPlaces(items: seq<Item>, c: Class)
    ensures Count(items, c) == |Places(items, (item: Item) => ClassOf(item) == c)|
  {
    hide ClassOf;
    var test := (item: Item) => ClassOf(item) == c;
    if items == [] {
      NoPlaces(test);
    } else {
      CountIsPlaces(items[..|items| - 1], c);
      PlacesSnoc(items, test);
    }
  }

  lemma CountWithOutcome(items: seq<Item>, execution: C.Execution, c: Class)
    requires execution != C.ExecFailed
    requires c == match execution
                  case NewlyExtracted => IsNew
                  case ExecDone => IsDone
                  case ExecPending => IsPending
    ensures Count(items, c) == |WithOutcome(items, execution)|
  {
    CountIsPlaces(items, c);
    hide Count;
    assert Places(items, (item: Item) => ClassOf(item) == c) == WithOutcome(items, execution);
  }

  lemma FailureClass(item: Item)
    ensures ClassOf(item) == IsFailure
       <==> item.execution != Some(C.ExecFailed) && (item.error != "" || item.execution == None)
  {
    match item.execution
    case None =>
    case Some(execution) =>
      match execution {
        case NewlyExtracted =>
        case ExecDone =>
        case ExecPending =>
        case ExecFailed =>
      }
  }

  lemma CountFailures(items: seq<Item>)
    ensures Count(items, IsOldFailure) == |FailedBefore(items)|
    ensures Count(items, IsFailure) == |FailedNow(items)|
  {
    CountIsPlaces(items, IsOldFailure);
    CountIsPlaces(items, IsFailure);
    hide Count;
    forall i | 0 <= i < |items| {
      FailureClass(items[i]);
    }
    assert Places(items, (item: Item) => ClassOf(item) == IsOldFailure) == FailedBefore(items);
    assert Places(items, (item: Item) => ClassOf(item) == IsFailure) == FailedNow(items);
  }

  lemma OfCauseSnoc(w: World, items: seq<Item>, key: string)
    requires items != []
    ensures var n := |items| - 1;
            && OfCause(w, items, key)
               == OfCause(w, items[..n], key)
                  + (if items[n].error != "" && w.cause(items[n].error) == key then {n} else {})
            && forall i :: i in OfCause(w, items[..n], key) ==> 0 <= i < n
  {
  }

  lemma {:induction false} CausesAre(w: World, items: seq<Item>, key: string)
    ensures Causes(w, items)[key] == |OfCause(w, items, key)|
  {
    if items == [] {
      assert OfCause(w, items, key) == {};
    } else {
      CausesAre(w, items[..|items| - 1], key);
      OfCauseSnoc(w, items, key);
      hide OfCause;
    }
  }

  lemma {:induction false} IdsOfCauseAre(w: World, items: seq<Item>, key: string) returns (at: seq<int>)
    ensures InOrder(at, OfCause(w, items, key)) && |at| == |IdsOfCause(w, items, key)|
    ensures forall k :: 0 <= k < |at| ==>
                          0 <= at[k] < |items| && IdsOfCause(w, items, key)[k] == items[at[k]].articleId
  {
    if items == [] {
      at := [];
    } else {
      var n := |items| - 1;
      var front := IdsOfCauseAre(w, items[..n], key);
      OfCauseSnoc(w, items, key);
      hide OfCause;
      assert forall k :: 0 <= k < |front| ==> front[k] in front;
      at := front + (if items[n].error != "" && w.cause(items[n].error) == key then [n] else []);
    }
  }

  lemma NoneInOrder(at: seq<int>, places: set<int>)
    requires InOrder(at, places)
    ensures at == [] <==> places == {}
  {
    if at != [] {
      assert at[0] in at;
    } else if places != {} {
      var i := Sorting.Member(places);
    }
  }

  lemma SamplesAre(w: World, items: seq<Item>, samples: map<string, seq<int>>, key: string)
    requires SamplesFit(w, items, samples)
    ensures Sampled(w, items, samples, key)
  {
    hide IdsOfCause, OfCause;
    var at := IdsOfCauseAre(w, items, key);
    assert key in samples <==> IdsOfCause(w, items, key) != [];
    NoneInOrder(at, OfCause(w, items, key));
    if key in samples {
      assert forall k :: 0 <= k < |samples[key]| ==> samples[key][k] == IdsOfCause(w, items, key)[k];
    }
  }

  /** What the counting of a list of items adds to the counters, item by item. */
  lemma TalliedIsHigher(w: World, s: CycleStats, items: seq<Item>, samples: map<string, seq<int>>)
    ensures Higher(w, s, Tallied(w, s, items, samples), items, 0)
  {
    hide Count, Causes;
    CountWithOutcome(items, C.NewlyExtracted, IsNew);
    CountWithOutcome(items, C.ExecDone, IsDone);
    CountWithOutcome(items, C.ExecPending, IsPending);
    CountFailures(items);
    forall key ensures Causes(w, items)[key] == |OfCause(w, items, key)| {
      CausesAre(w, items, key);
    }
  }

  method CountBatchOutcomes(w: World, s: CycleStats, items: seq<Item>, ghost seen: seq<Item>) returns (r: CycleStats)
    requires SamplesFit(w, seen, s.errorSampleIDs)
    ensures Higher(w, s, r, items, 0)
    ensures forall key :: Sampled(w, seen + items, r.errorSampleIDs, key)
    ensures r == Tallied(w, s, items, r.errorSampleIDs)
    ensures SamplesFit(w, seen + items, r.errorSampleIDs)
  {
    hide Count, Causes, SamplesFit, Higher, Sampled;
    r := s;
    TalliedNone(w, s);
    assert seen + items[..0] == seen;
    for i := 0 to |items|
      invariant r == Tallied(w, s, items[..i], r.errorSampleIDs)
      invariant SamplesFit(w, seen + items[..i], r.errorSampleIDs)
    {
      ghost var before := r.errorSampleIDs;
      var samples := r.errorSampleIDs;
      if items[i].error != "" {
        samples := AddSample(w, samples, items[i], seen + items[..i]);
      } else {
        SampleNone(w, samples, items[i], seen + items[..i]);
      }
      assert seen + items[..i + 1] == seen + items[..i] + [items[i]];
      r := CountItem(w, r.(errorSampleIDs := samples), items[i]);
      TalliedNext(w, s, items, i, before, samples);
    }
    assert items[..|items|] == items;
    TalliedIsHigher(w, s, items, r.errorSampleIDs);
    forall key ensures Sampled(w, seen + items, r.errorSampleIDs, key) {
      SamplesAre(w, seen + items, r.errorSampleIDs, key);
    }
  }

  lemma TalliedNone(w: World, s: CycleStats)
    ensures Tallied(w, s, [], s.errorSampleIDs) == s
  {
  }

  datatype Reply = NotConverted | DispatchFailed(message: string) | Completed(items: seq<Item>)

  datatype Batch = Batch(ids: seq<int>, concurrency: int, reply: Reply)

  /** The articles of a batch that end up in a class; a batch that did not complete failed as a whole. */
  ghost function CountIn(b: Batch, c: Class): nat {
    if b.reply.Completed? then Count(b.reply.items, c) else if c == IsFailure then |b.ids| else 0
  }

  ghost function RateLimitedIn(u: Unicode, b: Batch): nat {
    match b.reply
    case NotConverted => 0
    case DispatchFailed(message) => if IsRateLimited(u, message) then |b.ids| else 0
    case Completed(items) => RateLimitedItems(u, items)
  }

  ghost function Total(batches: seq<Batch>, c: Class): nat {
    if batches == [] then 0 else Total(batches[..|batches| - 1], c) + CountIn(batches[|batches| - 1], c)
  }

  ghost function RateLimits(u: Unicode, batches: seq<Batch>): nat {
    if batches == [] then 0
    else RateLimits(u, batches[..|batches| - 1]) + RateLimitedIn(u, batches[|batches| - 1])
  }

  ghost function ItemsOf(b: Batch): seq<Item> {
    if b.reply.Completed? then b.reply.items else []
  }

  ghost function Returned(batches: seq<Batch>): seq<Item> {
    if batches == [] then []
    else Returned(batches[..|batches| - 1]) + ItemsOf(batches[|batches| - 1])
  }

  ghost function Ids(batches: seq<Batch>): seq<int> {
    if batches == [] then [] else Ids(batches[..|batches| - 1]) + batches[|batches| - 1].ids
  }

  /** How many batches got no reply, how many were sent, and how many articles were sent. */
  ghost function NotCompleted(batches: seq<Batch>): nat {
    if batches == [] then 0
    else NotCompleted(batches[..|batches| - 1]) + (if batches[|batches| - 1].reply.Completed? then 0 else 1)
  }

  ghost function Sent(batches: seq<Batch>): nat {
    if batches == [] then 0
    else Sent(batches[..|batches| - 1]) + (if batches[|batches| - 1].reply.NotConverted? then 0 else 1)
  }

  ghost function SentIds(batches: seq<Batch>): nat {
    if batches == [] then 0
    else
      var last := batches[|batches| - 1];
      SentIds(batches[..|batches| - 1]) + (if last.reply.NotConverted? then 0 else |last.ids|)
  }

  /** The counters are those of the batches so far. */
  ghost predicate Accounts(u: Unicode, w: World, s: CycleStats, batches: seq<Batch>) {
    && s.newlyExtracted == Total(batches, IsNew)
    && s.alreadyDone == Total(batches, IsDone)
    && s.alreadyPending == Total(batches, IsPending)
    && s.alreadyFailed == Total(batches, IsOldFailure)
    && s.failed == Total(batches, IsFailure)
    && s.dispatchErrors == NotCompleted(batches)
    && s.dispatchBatches == Sent(batches)
    && s.dispatchedIDSize == SentIds(batches)
    && s.rateLimitedCount == RateLimits(u, batches)
    && s.errorCauses == Causes(w, Returned(batches))
    && SamplesFit(w, Returned(batches), s.errorSampleIDs)
  }

  ghost predicate Fits(b: Batch) {
    b.reply.Completed? ==> |b.reply.items| == |b.ids|
  }

  ghost predicate AllFit(batches: seq<Batch>) {
    forall b :: b in batches ==> Fits(b)
  }

  lemma {:induction false} ClassesCover(items: seq<Item>)
    ensures Count(items, IsNew) + Count(items, IsDone) + Count(items, IsPending) + Count(items, IsOldFailure)
            + Count(items, IsFailure) == |items|
  {
    if items != [] {
      ClassesCover(items[..|items| - 1]);
    }
  }

  /** No article is lost or counted twice, whichever batches failed. */
  lemma {:induction false} AccountingConserved(batches: seq<Batch>)
    requires AllFit(batches)
    ensures Total(batches, IsNew) + Total(batches, IsDone) + Total(batches, IsPending)
            + Total(batches, IsOldFailure) + Total(batches, IsFailure) == |Ids(batches)|
  {
    if batches != [] {
      var n := |batches| - 1;
      assert batches[n] in batches && forall b :: b in batches[..n] ==> b in batches;
      AccountingConserved(batches[..n]);
      if batches[n].reply.Completed? {
        assert Fits(batches[n]);
        ClassesCover(batches[n].reply.items);
      }
    }
  }

  lemma BlankIsNotRateLimited(u: Unicode)
    ensures !IsRateLimited(u, "")
  {
  }

  lemma {:induction false} RateLimitedItemsFail(u: Unicode, items: seq<Item>)
    ensures RateLimitedItems(u, items) <= Count(items, IsFailure)
  {
    hide IsRateLimited;
    if items != [] {
      RateLimitedItemsFail(u, items[..|items| - 1]);
      BlankIsNotRateLimited(u);
    }
  }

  /** Rate-limited articles are among the failed ones. */
  lemma {:induction false} RateLimitsFail(u: Unicode, batches: seq<Batch>)
    ensures RateLimits(u, batches) <= Total(batches, IsFailure)
  {
    hide IsRateLimited;
    if batches != [] {
      var last := batches[|batches| - 1];
      RateLimitsFail(u, batches[..|batches| - 1]);
      if last.reply.Completed? {
        RateLimitedItemsFail(u, last.reply.items);
      }
    }
  }

  lemma {:induction false} CausesCount(w: World, items: seq<Item>)
    ensures |Causes(w, items)| == WithError(items)
  {
    if items != [] {
      CausesCount(w, items[..|items| - 1]);
    }
  }

  lemma NoCauses(w: World)
    ensures Causes(w, []) == multiset{}
  {
  }

  lemma BagsAssociate(a: multiset<string>, b: multiset<string>, c: multiset<string>)
    ensures (a + b) + c == a + (b + c)
  {
  }

  lemma {:induction false} CausesConcat(w: World, a: seq<Item>, b: seq<Item>)
    ensures Causes(w, a + b) == Causes(w, a) + Causes(w, b)
    decreases |b|
  {
    hide Causes, CauseOf;
    if b == [] {
      assert a + b == a;
      NoCauses(w);
    } else {
      var front, last := b[..|b| - 1], b[|b| - 1];
      CausesConcat(w, a, front);
      assert b == front + [last] && a + b == (a + front) + [last];
      CausesNext(w, front, last);
      CausesNext(w, a + front, last);
      BagsAssociate(Causes(w, a), Causes(w, front), CauseOf(w, last));
    }
  }

  /** The counters after one more batch, apart from the samples. */
  ghost function Extended(u: Unicode, w: World, s: CycleStats, b: Batch, samples: map<string, seq<int>>): CycleStats {
    s.(newlyExtracted := s.newlyExtracted + CountIn(b, IsNew),
    alreadyDone := s.alreadyDone + CountIn(b, IsDone),
    alreadyPending := s.alreadyPending + CountIn(b, IsPending),
    alreadyFailed := s.alreadyFailed + CountIn(b, IsOldFailure),
    failed := s.failed + CountIn(b, IsFailure),
    dispatchErrors := s.dispatchErrors + (if b.reply.Completed? then 0 else 1),
    dispatchBatches := s.dispatchBatches + (if b.reply.NotConverted? then 0 else 1),
    dispatchedIDSize := s.dispatchedIDSize + (if b.reply.NotConverted? then 0 else |b.ids|),
    rateLimitedCount := s.rateLimitedCount + RateLimitedIn(u, b),
    errorCauses := s.errorCauses + Causes(w, ItemsOf(b)),
    errorSampleIDs := samples)
  }

  method CountBatch(u: Unicode, w: World, s: CycleStats, b: Batch, ghost seen: seq<Item>) returns (r: CycleStats)
    requires SamplesFit(w, seen, s.errorSampleIDs)
    ensures r == Extended(u, w, s, b, r.errorSampleIDs)
    ensures SamplesFit(w, seen + ItemsOf(b), r.errorSampleIDs)
  {
    hide Count, Causes, SamplesFit, IsRateLimited, RateLimitedItems;
    if b.reply.Completed? {
      r := s.(dispatchBatches := s.dispatchBatches + 1, dispatchedIDSize := s.dispatchedIDSize + |b.ids|);
      r := CountBatchOutcomes(w, r, b.reply.items, seen);
      var limited := CountRateLimitedItems(u, b.reply.items);
      return r.(rateLimitedCount := r.rateLimitedCount + limited);
    }
    assert seen + [] == seen;
    NoCauses(w);
    assert s.errorCauses + multiset{} == s.errorCauses;
    if b.reply.NotConverted? {
      return s.(failed := s.failed + |b.ids|, dispatchErrors := s.dispatchErrors + 1);
    }
    r := s.(dispatchBatches := s.dispatchBatches + 1, dispatchedIDSize := s.dispatchedIDSize + |b.ids|);
    r := r.(failed := r.failed + |b.ids|, dispatchErrors := r.dispatchErrors + 1);
    if IsRateLimited(u, b.reply.message) {
      r := r.(rateLimitedCount := r.rateLimitedCount + |b.ids|);
    }
  }

  lemma AccountsNext(u: Unicode, w: World, s: CycleStats, batches: seq<Batch>, b: Batch, r: CycleStats)
    requires Accounts(u, w, s, batches) && r == Extended(u, w, s, b, r.errorSampleIDs)
    requires SamplesFit(w, Returned(batches) + ItemsOf(b), r.errorSampleIDs)
    ensures Accounts(u, w, r, batches + [b])
  {
    hide Total, RateLimits, Causes, SamplesFit, CountIn, RateLimitedIn, Returned, NotCompleted, Sent, SentIds, ItemsOf;
    BatchNext(u, batches, b);
    CausesConcat(w, Returned(batches), ItemsOf(b));
  }

  lemma BatchNext(u: Unicode, batches: seq<Batch>, b: Batch)
    ensures forall c :: Total(batches + [b], c) == Total(batches, c) + CountIn(b, c)
    ensures RateLimits(u, batches + [b]) == RateLimits(u, batches) + RateLimitedIn(u, b)
    ensures Returned(batches + [b]) == Returned(batches) + ItemsOf(b)
    ensures Ids(batches + [b]) == Ids(batches) + b.ids
    ensures NotCompleted(batches + [b]) == NotCompleted(batches) + (if b.reply.Completed? then 0 else 1)
    ensures Sent(batches + [b]) == Sent(batches) + (if b.reply.NotConverted? then 0 else 1)
    ensures SentIds(batches + [b]) == SentIds(batches) + (if b.reply.NotConverted? then 0 else |b.ids|)
  {
    hide CountIn, RateLimitedIn, ItemsOf;
    assert (batches + [b])[..|batches|] == batches;
  }

  lemma NothingCounted(w: World)
    ensures Returned([]) == [] && |Causes(w, [])| == WithError([]) == 0
  {
    CausesCount(w, []);
  }

  lemma {:induction false} CountConcat(a: seq<Item>, b: seq<Item>, c: Class)
    ensures Count(a + b, c) == Count(a, c) + Count(b, c)
  {
    var test := (item: Item) => ClassOf(item) == c;
    CountIsPlaces(a, c);
    CountIsPlaces(b, c);
    CountIsPlaces(a + b, c);
    PlacesConcat(a, b, test);
  }

  lemma {:induction false} TotalIs(batches: seq<Batch>, c: Class)
    requires AllFit(batches)
    ensures |Returned(batches)| <= |Ids(batches)|
    ensures Total(batches, c)
         == Count(Returned(batches), c) + (if c == IsFailure then |Ids(batches)| - |Returned(batches)| else 0)
  {
    hide Count;
    if batches == [] {
      CountNone(c);
    } else {
      var n := |batches| - 1;
      assert Fits(batches[n]) && forall b :: b in batches[..n] ==> b in batches;
      TotalIs(batches[..n], c);
      CountConcat(Returned(batches[..n]), ItemsOf(batches[n]), c);
      CountNone(c);
    }
  }

  lemma CountNone(c: Class)
    ensures Count([], c) == 0
  {
  }

  /** The articles of the batches that the runner refused because of a rate limit. */
  ghost function Refused(u: Unicode, batches: seq<Batch>): nat {
    if batches == [] then 0
    else
      var last := batches[|batches| - 1];
      Refused(u, batches[..|batches| - 1])
      + (if last.reply.DispatchFailed? && IsRateLimited(u, last.reply.message) then |last.ids| else 0)
  }

  lemma {:induction false} RateLimitedItemsAre(u: Unicode, items: seq<Item>)
    ensures RateLimitedItems(u, items) == |Places(items, (item: Item) => RateLimitedItem(u, item))|
  {
    hide RateLimitedItem;
    var test := (item: Item) => RateLimitedItem(u, item);
    if items == [] {
      NoPlaces(test);
    } else {
      RateLimitedItemsAre(u, items[..|items| - 1]);
      PlacesSnoc(items, test);
    }
  }

  lemma RateLimitedItemsConcat(u: Unicode, a: seq<Item>, b: seq<Item>)
    ensures RateLimitedItems(u, a + b) == RateLimitedItems(u, a) + RateLimitedItems(u, b)
    ensures RateLimitedItems(u, []) == 0
  {
    RateLimitedItemsAre(u, a);
    RateLimitedItemsAre(u, b);
    RateLimitedItemsAre(u, a + b);
    PlacesConcat(a, b, (item: Item) => RateLimitedItem(u, item));
  }

  /** The places of the items that the rate limit stopped now. */
  ghost function LimitedPlaces(u: Unicode, items: seq<Item>): set<int> {
    set i | 0 <= i < |items| && items[i].execution != Some(C.ExecFailed) && IsRateLimited(u, items[i].error)
  }

  /** Rate limits are counted by item, and by article for a batch that the runner refused. */
  lemma {:induction false} RateLimitsAre(u: Unicode, batches: seq<Batch>)
    ensures var items := Returned(batches);
            RateLimits(u, batches)
            == Refused(u, batches)
               + |LimitedPlaces(u, items)|
  {
    hide IsRateLimited;
    RateLimitsSplit(u, batches);
    var items := Returned(batches);
    RateLimitedItemsAre(u, items);
    assert Places(items, (item: Item) => RateLimitedItem(u, item))
        == LimitedPlaces(u, items);
  }

  lemma {:induction false} RateLimitsSplit(u: Unicode, batches: seq<Batch>)
    ensures RateLimits(u, batches) == Refused(u, batches) + RateLimitedItems(u, Returned(batches))
  {
    hide IsRateLimited, RateLimitedItems;
    if batches == [] {
      RateLimitedItemsConcat(u, [], []);
    } else {
      var n := |batches| - 1;
      RateLimitsSplit(u, batches[..n]);
      RateLimitedItemsConcat(u, Returned(batches[..n]), ItemsOf(batches[n]));
    }
  }

  predicate GotNoReply(b: Batch) {
    !b.reply.Completed?
  }

  lemma {:induction false} NotCompletedAre(batches: seq<Batch>)
    ensures NotCompleted(batches) == |Places(batches, GotNoReply)|
  {
    if batches == [] {
      NoPlaces(GotNoReply);
    } else {
      NotCompletedAre(batches[..|batches| - 1]);
      PlacesSnoc(batches, GotNoReply);
    }
  }

  /** The counters of a cycle, from what came back and which batches got no reply. */
  lemma AccountsAre(u: Unicode, w: World, s: CycleStats, batches: seq<Batch>)
    requires Accounts(u, w, s, batches) && AllFit(batches)
    ensures |Returned(batches)| <= |Ids(batches)|
    ensures Higher(w, NO_STATS, s, Returned(batches), |Ids(batches)| - |Returned(batches)|)
    ensures forall key :: Sampled(w, Returned(batches), s.errorSampleIDs, key)
    ensures s.dispatchErrors == |Places(batches, GotNoReply)|
    ensures var items := Returned(batches);
            s.rateLimitedCount
            == Refused(u, batches)
               + |LimitedPlaces(u, items)|
  {
    hide Count, Causes, SamplesFit, Sampled, IsRateLimited, RateLimits, Total, Refused;
    var items := Returned(batches);
    CountWithOutcome(items, C.NewlyExtracted, IsNew);
    CountWithOutcome(items, C.ExecDone, IsDone);
    CountWithOutcome(items, C.ExecPending, IsPending);
    CountFailures(items);
    forall c ensures Total(batches, c) == Count(items, c) + (if c == IsFailure then |Ids(batches)| - |items| else 0) {
      TotalIs(batches, c);
    }
    TotalIs(batches, IsFailure);
    forall key ensures s.errorCauses[key] == |OfCause(w, items, key)| {
      CausesAre(w, items, key);
    }
    forall key ensures Sampled(w, items, s.errorSampleIDs, key) {
      SamplesAre(w, items, s.errorSampleIDs, key);
    }
    NotCompletedAre(batches);
    RateLimitsAre(u, batches);
  }

  lemma NothingHigher(u: Unicode, w: World, pages: nat)
    ensures Returned([]) == [] && Ids([]) == []
    ensures Higher(w, NO_STATS, NO_STATS.(pagesFetched := pages), [], 0)
    ensures forall key :: Sampled(w, [], map[], key)
    ensures Refused(u, []) == |LimitedPlaces(u, [])| == 0
    ensures |Places([], GotNoReply)| == 0
  {
    assert WithOutcome([], C.NewlyExtracted) == WithOutcome([], C.ExecDone) == WithOutcome([], C.ExecPending) == {};
    assert FailedBefore([]) == FailedNow([]) == LimitedPlaces(u, []) == {};
    forall key ensures OfCause(w, [], key) == {} {
    }
    NoPlaces(GotNoReply);
  }
}

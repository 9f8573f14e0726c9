/**
 The cycle itself (internal/app/scheduler/scheduler.go): fetching, dispatching batch by batch, and
 when the scheduler slows down. A cycle is judged by its batches: which articles, with what
 concurrency, and what came back.
 */
module SchedulerCycle {
  import opened Results
  import opened Text
  import opened Counting
  import opened Scheduler
  import opened CycleCounters

  /** The rate limits seen before batch `i` have reached the threshold. */
  ghost predicate Throttled(u: Unicode, cfg: Config, batches: seq<Batch>, i: nat)
    requires i <= |batches|
  {
    RateLimits(u, batches[..i]) >= cfg.rateLimitThreshold
  }

  /** The throttle is a latch: once on, it stays on for the rest of the cycle. */
  lemma {:induction false} ThrottleLatches(u: Unicode, cfg: Config, batches: seq<Batch>, i: nat, j: nat)
    requires i <= j <= |batches| && Throttled(u, cfg, batches, i)
    ensures Throttled(u, cfg, batches, j)
    decreases j - i
  {
    hide RateLimitedIn;
    if i < j {
      ThrottleLatches(u, cfg, batches, i, j - 1);
      assert batches[..j][..j - 1] == batches[..j - 1];
    }
  }

  /** The concurrency of a batch: the configured one, or half of it. */
  function Pace(cfg: Config, throttled: bool): int {
    if throttled then ThrottledConcurrency(cfg.dispatchConcurrency) else cfg.dispatchConcurrency
  }

  /** Every batch is dispatched as the rate limits before it ask for. */
  ghost predicate Paced(u: Unicode, cfg: Config, batches: seq<Batch>) {
    forall i :: 0 <= i < |batches| ==>
                  batches[i].concurrency == Pace(cfg, Throttled(u, cfg, batches, i))
  }

  lemma PrefixPaced(u: Unicode, cfg: Config, batches: seq<Batch>, b: Batch)
    requires Paced(u, cfg, batches)
    requires b.concurrency == Pace(cfg, RateLimits(u, batches) >= cfg.rateLimitThreshold)
    ensures Paced(u, cfg, batches + [b])
  {
    hide RateLimits;
    var all := batches + [b];
    assert all[..|batches|] == batches;
    forall i | 0 <= i < |batches| ensures all[..i] == batches[..i] {
    }
  }

  /** What came back for a batch is what the services answered. */
  ghost predicate Answered(w: World, source: seq<UpstreamArticle>, n: nat, b: Batch) {
    if !AllConvertible(w, source, b.ids) then b.reply == NotConverted
    else
      b.reply == match w.run(n, BatchArticles(w, source, b.ids), b.concurrency)
                 case Ok(items) => Completed(items)
                 case Err(message) => DispatchFailed(message)
  }

  /** What belongs to one batch: the cooldown if it is throttled, and one dispatch of its articles if they convert. */
  ghost function EffectsOf(w: World, source: seq<UpstreamArticle>, n: nat, b: Batch, throttled: bool): seq<Effect> {
    (if throttled then [Waited(n)] else [])
    + (if AllConvertible(w, source, b.ids) then [Dispatched(BatchArticles(w, source, b.ids), b.concurrency)] else [])
  }

  /** Conversion and dispatch of one chunk. */
  method DispatchBatch(outside: Outside, source: seq<UpstreamArticle>, n: nat, chunk: seq<int>, concurrency: int)
    returns (reply: Reply)
    requires outside.world.Sound()
    modifies outside`log
    ensures var b := Batch(chunk, concurrency, reply);
            && Fits(b) && Answered(outside.world, source, n, b)
            && outside.log == old(outside.log) + EffectsOf(outside.world, source, n, b, false)
  {
    var articles := BuildBatchArticles(outside.world, chunk, source);
    if articles.Err? {
      return NotConverted;
    }
    var result := outside.RunBatch(n, articles.value, concurrency);
    if result.Err? {
      return DispatchFailed(result.message);
    }
    assert FitsBatch(articles.value, result.value);
    return Completed(result.value);
  }

  /** The batches of a cycle so far. */
  ghost predicate Ran(u: Unicode, w: World, cfg: Config, source: seq<UpstreamArticle>, chunks: seq<seq<int>>,
                      batches: seq<Batch>) {
    && |batches| <= |chunks|
    && (forall i :: 0 <= i < |batches| ==> batches[i].ids == chunks[i] && Answered(w, source, i, batches[i]))
    && AllFit(batches) && Paced(u, cfg, batches)
  }

  lemma RanNext(u: Unicode, w: World, cfg: Config, source: seq<UpstreamArticle>, chunks: seq<seq<int>>,
                batches: seq<Batch>, b: Batch)
    requires Ran(u, w, cfg, source, chunks, batches) && |batches| < |chunks|
    requires b.ids == chunks[|batches|] && Answered(w, source, |batches|, b) && Fits(b)
    requires b.concurrency == Pace(cfg, RateLimits(u, batches) >= cfg.rateLimitThreshold)
    ensures Ran(u, w, cfg, source, chunks, batches + [b])
  {
    hide Answered, RateLimits, Paced;
    PrefixPaced(u, cfg, batches, b);
  }

  lemma {:induction false} IdsAreFlat(batches: seq<Batch>, chunks: seq<seq<int>>)
    requires |batches| <= |chunks| && forall i :: 0 <= i < |batches| ==> batches[i].ids == chunks[i]
    requires forall i :: 0 <= i < |chunks| ==> chunks[i] != []
    ensures Ids(batches) <= Flatten(chunks)
    ensures |batches| == |chunks| ==> Ids(batches) == Flatten(chunks)
    ensures |batches| < |chunks| ==> Ids(batches) < Flatten(chunks)
    decreases |chunks|
  {
    if chunks != [] {
      var n := |chunks| - 1;
      if |batches| == |chunks| {
        IdsAreFlat(batches[..n], chunks[..n]);
      } else {
        IdsAreFlat(batches, chunks[..n]);
      }
    }
  }

  ghost function DiscoveredIn(articles: seq<UpstreamArticle>): seq<int> {
    seq(|articles|, i requires 0 <= i < |articles| => articles[i].id)
  }

  function Accounted(s: CycleStats): nat {
    s.newlyExtracted + s.alreadyDone + s.alreadyPending + s.alreadyFailed + s.failed
  }

  /** What a cycle reports. */
  ghost predicate Reported(u: Unicode, w: World, cfg: Config, source: seq<UpstreamArticle>, s: CycleStats,
                           batches: seq<Batch>) {
    && s.articleCount == |source| == |s.discoveredIDs| && s.discoveredIDs == DiscoveredIn(source)
    && (forall i :: 0 <= i < |batches| ==> Answered(w, source, i, batches[i]))
    && Accounts(u, w, s, batches) && AllFit(batches) && Paced(u, cfg, batches)
    && s.throttleApplied == (RateLimits(u, batches) >= cfg.rateLimitThreshold)
    && Ids(batches) <= s.discoveredIDs
  }

  /** What the first batches do to the outside. */
  ghost function Effects(u: Unicode, w: World, cfg: Config, source: seq<UpstreamArticle>, batches: seq<Batch>, n: nat)
    : seq<Effect>
    requires n <= |batches|
  {
    if n == 0 then []
    else
      Effects(u, w, cfg, source, batches, n - 1)
      + EffectsOf(w, source, n - 1, batches[n - 1], Throttled(u, cfg, batches, n - 1))
  }

  lemma {:induction false} EffectsOfMore(u: Unicode, w: World, cfg: Config, source: seq<UpstreamArticle>,
                                         batches: seq<Batch>, b: Batch, n: nat)
    requires n <= |batches|
    ensures Effects(u, w, cfg, source, batches + [b], n) == Effects(u, w, cfg, source, batches, n)
  {
    hide RateLimits, EffectsOf;
    if n > 0 {
      EffectsOfMore(u, w, cfg, source, batches, b, n - 1);
      assert (batches + [b])[..n - 1] == batches[..n - 1];
    }
  }

  lemma EffectsNext(u: Unicode, w: World, cfg: Config, source: seq<UpstreamArticle>, batches: seq<Batch>, b: Batch)
    ensures Effects(u, w, cfg, source, batches + [b], |batches| + 1)
         == Effects(u, w, cfg, source, batches, |batches|)
            + EffectsOf(w, source, |batches|, b, RateLimits(u, batches) >= cfg.rateLimitThreshold)
  {
    hide RateLimits, EffectsOf;
    EffectsOfMore(u, w, cfg, source, batches, b, |batches|);
    assert (batches + [b])[..|batches|] == batches;
  }

  /** What a cycle has done: each batch its own, in order, and at the end the cooldown that was cancelled. */
  ghost function Journal(u: Unicode, w: World, cfg: Config, source: seq<UpstreamArticle>, batches: seq<Batch>,
                         cancelled: bool): seq<Effect> {
    Effects(u, w, cfg, source, batches, |batches|) + (if cancelled then [Waited(|batches|)] else [])
  }

  lemma {:induction false} FirstThrottled(u: Unicode, cfg: Config, batches: seq<Batch>, n: nat) returns (first: nat)
    requires n <= |batches|
    ensures first <= n
    ensures forall i :: 0 <= i < first ==> !Throttled(u, cfg, batches, i)
    ensures forall i :: first <= i < n ==> Throttled(u, cfg, batches, i)
  {
    hide RateLimits;
    if n == 0 {
      first := 0;
    } else {
      first := FirstThrottled(u, cfg, batches, n - 1);
      if !Throttled(u, cfg, batches, n - 1) {
        if first < n - 1 {
          ThrottleLatches(u, cfg, batches, first, n - 1);
        }
        first := n;
      }
    }
  }

  predicate IsDispatch(e: Effect) {
    e.Dispatched?
  }

  /** How many articles were sent to the runner. */
  ghost function ArticlesIn(log: seq<Effect>): nat {
    if log == [] then 0
    else
      var last := log[|log| - 1];
      ArticlesIn(log[..|log| - 1]) + (if last.Dispatched? then |last.articles| else 0)
  }

  lemma {:induction false} ArticlesConcat(a: seq<Effect>, b: seq<Effect>)
    ensures ArticlesIn(a + b) == ArticlesIn(a) + ArticlesIn(b)
    decreases |b|
  {
    if b == [] {
      assert a + b == a;
    } else {
      ArticlesConcat(a, b[..|b| - 1]);
      assert (a + b)[..|a + b| - 1] == a + b[..|b| - 1];
    }
  }

  /** One batch in the log: a single dispatch of all its articles, or none. */
  lemma BatchInLog(w: World, source: seq<UpstreamArticle>, n: nat, b: Batch, throttled: bool)
    requires Answered(w, source, n, b)
    ensures var log := EffectsOf(w, source, n, b, throttled);
            && |Places(log, IsDispatch)| == (if b.reply.NotConverted? then 0 else 1)
            && ArticlesIn(log) == (if b.reply.NotConverted? then 0 else |b.ids|)
  {
    var wait: seq<Effect> := if throttled then [Waited(n)] else [];
    var sent := if AllConvertible(w, source, b.ids)
                then [Dispatched(BatchArticles(w, source, b.ids), b.concurrency)] else [];
    PlacesConcat(wait, sent, IsDispatch);
    ArticlesConcat(wait, sent);
    assert forall e: Effect :: [e][..0] == [];
    NoPlaces(IsDispatch);
    if throttled {
      PlacesSnoc(wait, IsDispatch);
    }
    if sent != [] {
      PlacesSnoc(sent, IsDispatch);
    }
  }

  lemma {:induction false} EffectsInLog(u: Unicode, w: World, cfg: Config, source: seq<UpstreamArticle>,
                                        batches: seq<Batch>, n: nat)
    requires n <= |batches| && forall i :: 0 <= i < |batches| ==> Answered(w, source, i, batches[i])
    ensures var log := Effects(u, w, cfg, source, batches, n);
            && |Places(log, IsDispatch)| == Sent(batches[..n])
            && ArticlesIn(log) == SentIds(batches[..n])
  {
    hide Answered, EffectsOf, RateLimits;
    if n == 0 {
      NoPlaces(IsDispatch);
    } else {
      EffectsInLog(u, w, cfg, source, batches, n - 1);
      var before := Effects(u, w, cfg, source, batches, n - 1);
      var own := EffectsOf(w, source, n - 1, batches[n - 1], Throttled(u, cfg, batches, n - 1));
      BatchInLog(w, source, n - 1, batches[n - 1], Throttled(u, cfg, batches, n - 1));
      PlacesConcat(before, own, IsDispatch);
      ArticlesConcat(before, own);
      assert batches[..n][..n - 1] == batches[..n - 1];
    }
  }

  /** The counters of dispatched batches and articles are those of the log. */
  lemma DispatchesInLog(u: Unicode, w: World, cfg: Config, source: seq<UpstreamArticle>, batches: seq<Batch>,
                        cancelled: bool)
    requires forall i :: 0 <= i < |batches| ==> Answered(w, source, i, batches[i])
    ensures var log := Journal(u, w, cfg, source, batches, cancelled);
            && |Places(log, IsDispatch)| == Sent(batches)
            && ArticlesIn(log) == SentIds(batches)
  {
    hide Answered, Effects;
    EffectsInLog(u, w, cfg, source, batches, |batches|);
    assert batches[..|batches|] == batches;
    var end: seq<Effect> := if cancelled then [Waited(|batches|)] else [];
    PlacesConcat(Effects(u, w, cfg, source, batches, |batches|), end, IsDispatch);
    ArticlesConcat(Effects(u, w, cfg, source, batches, |batches|), end);
    NoPlaces(IsDispatch);
    assert [Waited(|batches|)][..0] == [];
    if cancelled {
      PlacesSnoc(end, IsDispatch);
    }
  }

  /**
   The shape of a cycle: up to and including the batch that makes the rate limits reach the
   threshold, the configured concurrency and no cooldown; before each later batch one cooldown, and
   half of the concurrency.
   */
  lemma ThrottleShape(u: Unicode, w: World, cfg: Config, source: seq<UpstreamArticle>, batches: seq<Batch>)
    returns (first: nat)
    requires Paced(u, cfg, batches)
    ensures first <= |batches|
    ensures forall i :: 0 <= i < |batches| ==>
                          (RateLimits(u, batches[..i]) >= cfg.rateLimitThreshold <==> i >= first)
    ensures forall i :: 0 <= i < |batches| ==>
                          && batches[i].concurrency == (if i < first then cfg.dispatchConcurrency
                                                        else if cfg.dispatchConcurrency <= 1 then 1
                                                        else (cfg.dispatchConcurrency + 1) / 2)
                          && Effects(u, w, cfg, source, batches, i + 1)
                             == Effects(u, w, cfg, source, batches, i)
                                + (if i < first then [] else [Waited(i)])
                                + (if !AllConvertible(w, source, batches[i].ids) then []
                                   else [Dispatched(BatchArticles(w, source, batches[i].ids), batches[i].concurrency)])
  {
    hide RateLimits, AllConvertible;
    first := FirstThrottled(u, cfg, batches, |batches|);
    forall i | 0 <= i < |batches|
      ensures RateLimits(u, batches[..i]) >= cfg.rateLimitThreshold <==> i >= first
      ensures batches[i].concurrency == Pace(cfg, i >= first)
      ensures Effects(u, w, cfg, source, batches, i + 1)
           == Effects(u, w, cfg, source, batches, i)
              + (if i < first then [] else [Waited(i)])
              + (if !AllConvertible(w, source, batches[i].ids) then []
                 else [Dispatched(BatchArticles(w, source, batches[i].ids), batches[i].concurrency)])
    {
      assert Throttled(u, cfg, batches, i) <==> i >= first;
    }
  }

  /** The dispatch of all chunks; it ends early only if a cooldown is cancelled. */
  method DispatchAll(u: Unicode, outside: Outside, cfg: Config, source: seq<UpstreamArticle>, s: CycleStats,
                     chunks: seq<seq<int>>)
    returns (cancelled: bool, r: CycleStats, ghost batches: seq<Batch>)
    requires cfg.IsValid() && outside.world.Sound() && Accounts(u, outside.world, s, []) && !s.throttleApplied
    modifies outside`log
    ensures Ran(u, outside.world, cfg, source, chunks, batches) && Accounts(u, outside.world, r, batches)
    ensures r.discoveredIDs == s.discoveredIDs && r.articleCount == s.articleCount && r.pagesFetched == s.pagesFetched
    ensures r.throttleApplied == (RateLimits(u, batches) >= cfg.rateLimitThreshold)
    ensures outside.log == old(outside.log) + Journal(u, outside.world, cfg, source, batches, cancelled)
    ensures !cancelled ==> |batches| == |chunks|
    ensures cancelled ==> |batches| < |chunks| && r.throttleApplied && !outside.world.wait(|batches|)
  {
    hide Accounts, Ran, Answered, Fits, RateLimitedIn, SamplesFit, RateLimits, Returned, ItemsOf, Causes, Effects;
    var w := outside.world;
    r, batches := s, [];
    RanNothing(u, w, cfg, source, chunks, s);
    var effectiveConcurrency, throttleActive := cfg.dispatchConcurrency, false;
    for n := 0 to |chunks|
      invariant |batches| == n
      invariant Ran(u, w, cfg, source, chunks, batches) && Accounts(u, w, r, batches)
      invariant r.discoveredIDs == s.discoveredIDs && r.articleCount == s.articleCount && r.pagesFetched == s.pagesFetched
      invariant throttleActive == r.throttleApplied == (RateLimits(u, batches) >= cfg.rateLimitThreshold)
      invariant effectiveConcurrency == Pace(cfg, throttleActive)
      invariant outside.log == old(outside.log) + Effects(u, w, cfg, source, batches, n)
    {
      if throttleActive {
        var done := outside.Wait(n);
        if !done {
          return true, r, batches;
        }
      }
      ghost var before := r;
      var reply := DispatchBatch(outside, source, n, chunks[n], effectiveConcurrency);
      ghost var b := Batch(chunks[n], effectiveConcurrency, reply);
      SamplesOf(u, w, r, batches);
      r := CountBatch(u, w, r, Batch(chunks[n], effectiveConcurrency, reply), Returned(batches));
      AccountsNext(u, w, before, batches, b, r);
      RanNext(u, w, cfg, source, chunks, batches, b);
      Counted(u, w, cfg, r, batches, b);
      EffectsNext(u, w, cfg, source, batches, b);
      batches := batches + [b];
      if reply != NotConverted && !throttleActive && r.rateLimitedCount >= cfg.rateLimitThreshold {
        throttleActive := true;
        r := WithThrottle(u, w, r, batches);
        effectiveConcurrency := ThrottledConcurrency(cfg.dispatchConcurrency);
      }
    }
    cancelled := false;
  }

  lemma SamplesOf(u: Unicode, w: World, s: CycleStats, batches: seq<Batch>)
    requires Accounts(u, w, s, batches)
    ensures SamplesFit(w, Returned(batches), s.errorSampleIDs)
  {
  }

  method WithThrottle(u: Unicode, w: World, s: CycleStats, ghost batches: seq<Batch>) returns (r: CycleStats)
    requires Accounts(u, w, s, batches)
    ensures Accounts(u, w, r, batches) && r == s.(throttleApplied := true)
  {
    hide Total, RateLimits, Causes, SamplesFit;
    r := s.(throttleApplied := true);
  }

  lemma RanNothing(u: Unicode, w: World, cfg: Config, source: seq<UpstreamArticle>, chunks: seq<seq<int>>, s: CycleStats)
    ensures Ran(u, w, cfg, source, chunks, []) && RateLimits(u, []) == 0
    ensures Effects(u, w, cfg, source, [], 0) == []
  {
  }

  /** What the counter of rate limits says after a batch; it never falls. */
  lemma Counted(u: Unicode, w: World, cfg: Config, r: CycleStats, batches: seq<Batch>, b: Batch)
    requires Accounts(u, w, r, batches + [b])
    ensures r.rateLimitedCount == RateLimits(u, batches + [b]) >= RateLimits(u, batches)
    ensures b.reply.NotConverted? ==> RateLimits(u, batches + [b]) == RateLimits(u, batches)
  {
    hide Total, Causes, SamplesFit, RateLimits;
    BatchNext(u, batches, b);
  }

  /**
   The counters, from the items that came back, the batches that got no reply, and the log: each item
   is in the counter of its outcome, and the articles without an item are among the failed ones.
   */
  ghost predicate Balances(u: Unicode, w: World, s: CycleStats, batches: seq<Batch>, log: seq<Effect>) {
    && |Returned(batches)| <= |Ids(batches)|
    && Higher(w, NO_STATS, s, Returned(batches), |Ids(batches)| - |Returned(batches)|)
    && (forall key :: Sampled(w, Returned(batches), s.errorSampleIDs, key))
    && s.rateLimitedCount == Refused(u, batches) + |LimitedPlaces(u, Returned(batches))|
    && s.dispatchErrors == |Places(batches, GotNoReply)|
    && s.dispatchBatches == |Places(log, IsDispatch)|
    && s.dispatchedIDSize == ArticlesIn(log)
  }

  /** The batches are cut at the configured size; only the last batch of all may be smaller. */
  ghost predicate CutToSize(cfg: Config, batches: seq<Batch>, cancelled: bool) {
    forall i :: 0 <= i < |batches| ==>
                  && 0 < |batches[i].ids| <= cfg.batchSize
                  && (i < |batches| - 1 || cancelled ==> |batches[i].ids| == cfg.batchSize)
  }

  /**
   One cycle. The source is what the upstream service has, and every batch got the answer of the
   services to its articles. Every article of a completed cycle is in exactly one counter, whatever
   failed; rate limits are failures; the causes count the items with an error; and the pace follows
   the rate limits. A cycle fails only where a page fails or a cooldown is cancelled, and has then done
   the same for the batches before.
   */
  method RunCycle(u: Unicode, outside: Outside, cfg: Config)
    returns (r: Result<CycleStats>, stats: CycleStats, ghost pages: nat, ghost source: seq<UpstreamArticle>,
             ghost batches: seq<Batch>)
    requires cfg.IsValid() && outside.world.Sound()
    modifies outside`log
    ensures r.Ok? ==> r.value == stats
    ensures if r.Err? && source == [] then LastFails(outside.world, cfg, pages) && stats == NO_STATS
            else IsSource(outside.world, cfg, pages, source) && stats.pagesFetched == pages
    ensures source == [] ==> batches == [] && stats == NO_STATS.(pagesFetched := stats.pagesFetched)
    ensures source != [] ==> Reported(u, outside.world, cfg, source, stats, batches) && CutToSize(cfg, batches, r.Err?)
    ensures |stats.discoveredIDs| == |source| && forall i :: 0 <= i < |source| ==> stats.discoveredIDs[i] == source[i].id
    ensures Balances(u, outside.world, stats, batches,
                     Journal(u, outside.world, cfg, source, batches, r.Err? && source != []))
    ensures r.Ok? ==> Ids(batches) == stats.discoveredIDs
    ensures r.Err? && source != [] ==>
              stats.throttleApplied && Ids(batches) < stats.discoveredIDs && !outside.world.wait(|batches|)
    ensures r.Ok? ==> Accounted(stats) == stats.articleCount
    ensures stats.rateLimitedCount <= stats.failed
    ensures |stats.errorCauses| == WithError(Returned(batches))
    ensures outside.log == old(outside.log) + Fetches(cfg, pages)
                           + Journal(u, outside.world, cfg, source, batches, r.Err? && source != [])
  {
    var w := outside.world;
    hide Accounts, Ran, Answered, Fits, RateLimitedIn, Paced, AllFit, Causes, Count, IsSource, LastFails, CutToSize,
      Balances, Journal;
    stats, pages, source, batches := NO_STATS, 0, [], [];
    NothingCounted(w);
    NothingReported(u, w, cfg, 0);
    var articles, pagesFetched := FetchEligibleArticles(outside, cfg);
    pages := if articles.Ok? then pagesFetched else pagesFetched + 1;
    if articles.Err? {
      return Err("fetch upstream page"), stats, pages, source, batches;
    }
    if articles.value == [] {
      stats := NO_STATS.(pagesFetched := pagesFetched);
      NothingReported(u, w, cfg, pagesFetched);
      return Ok(stats), stats, pages, source, batches;
    }
    source := articles.value;
    var ids := CollectDiscovered(articles.value);
    stats := NO_STATS.(pagesFetched := pagesFetched, articleCount := |articles.value|, discoveredIDs := ids);
    var chunks := ChunkIDs(ids, cfg.batchSize);
    var cancelled;
    AccountsNothing(u, w, pagesFetched, |articles.value|, ids);
    cancelled, stats, batches := DispatchAll(u, outside, cfg, articles.value, stats, chunks);
    CycleConcluded(u, w, cfg, articles.value, stats, chunks, batches);
    BatchesCut(u, w, cfg, articles.value, chunks, batches);
    CycleBalances(u, w, cfg, articles.value, stats, chunks, batches, cancelled);
    if cancelled {
      return Err("rate-limit throttle wait canceled"), stats, pages, source, batches;
    }
    return Ok(stats), stats, pages, source, batches;
  }

  /** A cycle that dispatches nothing. */
  lemma NothingReported(u: Unicode, w: World, cfg: Config, pages: nat)
    ensures Balances(u, w, NO_STATS.(pagesFetched := pages), [], Journal(u, w, cfg, [], [], false))
  {
    assert Journal(u, w, cfg, [], [], false) == [];
    NothingHigher(u, w, pages);
    NoPlaces(IsDispatch);
    hide Higher, Sampled, Refused, LimitedPlaces, Places;
  }

  lemma CycleBalances(u: Unicode, w: World, cfg: Config, source: seq<UpstreamArticle>, s: CycleStats,
                      chunks: seq<seq<int>>, batches: seq<Batch>, cancelled: bool)
    requires Ran(u, w, cfg, source, chunks, batches) && Accounts(u, w, s, batches)
    ensures Balances(u, w, s, batches, Journal(u, w, cfg, source, batches, cancelled))
  {
    hide Ran, Accounts, Journal, Higher, Sampled, Refused, LimitedPlaces, Places, ArticlesIn;
    RanAnswered(u, w, cfg, source, chunks, batches);
    AccountsAre(u, w, s, batches);
    AccountsSent(u, w, s, batches);
    DispatchesInLog(u, w, cfg, source, batches, cancelled);
  }

  lemma RanAnswered(u: Unicode, w: World, cfg: Config, source: seq<UpstreamArticle>, chunks: seq<seq<int>>,
                    batches: seq<Batch>)
    requires Ran(u, w, cfg, source, chunks, batches)
    ensures AllFit(batches) && forall i :: 0 <= i < |batches| ==> Answered(w, source, i, batches[i])
  {
    hide AllFit, Answered, Paced;
  }

  lemma AccountsSent(u: Unicode, w: World, s: CycleStats, batches: seq<Batch>)
    requires Accounts(u, w, s, batches)
    ensures s.dispatchBatches == Sent(batches) && s.dispatchedIDSize == SentIds(batches)
  {
    hide SamplesFit, Total, RateLimits, Causes;
  }

  lemma AccountsNothing(u: Unicode, w: World, pages: nat, count: nat, ids: seq<int>)
    ensures Accounts(u, w, NO_STATS.(pagesFetched := pages, articleCount := count, discoveredIDs := ids), [])
  {
    hide SamplesFit;
    NothingCounted(w);
    NoSamples(w);
    NoCauses(w);
  }

  lemma NoSamples(w: World)
    ensures SamplesFit(w, [], map[])
  {
  }

  /** What the dispatch of the chunks amounts to for the whole cycle. */
  lemma CycleConcluded(u: Unicode, w: World, cfg: Config, source: seq<UpstreamArticle>, s: CycleStats,
                       chunks: seq<seq<int>>, batches: seq<Batch>)
    requires Ran(u, w, cfg, source, chunks, batches) && Accounts(u, w, s, batches)
    requires s.articleCount == |source| && s.discoveredIDs == DiscoveredIn(source) == Flatten(chunks)
    requires s.throttleApplied == (RateLimits(u, batches) >= cfg.rateLimitThreshold)
    requires forall c :: c in chunks ==> c != []
    ensures Reported(u, w, cfg, source, s, batches)
    ensures |batches| == |chunks| ==> Ids(batches) == s.discoveredIDs && Accounted(s) == s.articleCount
    ensures |batches| < |chunks| ==> Ids(batches) < s.discoveredIDs
    ensures s.rateLimitedCount <= s.failed
    ensures |s.errorCauses| == WithError(Returned(batches))
  {
    hide Total, RateLimits, Causes, SamplesFit, Paced, AllFit, Answered, Count, Ids, Flatten;
    assert forall i :: 0 <= i < |chunks| ==> chunks[i] in chunks;
    IdsAreFlat(batches, chunks);
    AccountingConserved(batches);
    RateLimitsFail(u, batches);
    CausesCount(w, Returned(batches));
  }

  lemma BatchesCut(u: Unicode, w: World, cfg: Config, source: seq<UpstreamArticle>, chunks: seq<seq<int>>,
                   batches: seq<Batch>)
    requires cfg.IsValid() && Ran(u, w, cfg, source, chunks, batches)
    requires forall c :: c in chunks ==> c != []
    requires forall i :: 0 <= i < |chunks| ==> |chunks[i]| <= cfg.batchSize
    requires forall i :: 0 <= i < |chunks| - 1 ==> |chunks[i]| == cfg.batchSize
    ensures CutToSize(cfg, batches, |batches| < |chunks|)
  {
    hide Answered, AllFit, Paced;
    assert forall i :: 0 <= i < |chunks| ==> chunks[i] in chunks;
  }

  method CollectDiscovered(articles: seq<UpstreamArticle>) returns (ids: seq<int>)
    ensures ids == DiscoveredIn(articles)
  {
    ids := [];
    for i := 0 to |articles|
      invariant |ids| == i && forall j :: 0 <= j < i ==> ids[j] == articles[j].id
    {
      ids := ids + [articles[i].id];
    }
  }
}

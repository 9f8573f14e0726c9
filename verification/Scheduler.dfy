/**
 One cycle of the polling scheduler (internal/app/scheduler/scheduler.go): fetch pages, chunk the
 articles, dispatch the chunks in turn, account for the outcomes, and slow down after rate limits.
 The upstream service, the date parser, the batch runner and the clock answer as functions of what
 they are asked; nothing is assumed of them but that a batch yields one item per article.
 */
module Scheduler {
  import opened Results
  import opened Text
  import opened ArticleRun
  import Cleaning
  import opened WorkerPool

  datatype UpstreamArticle = UpstreamArticle(
    id: int,
    title: string,
    link: string,
    source: string,
    description: Option<string>,
    content: Option<string>,
    publishedAt: string,
    fulltextExcerpt: Option<string>,
    fulltextContentText: Option<string>)

  datatype Config = Config(
    pageSize: int,
    maxPagesPerCycle: int,
    dispatchConcurrency: int,
    batchSize: int,
    rateLimitThreshold: int)
  {
    predicate IsValid() {
      pageSize > 0 && maxPagesPerCycle > 0 && dispatchConcurrency > 0 && batchSize > 0 && rateLimitThreshold > 0
    }
  }

  /** The world outside: pages by limit and offset, replies and waits by batch number. */
  datatype World = World(
    page: (int, int) -> Result<seq<UpstreamArticle>>,
    parseTime: string -> Option<int>,
    run: (nat, seq<Article>, int) -> Result<seq<Item>>,
    wait: nat -> bool,
    cause: string -> string)
  {
    /** One item per article; the batch runner guarantees it, see `PoolFitsBatch`. */
    ghost predicate Sound() {
      forall b, articles, n :: run(b, articles, n).Ok? ==> FitsBatch(articles, run(b, articles, n).value)
    }
  }

  ghost predicate FitsBatch(articles: seq<Article>, items: seq<Item>) {
    |items| == |articles| && forall i :: 0 <= i < |articles| ==> items[i].articleId == articles[i].id
  }

  /** A batch of the worker pool that was started without a limit, as the scheduler starts it, fits its articles. */
  lemma PoolFitsBatch(u: Unicode, moves: seq<WorkerPool.Move>, p: nat)
    requires var s := WorkerPool.Exec(u, WorkerPool.INITIAL, moves);
             p < |s.pools| && s.pools[p].returned.Some? && s.pools[p].stopAfter == 0
    ensures var q := WorkerPool.Exec(u, WorkerPool.INITIAL, moves).pools[p];
            FitsBatch(q.articles, q.returned.value.items)
  {
    hide WorkerPool.Apply;
    ReturnedIsComplete(u, moves, p);
  }

  function IsRateLimited(u: Unicode, text: string): bool {
    var normalized := u.ToLower(TrimSpace(text));
    && normalized != ""
    && (Contains(normalized, "status=429") || Contains(normalized, "rate limit")
        || Contains(normalized, "too many requests"))
  }

  lemma TrimmedIsMiddle(text: string) returns (k: nat)
    ensures var n := |TrimSpace(text)|;
            && k + n <= |text| && TrimSpace(text) == text[k..k + n]
            && (forall i :: 0 <= i < k ==> IsSpace(text[i])) && (forall i :: k + n <= i < |text| ==> IsSpace(text[i]))
  {
    hide TrimLeft, TrimRight, IsSpace;
    var left := TrimLeft(text);
    TrimLeftDrops(text);
    TrimRightDrops(left);
    k := |text| - |left|;
    forall i | k + |TrimSpace(text)| <= i < |text| ensures IsSpace(text[i]) {
      assert text[i] == left[i - k];
    }
    assert left == text[k..];
    assert left[..|TrimSpace(text)|] == text[k..k + |TrimSpace(text)|];
  }

  lemma MiddleLowered(u: Unicode, text: string, middle: string, k: nat)
    requires k + |middle| <= |text| && middle == text[k..k + |middle|]
    ensures |u.ToLower(middle)| == |middle| && |u.ToLower(text)| == |text|
    ensures u.ToLower(middle) == u.ToLower(text)[k..k + |middle|]
  {
    forall i | 0 <= i < |middle| ensures u.ToLower(middle)[i] == u.ToLower(text)[k + i] {
      assert middle[i] == text[k + i];
    }
  }

  lemma IsAtMiddle(all: string, k: nat, middle: string, i: nat, part: string)
    requires k + |middle| <= |all| && middle == all[k..k + |middle|]
    requires i + |part| <= |middle|
    ensures IsAt(middle, i, part) <==> IsAt(all, k + i, part)
  {
    var a, b := all[k + i..k + i + |part|], middle[i..i + |part|];
    forall j | 0 <= j < |part| ensures a[j] == b[j] {
      assert b[j] == middle[i + j] == all[k..k + |middle|][i + j] == all[k + (i + j)];
    }
    assert a == b;
  }

  lemma OccursTrimmed(u: Unicode, text: string, part: string)
    requires u.Sound() && part != "" && !IsSpace(part[0]) && !IsSpace(part[|part| - 1])
    ensures Occurs(part, u.ToLower(TrimSpace(text))) <==> Occurs(part, u.ToLower(text))
  {
    hide TrimSpace, IsSpace;
    var k := TrimmedIsMiddle(text);
    var all, middle := u.ToLower(text), u.ToLower(TrimSpace(text));
    MiddleLowered(u, text, TrimSpace(text), k);
    if i: nat :| IsAt(middle, i, part) {
      IsAtMiddle(all, k, middle, i, part);
    }
    if i: nat :| IsAt(all, i, part) {
      AtVisible(u, text, i, part);
      IsAtMiddle(all, k, middle, i - k, part);
    }
  }

  lemma AtVisible(u: Unicode, text: string, i: nat, part: string)
    requires u.Sound() && part != "" && !IsSpace(part[0]) && !IsSpace(part[|part| - 1])
    requires IsAt(u.ToLower(text), i, part)
    ensures i + |part| <= |text| && !IsSpace(text[i]) && !IsSpace(text[i + |part| - 1])
  {
    var found := u.ToLower(text)[i..i + |part|];
    assert found[0] == u.lower(text[i]) && found[|part| - 1] == u.lower(text[i + |part| - 1]);
  }

  /** An error is a rate limit if its text has one of three phrases anywhere, whatever the letter case. */
  lemma RateLimitedIff(u: Unicode, text: string)
    requires u.Sound()
    ensures IsRateLimited(u, text)
       <==> || Occurs("status=429", u.ToLower(text)) || Occurs("rate limit", u.ToLower(text))
            || Occurs("too many requests", u.ToLower(text))
  {
    hide Occurs, TrimSpace, Contains;
    var normalized := u.ToLower(TrimSpace(text));
    OccursTrimmed(u, text, "status=429");
    OccursTrimmed(u, text, "rate limit");
    OccursTrimmed(u, text, "too many requests");
    ContainsIff(normalized, "status=429");
    ContainsIff(normalized, "rate limit");
    ContainsIff(normalized, "too many requests");
    NothingOccurs("status=429");
    NothingOccurs("rate limit");
    NothingOccurs("too many requests");
  }

  lemma NothingOccurs(part: string)
    requires part != ""
    ensures !Occurs(part, "")
  {
  }

  function ThrottledConcurrency(base: int): int {
    if base <= 1 then 1 else (base + 1) / 2
  }

  /** Half of the base, rounded up, and at least one. */
  lemma ThrottledIsHalf(base: int)
    requires base > 0
    ensures 1 <= ThrottledConcurrency(base) <= base
    ensures base <= 2 * ThrottledConcurrency(base) <= base + 1
  {
  }

  // Fetching

  function PageAt(w: World, cfg: Config, n: nat): Result<seq<UpstreamArticle>> {
    w.page(cfg.pageSize, n * cfg.pageSize)
  }

  ghost predicate FullPages(w: World, cfg: Config, n: nat) {
    forall i: nat :: i < n ==> PageAt(w, cfg, i).Ok? && PageAt(w, cfg, i).value != []
  }

  /** The articles of the first pages, in order. */
  ghost function Collected(w: World, cfg: Config, n: nat): seq<UpstreamArticle>
    requires FullPages(w, cfg, n)
  {
    if n == 0 then [] else Collected(w, cfg, n - 1) + PageAt(w, cfg, n - 1).value
  }

  /** More pages only add articles at the end. */
  lemma {:induction false} CollectedGrows(w: World, cfg: Config, m: nat, n: nat)
    requires m <= n && FullPages(w, cfg, n)
    ensures FullPages(w, cfg, m) && Collected(w, cfg, m) <= Collected(w, cfg, n)
    ensures m < n ==> Collected(w, cfg, m) + PageAt(w, cfg, m).value <= Collected(w, cfg, n)
    decreases n - m
  {
    if m < n {
      CollectedGrows(w, cfg, m + 1, n);
    }
  }

  /** What a cycle does to the outside: a page fetched, a cooldown before a batch, a batch sent to the runner. */
  datatype Effect =
    | Fetched(limit: int, offset: int)
    | Waited(batch: nat)
    | Dispatched(articles: seq<Article>, concurrency: int)

  /** The upstream service, the clock and the batch runner, which remember what they were called for, in order. */
  class Outside {
    const world: World
    var log: seq<Effect>

    constructor (world: World)
      ensures this.world == world && log == []
    {
      this.world, log := world, [];
    }

    method ListEligibleArticles(limit: int, offset: int) returns (page: Result<seq<UpstreamArticle>>)
      modifies this`log
      ensures log == old(log) + [Fetched(limit, offset)] && page == world.page(limit, offset)
    {
      log := log + [Fetched(limit, offset)];
      page := world.page(limit, offset);
    }

    /** A cooldown before batch `n`; the cycle may be cancelled meanwhile. */
    method Wait(n: nat) returns (done: bool)
      modifies this`log
      ensures log == old(log) + [Waited(n)] && done == world.wait(n)
    {
      log := log + [Waited(n)];
      done := world.wait(n);
    }

    method RunBatch(n: nat, articles: seq<Article>, concurrency: int) returns (result: Result<seq<Item>>)
      modifies this`log
      ensures log == old(log) + [Dispatched(articles, concurrency)]
      ensures result == world.run(n, articles, concurrency)
    {
      log := log + [Dispatched(articles, concurrency)];
      result := world.run(n, articles, concurrency);
    }
  }

  /** The requests for the first pages. */
  function Fetches(cfg: Config, n: nat): seq<Effect> {
    if n == 0 then [] else Fetches(cfg, n - 1) + [Fetched(cfg.pageSize, (n - 1) * cfg.pageSize)]
  }

  /** The source is all the pages before the first empty one, or before the limit. */
  ghost predicate IsSource(w: World, cfg: Config, pages: nat, source: seq<UpstreamArticle>) {
    exists n: nat ::
      && n <= cfg.maxPagesPerCycle && FullPages(w, cfg, n) && source == Collected(w, cfg, n)
      && (if n < cfg.maxPagesPerCycle then pages == n + 1 && PageAt(w, cfg, n) == Ok([]) else pages == n)
  }

  /** The last of these pages is the first that could not be fetched. */
  ghost predicate LastFails(w: World, cfg: Config, pages: nat) {
    0 < pages <= cfg.maxPagesPerCycle && FullPages(w, cfg, pages - 1) && PageAt(w, cfg, pages - 1).Err?
  }

  lemma {:induction false} FetchesAre(cfg: Config, n: nat)
    ensures |Fetches(cfg, n)| == n
    ensures forall i :: 0 <= i < n ==> Fetches(cfg, n)[i] == Fetched(cfg.pageSize, i * cfg.pageSize)
  {
    if n > 0 {
      FetchesAre(cfg, n - 1);
    }
  }

  method FetchEligibleArticles(outside: Outside, cfg: Config)
    returns (r: Result<seq<UpstreamArticle>>, pagesFetched: nat)
    requires cfg.IsValid()
    modifies outside`log
    ensures r.Ok? ==> IsSource(outside.world, cfg, pagesFetched, r.value)
    ensures r.Err? ==> LastFails(outside.world, cfg, pagesFetched + 1)
    ensures outside.log == old(outside.log) + Fetches(cfg, if r.Ok? then pagesFetched else pagesFetched + 1)
  {
    var w := outside.world;
    var collected: seq<UpstreamArticle> := [];
    var offset := 0;
    pagesFetched := 0;
    for page := 0 to cfg.maxPagesPerCycle
      invariant offset == page * cfg.pageSize && pagesFetched == page
      invariant FullPages(w, cfg, page) && collected == Collected(w, cfg, page)
      invariant outside.log == old(outside.log) + Fetches(cfg, page)
    {
      var resp := outside.ListEligibleArticles(cfg.pageSize, offset);
      assert resp == PageAt(w, cfg, page);
      if resp.Err? {
        return Err("fetch upstream page"), pagesFetched;
      }
      pagesFetched := pagesFetched + 1;
      if resp.value == [] {
        return Ok(collected), pagesFetched;
      }
      collected := collected + resp.value;
      offset := offset + cfg.pageSize;
    }
    return Ok(collected), pagesFetched;
  }

  // Chunking

  ghost function Flatten(chunks: seq<seq<int>>): seq<int> {
    if chunks == [] then [] else Flatten(chunks[..|chunks| - 1]) + chunks[|chunks| - 1]
  }

  method ChunkIDs(ids: seq<int>, batchSize: int) returns (chunks: seq<seq<int>>)
    ensures Flatten(chunks) == ids
    ensures forall c :: c in chunks ==> c != []
    ensures batchSize > 0 ==> forall i :: 0 <= i < |chunks| ==> |chunks[i]| <= batchSize
    ensures batchSize > 0 ==> forall i :: 0 <= i < |chunks| - 1 ==> |chunks[i]| == batchSize
    ensures batchSize <= 0 ==> |chunks| <= 1
  {
    if |ids| == 0 {
      return [];
    }
    var size := if batchSize <= 0 then |ids| else batchSize;
    chunks := [];
    var start := 0;
    while start < |ids|
      invariant 0 <= start <= |ids|
      invariant Flatten(chunks) == ids[..start]
      invariant forall i :: 0 <= i < |chunks| ==> 0 < |chunks[i]| <= size
      invariant forall i :: 0 <= i < |chunks| - 1 ==> |chunks[i]| == size
      invariant start < |ids| ==> forall i :: 0 <= i < |chunks| ==> |chunks[i]| == size
      invariant size == |ids| ==> if start == |ids| then |chunks| == 1 else start == 0 && chunks == []
    {
      var end := start + size;
      if end > |ids| {
        end := |ids|;
      }
      FlattenSnoc(chunks, ids[start..end]);
      assert ids[..start] + ids[start..end] == ids[..end];
      chunks := chunks + [ids[start..end]];
      start := end;
    }
    assert ids[..start] == ids;
  }

  lemma FlattenSnoc(chunks: seq<seq<int>>, c: seq<int>)
    ensures Flatten(chunks + [c]) == Flatten(chunks) + c
  {
    assert (chunks + [c])[..|chunks|] == chunks;
  }

  // Conversion

  /** The last fetched article with this number, if there is one. */
  ghost function LastWith(source: seq<UpstreamArticle>, id: int): Option<UpstreamArticle> {
    if source == [] then None
    else if source[|source| - 1].id == id then Some(source[|source| - 1])
    else LastWith(source[..|source| - 1], id)
  }

  /** The last place of a number among the fetched articles. */
  ghost predicate IsLast(source: seq<UpstreamArticle>, k: int, id: int) {
    && 0 <= k < |source| && source[k].id == id
    && forall m :: k < m < |source| ==> source[m].id != id
  }

  lemma {:induction false} LastWithIs(source: seq<UpstreamArticle>, id: int)
    ensures LastWith(source, id) == None <==> forall k :: 0 <= k < |source| ==> source[k].id != id
    ensures forall k :: IsLast(source, k, id) ==> LastWith(source, id) == Some(source[k])
    ensures LastWith(source, id).Some? ==> exists k :: IsLast(source, k, id)
  {
    if source != [] {
      var n := |source| - 1;
      LastWithIs(source[..n], id);
      if source[n].id == id {
        assert IsLast(source, n, id);
      } else {
        forall k ensures IsLast(source, k, id) <==> IsLast(source[..n], k, id) {
          assert forall m :: 0 <= m < n ==> source[m] == source[..n][m];
        }
      }
    }
  }

  /** A number can be extracted: it is positive, and the last fetched article that has it has a time that parses. */
  ghost predicate LastParses(parse: string -> Option<int>, source: seq<UpstreamArticle>, id: int) {
    id > 0 && exists k :: IsLast(source, k, id) && parse(source[k].publishedAt).Some?
  }

  /** The article for the extraction; the zero time is the same as none. */
  function Converted(a: UpstreamArticle, publishedAt: int): Article {
    Article(a.id, a.title, a.link, a.source, if publishedAt == ZERO_TIME then None else Some(publishedAt),
            a.description, a.content, a.fulltextExcerpt, a.fulltextContentText)
  }

  /** What the extractor is asked for a fetched article: its own fields, and the text of its own contents. */
  lemma ConvertedInput(u: Unicode, a: UpstreamArticle, publishedAt: int)
    requires TrimSpace(a.title) != ""
    ensures var input := InputFor(u, Converted(a, publishedAt));
            && input.articleId == a.id && input.title == a.title && input.link == a.link && input.source == a.source
            && (input.publishedAt == if publishedAt == ZERO_TIME then None else Some(publishedAt))
            && input.text == Cleaning.Process(u, "TITLE:\n" + TrimSpace(a.title)
                                                 + Block("DESCRIPTION", a.description) + Block("CONTENT", a.content)
                                                 + Block("FULLTEXT_EXCERPT", a.fulltextExcerpt)
                                                 + Block("FULLTEXT_CONTENT_TEXT", a.fulltextContentText))
  {
    hide Block, BuildInputText, Cleaning.Process, TrimSpace;
    InputTextIs(Converted(a, publishedAt));
  }

  ghost predicate Convertible(w: World, source: seq<UpstreamArticle>, id: int) {
    id > 0 && LastWith(source, id).Some? && w.parseTime(LastWith(source, id).value.publishedAt).Some?
  }

  lemma ConvertibleIff(w: World, source: seq<UpstreamArticle>, id: int)
    ensures Convertible(w, source, id) <==> LastParses(w.parseTime, source, id)
  {
    hide LastWith;
    LastWithIs(source, id);
  }

  ghost predicate AllConvertible(w: World, source: seq<UpstreamArticle>, ids: seq<int>) {
    forall i :: 0 <= i < |ids| ==> Convertible(w, source, ids[i])
  }

  /** The articles of a batch: for each number the last fetched article that has it, converted. */
  ghost function BatchArticles(w: World, source: seq<UpstreamArticle>, ids: seq<int>): seq<Article>
    requires AllConvertible(w, source, ids)
  {
    seq(|ids|, i requires 0 <= i < |ids| =>
      var a := LastWith(source, ids[i]).value;
      Converted(a, w.parseTime(a.publishedAt).value))
  }

  method BuildBatchArticles(w: World, ids: seq<int>, source: seq<UpstreamArticle>) returns (r: Result<seq<Article>>)
    ensures r.Ok? <==> AllConvertible(w, source, ids)
    ensures r.Ok? <==> forall i :: 0 <= i < |ids| ==> LastParses(w.parseTime, source, ids[i])
    ensures r.Ok? ==> r.value == BatchArticles(w, source, ids)
    ensures r.Ok? ==> forall i :: 0 <= i < |ids| ==> r.value[i].id == ids[i]
  {
    forall id ensures Convertible(w, source, id) <==> LastParses(w.parseTime, source, id) {
      ConvertibleIff(w, source, id);
    }
    hide LastParses;
    var byID: map<int, UpstreamArticle> := map[];
    for i := 0 to |source|
      invariant forall id :: (id in byID <==> LastWith(source[..i], id).Some?)
      invariant forall id :: id in byID ==> byID[id] == LastWith(source[..i], id).value && byID[id].id == id
    {
      assert source[..i + 1][..i] == source[..i];
      byID := byID[source[i].id := source[i]];
    }
    assert source[..|source|] == source;
    var out: seq<Article> := [];
    for i := 0 to |ids|
      invariant |out| == i
      invariant forall j :: 0 <= j < i ==> Convertible(w, source, ids[j])
      invariant forall j :: 0 <= j < i ==>
                  var a := LastWith(source, ids[j]).value;
                  out[j].id == ids[j] && out[j] == Converted(a, w.parseTime(a.publishedAt).value)
    {
      var id := ids[i];
      if id !in byID {
        return Err("article not found in fetched source");
      }
      var article := byID[id];
      if article.id <= 0 {
        return Err("article_id must be > 0");
      }
      var publishedAt := w.parseTime(article.publishedAt);
      if publishedAt == None {
        return Err("convert article");
      }
      out := out + [Converted(article, publishedAt.value)];
    }
    return Ok(out);
  }

  lemma {:induction false} FetchedIsFound(source: seq<UpstreamArticle>, i: nat)
    requires i < |source|
    ensures LastWith(source, source[i].id).Some?
  {
    var n := |source| - 1;
    if i < n {
      FetchedIsFound(source[..n], i);
    }
  }
}

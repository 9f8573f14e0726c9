/**
 The response of a batch request (internal/http/handler.go): one slot per requested number, filled
 from the items of the batch through a queue of slots per article. Slots live in a buffer of fixed
 capacity, and the queues hold places in that buffer.
 */
module BatchResponse {
  import opened Results
  import opened Extract
  import opened ArticleRun
  import opened WorkerPool
  import opened Counting
  import opened Scheduler

  const FAILED := "failed"
  const PENDING := "pending"
  const NEWLY_EXTRACTED := "newly_extracted"
  const ALREADY_DONE := "already_done"
  const ALREADY_PENDING := "already_pending"
  const ALREADY_FAILED := "already_failed"

  datatype Slot = Slot(articleId: int, status: string, result: Option<ExtractResult>, error: string)

  datatype Response = Response(items: seq<Slot>, total: nat, succeeded: nat, failed: nat)

  function OutcomeText(execution: Option<C.Execution>): string {
    match execution
    case None => ""
    case Some(NewlyExtracted) => NEWLY_EXTRACTED
    case Some(ExecDone) => ALREADY_DONE
    case Some(ExecPending) => ALREADY_PENDING
    case Some(ExecFailed) => ALREADY_FAILED
  }

  /** The services a request uses: the date parser and the batch runner. */
  datatype Services = Services(parseTime: string -> Option<int>, run: seq<Article> -> Result<seq<Item>>) {
    ghost predicate Sound() {
      forall articles :: run(articles).Ok? ==> FitsBatch(articles, run(articles).value)
    }
  }

  /** The batch runner as the handler calls it, which remembers the batches it was given. */
  class Runner {
    const services: Services
    var batches: seq<seq<Article>>

    constructor (services: Services)
      ensures this.services == services && batches == []
    {
      this.services, batches := services, [];
    }

    method RunBatch(articles: seq<Article>) returns (result: Result<seq<Item>>)
      modifies this`batches
      ensures batches == old(batches) + [articles] && result == services.run(articles)
    {
      batches := batches + [articles];
      result := services.run(articles);
    }
  }

  /** The article of a number can be extracted. */
  ghost predicate IsGood(s: Services, source: seq<UpstreamArticle>, id: int) {
    id > 0 && LastWith(source, id).Some? && s.parseTime(LastWith(source, id).value.publishedAt).Some?
  }

  ghost function ArticleOf(s: Services, source: seq<UpstreamArticle>, id: int): Article
    requires IsGood(s, source, id)
  {
    var a := LastWith(source, id).value;
    Converted(a, s.parseTime(a.publishedAt).value)
  }

  /** The slot of a number before the batch has run. */
  ghost function FirstSlot(s: Services, source: seq<UpstreamArticle>, id: int): Slot {
    if id <= 0 then Slot(id, FAILED, None, "invalid article_id")
    else if LastWith(source, id) == None then Slot(id, FAILED, None, "article not found")
    else if s.parseTime(LastWith(source, id).value.publishedAt) == None then
      Slot(id, FAILED, None, "invalid article data")
    else Slot(id, PENDING, None, "")
  }

  function Filled(slot: Slot, item: Item): Slot {
    if item.error != "" then slot.(status := FAILED, error := item.error)
    else slot.(status := OutcomeText(item.execution), result := item.result, error := item.error)
  }

  /** A slot as an item leaves it: the error and nothing else, or the outcome in words and the result. */
  ghost predicate Answers(slot: Slot, item: Item) {
    if item.error != "" then slot.status == "failed" && slot.error == item.error && slot.result == None
    else
      && slot.error == "" && slot.result == item.result
      && slot.status == match item.execution
                        case None => ""
                        case Some(NewlyExtracted) => "newly_extracted"
                        case Some(ExecDone) => "already_done"
                        case Some(ExecPending) => "already_pending"
                        case Some(ExecFailed) => "already_failed"
  }

  lemma FilledAnswers(slot: Slot, item: Item)
    requires slot.result == None
    ensures Answers(Filled(slot, item), item) && Filled(slot, item).articleId == slot.articleId
  {
  }

  /** The items that count as succeeded: no error, and an outcome other than an old failure. */
  ghost function Good(items: seq<Item>): set<int> {
    set j | 0 <= j < |items| && items[j].error == ""
            && items[j].execution in {Some(C.NewlyExtracted), Some(C.ExecDone), Some(C.ExecPending)}
  }

  /** Why a number is rejected, if it is. */
  ghost predicate Rejected(s: Services, source: seq<UpstreamArticle>, id: int, slot: Slot) {
    && slot.status == "failed" && slot.result == None
    && (id <= 0 ==> slot.error == "invalid article_id")
    && (id > 0 && (forall k :: 0 <= k < |source| ==> source[k].id != id) ==> slot.error == "article not found")
    && (id > 0 && (exists k :: 0 <= k < |source| && source[k].id == id) ==> slot.error == "invalid article data")
  }

  lemma GoodIff(s: Services, source: seq<UpstreamArticle>, id: int)
    ensures IsGood(s, source, id) <==> LastParses(s.parseTime, source, id)
  {
    hide LastWith;
    LastWithIs(source, id);
  }

  lemma RejectedIs(s: Services, source: seq<UpstreamArticle>, id: int)
    requires !IsGood(s, source, id)
    ensures Rejected(s, source, id, FirstSlot(s, source, id))
  {
    LastWithIs(source, id);
  }

  /** The places of the good numbers, in order. */
  ghost function GoodPlaces(s: Services, source: seq<UpstreamArticle>, ids: seq<int>): seq<nat> {
    if ids == [] then []
    else
      var n := |ids| - 1;
      GoodPlaces(s, source, ids[..n]) + (if IsGood(s, source, ids[n]) then [n] else [])
  }

  lemma {:induction false} GoodPlacesAre(s: Services, source: seq<UpstreamArticle>, ids: seq<int>)
    ensures var at := GoodPlaces(s, source, ids);
            && (forall j :: 0 <= j < |at| ==> at[j] < |ids| && IsGood(s, source, ids[at[j]]))
            && (forall j, k :: 0 <= j < k < |at| ==> at[j] < at[k])
            && (forall i :: 0 <= i < |ids| && IsGood(s, source, ids[i]) ==> i in at)
  {
    hide IsGood;
    if ids != [] {
      var n := |ids| - 1;
      GoodPlacesAre(s, source, ids[..n]);
      assert forall i :: 0 <= i < n ==> ids[..n][i] == ids[i];
    }
  }

  /** The articles of the good numbers, one per place. */
  ghost function GoodArticles(s: Services, source: seq<UpstreamArticle>, ids: seq<int>): (r: seq<Article>)
    ensures |r| == |GoodPlaces(s, source, ids)|
  {
    if ids == [] then []
    else
      var n := |ids| - 1;
      GoodArticles(s, source, ids[..n])
      + (if IsGood(s, source, ids[n]) then [ArticleOf(s, source, ids[n])] else [])
  }

  lemma {:induction false} LastHasId(source: seq<UpstreamArticle>, id: int)
    requires LastWith(source, id).Some?
    ensures LastWith(source, id).value.id == id
  {
    if source[|source| - 1].id != id {
      LastHasId(source[..|source| - 1], id);
    }
  }

  lemma {:induction false} ArticlesMatchPlaces(s: Services, source: seq<UpstreamArticle>, ids: seq<int>)
    ensures var at, articles := GoodPlaces(s, source, ids), GoodArticles(s, source, ids);
            forall j :: 0 <= j < |at| ==> at[j] < |ids| && articles[j].id == ids[at[j]]
  {
    hide IsGood, ArticleOf;
    if ids != [] {
      var n := |ids| - 1;
      ArticlesMatchPlaces(s, source, ids[..n]);
      if IsGood(s, source, ids[n]) {
        ArticleHasId(s, source, ids[n]);
      }
      var front, at := GoodPlaces(s, source, ids[..n]), GoodPlaces(s, source, ids);
      var articles := GoodArticles(s, source, ids);
      forall j | 0 <= j < |at| ensures at[j] < |ids| && articles[j].id == ids[at[j]] {
        if j < |front| {
          assert at[j] == front[j] && articles[j] == GoodArticles(s, source, ids[..n])[j];
        }
      }
    }
  }

  lemma ArticleHasId(s: Services, source: seq<UpstreamArticle>, id: int)
    requires IsGood(s, source, id)
    ensures ArticleOf(s, source, id).id == id
  {
    LastHasId(source, id);
  }

  /** One more number. */
  lemma GoodNext(s: Services, source: seq<UpstreamArticle>, ids: seq<int>, n: nat)
    requires n < |ids|
    ensures var id, front, all := ids[n], ids[..n], ids[..n + 1];
            if IsGood(s, source, id) then
              && GoodPlaces(s, source, all) == GoodPlaces(s, source, front) + [n]
              && GoodArticles(s, source, all) == GoodArticles(s, source, front) + [ArticleOf(s, source, id)]
            else
              && GoodPlaces(s, source, all) == GoodPlaces(s, source, front)
              && GoodArticles(s, source, all) == GoodArticles(s, source, front)
  {
    hide IsGood, ArticleOf;
    assert ids[..n + 1][..n] == ids[..n];
  }

  type Queues = map<int, seq<nat>>

  function QueueOf(queues: Queues, id: int): seq<nat> {
    if id in queues then queues[id] else []
  }

  /** The places from `at` that ask for an article, in order. */
  ghost function Waiting(ids: seq<int>, at: seq<nat>, id: int): seq<nat>
    requires forall j :: 0 <= j < |at| ==> at[j] < |ids|
  {
    if at == [] then []
    else (if ids[at[0]] == id then [at[0]] else []) + Waiting(ids, at[1..], id)
  }

  lemma {:induction false} WaitingSnoc(ids: seq<int>, at: seq<nat>, place: nat, id: int)
    requires (forall j :: 0 <= j < |at| ==> at[j] < |ids|) && place < |ids|
    ensures Waiting(ids, at + [place], id) == Waiting(ids, at, id) + (if ids[place] == id then [place] else [])
    decreases |at|
  {
    if at == [] {
      assert [] + [place] == [place];
      assert [place][1..] == [];
    } else {
      hide Waiting;
      WaitingSnoc(ids, at[1..], place, id);
      assert (at + [place])[1..] == at[1..] + [place];
      WaitingCons(ids, at, id);
      WaitingCons(ids, at + [place], id);
    }
  }

  lemma WaitingCons(ids: seq<int>, at: seq<nat>, id: int)
    requires (forall j :: 0 <= j < |at| ==> at[j] < |ids|) && at != []
    ensures Waiting(ids, at, id) == (if ids[at[0]] == id then [at[0]] else []) + Waiting(ids, at[1..], id)
  {
  }

  /** The queues hold, per article, the places that still wait for it. */
  ghost predicate QueuesHold(queues: Queues, ids: seq<int>, at: seq<nat>) {
    && (forall j :: 0 <= j < |at| ==> at[j] < |ids|)
    && forall id :: QueueOf(queues, id) == Waiting(ids, at, id)
  }

  /** A new place goes to the end of the queue of its article. */
  lemma Enqueued(queues: Queues, ids: seq<int>, at: seq<nat>, place: nat)
    requires QueuesHold(queues, ids, at) && place < |ids|
    ensures QueuesHold(queues[ids[place] := QueueOf(queues, ids[place]) + [place]], ids, at + [place])
  {
    hide Waiting;
    var next := queues[ids[place] := QueueOf(queues, ids[place]) + [place]];
    forall id ensures QueueOf(next, id) == Waiting(ids, at + [place], id) {
      assert QueueOf(queues, id) == Waiting(ids, at, id);
      WaitingSnoc(ids, at, place, id);
    }
  }

  /** The head of the queue of the next item's article is the place of that item. */
  lemma Dequeued(queues: Queues, ids: seq<int>, at: seq<nat>)
    requires QueuesHold(queues, ids, at) && at != []
    ensures var queue := QueueOf(queues, ids[at[0]]);
            && queue != [] && queue[0] == at[0]
            && QueuesHold(queues[ids[at[0]] := queue[1..]], ids, at[1..])
  {
    var id0 := ids[at[0]];
    var next := queues[id0 := QueueOf(queues, id0)[1..]];
    forall id ensures QueueOf(next, id) == Waiting(ids, at[1..], id) {
      assert QueueOf(queues, id) == Waiting(ids, at, id);
    }
  }

  /** How the response counts a slot. */
  function IsSuccess(slot: Slot): bool {
    slot.status == NEWLY_EXTRACTED || slot.status == ALREADY_DONE || slot.status == ALREADY_PENDING
  }

  function Successes(slots: seq<Slot>): nat {
    if slots == [] then 0
    else Successes(slots[..|slots| - 1]) + (if IsSuccess(slots[|slots| - 1]) then 1 else 0)
  }

  lemma {:induction false} SuccessesAre(slots: seq<Slot>)
    ensures Successes(slots) == |Places(slots, IsSuccess)|
  {
    if slots == [] {
      NoPlaces(IsSuccess);
    } else {
      SuccessesAre(slots[..|slots| - 1]);
      PlacesSnoc(slots, IsSuccess);
    }
  }

  lemma AnswerIsSuccess(slot: Slot, item: Item)
    requires Answers(slot, item)
    ensures IsSuccess(slot) <==> item.error == ""
                                 && item.execution in {Some(C.NewlyExtracted), Some(C.ExecDone), Some(C.ExecPending)}
  {
  }

  /** The response counts exactly the good items. */
  lemma SucceededAre(s: Services, source: seq<UpstreamArticle>, ids: seq<int>, items: seq<Item>, slots: seq<Slot>)
    requires Matches(s, source, ids, items, slots)
    ensures Successes(slots) == |Good(items)|
  {
    hide IsGood, FirstSlot, Filled, IsSuccess, Answers;
    var at := GoodPlaces(s, source, ids);
    GoodPlacesAre(s, source, ids);
    SlotsAnswered(s, source, ids, items, slots);
    SuccessesAre(slots);
    ImageSize(Good(items), at);
    forall i | 0 <= i < |slots| && i !in at ensures !IsSuccess(slots[i]) {
      FailedIsNoSuccess(slots[i]);
    }
    forall j | 0 <= j < |at| ensures IsSuccess(slots[at[j]]) <==> j in Good(items) {
      AnswerIsSuccess(slots[at[j]], items[j]);
    }
    assert Places(slots, IsSuccess) == Image(Good(items), at);
  }

  lemma FailedIsNoSuccess(slot: Slot)
    ensures slot.status == "failed" ==> !IsSuccess(slot)
  {
  }

  /** Every slot has the answer of its own item, or the reason why its number was rejected. */
  lemma SlotsAnswered(s: Services, source: seq<UpstreamArticle>, ids: seq<int>, items: seq<Item>, slots: seq<Slot>)
    requires Matches(s, source, ids, items, slots)
    ensures var at := GoodPlaces(s, source, ids);
            && |at| == |items|
            && (forall j :: 0 <= j < |at| ==> at[j] < |slots| && Answers(slots[at[j]], items[j]))
            && (forall i :: 0 <= i < |slots| && i !in at ==> Rejected(s, source, ids[i], slots[i]))
            && (forall i :: 0 <= i < |slots| ==> (i in at <==> LastParses(s.parseTime, source, ids[i])))
  {
    hide Answers, Rejected, LastParses;
    forall id ensures IsGood(s, source, id) <==> LastParses(s.parseTime, source, id) {
      GoodIff(s, source, id);
    }
    var at := GoodPlaces(s, source, ids);
    GoodPlacesAre(s, source, ids);
    forall j | 0 <= j < |at| ensures Answers(slots[at[j]], items[j]) {
      FilledAnswers(FirstSlot(s, source, ids[at[j]]), items[j]);
    }
    forall i | 0 <= i < |slots| && i !in at ensures Rejected(s, source, ids[i], slots[i]) {
      RejectedIs(s, source, ids[i]);
    }
  }

  method CountSlots(slots: seq<Slot>) returns (r: Response)
    ensures r.items == slots && r.total == |slots| && r.succeeded == Successes(slots)
    ensures r.succeeded + r.failed == r.total
  {
    var succeeded, failed := 0, 0;
    for i := 0 to |slots|
      invariant succeeded == Successes(slots[..i]) && succeeded + failed == i
    {
      assert slots[..i + 1][..i] == slots[..i];
      if slots[i].status == NEWLY_EXTRACTED || slots[i].status == ALREADY_DONE || slots[i].status == ALREADY_PENDING {
        succeeded := succeeded + 1;
      } else {
        failed := failed + 1;
      }
    }
    assert slots[..|slots|] == slots;
    r := Response(slots, |slots|, succeeded, failed);
  }

  method IndexArticles(source: seq<UpstreamArticle>) returns (byID: map<int, UpstreamArticle>)
    ensures forall id :: id in byID <==> LastWith(source, id).Some?
    ensures forall id :: id in byID ==> byID[id] == LastWith(source, id).value
  {
    byID := map[];
    for i := 0 to |source|
      invariant forall id :: id in byID <==> LastWith(source[..i], id).Some?
      invariant forall id :: id in byID ==> byID[id] == LastWith(source[..i], id).value
    {
      assert source[..i + 1][..i] == source[..i];
      byID := byID[source[i].id := source[i]];
    }
    assert source[..|source|] == source;
  }

  /** The slot of one number, and its article if there is one to extract. */
  method StartSlot(s: Services, source: seq<UpstreamArticle>, byID: map<int, UpstreamArticle>, id: int)
    returns (slot: Slot, article: Option<Article>)
    requires forall n :: n in byID <==> LastWith(source, n).Some?
    requires forall n :: n in byID ==> byID[n] == LastWith(source, n).value
    ensures slot == FirstSlot(s, source, id)
    ensures article.Some? <==> IsGood(s, source, id)
    ensures article.Some? ==> article.value == ArticleOf(s, source, id)
  {
    slot := Slot(id, "", None, "");
    if id <= 0 {
      return slot.(status := FAILED, error := "invalid article_id"), None;
    }
    if id !in byID {
      return slot.(status := FAILED, error := "article not found"), None;
    }
    var publishedAt := s.parseTime(byID[id].publishedAt);
    if publishedAt == None {
      return slot.(status := FAILED, error := "invalid article data"), None;
    }
    return slot.(status := PENDING), Some(Converted(byID[id], publishedAt.value));
  }

  /** The first pass: every number gets a slot, and the buffer is never outgrown. */
  method BuildSlots(s: Services, source: seq<UpstreamArticle>, ids: seq<int>)
    returns (slots: array<Slot>, articles: seq<Article>, queues: Queues)
    ensures fresh(slots) && slots.Length == |ids|
    ensures forall i :: 0 <= i < |ids| ==> slots[i] == FirstSlot(s, source, ids[i])
    ensures articles == GoodArticles(s, source, ids)
    ensures QueuesHold(queues, ids, GoodPlaces(s, source, ids))
  {
    hide IsGood, ArticleOf, FirstSlot, QueuesHold;
    var byID := IndexArticles(source);
    slots := new Slot[|ids|](_ => Slot(0, "", None, ""));
    articles, queues := [], map[];
    var used := 0;
    NoQueues(ids);
    for n := 0 to |ids|
      invariant used == n && slots.Length == |ids| && fresh(slots)
      invariant forall i :: 0 <= i < n ==> slots[i] == FirstSlot(s, source, ids[i])
      invariant articles == GoodArticles(s, source, ids[..n])
      invariant QueuesHold(queues, ids, GoodPlaces(s, source, ids[..n]))
    {
      GoodNext(s, source, ids, n);
      var slot, article := StartSlot(s, source, byID, ids[n]);
      slots[used] := slot;
      used := used + 1;
      if article.Some? {
        Enqueued(queues, ids, GoodPlaces(s, source, ids[..n]), used - 1);
        queues := queues[ids[n] := QueueOf(queues, ids[n]) + [used - 1]];
        articles := articles + [article.value];
      }
    }
    assert ids[..|ids|] == ids;
  }

  lemma NoQueues(ids: seq<int>)
    ensures QueuesHold(map[], ids, [])
  {
  }

  /** What the loop writes into the slot it has found. */
  method FillSlot(slot: Slot, item: Item) returns (r: Slot)
    ensures r == Filled(slot, item)
  {
    if item.error != "" {
      return slot.(status := FAILED, error := item.error);
    }
    r := slot.(status := OutcomeText(item.execution));
    r := r.(result := item.result);
    r := r.(error := item.error);
  }

  /** The second pass: each item pops the queue of its article and fills the slot it finds there. */
  method FillSlots(slots: array<Slot>, queues: Queues, ids: seq<int>, ghost at: seq<nat>, items: seq<Item>)
    requires slots.Length == |ids| && QueuesHold(queues, ids, at) && |items| == |at|
    requires forall j :: 0 <= j < |at| ==> items[j].articleId == ids[at[j]]
    requires forall j, k :: 0 <= j < k < |at| ==> at[j] < at[k]
    modifies slots
    ensures forall j :: 0 <= j < |at| ==> slots[at[j]] == Filled(old(slots[at[j]]), items[j])
    ensures forall j :: 0 <= j < |at| && old(slots[at[j]]).result == None ==> Answers(slots[at[j]], items[j])
    ensures forall i :: 0 <= i < |ids| && i !in at ==> slots[i] == old(slots[i])
  {
    hide QueuesHold, Filled, Answers;
    var rest := queues;
    assert at[0..] == at;
    PlacesInRange(queues, ids, at);
    for j := 0 to |items|
      invariant QueuesHold(rest, ids, at[j..])
      invariant forall k :: 0 <= k < j ==> slots[at[k]] == Filled(old(slots[at[k]]), items[k])
      invariant forall k :: j <= k < |at| ==> slots[at[k]] == old(slots[at[k]])
      invariant forall i :: 0 <= i < |ids| && i !in at ==> slots[i] == old(slots[i])
    {
      var id := items[j].articleId;
      Dequeued(rest, ids, at[j..]);
      var queue := QueueOf(rest, id);
      if |queue| == 0 {
        continue;
      }
      var place := queue[0];
      rest := rest[id := queue[1..]];
      assert at[j..][1..] == at[j + 1..];
      var filled := FillSlot(slots[place], items[j]);
      slots[place] := filled;
    }
    forall j | 0 <= j < |at| && old(slots[at[j]]).result == None ensures Answers(slots[at[j]], items[j]) {
      FilledAnswers(old(slots[at[j]]), items[j]);
    }
  }

  lemma PlacesInRange(queues: Queues, ids: seq<int>, at: seq<nat>)
    requires QueuesHold(queues, ids, at)
    ensures forall j :: 0 <= j < |at| ==> at[j] < |ids|
  {
  }

  /** The items and the places agree: what the response owes to the order of the batch. */
  ghost predicate Matches(s: Services, source: seq<UpstreamArticle>, ids: seq<int>, items: seq<Item>, slots: seq<Slot>) {
    var at := GoodPlaces(s, source, ids);
    && |slots| == |ids| && |items| == |at|
    && (forall j :: 0 <= j < |at| ==>
          at[j] < |ids| && slots[at[j]] == Filled(FirstSlot(s, source, ids[at[j]]), items[j]))
    && (forall i :: 0 <= i < |ids| && !IsGood(s, source, ids[i]) ==> slots[i] == FirstSlot(s, source, ids[i]))
  }

  /** Every slot is answered: nothing is left pending, and every slot is for the number asked. */
  lemma NothingPending(s: Services, source: seq<UpstreamArticle>, ids: seq<int>, items: seq<Item>, slots: seq<Slot>)
    requires Matches(s, source, ids, items, slots)
    ensures forall i :: 0 <= i < |ids| ==> slots[i].status != PENDING && slots[i].articleId == ids[i]
  {
    GoodPlacesAre(s, source, ids);
    forall i | 0 <= i < |ids| ensures slots[i].status != PENDING && slots[i].articleId == ids[i] {
      if IsGood(s, source, ids[i]) {
        var j :| 0 <= j < |GoodPlaces(s, source, ids)| && GoodPlaces(s, source, ids)[j] == i;
      }
    }
  }

  /** What a filled buffer amounts to. */
  lemma Concluded(s: Services, source: seq<UpstreamArticle>, ids: seq<int>, items: seq<Item>, slots: seq<Slot>)
    requires var at := GoodPlaces(s, source, ids);
             && |slots| == |ids| && |items| == |at|
             && (forall j :: 0 <= j < |at| ==>
                   at[j] < |ids| && slots[at[j]] == Filled(FirstSlot(s, source, ids[at[j]]), items[j]))
             && (forall i :: 0 <= i < |ids| && i !in at ==> slots[i] == FirstSlot(s, source, ids[i]))
    ensures Matches(s, source, ids, items, slots) && Successes(slots) == |Good(items)|
    ensures forall i :: 0 <= i < |ids| ==> slots[i].status != PENDING && slots[i].articleId == ids[i]
    ensures var at := GoodPlaces(s, source, ids);
            && (forall j :: 0 <= j < |at| ==> Answers(slots[at[j]], items[j]))
            && (forall i :: 0 <= i < |ids| && i !in at ==> Rejected(s, source, ids[i], slots[i]))
            && (forall i :: 0 <= i < |ids| ==> (i in at <==> LastParses(s.parseTime, source, ids[i])))
  {
    hide IsGood, FirstSlot, Filled, IsSuccess, Answers, Rejected, LastParses;
    GoodPlacesAre(s, source, ids);
    NothingPending(s, source, ids, items, slots);
    SlotsAnswered(s, source, ids, items, slots);
    SucceededAre(s, source, ids, items, slots);
  }

  /** From the requested numbers to the response, or to the failure of the whole batch. */
  method ExtractRunBatch(runner: Runner, source: seq<UpstreamArticle>, ids: seq<int>)
    returns (r: Result<Response>, ghost items: seq<Item>)
    requires runner.services.Sound()
    modifies runner`batches
    ensures var good := GoodArticles(runner.services, source, ids);
            && runner.batches == old(runner.batches) + (if good == [] then [] else [good])
            && (r.Err? <==> good != [] && runner.services.run(good).Err?)
            && (r.Ok? ==> items == if good == [] then [] else runner.services.run(good).value)
    ensures r.Ok? ==>
              && Matches(runner.services, source, ids, items, r.value.items)
              && (forall i :: 0 <= i < |ids| ==>
                    r.value.items[i].status != PENDING && r.value.items[i].articleId == ids[i])
              && r.value.total == |ids| && r.value.succeeded == |Good(items)|
              && r.value.succeeded + r.value.failed == r.value.total
    ensures var at := GoodPlaces(runner.services, source, ids);
            r.Ok? ==>
              && |at| == |items| && |r.value.items| == |ids|
              && (forall j :: 0 <= j < |at| ==> at[j] < |ids| && Answers(r.value.items[at[j]], items[j]))
              && (forall i :: 0 <= i < |ids| && i !in at ==>
                    Rejected(runner.services, source, ids[i], r.value.items[i]))
              && (forall i :: 0 <= i < |ids| ==> (i in at <==> LastParses(runner.services.parseTime, source, ids[i])))
  {
    var s := runner.services;
    hide IsGood, ArticleOf, FirstSlot, QueuesHold, Filled, Answers, Rejected, Good, Matches,
      Successes, GoodPlaces, GoodArticles, Waiting, LastParses;
    items := [];
    var slots, articles, queues := BuildSlots(s, source, ids);
    ghost var at := GoodPlaces(s, source, ids);
    GoodPlacesAre(s, source, ids);
    ArticlesMatchPlaces(s, source, ids);
    if |articles| > 0 {
      var result := runner.RunBatch(articles);
      if result.Err? {
        return Err("failed to run extraction batch"), items;
      }
      assert FitsBatch(articles, result.value);
      items := result.value;
      FillSlots(slots, queues, ids, at, result.value);
    }
    var filled := slots[..];
    Concluded(s, source, ids, items, filled);
    var response := CountSlots(filled);
    return Ok(response), items;
  }
}

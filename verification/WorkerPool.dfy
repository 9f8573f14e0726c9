/**
 The batch runner (internal/app/extraction/batch_persist.go): a bounded pool of workers fed over
 an unbuffered channel. Pools run next to each other and next to single requests over one claim
 protocol. A move is one atomic step: a hand-over through the channel, closing it, a step of the
 article a worker is busy with, the write of a result slot, a worker's exit, or the final return.
 */
module WorkerPool {
  import opened Results
  import opened Text
  import opened Extract
  import opened ArticleRun
  import opened ExtractionTable
  import opened Counting
  import C = ClaimProtocol

  const DEFAULT_CONCURRENCY := 2

  datatype Item = Item(articleId: int, execution: Option<C.Execution>, result: Option<ExtractResult>, error: string)

  datatype BatchResult = BatchResult(items: seq<Item>, total: nat, successCount: nat, failureCount: nat)

  datatype Worker = Receiving | Busy(idx: nat) | Stopped

  /**
   One call of the batch runner. `handed` is the next index to send, `holder` remembers which
   worker each index went to, and `writes` counts the writes to each slot of `items`.
   */
  datatype Pool = Pool(
    articles: seq<Article>,
    model: string,
    stopAfter: int,
    limit: nat,
    concurrency: nat,
    handed: nat,
    holder: seq<nat>,
    closed: bool,
    workers: seq<Worker>,
    items: seq<Item>,
    writes: seq<nat>,
    returned: Option<BatchResult>)

  datatype System = System(claims: C.System, pools: seq<Pool>)

  datatype Move =
    | Start(articles: seq<Article>, model: string, concurrency: int, stopAfter: int)
    | HandOver(p: nat, w: nat)
    | Work(p: nat, w: nat, choice: C.Choice)
    | Deposit(p: nat, w: nat)
    | Close(p: nat)
    | Exit(p: nat, w: nat)
    | Finish(p: nat)
    | Outside(n: nat, move: C.Move)

  const NO_ITEM := Item(0, None, None, "")

  /** The slot content for what the article's run returned. */
  function ItemOf(a: Article, r: Result<C.Outcome>): (item: Item)
    ensures item.articleId == a.id
  {
    match r
    case Err(message) => Item(a.id, None, None, message)
    case Ok(o) => Item(a.id, Some(o.execution), o.result, o.error)
  }

  function SuccessCount(items: seq<Item>): (n: nat)
    ensures n <= |items|
  {
    if items == [] then 0
    else SuccessCount(items[..|items| - 1]) + (if items[|items| - 1].error == "" then 1 else 0)
  }

  /** The counting loop at the end of a batch. */
  method CountOutcomes(items: seq<Item>) returns (success: nat, failure: nat)
    ensures success == SuccessCount(items)
    ensures success + failure == |items|
  {
    success, failure := 0, 0;
    for i := 0 to |items|
      invariant success == SuccessCount(items[..i]) && success + failure == i
    {
      assert items[..i + 1][..i] == items[..i];
      if items[i].error == "" {
        success := success + 1;
      } else {
        failure := failure + 1;
      }
    }
    assert items[..|items|] == items;
  }

  function Summary(items: seq<Item>): BatchResult {
    BatchResult(items, |items|, SuccessCount(items), |items| - SuccessCount(items))
  }

  /** How many of the articles a call is for; zero means no limit. */
  function LimitOf(articles: seq<Article>, stopAfter: int): (n: nat)
    ensures n <= |articles|
  {
    if 0 < stopAfter < |articles| then stopAfter else |articles|
  }

  /** The checks before any worker starts, and the fresh pool. */
  function Setup(articles: seq<Article>, model: string, concurrency: int, stopAfter: int): (r: Result<Pool>) {
    var workers := if concurrency == 0 then DEFAULT_CONCURRENCY else concurrency;
    if model == "" then Err("model must not be empty")
    else if workers < 1 then Err("concurrency must be >= 1")
    else if stopAfter < 0 then Err("stop_after must be >= 0")
    else
      var limit := LimitOf(articles, stopAfter);
      var items := seq(limit, _ => NO_ITEM);
      Ok(Pool(articles, model, stopAfter, limit, workers, 0, [], limit == 0,
              if limit == 0 then [] else seq(workers, _ => Receiving),
              items, seq(limit, _ => 0),
              if limit == 0 then Some(Summary([])) else None))
  }

  predicate HasWorker(s: System, p: nat, w: nat) {
    p < |s.pools| && w < |s.pools[p].workers|
  }

  predicate HasSlot(q: Pool, i: nat) {
    i < |q.articles| && i < |q.items| && i < |q.writes|
  }

  predicate BusyCaller(s: System, p: nat, w: nat) {
    && HasWorker(s, p, w)
    && s.pools[p].workers[w].Busy?
    && HasSlot(s.pools[p], s.pools[p].workers[w].idx)
    && C.PoolWorker(p, w) in s.claims.callers
  }

  ghost predicate Enabled(s: System, m: Move) {
    match m
    case Start(articles, model, concurrency, stopAfter) => Setup(articles, model, concurrency, stopAfter).Ok?
    case HandOver(p, w) =>
      HasWorker(s, p, w) && s.pools[p].workers[w].Receiving? && !s.pools[p].closed
      && s.pools[p].handed < s.pools[p].limit && HasSlot(s.pools[p], s.pools[p].handed)
    case Work(p, w, _) => BusyCaller(s, p, w) && !s.claims.callers[C.PoolWorker(p, w)].pc.Returned?
    case Deposit(p, w) => BusyCaller(s, p, w) && s.claims.callers[C.PoolWorker(p, w)].pc.Returned?
    case Close(p) => p < |s.pools| && !s.pools[p].closed && s.pools[p].handed == s.pools[p].limit
    case Exit(p, w) => HasWorker(s, p, w) && s.pools[p].closed && s.pools[p].workers[w].Receiving?
    case Finish(p) =>
      p < |s.pools| && s.pools[p].returned == None && s.pools[p].closed
      && forall w :: 0 <= w < |s.pools[p].workers| ==> s.pools[p].workers[w] == Stopped
    case Outside(n, move) => move.id == C.Request(n)
  }

  /** The pool that a move concerns, after the move. */
  ghost function Next(s: System, m: Move): Pool
    requires Enabled(s, m) && !m.Start? && !m.Outside?
  {
    var q := s.pools[m.p];
    match m
    case HandOver(p, w) =>
      q.(handed := q.handed + 1, holder := q.holder + [w], workers := q.workers[w := Busy(q.handed)])
    case Work(p, w, _) => q
    case Deposit(p, w) =>
      var i := q.workers[w].idx;
      q.(workers := q.workers[w := Receiving],
         items := q.items[i := ItemOf(q.articles[i], s.claims.callers[C.PoolWorker(p, w)].pc.outcome)],
         writes := q.writes[i := q.writes[i] + 1])
    case Close(p) => q.(closed := true)
    case Exit(p, w) => q.(workers := q.workers[w := Stopped])
    case Finish(p) => q.(returned := Some(Summary(q.items)))
  }

  /** What a move does to the claim protocol: every move is one of its moves, or none. */
  ghost function ClaimMove(s: System, m: Move): Option<C.Move>
    requires Enabled(s, m)
  {
    match m
    case HandOver(p, w) =>
      Some(C.Spawn(C.PoolWorker(p, w), s.pools[p].articles[s.pools[p].handed], s.pools[p].model))
    case Work(p, w, choice) => Some(C.Advance(C.PoolWorker(p, w), choice))
    case Deposit(p, w) => Some(C.Retire(C.PoolWorker(p, w)))
    case Outside(_, move) => Some(move)
    case _ => None
  }

  ghost function ClaimsAfter(u: Unicode, s: System, m: Move): C.System
    requires Enabled(s, m)
  {
    var move := ClaimMove(s, m);
    if move.Some? then C.Apply(u, s.claims, move.value) else s.claims
  }

  /** A move that is not possible in a state changes nothing. */
  ghost function Apply(u: Unicode, s: System, m: Move): System {
    if !Enabled(s, m) then s
    else if m.Outside? then System(ClaimsAfter(u, s, m), s.pools)
    else if m.Start? then
      System(s.claims, s.pools + [Setup(m.articles, m.model, m.concurrency, m.stopAfter).value])
    else System(ClaimsAfter(u, s, m), s.pools[m.p := Next(s, m)])
  }

  const INITIAL := System(C.INITIAL, [])

  ghost function Exec(u: Unicode, s: System, moves: seq<Move>): System {
    if moves == [] then s else Apply(u, Exec(u, s, moves[..|moves| - 1]), moves[|moves| - 1])
  }

  /** The bookkeeping of one pool. */
  ghost predicate PoolSound(s: System, p: nat)
    requires p < |s.pools|
  {
    var q := s.pools[p];
    && |q.items| == |q.writes| == q.limit == LimitOf(q.articles, q.stopAfter)
    && q.handed == |q.holder| <= q.limit
    && (q.closed ==> q.handed == q.limit)
    && (if q.limit == 0 then q.workers == [] && q.returned.Some? else |q.workers| == q.concurrency >= 1)
    && (forall i :: 0 <= i < q.handed ==> q.holder[i] < |q.workers|)
    // an index is untouched, with its one worker, or written once with its own article
    && (forall i :: q.handed <= i < q.limit ==> q.writes[i] == 0)
    && (forall i :: 0 <= i < q.handed ==>
          || (q.writes[i] == 0 && q.workers[q.holder[i]] == Busy(i))
          || (q.writes[i] == 1 && q.items[i].articleId == q.articles[i].id && q.workers[q.holder[i]] != Busy(i)))
    // and a worker is with one index at most
    && (forall w :: 0 <= w < |q.workers| ==> WorkerSound(s, p, w))
    && (q.returned.Some? ==>
          q.closed && q.returned.value == Summary(q.items)
          && forall w :: 0 <= w < |q.workers| ==> q.workers[w] == Stopped)
  }

  ghost predicate WorkerSound(s: System, p: nat, w: nat)
    requires HasWorker(s, p, w)
  {
    var q := s.pools[p];
    match q.workers[w]
    case Busy(i) =>
      && i < q.handed == |q.holder| && q.holder[i] == w
      && q.handed <= |q.articles|
      && C.PoolWorker(p, w) in s.claims.callers
      && s.claims.callers[C.PoolWorker(p, w)].article == q.articles[i]
      && s.claims.callers[C.PoolWorker(p, w)].model == q.model
    case Receiving => C.PoolWorker(p, w) !in s.claims.callers
    case Stopped => q.closed && C.PoolWorker(p, w) !in s.claims.callers
  }

  ghost predicate Inv(s: System) {
    && C.Inv(s.claims)
    && (forall p :: 0 <= p < |s.pools| ==> PoolSound(s, p))
    && (forall p, w :: C.PoolWorker(p, w) in s.claims.callers ==> HasWorker(s, p, w))
  }

  /** A claim move touches the caller it names and no other. */
  lemma ClaimMoveFrame(u: Unicode, c: C.System, m: C.Move)
    ensures var c' := C.Apply(u, c, m);
            && (forall id :: id != m.id ==> (id in c'.callers <==> id in c.callers))
            && (forall id :: id != m.id && id in c.callers ==> c'.callers[id] == c.callers[id])
            && (m.Advance? && m.id in c.callers ==>
                  && m.id in c'.callers && c'.callers[m.id].article == c.callers[m.id].article
                  && c'.callers[m.id].model == c.callers[m.id].model)
  {
  }

  lemma OtherPoolSound(s: System, s': System, p: nat)
    requires p < |s.pools| && p < |s'.pools| && s'.pools[p] == s.pools[p] && PoolSound(s, p)
    requires forall w :: C.PoolWorker(p, w) in s.claims.callers <==> C.PoolWorker(p, w) in s'.claims.callers
    requires forall w :: C.PoolWorker(p, w) in s.claims.callers ==>
                           var c, c' := s.claims.callers[C.PoolWorker(p, w)], s'.claims.callers[C.PoolWorker(p, w)];
                           c'.article == c.article && c'.model == c.model
    ensures PoolSound(s', p)
  {
    forall w | 0 <= w < |s'.pools[p].workers| ensures WorkerSound(s', p, w) {
      assert WorkerSound(s, p, w);
    }
  }

  lemma StartSound(u: Unicode, s: System, m: Move)
    requires Inv(s) && m.Start? && Enabled(s, m)
    ensures Inv(Apply(u, s, m))
  {
    hide C.Apply, C.Inv;
    var s' := Apply(u, s, m);
    var last := |s.pools|;
    forall p | 0 <= p < |s'.pools| ensures PoolSound(s', p) {
      if p < last {
        OtherPoolSound(s, s', p);
      } else {
        forall w | 0 <= w < |s'.pools[p].workers| ensures WorkerSound(s', p, w) {
        }
      }
    }
  }

  /** Which calls start a batch, and with how many workers. */
  lemma StartIs(u: Unicode, s: System, m: Move)
    requires m.Start?
    ensures Enabled(s, m) <==> m.model != "" && m.concurrency >= 0 && m.stopAfter >= 0
    ensures Enabled(s, m) ==>
              && |Apply(u, s, m).pools| == |s.pools| + 1
              && var q := Apply(u, s, m).pools[|s.pools|];
                 && q.articles == m.articles && q.model == m.model && q.stopAfter == m.stopAfter
                 && q.concurrency == (if m.concurrency == 0 then 2 else m.concurrency)
                 && (q.returned.Some? <==> m.articles == [])
  {
  }

  lemma OutsideSound(u: Unicode, s: System, m: Move)
    requires Inv(s) && m.Outside? && Enabled(s, m)
    ensures Inv(Apply(u, s, m))
  {
    hide C.Apply, C.Inv;
    var s' := Apply(u, s, m);
    ClaimMoveFrame(u, s.claims, m.move);
    C.ApplyKeepsInv(u, s.claims, m.move);
    forall p | 0 <= p < |s'.pools| ensures PoolSound(s', p) {
      OtherPoolSound(s, s', p);
    }
  }

  lemma PoolMoveFrame(u: Unicode, s: System, m: Move)
    requires Inv(s) && Enabled(s, m) && !m.Start? && !m.Outside?
    requires PoolSound(Apply(u, s, m), m.p)
    ensures Inv(Apply(u, s, m))
  {
    hide C.Apply, C.Inv, PoolSound;
    var s' := Apply(u, s, m);
    var move := ClaimMove(s, m);
    if move.Some? {
      ClaimMoveFrame(u, s.claims, move.value);
      C.ApplyKeepsInv(u, s.claims, move.value);
    }
    forall p | 0 <= p < |s'.pools| ensures PoolSound(s', p) {
      if p != m.p {
        OtherPoolSound(s, s', p);
      }
    }
    forall p, w | C.PoolWorker(p, w) in s'.claims.callers ensures HasWorker(s', p, w) {
      assert HasWorker(s, p, w);
    }
  }

  lemma HandOverSound(u: Unicode, s: System, m: Move)
    requires Inv(s) && Enabled(s, m) && m.HandOver?
    ensures PoolSound(Apply(u, s, m), m.p)
  {
    hide C.Step, C.Inv;
    var s' := Apply(u, s, m);
    ClaimMoveFrame(u, s.claims, ClaimMove(s, m).value);
    assert PoolSound(s, m.p) && WorkerSound(s, m.p, m.w);
    forall w | 0 <= w < |s'.pools[m.p].workers| ensures WorkerSound(s', m.p, w) {
      assert WorkerSound(s, m.p, w);
    }
  }

  lemma WorkSound(u: Unicode, s: System, m: Move)
    requires Inv(s) && Enabled(s, m) && m.Work?
    ensures PoolSound(Apply(u, s, m), m.p)
  {
    hide C.Apply, C.Inv;
    var s' := Apply(u, s, m);
    ClaimMoveFrame(u, s.claims, ClaimMove(s, m).value);
    assert PoolSound(s, m.p);
    forall w | 0 <= w < |s'.pools[m.p].workers| ensures WorkerSound(s', m.p, w) {
      assert WorkerSound(s, m.p, w);
    }
  }

  lemma DepositSound(u: Unicode, s: System, m: Move)
    requires Inv(s) && Enabled(s, m) && m.Deposit?
    ensures PoolSound(Apply(u, s, m), m.p)
  {
    hide C.Step, C.Inv;
    var s' := Apply(u, s, m);
    ClaimMoveFrame(u, s.claims, ClaimMove(s, m).value);
    assert PoolSound(s, m.p) && WorkerSound(s, m.p, m.w);
    forall w | 0 <= w < |s'.pools[m.p].workers| ensures WorkerSound(s', m.p, w) {
      assert WorkerSound(s, m.p, w);
    }
  }

  lemma EndSound(u: Unicode, s: System, m: Move)
    requires Inv(s) && Enabled(s, m) && (m.Close? || m.Exit? || m.Finish?)
    ensures PoolSound(Apply(u, s, m), m.p)
  {
    hide C.Apply, C.Inv;
    var s' := Apply(u, s, m);
    assert PoolSound(s, m.p);
    forall w | 0 <= w < |s'.pools[m.p].workers| ensures WorkerSound(s', m.p, w) {
      assert WorkerSound(s, m.p, w);
    }
  }

  /** Every move keeps the bookkeeping of every pool. */
  lemma ApplyKeepsInv(u: Unicode, s: System, m: Move)
    requires Inv(s)
    ensures Inv(Apply(u, s, m))
  {
    hide C.Apply, C.Inv, PoolSound;
    if Enabled(s, m) {
      match m
      case Start(_, _, _, _) => StartSound(u, s, m);
      case Outside(_, _) => OutsideSound(u, s, m);
      case HandOver(_, _) => HandOverSound(u, s, m); PoolMoveFrame(u, s, m);
      case Work(_, _, _) => WorkSound(u, s, m); PoolMoveFrame(u, s, m);
      case Deposit(_, _) => DepositSound(u, s, m); PoolMoveFrame(u, s, m);
      case _ => EndSound(u, s, m); PoolMoveFrame(u, s, m);
    }
  }

  lemma {:induction false} ExecKeepsInv(u: Unicode, s: System, moves: seq<Move>)
    requires Inv(s)
    ensures Inv(Exec(u, s, moves))
  {
    hide Apply, Inv;
    if moves != [] {
      ExecKeepsInv(u, s, moves[..|moves| - 1]);
      ApplyKeepsInv(u, Exec(u, s, moves[..|moves| - 1]), moves[|moves| - 1]);
    }
  }

  /** Any run of pools and requests is, for the claim protocol, one of its own runs. */
  lemma {:induction false} PoolsRunClaims(u: Unicode, moves: seq<Move>) returns (claimMoves: seq<C.Move>)
    ensures Exec(u, INITIAL, moves).claims == C.Exec(u, C.INITIAL, claimMoves)
  {
    if moves == [] {
      claimMoves := [];
    } else {
      var before := moves[..|moves| - 1];
      claimMoves := PoolsRunClaims(u, before);
      var s, m := Exec(u, INITIAL, before), moves[|moves| - 1];
      if Enabled(s, m) && ClaimMove(s, m).Some? {
        var longer := claimMoves + [ClaimMove(s, m).value];
        assert longer[..|longer| - 1] == claimMoves;
        claimMoves := longer;
      }
    }
  }

  /** Over all pools and requests of any run, the extractor is called at most once per article. */
  lemma AtMostOneExtraction(u: Unicode, moves: seq<Move>, article: int)
    ensures Exec(u, INITIAL, moves).claims.calls[article] <= 1
  {
    var claimMoves := PoolsRunClaims(u, moves);
    C.AtMostOneExtraction(u, claimMoves, article);
  }

  lemma {:induction false} Pigeonhole(indices: set<nat>, place: seq<nat>, n: nat)
    requires forall i :: i in indices ==> i < |place| && place[i] < n
    requires forall i, j :: i in indices && j in indices && place[i] == place[j] ==> i == j
    ensures |indices| <= n
  {
    if n == 0 {
      assert indices == {};
    } else {
      var others := set i | i in indices && place[i] != n - 1;
      Pigeonhole(others, place, n - 1);
      if i :| i in indices && i !in others {
        assert indices == others + {i};
      } else {
        assert indices == others;
      }
    }
  }

  /** The indices handed to a worker and not written yet. */
  function InFlight(q: Pool): set<nat> {
    set i | 0 <= i < q.handed && i < |q.writes| && q.writes[i] == 0
  }

  /** Never more articles in flight than workers. */
  lemma InFlightBounded(u: Unicode, moves: seq<Move>, p: nat)
    requires p < |Exec(u, INITIAL, moves).pools|
    ensures |InFlight(Exec(u, INITIAL, moves).pools[p])| <= Exec(u, INITIAL, moves).pools[p].concurrency
  {
    ExecKeepsInv(u, INITIAL, moves);
    var s := Exec(u, INITIAL, moves);
    var q := s.pools[p];
    assert PoolSound(s, p);
    Pigeonhole(InFlight(q), q.holder, |q.workers|);
  }

  /**
   In every schedule: an index is with exactly one worker or written exactly once, by that worker
   and with its own article; indices not yet handed over are untouched.
   */
  lemma EachIndexOnce(u: Unicode, moves: seq<Move>, p: nat, i: nat)
    requires p < |Exec(u, INITIAL, moves).pools| && i < Exec(u, INITIAL, moves).pools[p].limit
    ensures var q := Exec(u, INITIAL, moves).pools[p];
            && |q.writes| == |q.items| == q.limit <= |q.articles| && |q.holder| == q.handed
            && q.writes[i] <= 1
            && (q.writes[i] == 1 ==> q.items[i].articleId == q.articles[i].id)
            && (i >= q.handed ==> q.writes[i] == 0)
            && (forall w :: 0 <= w < |q.workers| && q.workers[w] == Busy(i) ==>
                  && i < q.handed && q.holder[i] == w && q.writes[i] == 0
                  && var callers := Exec(u, INITIAL, moves).claims.callers;
                     C.PoolWorker(p, w) in callers && callers[C.PoolWorker(p, w)].article == q.articles[i]
                     && callers[C.PoolWorker(p, w)].model == q.model)
            && (i < q.handed && q.writes[i] == 0 ==> q.holder[i] < |q.workers| && q.workers[q.holder[i]] == Busy(i))
  {
    ExecKeepsInv(u, INITIAL, moves);
    var s := Exec(u, INITIAL, moves);
    assert PoolSound(s, p);
    forall w | 0 <= w < |s.pools[p].workers| && s.pools[p].workers[w] == Busy(i)
      ensures i < s.pools[p].handed && s.pools[p].holder[i] == w && s.pools[p].writes[i] == 0
      ensures C.PoolWorker(p, w) in s.claims.callers
      ensures s.claims.callers[C.PoolWorker(p, w)].article == s.pools[p].articles[i]
      ensures s.claims.callers[C.PoolWorker(p, w)].model == s.pools[p].model
    {
      assert WorkerSound(s, p, w);
    }
  }

  /**
   A batch that has returned is for all its articles, or for the first of them if there was a limit;
   every slot is written once, with its own article, and the counts add up.
   */
  lemma ReturnedIsComplete(u: Unicode, moves: seq<Move>, p: nat)
    requires p < |Exec(u, INITIAL, moves).pools| && Exec(u, INITIAL, moves).pools[p].returned.Some?
    ensures var q := Exec(u, INITIAL, moves).pools[p];
            var r := q.returned.value;
            && r.items == q.items && |r.items| == r.total == |q.writes| == q.limit
            && r.total == (if 0 < q.stopAfter < |q.articles| then q.stopAfter else |q.articles|)
            && r.successCount + r.failureCount == r.total
            && forall i :: 0 <= i < q.limit ==> q.writes[i] == 1 && r.items[i].articleId == q.articles[i].id
  {
    ExecKeepsInv(u, INITIAL, moves);
    assert PoolSound(Exec(u, INITIAL, moves), p);
  }

  /** Slot `i` of a pool has been written, and holds the item. */
  ghost predicate Written(s: System, p: nat, i: nat, item: Item) {
    && p < |s.pools| && i < |s.pools[p].writes| && i < |s.pools[p].items|
    && s.pools[p].writes[i] == 1 && s.pools[p].items[i] == item
  }

  /** A slot that has been written is never written again, whatever happens next. */
  lemma WrittenSlotStays(u: Unicode, s: System, m: Move, p: nat, i: nat, item: Item)
    requires Inv(s) && Written(s, p, i, item)
    ensures Written(Apply(u, s, m), p, i, item)
  {
    hide C.Apply, C.Inv;
    assert PoolSound(s, p);
    if Enabled(s, m) && m.Deposit? && m.p == p {
      assert WorkerSound(s, p, m.w);
    }
  }

  lemma {:induction false} WrittenSlotsStay(u: Unicode, s: System, moves: seq<Move>, p: nat, i: nat, item: Item)
    requires Inv(s) && Written(s, p, i, item)
    ensures Written(Exec(u, s, moves), p, i, item)
  {
    hide Apply, Inv;
    if moves != [] {
      WrittenSlotsStay(u, s, moves[..|moves| - 1], p, i, item);
      ExecKeepsInv(u, s, moves[..|moves| - 1]);
      WrittenSlotStays(u, Exec(u, s, moves[..|moves| - 1]), moves[|moves| - 1], p, i, item);
    }
  }

  /** The item is for the article, and says what its run returned: the outcome, or the error and nothing else. */
  ghost predicate Reports(item: Item, a: Article, told: Result<C.Outcome>) {
    && item.articleId == a.id
    && match told
       case Err(message) => item.error == message && item.execution == None && item.result == None
       case Ok(o) => item.error == o.error && item.execution == Some(o.execution) && item.result == o.result
  }

  lemma DepositWrites(u: Unicode, s: System, p: nat, w: nat)
    requires Inv(s) && Enabled(s, Deposit(p, w))
    ensures p < |Apply(u, s, Deposit(p, w)).pools| && s.pools[p].workers[w].idx < |s.pools[p].articles|
    ensures var i := s.pools[p].workers[w].idx;
            var q := Apply(u, s, Deposit(p, w)).pools[p];
            && i < |q.writes| && i < |q.items| && q.writes[i] == 1
            && Reports(q.items[i], s.pools[p].articles[i], s.claims.callers[C.PoolWorker(p, w)].pc.outcome)
    ensures s.claims.callers[C.PoolWorker(p, w)].article == s.pools[p].articles[s.pools[p].workers[w].idx]
  {
    hide C.Apply, C.Inv;
    assert PoolSound(s, p) && WorkerSound(s, p, w);
  }

  lemma StartHolds()
    ensures Inv(INITIAL)
  {
  }

  /** What a worker's run returned for its article is what the slot of that article says for ever after. */
  lemma SlotHoldsOutcome(u: Unicode, before: seq<Move>, p: nat, w: nat, after: seq<Move>)
    requires Enabled(Exec(u, INITIAL, before), Deposit(p, w))
    ensures var s := Exec(u, INITIAL, before);
            var c, i := s.claims.callers[C.PoolWorker(p, w)], s.pools[p].workers[w].idx;
            var s' := Exec(u, Apply(u, s, Deposit(p, w)), after);
            && c.article == s.pools[p].articles[i]
            && p < |s'.pools| && i < |s'.pools[p].writes| && i < |s'.pools[p].items| && s'.pools[p].writes[i] == 1
            && var item := s'.pools[p].items[i];
               && item.articleId == c.article.id
               && match c.pc.outcome
                  case Err(message) => item.error == message && item.execution == None && item.result == None
                  case Ok(o) => item.error == o.error && item.execution == Some(o.execution) && item.result == o.result
  {
    hide Apply, Inv;
    StartHolds();
    var s := Exec(u, INITIAL, before);
    ExecKeepsInv(u, INITIAL, before);
    ApplyKeepsInv(u, s, Deposit(p, w));
    DepositWrites(u, s, p, w);
    var s1, i := Apply(u, s, Deposit(p, w)), s.pools[p].workers[w].idx;
    WrittenSlotsStay(u, s1, after, p, i, s1.pools[p].items[i]);
  }

  /** The `k`-th move of a run wrote slot `i`, with what the run of its article had returned. */
  ghost predicate DepositedAt(u: Unicode, moves: seq<Move>, p: nat, i: nat, k: nat, told: Result<C.Outcome>) {
    && k < |moves| && moves[k].Deposit? && moves[k].p == p
    && var s := Exec(u, INITIAL, moves[..k]);
       && Enabled(s, moves[k]) && s.pools[p].workers[moves[k].w].idx == i
       && s.claims.callers[C.PoolWorker(p, moves[k].w)].pc == C.Returned(told)
  }

  ghost predicate ComesFrom(u: Unicode, moves: seq<Move>, p: nat, i: nat, told: Result<C.Outcome>) {
    exists k :: DepositedAt(u, moves, p, i, k, told)
  }

  /** Every slot that has been written says what one run of its article returned. */
  lemma {:induction false} SlotComesFrom(u: Unicode, moves: seq<Move>, p: nat, i: nat)
    returns (k: nat, told: Result<C.Outcome>)
    requires var s := Exec(u, INITIAL, moves); p < |s.pools| && i < |s.pools[p].writes| && s.pools[p].writes[i] == 1
    ensures DepositedAt(u, moves, p, i, k, told)
    ensures var q := Exec(u, INITIAL, moves).pools[p];
            i < |q.items| && i < |q.articles| && Reports(q.items[i], q.articles[i], told)
  {
    hide C.Apply, C.Inv, Setup;
    StartHolds();
    var n := |moves| - 1;
    var s, m := Exec(u, INITIAL, moves[..n]), moves[n];
    ExecKeepsInv(u, INITIAL, moves[..n]);
    if p < |s.pools| && i < |s.pools[p].writes| && s.pools[p].writes[i] == 1 {
      k, told := SlotComesFrom(u, moves[..n], p, i);
      assert moves[..n][..k] == moves[..k];
      WrittenSlotStays(u, s, m, p, i, s.pools[p].items[i]);
      ArticlesStay(u, s, m, p);
    } else {
      FirstWrite(u, s, m, p, i);
      k, told := n, s.claims.callers[C.PoolWorker(p, m.w)].pc.outcome;
      DepositWrites(u, s, p, m.w);
      ArticlesStay(u, s, m, p);
    }
  }

  lemma ArticlesStay(u: Unicode, s: System, m: Move, p: nat)
    requires p < |s.pools|
    ensures p < |Apply(u, s, m).pools| && Apply(u, s, m).pools[p].articles == s.pools[p].articles
  {
    hide C.Apply;
  }

  /** Only a deposit writes a slot, and only the slot of its worker's article. */
  lemma FirstWrite(u: Unicode, s: System, m: Move, p: nat, i: nat)
    requires Inv(s)
    requires var s' := Apply(u, s, m); p < |s'.pools| && i < |s'.pools[p].writes| && s'.pools[p].writes[i] == 1
    requires !(p < |s.pools| && i < |s.pools[p].writes| && s.pools[p].writes[i] == 1)
    ensures m.Deposit? && m.p == p && Enabled(s, m) && s.pools[p].workers[m.w].idx == i
  {
    hide C.Apply, C.Inv;
  }

  lemma {:induction false} SlotsComeFrom(u: Unicode, moves: seq<Move>, p: nat, n: nat)
    returns (told: seq<Result<C.Outcome>>)
    requires p < |Exec(u, INITIAL, moves).pools|
    requires var q := Exec(u, INITIAL, moves).pools[p];
             n <= |q.writes| == |q.items| <= |q.articles| && forall i :: 0 <= i < n ==> q.writes[i] == 1
    ensures var q := Exec(u, INITIAL, moves).pools[p];
            && |told| == n
            && forall i :: 0 <= i < n ==>
                             Reports(q.items[i], q.articles[i], told[i]) && ComesFrom(u, moves, p, i, told[i])
  {
    hide Exec, DepositedAt, Reports;
    if n == 0 {
      told := [];
    } else {
      told := SlotsComeFrom(u, moves, p, n - 1);
      var k, outcome := SlotComesFrom(u, moves, p, n - 1);
      assert ComesFrom(u, moves, p, n - 1, outcome);
      told := told + [outcome];
    }
  }

  /** What a returned batch says, index by index: the outcomes of its runs, counted. */
  lemma BatchReports(u: Unicode, moves: seq<Move>, p: nat) returns (told: seq<Result<C.Outcome>>)
    requires p < |Exec(u, INITIAL, moves).pools| && Exec(u, INITIAL, moves).pools[p].returned.Some?
    ensures var q := Exec(u, INITIAL, moves).pools[p];
            var r := q.returned.value;
            && |told| == r.total == |r.items| <= |q.articles|
            && (forall i :: 0 <= i < r.total ==>
                  Reports(r.items[i], q.articles[i], told[i]) && ComesFrom(u, moves, p, i, told[i]))
            && r.successCount == |set i | 0 <= i < r.total && told[i].Ok? && told[i].value.error == ""|
            && r.failureCount == |set i | 0 <= i < r.total && (told[i].Err? || told[i].value.error != "")|
  {
    hide Exec, ComesFrom, Reports;
    ReturnedIsComplete(u, moves, p);
    ReturnedCounts(u, moves, p);
    SlotsInRange(u, moves, p);
    var q := Exec(u, INITIAL, moves).pools[p];
    told := SlotsComeFrom(u, moves, p, q.returned.value.total);
    forall i | 0 <= i < |q.items| ensures q.items[i].error == "" <==> told[i].Ok? && told[i].value.error == "" {
      ItemsAreTrue(u, moves, p, i);
      ErrorIsTold(q.items[i], q.articles[i], told[i]);
    }
    assert (set i | 0 <= i < q.returned.value.total && told[i].Ok? && told[i].value.error == "")
        == set i | 0 <= i < |q.items| && q.items[i].error == "";
    assert (set i | 0 <= i < q.returned.value.total && (told[i].Err? || told[i].value.error != ""))
        == set i | 0 <= i < |q.items| && q.items[i].error != "";
  }

  lemma SlotsInRange(u: Unicode, moves: seq<Move>, p: nat)
    requires p < |Exec(u, INITIAL, moves).pools|
    ensures var q := Exec(u, INITIAL, moves).pools[p]; |q.writes| == |q.items| <= |q.articles|
  {
    hide Exec, C.Inv;
    StartHolds();
    ExecKeepsInv(u, INITIAL, moves);
    assert PoolSound(Exec(u, INITIAL, moves), p);
  }

  lemma ErrorIsTold(item: Item, a: Article, told: Result<C.Outcome>)
    requires Reports(item, a, told) && (item.execution == None ==> item.error != "")
    ensures item.error == "" <==> told.Ok? && told.value.error == ""
  {
  }

  lemma {:induction false} SuccessPlaces(items: seq<Item>)
    ensures SuccessCount(items) == |Places(items, (item: Item) => item.error == "")|
  {
    var test := (item: Item) => item.error == "";
    if items == [] {
      NoPlaces(test);
    } else {
      SuccessPlaces(items[..|items| - 1]);
      PlacesSnoc(items, test);
    }
  }

  lemma ReturnedCounts(u: Unicode, moves: seq<Move>, p: nat)
    requires p < |Exec(u, INITIAL, moves).pools| && Exec(u, INITIAL, moves).pools[p].returned.Some?
    ensures var r := Exec(u, INITIAL, moves).pools[p].returned.value;
            && r.successCount == |set i | 0 <= i < |r.items| && r.items[i].error == ""|
            && r.failureCount == |set i | 0 <= i < |r.items| && r.items[i].error != ""|
  {
    hide Apply, C.Inv, Places;
    StartHolds();
    ExecKeepsInv(u, INITIAL, moves);
    assert PoolSound(Exec(u, INITIAL, moves), p);
    var items := Exec(u, INITIAL, moves).pools[p].items;
    SuccessPlaces(items);
    ErrorPlaces(items);
  }

  lemma ErrorPlaces(items: seq<Item>)
    ensures Places(items, (item: Item) => item.error == "") == set i | 0 <= i < |items| && items[i].error == ""
    ensures |Places(items, (item: Item) => item.error == "")| + |set i | 0 <= i < |items| && items[i].error != ""|
         == |items|
  {
    var test := (item: Item) => item.error == "";
    PlacesSplit(items, test);
    assert Others(items, test) == set i | 0 <= i < |items| && items[i].error != "";
  }

  /** What an item says agrees with the row of its article. */
  ghost predicate IsTrueItem(t: Table, item: Item) {
    if item.execution == None then item.error != "" && item.result == None
    else C.IsTrue(t, item.articleId, Ok(C.Outcome(item.execution.value, item.result, item.error)))
  }

  predicate IsWritten(s: System, p: nat, i: nat) {
    p < |s.pools| && i < |s.pools[p].writes| && i < |s.pools[p].items| && s.pools[p].writes[i] == 1
  }

  ghost predicate SlotsTrue(s: System) {
    forall p: nat, i: nat :: IsWritten(s, p, i) ==> IsTrueItem(s.claims.table, s.pools[p].items[i])
  }

  lemma ItemStaysTrue(t: Table, t': Table, item: Item)
    requires IsTrueItem(t, item) && C.RowsPersist(t, t')
    ensures IsTrueItem(t', item)
  {
    hide C.IsTrue;
    if item.execution.Some? {
      C.TruthStays(t, t', item.articleId, Ok(C.Outcome(item.execution.value, item.result, item.error)));
    }
  }

  lemma DepositTells(u: Unicode, s: System, p: nat, w: nat)
    requires Inv(s) && C.AllTold(s.claims) && Enabled(s, Deposit(p, w))
    ensures var i := s.pools[p].workers[w].idx;
            var s' := Apply(u, s, Deposit(p, w));
            p < |s'.pools| && i < |s'.pools[p].items| && IsTrueItem(s.claims.table, s'.pools[p].items[i])
  {
    hide C.Apply, C.Inv, C.IsTrue;
    DepositWrites(u, s, p, w);
    var c := s.claims.callers[C.PoolWorker(p, w)];
    assert C.IsTrue(s.claims.table, c.article.id, c.pc.outcome);
    FailureHasMessage(s.claims.table, c.article.id, c.pc.outcome);
  }

  lemma FailureHasMessage(t: Table, id: int, told: Result<C.Outcome>)
    requires C.IsTrue(t, id, told)
    ensures told.Err? ==> told.message != ""
  {
  }

  lemma ApplySlotsTrue(u: Unicode, s: System, m: Move)
    requires Inv(s) && C.AllTold(s.claims) && SlotsTrue(s)
    ensures SlotsTrue(Apply(u, s, m))
  {
    hide C.Apply, C.Inv, IsTrueItem, C.AllTold, C.RowsPersist, PoolSound;
    var s' := Apply(u, s, m);
    TablePersists(u, s, m);
    forall p: nat, i: nat | IsWritten(s', p, i)
      ensures IsTrueItem(s'.claims.table, s'.pools[p].items[i])
    {
      if p < |s.pools| && i < |s.pools[p].writes| && s.pools[p].writes[i] == 1 {
        assert i < |s.pools[p].items| by {
          assert PoolSound(s, p);
          SlotPerWrite(s, p);
        }
        WrittenSlotStays(u, s, m, p, i, s.pools[p].items[i]);
        assert IsWritten(s, p, i);
        ItemStaysTrue(s.claims.table, s'.claims.table, s.pools[p].items[i]);
      } else {
        FirstWrite(u, s, m, p, i);
        DepositTells(u, s, p, m.w);
        ItemStaysTrue(s.claims.table, s'.claims.table, s'.pools[p].items[i]);
      }
    }
  }

  lemma SlotPerWrite(s: System, p: nat)
    requires p < |s.pools| && PoolSound(s, p)
    ensures |s.pools[p].items| == |s.pools[p].writes|
  {
  }

  lemma TablePersists(u: Unicode, s: System, m: Move)
    requires Inv(s)
    ensures C.RowsPersist(s.claims.table, Apply(u, s, m).claims.table)
  {
    hide C.Apply, C.Inv, PoolSound;
    if Enabled(s, m) && ClaimMove(s, m).Some? {
      C.ApplyPersists(u, s.claims, ClaimMove(s, m).value);
    }
  }

  lemma {:induction false} SlotsTell(u: Unicode, moves: seq<Move>)
    ensures SlotsTrue(Exec(u, INITIAL, moves)) && C.AllTold(Exec(u, INITIAL, moves).claims)
  {
    hide Apply, Inv, C.Inv, C.AllTold, IsTrueItem;
    var claimMoves := PoolsRunClaims(u, moves);
    C.ExecTells(u, claimMoves);
    if moves != [] {
      var n := |moves| - 1;
      SlotsTell(u, moves[..n]);
      StartHolds();
      ExecKeepsInv(u, INITIAL, moves[..n]);
      ApplySlotsTrue(u, Exec(u, INITIAL, moves[..n]), moves[n]);
    }
  }

  /** The items of a batch agree with the table, while it runs and after it has returned. */
  lemma ItemsAreTrue(u: Unicode, moves: seq<Move>, p: nat, i: nat)
    requires var s := Exec(u, INITIAL, moves); p < |s.pools| && i < |s.pools[p].writes| && s.pools[p].writes[i] == 1
    ensures var s := Exec(u, INITIAL, moves);
            && i < |s.pools[p].items|
            && var item, t := s.pools[p].items[i], s.claims.table;
               && (item.execution in {Some(C.NewlyExtracted), Some(C.ExecDone)} ==>
                     && item.error == "" && item.result.Some? && item.articleId in t
                     && t[item.articleId].status == "done" && Holds(item.articleId, t[item.articleId], item.result.value))
               && (item.execution == Some(C.ExecPending) ==>
                     item.error == "" && item.result == None && item.articleId in t)
               && (item.execution == Some(C.ExecFailed) ==>
                     && item.error != "" && item.result == None && item.articleId in t
                     && t[item.articleId].status == "failed" && t[item.articleId].error == Some(item.error))
               && (item.execution == None ==> item.error != "" && item.result == None)
  {
    hide Apply, C.Inv;
    StartHolds();
    SlotsTell(u, moves);
    ExecKeepsInv(u, INITIAL, moves);
    var s := Exec(u, INITIAL, moves);
    SlotPerWrite(s, p);
    assert IsWritten(s, p, i);
    assert IsTrueItem(s.claims.table, s.pools[p].items[i]);
  }

  ghost function Weight(s: System, p: nat, w: nat): nat
    requires HasWorker(s, p, w)
  {
    match s.pools[p].workers[w]
    case Stopped => 0
    case Receiving => 1
    case Busy(_) =>
      2 + (if C.PoolWorker(p, w) in s.claims.callers then C.Remaining(s.claims.callers[C.PoolWorker(p, w)].pc) else 0)
  }

  ghost function Weights(s: System, p: nat, n: nat): nat
    requires p < |s.pools| && n <= |s.pools[p].workers|
  {
    if n == 0 then 0 else Weights(s, p, n - 1) + Weight(s, p, n - 1)
  }

  /** The steps that a pool can still take, at most. */
  ghost function Measure(s: System, p: nat): int
    requires p < |s.pools|
  {
    var q := s.pools[p];
    5 * (q.limit - q.handed) + Weights(s, p, |q.workers|) + (if q.closed then 0 else 1)
    + (if q.returned.Some? then 0 else 1)
  }

  lemma {:induction false} WeightsFrame(s: System, s': System, p: nat, w: nat, n: nat)
    requires p < |s.pools| && p < |s'.pools|
    requires n <= |s.pools[p].workers| == |s'.pools[p].workers|
    requires forall v :: 0 <= v < n && v != w ==> Weight(s', p, v) == Weight(s, p, v)
    ensures w < n ==> Weights(s', p, n) == Weights(s, p, n) + Weight(s', p, w) - Weight(s, p, w)
    ensures w >= n ==> Weights(s', p, n) == Weights(s, p, n)
  {
    if n > 0 {
      WeightsFrame(s, s', p, w, n - 1);
    }
  }

  lemma MeasureFrame(s: System, s': System, p: nat, w: nat)
    requires p < |s.pools| && p < |s'.pools|
    requires |s.pools[p].workers| == |s'.pools[p].workers|
    requires forall v :: 0 <= v < |s.pools[p].workers| && v != w ==>
                           && s'.pools[p].workers[v] == s.pools[p].workers[v]
                           && (C.PoolWorker(p, v) in s'.claims.callers <==> C.PoolWorker(p, v) in s.claims.callers)
                           && (C.PoolWorker(p, v) in s.claims.callers ==>
                                 s'.claims.callers[C.PoolWorker(p, v)] == s.claims.callers[C.PoolWorker(p, v)])
    ensures var n := |s.pools[p].workers|;
            Weights(s', p, n) == Weights(s, p, n) + (if w < n then Weight(s', p, w) - Weight(s, p, w) else 0)
  {
    WeightsFrame(s, s', p, w, |s.pools[p].workers|);
  }

  /** A possible move of a pool uses up some of its measure. */
  lemma OwnMoveAdvances(u: Unicode, s: System, m: Move)
    requires Inv(s) && Enabled(s, m) && !m.Start? && !m.Outside?
    ensures Measure(Apply(u, s, m), m.p) < Measure(s, m.p)
  {
    var s' := Apply(u, s, m);
    assert PoolSound(s, m.p);
    if m.HandOver? || m.Work? || m.Deposit? {
      ClaimMoveFrame(u, s.claims, ClaimMove(s, m).value);
      assert WorkerSound(s, m.p, m.w);
      if m.Work? {
        var c := s.claims.callers[C.PoolWorker(m.p, m.w)];
        C.StepAdvances(u, s.claims.table, c, m.choice);
      }
      MeasureFrame(s, s', m.p, m.w);
    } else if m.Exit? {
      MeasureFrame(s, s', m.p, m.w);
    } else {
      MeasureFrame(s, s', m.p, |s.pools[m.p].workers|);
    }
  }

  /** Moves of other pools, of new pools and of requests leave it as it is. */
  lemma OtherMoveKeepsMeasure(u: Unicode, s: System, m: Move, p: nat)
    requires Inv(s) && p < |s.pools|
    requires m.Start? || m.Outside? || m.p != p
    ensures p < |Apply(u, s, m).pools| && Measure(Apply(u, s, m), p) == Measure(s, p)
    ensures Apply(u, s, m).pools[p] == s.pools[p]
  {
    hide C.Apply, C.Inv, PoolSound;
    var s' := Apply(u, s, m);
    if Enabled(s, m) {
      if ClaimMove(s, m).Some? {
        ClaimMoveFrame(u, s.claims, ClaimMove(s, m).value);
      }
      MeasureFrame(s, s', p, |s.pools[p].workers|);
    }
  }

  /**
   No batch is ever stuck: until it returns, one of its own moves is possible, whatever the rest
   of the system is doing. With the two lemmas before, every fair schedule returns it.
   */
  lemma NeverStuck(s: System, p: nat) returns (m: Move)
    requires Inv(s) && p < |s.pools| && s.pools[p].returned == None
    ensures Enabled(s, m) && !m.Start? && !m.Outside? && m.p == p
  {
    var q := s.pools[p];
    assert PoolSound(s, p);
    if w :| 0 <= w < |q.workers| && q.workers[w].Busy? {
      assert WorkerSound(s, p, w);
      if s.claims.callers[C.PoolWorker(p, w)].pc.Returned? {
        m := Deposit(p, w);
      } else {
        m := Work(p, w, C.Choice(Healthy, 0, Refusal("")));
      }
    } else if w :| 0 <= w < |q.workers| && q.workers[w].Receiving? {
      if q.closed {
        m := Exit(p, w);
      } else if q.handed == q.limit {
        m := Close(p);
      } else {
        m := HandOver(p, w);
      }
    } else {
      forall w | 0 <= w < |q.workers| ensures q.workers[w] == Stopped {
        assert q.workers[w].Stopped?;
      }
      assert WorkerSound(s, p, 0);
      m := Finish(p);
    }
  }

  lemma MeasureBounded(s: System, p: nat)
    requires Inv(s) && p < |s.pools|
    ensures Measure(s, p) >= 0
  {
    hide C.Inv;
    assert PoolSound(s, p);
  }

  /** The moves of a pool that took place in a run. */
  ghost function OwnMoves(u: Unicode, s: System, moves: seq<Move>, p: nat): nat {
    if moves == [] then 0
    else
      var n := |moves| - 1;
      OwnMoves(u, s, moves[..n], p) + (if Takes(Exec(u, s, moves[..n]), moves[n], p) then 1 else 0)
  }

  /** The move is one of the pool's, and possible. */
  ghost predicate Takes(s: System, m: Move, p: nat) {
    !m.Start? && !m.Outside? && m.p == p && Enabled(s, m)
  }

  lemma OneMoveMeasured(u: Unicode, s: System, m: Move, p: nat)
    requires Inv(s) && p < |s.pools|
    ensures p < |Apply(u, s, m).pools|
    ensures Measure(Apply(u, s, m), p) + (if Takes(s, m, p) then 1 else 0) <= Measure(s, p)
  {
    hide C.Apply, C.Inv, Measure, PoolSound;
    if Takes(s, m, p) {
      OwnMoveAdvances(u, s, m);
    } else if m.Start? || m.Outside? || m.p != p {
      OtherMoveKeepsMeasure(u, s, m, p);
    }
  }

  lemma {:induction false} MovesMeasured(u: Unicode, s: System, moves: seq<Move>, p: nat)
    requires Inv(s) && p < |s.pools|
    ensures p < |Exec(u, s, moves).pools| && Inv(Exec(u, s, moves))
    ensures OwnMoves(u, s, moves, p) + Measure(Exec(u, s, moves), p) <= Measure(s, p)
  {
    hide Apply, Inv, Measure, Takes;
    if moves != [] {
      var n := |moves| - 1;
      MovesMeasured(u, s, moves[..n], p);
      OneMoveMeasured(u, Exec(u, s, moves[..n]), moves[n], p);
      ApplyKeepsInv(u, Exec(u, s, moves[..n]), moves[n]);
    }
  }

  /** In any schedule, however long, a pool takes at most as many moves as its measure says. */
  lemma OwnMovesBounded(u: Unicode, s: System, moves: seq<Move>, p: nat)
    requires Inv(s) && p < |s.pools|
    ensures OwnMoves(u, s, moves, p) <= Measure(s, p)
  {
    hide Apply, Inv, Measure, Takes;
    MovesMeasured(u, s, moves, p);
    MeasureBounded(Exec(u, s, moves), p);
  }

  lemma ExecAfter(u: Unicode, s: System, m: Move, rest: seq<Move>)
    ensures Exec(u, s, [m] + rest) == Exec(u, Apply(u, s, m), rest)
    decreases |rest|
  {
    hide Apply;
    if rest == [] {
      assert [m] + rest == [m];
      assert [m][..0] == [];
    } else {
      ExecAfter(u, s, m, rest[..|rest| - 1]);
      assert ([m] + rest)[..|rest|] == [m] + rest[..|rest| - 1];
    }
  }

  /** From every sound state, moves of its own lead a batch to its return. */
  lemma {:induction false} OwnMovesReturn(u: Unicode, s: System, p: nat) returns (moves: seq<Move>)
    requires Inv(s) && p < |s.pools|
    ensures forall m :: m in moves ==> !m.Start? && !m.Outside? && m.p == p
    ensures p < |Exec(u, s, moves).pools| && Exec(u, s, moves).pools[p].returned.Some?
    decreases Measure(s, p)
  {
    hide Apply, Inv, Measure;
    if s.pools[p].returned.Some? {
      moves := [];
    } else {
      var m := NeverStuck(s, p);
      MeasureBounded(s, p);
      OwnMoveAdvances(u, s, m);
      OneMoveMeasured(u, s, m, p);
      ApplyKeepsInv(u, s, m);
      MeasureBounded(Apply(u, s, m), p);
      var rest := OwnMovesReturn(u, Apply(u, s, m), p);
      ExecAfter(u, s, m, rest);
      moves := [m] + rest;
    }
  }

  /** So every reachable batch can still return, whatever the rest of the system has done. */
  lemma EveryBatchCanReturn(u: Unicode, before: seq<Move>, p: nat) returns (moves: seq<Move>)
    requires p < |Exec(u, INITIAL, before).pools|
    ensures forall m :: m in moves ==> !m.Start? && !m.Outside? && m.p == p
    ensures var s := Exec(u, Exec(u, INITIAL, before), moves);
            p < |s.pools| && s.pools[p].returned.Some?
  {
    hide Apply, Inv;
    StartHolds();
    ExecKeepsInv(u, INITIAL, before);
    moves := OwnMovesReturn(u, Exec(u, INITIAL, before), p);
  }
}

/**
 The claim protocol (internal/app/extraction/persist.go over the extraction table). Any number
 of callers, from requests and from the scheduler, run `RunAndPersistWithOutcome` at the same time.
 A move of the system is one atomic step of one caller: one SQL statement, or the extraction.
 Connections may fail before or after a statement took effect, and callers may stop anywhere. Since
 a move carries everything that is not determined by the state, a run is a list of moves, and what
 is proved about `Exec` of all move lists is proved about all interleavings.
 */
module ClaimProtocol {
  import opened Results
  import opened Text
  import opened Extract
  import opened ExtractionTable
  import opened ArticleRun

  datatype Execution = NewlyExtracted | ExecDone | ExecPending | ExecFailed

  datatype Outcome = Outcome(execution: Execution, result: Option<ExtractResult>, error: string)

  /** Where a caller is in `RunAndPersistWithOutcome`. */
  datatype Pc =
    | Inserting
    | Selecting
    | Extracting
    | StoringSuccess(out: ExtractResult)
    | StoringFailure(message: string)
    | Returned(outcome: Result<Outcome>)

  datatype Caller = Caller(article: Article, model: string, pc: Pc)

  /** What the environment decides about one step. */
  datatype Choice = Choice(fault: Fault, now: int, reply: Reply)

  /** How a claim that was not granted is reported. */
  ghost function Report(claim: ClaimResult): Result<Outcome> {
    match claim.outcome
    case AlreadyDone =>
      if claim.existing.Some? && HasResult(claim.existing.value) && IsValid(ResultOf(claim.existing.value))
      then Ok(Outcome(ExecDone, Some(Normalized(ResultOf(claim.existing.value))), ""))
      else Err("convert done record")
    case AlreadyPending => Ok(Outcome(ExecPending, None, ""))
    case AlreadyFailed =>
      Ok(Outcome(ExecFailed, None,
                 if claim.existing.Some? && claim.existing.value.error.Some? then claim.existing.value.error.value
                 else "previous extraction failed"))
    case Granted => Err("unexpected claim outcome")
  }

  /** One atomic step: the table, the caller, and whether the extractor was called. */
  datatype Effect = Effect(table: Table, caller: Caller, granted: bool, called: bool)

  ghost function Step(u: Unicode, t: Table, c: Caller, ch: Choice): Effect {
    var id := c.article.id;
    match c.pc
    case Inserting =>
      if c.model == "" || id <= 0 || ch.fault == FailsBefore then
        Effect(t, c.(pc := Returned(Err("claim extraction"))), false, false)
      else if ch.fault == FailsAfter then
        Effect(InsertPending(t, id, c.model, ch.now), c.(pc := Returned(Err("claim extraction"))), false, false)
      else if id in t then
        Effect(t, c.(pc := Selecting), false, false)
      else
        Effect(InsertPending(t, id, c.model, ch.now), c.(pc := Extracting), true, false)
    case Selecting =>
      if ch.fault != Healthy || id !in t then
        Effect(t, c.(pc := Returned(Err("claim extraction"))), false, false)
      else
        var claim := ClassifyExisting(ReadRow(id, t[id]));
        Effect(t, c.(pc := Returned(if claim.Ok? then Report(claim.value) else Err("claim extraction"))), false, false)
    case Extracting =>
      var report := ArticleRun.Report(u, c.article, ch.reply);
      Effect(t, c.(pc := if report.result.Ok? then StoringSuccess(report.result.value)
                         else StoringFailure(report.result.message)), false, report.called)
    case StoringSuccess(out) =>
      var accepted := id > 0 && c.model != "" && IsValid(out) && out.articleId == id;
      Effect(if accepted && ch.fault != FailsBefore then UpsertSuccess(t, id, c.model, ch.now, out) else t,
             c.(pc := Returned(if accepted && ch.fault == Healthy then Ok(Outcome(NewlyExtracted, Some(out), ""))
                               else Err("persist success state"))),
             false, false)
    case StoringFailure(message) =>
      var accepted := id > 0 && c.model != "" && message != "";
      Effect(if accepted && ch.fault != FailsBefore then UpsertFailure(t, id, c.model, ch.now, message) else t,
             c.(pc := Returned(Err(if accepted && ch.fault == Healthy then "run extraction: " + message
                                   else "persist failure state"))),
             false, false)
    case Returned(_) => Effect(t, c, false, false)
  }

  /** The steps a caller still has before it returns. */
  function Remaining(pc: Pc): nat {
    match pc
    case Inserting => 3
    case Selecting => 1
    case Extracting => 2
    case StoringSuccess(_) => 1
    case StoringFailure(_) => 1
    case Returned(_) => 0
  }

  /** Every step of a caller that has not returned brings it closer to its return. */
  lemma StepAdvances(u: Unicode, t: Table, c: Caller, ch: Choice)
    requires !c.pc.Returned?
    ensures Remaining(Step(u, t, c, ch).caller.pc) < Remaining(c.pc)
    ensures Step(u, t, c, ch).caller.article == c.article && Step(u, t, c, ch).caller.model == c.model
  {
  }

  lemma ExtractingIs(u: Unicode, t: Table, c: Caller, ch: Choice)
    requires c.pc.Extracting?
    ensures var report := ArticleRun.Report(u, c.article, ch.reply);
            && Step(u, t, c, ch).called == report.called && !Step(u, t, c, ch).granted && Step(u, t, c, ch).table == t
            && Step(u, t, c, ch).caller == c.(pc := if report.result.Ok? then StoringSuccess(report.result.value)
                                                    else StoringFailure(report.result.message))
  {
    hide ArticleRun.Report;
  }

  /** Only the step from a granted claim asks the extractor. */
  lemma OthersAskNothing(u: Unicode, t: Table, c: Caller, ch: Choice)
    requires !c.pc.Extracting?
    ensures !Step(u, t, c, ch).called
  {
    hide Report;
  }

  lemma ReturnedStays(u: Unicode, t: Table, c: Caller, ch: Choice)
    requires c.pc.Returned?
    ensures Step(u, t, c, ch) == Effect(t, c, false, false)
  {
  }

  /** Callers are known by who runs them: a worker of a batch, or a single request. */
  datatype CallerId = PoolWorker(pool: nat, worker: nat) | Request(n: nat)

  /** The whole system; `grants` and `calls` count what happened so far, per article. */
  datatype System = System(
    table: Table,
    callers: map<CallerId, Caller>,
    grants: multiset<int>,
    calls: multiset<int>)

  datatype Move =
    | Spawn(id: CallerId, article: Article, model: string)
    | Advance(id: CallerId, choice: Choice)
    | Retire(id: CallerId)

  const INITIAL := System(map[], map[], multiset{}, multiset{})

  function After(s: System, id: CallerId, e: Effect): System {
    var a := e.caller.article.id;
    System(e.table, s.callers[id := e.caller],
           if e.granted then s.grants + multiset{a} else s.grants,
           if e.called then s.calls + multiset{a} else s.calls)
  }

  /** A move that is not possible in a state changes nothing. */
  ghost function Apply(u: Unicode, s: System, m: Move): System {
    match m
    case Spawn(id, article, model) =>
      if id in s.callers then s
      else s.(callers := s.callers[id := Caller(article, model, Inserting)])
    case Advance(id, choice) =>
      if id !in s.callers then s
      else
        var c := s.callers[id];
        After(s, id, Step(u, s.table, c, choice))
    case Retire(id) =>
      if id in s.callers then s.(callers := s.callers - {id}) else s
  }

  ghost function Exec(u: Unicode, s: System, moves: seq<Move>): System {
    if moves == [] then s else Apply(u, Exec(u, s, moves[..|moves| - 1]), moves[|moves| - 1])
  }

  /** The caller holds the grant for an article and has not reported yet. */
  predicate HoldsGrant(c: Caller, id: int) {
    c.article.id == id && (c.pc.Extracting? || c.pc.StoringSuccess? || c.pc.StoringFailure?)
  }

  /** No column of a result is there. */
  ghost predicate NoResult(row: Row) {
    && row.eventType == row.geoCluster == row.impactDirection == row.timeHorizon == None
    && row.countries == row.companies == row.sectors == row.industries == row.channels == None
    && row.impactStrength == None && row.confidence == None
  }

  /** What the rows of the table look like. */
  ghost predicate RowSound(id: int, row: Row) {
    && id > 0 && row.model != "" && row.startedAt == Some(row.createdAt)
    && (|| (row.status == PENDING && row.finishedAt == None && row.error == None && NoResult(row))
        || (row.status == DONE && row.finishedAt.Some? && row.error == None
            && exists out :: Holds(id, row, out) && out == Normalized(out))
        || (row.status == FAILED && row.finishedAt.Some? && row.error.Some? && row.error.value != "" && NoResult(row)))
  }

  ghost predicate CallerSound(s: System, id: CallerId)
    requires id in s.callers
  {
    var c := s.callers[id];
    var a := c.article.id;
    && (c.pc.Selecting? ==> a in s.table)
    && (HoldsGrant(c, a) ==>
          && a > 0 && c.model != ""
          && a in s.table && s.table[a].status == PENDING && s.table[a].model == c.model && s.grants[a] == 1
          && forall other :: other in s.callers && HoldsGrant(s.callers[other], a) ==> other == id)
    && (c.pc.Extracting? ==> s.calls[a] == 0)
    && (c.pc.StoringSuccess? ==> IsValid(c.pc.out) && c.pc.out.articleId == a && c.pc.out == Normalized(c.pc.out))
    && (c.pc.StoringFailure? ==> c.pc.message != "")
  }

  ghost predicate Inv(s: System) {
    && (forall a :: s.calls[a] <= s.grants[a] <= 1)
    && (forall a :: a !in s.table ==> s.grants[a] == 0)
    && (forall a :: a in s.table ==> RowSound(a, s.table[a]))
    && (forall id :: id in s.callers ==> CallerSound(s, id))
  }

  /** What one step can do, whatever the environment decides. */
  ghost predicate StepFacts(t: Table, c: Caller, e: Effect) {
    var a := c.article.id;
    && e.caller.article == c.article && e.caller.model == c.model
    // only the row of the caller's article can change, and it is never removed
    && (forall b :: b != a ==> (b in e.table <==> b in t) && (b in t ==> e.table[b] == t[b]))
    && (a in t ==> a in e.table)
    // without the grant a row is only ever inserted, as pending
    && (!HoldsGrant(c, a) ==> e.table == t || (a !in t && a in e.table && e.table[a].status == PENDING))
    // the grant comes from the insert and goes with the write
    && (e.granted ==> a !in t && a in e.table && e.caller.pc.Extracting? && a > 0 && c.model != "")
    && (e.granted ==> e.table[a].model == c.model)
    && (HoldsGrant(e.caller, a) ==> e.granted || (c.pc.Extracting? && e.table == t && !e.caller.pc.Extracting?))
    && (e.called ==> c.pc.Extracting? && !e.caller.pc.Extracting?)
    && (e.caller.pc.Selecting? ==> a in e.table)
    // what is carried to the write
    && (e.caller.pc.StoringSuccess? ==>
          IsValid(e.caller.pc.out) && e.caller.pc.out.articleId == a && e.caller.pc.out == Normalized(e.caller.pc.out))
    && (e.caller.pc.StoringFailure? ==> e.caller.pc.message != "")
  }

  lemma ExtractingHasFacts(u: Unicode, t: Table, c: Caller, ch: Choice)
    requires c.pc.Extracting?
    ensures StepFacts(t, c, Step(u, t, c, ch))
  {
    hide Step, ArticleRun.IsExtractable, ArticleRun.IsComplete, IsValid;
    ExtractingIs(u, t, c, ch);
    var e := Step(u, t, c, ch);
    if e.caller.pc.StoringSuccess? {
      assert e.caller.pc.out == Normalized(e.caller.pc.out);
    }
  }

  lemma StoringHasFacts(u: Unicode, t: Table, c: Caller, ch: Choice)
    requires c.pc.StoringSuccess? || c.pc.StoringFailure?
    ensures StepFacts(t, c, Step(u, t, c, ch))
  {
    hide Report, IsValid, HasResult, ResultOf;
  }

  lemma StepHasFacts(u: Unicode, t: Table, c: Caller, ch: Choice)
    ensures StepFacts(t, c, Step(u, t, c, ch))
  {
    hide Report, IsValid, HasResult, ResultOf;
    if c.pc.Extracting? {
      ExtractingHasFacts(u, t, c, ch);
    } else if c.pc.StoringSuccess? || c.pc.StoringFailure? {
      StoringHasFacts(u, t, c, ch);
    }
  }

  /** A step leaves the row of its article sound. */
  lemma StepRowSound(u: Unicode, s: System, id: CallerId, ch: Choice)
    requires Inv(s) && id in s.callers
    ensures var e := Step(u, s.table, s.callers[id], ch);
            var a := s.callers[id].article.id;
            a in e.table ==> RowSound(a, e.table[a])
  {
    var c := s.callers[id];
    var a := c.article.id;
    var e := Step(u, s.table, c, ch);
    assert CallerSound(s, id);
    if a in s.table {
      assert RowSound(a, s.table[a]);
    }
    if c.pc.StoringSuccess? && e.table != s.table {
      SuccessReadsBack(s.table[a], a, c.model, ch.now, c.pc.out);
      assert Holds(a, e.table[a], c.pc.out);
    }
  }

  lemma CallerStaysSound(s: System, id: CallerId, e: Effect, other: CallerId)
    requires Inv(s) && id in s.callers && StepFacts(s.table, s.callers[id], e)
    requires other in s.callers && other != id
    ensures CallerSound(After(s, id, e), other)
  {
    hide RowSound, IsValid;
    assert CallerSound(s, other) && CallerSound(s, id);
    var b := s.callers[other].article.id;
    if HoldsGrant(s.callers[other], b) {
      assert !HoldsGrant(s.callers[id], b);
      assert b in s.table;
      assert !HoldsGrant(e.caller, b);
    }
  }

  lemma StepperStaysSound(s: System, id: CallerId, e: Effect)
    requires Inv(s) && id in s.callers && StepFacts(s.table, s.callers[id], e)
    ensures CallerSound(After(s, id, e), id)
  {
    var a := e.caller.article.id;
    assert CallerSound(s, id);
    if HoldsGrant(e.caller, a) {
      forall other | other in s.callers && other != id ensures !HoldsGrant(s.callers[other], a) {
        assert CallerSound(s, other);
      }
      if e.granted {
        assert s.grants[a] == 0;
      }
    }
  }

  lemma AdvanceKeepsInv(u: Unicode, s: System, id: CallerId, choice: Choice)
    requires Inv(s) && id in s.callers
    ensures Inv(Apply(u, s, Advance(id, choice)))
  {
    hide Step, RowSound, CallerSound;
    var c := s.callers[id];
    StepHasFacts(u, s.table, c, choice);
    StepRowSound(u, s, id, choice);
    EffectKeepsInv(s, id, Step(u, s.table, c, choice));
  }

  lemma EffectKeepsInv(s: System, id: CallerId, e: Effect)
    requires Inv(s) && id in s.callers && StepFacts(s.table, s.callers[id], e)
    requires var a := e.caller.article.id; a in e.table ==> RowSound(a, e.table[a])
    ensures Inv(After(s, id, e))
  {
    var s' := After(s, id, e);
    assert CallerSound(s, id);
    StepperStaysSound(s, id, e);
    forall other | other in s'.callers ensures CallerSound(s', other) {
      if other != id {
        CallerStaysSound(s, id, e, other);
      }
    }
    forall b | b in s'.table ensures RowSound(b, s'.table[b]) {
      if b != e.caller.article.id {
        assert RowSound(b, s.table[b]);
      }
    }
  }

  /** Every move keeps the invariant. */
  lemma ApplyKeepsInv(u: Unicode, s: System, m: Move)
    requires Inv(s)
    ensures Inv(Apply(u, s, m))
  {
    hide Step, RowSound;
    match m
    case Advance(id, choice) =>
      if id in s.callers {
        AdvanceKeepsInv(u, s, id, choice);
      }
    case Spawn(id, article, model) =>
      var s' := Apply(u, s, m);
      forall other | other in s'.callers ensures CallerSound(s', other) {
        if other in s.callers {
          assert CallerSound(s, other);
        }
      }
    case Retire(id) =>
      var s' := Apply(u, s, m);
      forall other | other in s'.callers ensures CallerSound(s', other) {
        assert CallerSound(s, other);
      }
  }

  lemma {:induction false} ExecKeepsInv(u: Unicode, s: System, moves: seq<Move>)
    requires Inv(s)
    ensures Inv(Exec(u, s, moves))
  {
    if moves != [] {
      ExecKeepsInv(u, s, moves[..|moves| - 1]);
      ApplyKeepsInv(u, Exec(u, s, moves[..|moves| - 1]), moves[|moves| - 1]);
    }
  }

  /** What a healthy read tells a caller whose claim was lost. */
  lemma LoserIsTold(u: Unicode, s: System, id: CallerId, read: Choice)
    requires Inv(s) && id in s.callers && s.callers[id].pc.Selecting? && read.fault == Healthy
    ensures var a := s.callers[id].article.id;
            && a in s.table && s.table[a].status in {"pending", "done", "failed"}
            && var row, pc := s.table[a], Step(u, s.table, s.callers[id], read).caller.pc;
               && pc.Returned?
               && (row.status == "pending" ==> pc.outcome == Ok(Outcome(ExecPending, None, "")))
               && (row.status == "failed" ==>
                     && row.error.Some? && row.error.value != ""
                     && pc.outcome == Ok(Outcome(ExecFailed, None, row.error.value)))
               && (row.status == "done" ==>
                     && pc.outcome.Ok? && pc.outcome.value.execution == ExecDone && pc.outcome.value.error == ""
                     && pc.outcome.value.result.Some? && Holds(a, row, pc.outcome.value.result.value))
  {
    hide IsValid;
    assert CallerSound(s, id);
    assert RowSound(s.callers[id].article.id, s.table[s.callers[id].article.id]);
  }

  /**
   At most one extraction: in every run, an article is granted at most once, the extractor is
   called for it at most once and only under a grant, and two callers never hold it together.
   */
  lemma AtMostOneExtraction(u: Unicode, moves: seq<Move>, article: int)
    ensures var s := Exec(u, INITIAL, moves);
            && s.calls[article] <= s.grants[article] <= 1
            && (s.grants[article] == 1 ==> article in s.table)
            && (forall i, j | i in s.callers && j in s.callers
                  :: HoldsGrant(s.callers[i], article) && HoldsGrant(s.callers[j], article) ==> i == j)
  {
    ExecKeepsInv(u, INITIAL, moves);
    var s := Exec(u, INITIAL, moves);
    forall i, j | i in s.callers && j in s.callers
                  && HoldsGrant(s.callers[i], article) && HoldsGrant(s.callers[j], article)
      ensures i == j
    {
      assert CallerSound(s, i) && CallerSound(s, j);
    }
  }

  /** The read that follows a lost claim always finds a row, and the answer is what the row says. */
  lemma LoserFindsRow(u: Unicode, moves: seq<Move>, id: CallerId, choice: Choice)
    requires var s := Exec(u, INITIAL, moves); id in s.callers && s.callers[id].pc.Selecting?
    requires choice.fault == Healthy
    ensures var s := Exec(u, INITIAL, moves);
            var c := s.callers[id];
            && c.article.id in s.table
            && var row, answer := s.table[c.article.id], Step(u, s.table, c, choice).caller.pc.outcome;
               && row.status in {"pending", "done", "failed"}
               && (row.status == "pending" ==> answer == Ok(Outcome(ExecPending, None, "")))
               && (row.status == "failed" ==> row.error.Some? && answer == Ok(Outcome(ExecFailed, None, row.error.value)))
               && (row.status == "done" ==>
                     && answer.Ok? && answer.value.execution == ExecDone && answer.value.error == ""
                     && answer.value.result.Some? && Holds(c.article.id, row, answer.value.result.value))
  {
    ExecKeepsInv(u, INITIAL, moves);
    LoserIsTold(u, Exec(u, INITIAL, moves), id, choice);
  }

  /** While a caller holds an article, every other one is told that it is pending. */
  lemma HeldIsPending(u: Unicode, moves: seq<Move>, holder: CallerId, reader: CallerId, read: Choice)
    requires var s := Exec(u, INITIAL, moves);
             && holder in s.callers && reader in s.callers && s.callers[reader].pc.Selecting?
             && HoldsGrant(s.callers[holder], s.callers[reader].article.id)
    requires read.fault == Healthy
    ensures var s := Exec(u, INITIAL, moves);
            Step(u, s.table, s.callers[reader], read).caller.pc == Returned(Ok(Outcome(ExecPending, None, "")))
  {
    ExecKeepsInv(u, INITIAL, moves);
    var s := Exec(u, INITIAL, moves);
    assert CallerSound(s, holder);
    LoserIsTold(u, s, reader, read);
  }

  /** The claim that creates the row of an article. */
  lemma ClaimIsStored(u: Unicode, s: System, id: CallerId, claim: Choice)
    requires id in s.callers && s.callers[id].pc.Inserting? && s.callers[id].article.id !in s.table
    requires s.callers[id].article.id > 0 && s.callers[id].model != "" && claim.fault != FailsBefore
    ensures var a := s.callers[id].article.id;
            var s' := Apply(u, s, Advance(id, claim));
            && a in s'.table && s'.table[a].status == "pending" && s'.table[a].model == s.callers[id].model
            && s'.table[a].startedAt == Some(claim.now) && s'.table[a].createdAt == s'.table[a].updatedAt == claim.now
            && s'.table[a].finishedAt == None && s'.table[a].error == None && NoResult(s'.table[a])
            && (s'.callers[id].pc.Extracting? <==> claim.fault == Healthy)
            && (claim.fault != Healthy ==> s'.callers[id].pc.Returned? && s'.callers[id].pc.outcome.Err?)
  {
  }

  /** Rows are never removed, and finished rows never change. */
  ghost predicate RowsPersist(t: Table, t': Table) {
    forall a :: a in t ==> a in t' && (t[a].status != PENDING ==> t'[a] == t[a])
  }

  lemma ApplyPersists(u: Unicode, s: System, m: Move)
    requires Inv(s)
    ensures RowsPersist(s.table, Apply(u, s, m).table)
  {
    hide Step, RowSound;
    if m.Advance? && m.id in s.callers {
      assert CallerSound(s, m.id);
      StepHasFacts(u, s.table, s.callers[m.id], m.choice);
    }
  }

  /** Along every continuation of every run, done and failed rows stay as they are. */
  lemma {:induction false} FinishedRowsNeverChange(u: Unicode, s: System, moves: seq<Move>)
    requires Inv(s)
    ensures RowsPersist(s.table, Exec(u, s, moves).table)
    ensures Inv(Exec(u, s, moves))
  {
    if moves != [] {
      FinishedRowsNeverChange(u, s, moves[..|moves| - 1]);
      ApplyPersists(u, Exec(u, s, moves[..|moves| - 1]), moves[|moves| - 1]);
      ApplyKeepsInv(u, Exec(u, s, moves[..|moves| - 1]), moves[|moves| - 1]);
    }
  }

  /** The write of a caller that holds a result, and what it leaves in the table. */
  lemma SuccessIsStored(u: Unicode, s: System, id: CallerId, stored: Choice)
    requires Inv(s) && id in s.callers && s.callers[id].pc.StoringSuccess?
    requires stored.fault != FailsBefore
    ensures var a := s.callers[id].article.id;
            var s' := Apply(u, s, Advance(id, stored));
            && a in s.table && a in s'.table && Holds(a, s'.table[a], s.callers[id].pc.out)
            && ReadRow(a, s'.table[a]).status == "done" && ReadRow(a, s'.table[a]).error == None
            && ReadRow(a, s'.table[a]).finishedAt == Some(stored.now)
            && ReadRow(a, s'.table[a]).startedAt == s.table[a].startedAt
            && s'.table[a].status == "done" && s'.table[a].error == None && s'.table[a].finishedAt == Some(stored.now)
            && s'.table[a].model == s.table[a].model == s.callers[id].model
            && s'.table[a].startedAt == s.table[a].startedAt
            && (stored.fault == Healthy ==>
                  s'.callers[id].pc == Returned(Ok(Outcome(NewlyExtracted, Some(s.callers[id].pc.out), ""))))
            && (stored.fault != Healthy ==> s'.callers[id].pc.Returned? && s'.callers[id].pc.outcome.Err?)
  {
    hide IsValid;
    assert CallerSound(s, id);
    var c := s.callers[id];
    SuccessReadsBack(s.table[c.article.id], c.article.id, c.model, stored.now, c.pc.out);
  }

  /** The write of a caller whose extraction has failed, what it leaves in the table, and what it reports. */
  lemma FailureIsStored(u: Unicode, s: System, id: CallerId, stored: Choice)
    requires Inv(s) && id in s.callers && s.callers[id].pc.StoringFailure?
    requires stored.fault != FailsBefore
    ensures var a, message := s.callers[id].article.id, s.callers[id].pc.message;
            var s' := Apply(u, s, Advance(id, stored));
            && a in s.table && a in s'.table && NoResult(s.table[a]) && NoResult(s'.table[a])
            && ReadRow(a, s'.table[a]).status == "failed" && ReadRow(a, s'.table[a]).error == Some(message)
            && ReadRow(a, s'.table[a]).finishedAt == Some(stored.now)
            && ReadRow(a, s'.table[a]).startedAt == s.table[a].startedAt
            && s'.table[a].status == "failed" && message != "" && s'.table[a].error == Some(message)
            && s'.table[a].finishedAt == Some(stored.now)
            && s'.table[a].model == s.table[a].model == s.callers[id].model
            && s'.table[a].startedAt == s.table[a].startedAt
            && (stored.fault == Healthy ==> s'.callers[id].pc == Returned(Err("run extraction: " + message)))
            && (stored.fault != Healthy ==> s'.callers[id].pc.Returned? && s'.callers[id].pc.outcome.Err?)
  {
    assert CallerSound(s, id) && RowSound(s.callers[id].article.id, s.table[s.callers[id].article.id]);
  }

  /**
   What a caller stored as failed is what every later claim of the article is told, whatever happened
   in between.
   */
  lemma FailedReadsBack(u: Unicode, before: seq<Move>, id: CallerId, stored: Choice,
                        after: seq<Move>, reader: CallerId, read: Choice)
    requires var s := Exec(u, INITIAL, before); id in s.callers && s.callers[id].pc.StoringFailure?
    requires stored.fault != FailsBefore && read.fault == Healthy
    requires var s := Exec(u, Apply(u, Exec(u, INITIAL, before), Advance(id, stored)), after);
             && reader in s.callers && s.callers[reader].pc.Selecting?
             && s.callers[reader].article.id == Exec(u, INITIAL, before).callers[id].article.id
    ensures var message := Exec(u, INITIAL, before).callers[id].pc.message;
            var s := Exec(u, Apply(u, Exec(u, INITIAL, before), Advance(id, stored)), after);
            Step(u, s.table, s.callers[reader], read).caller.pc == Returned(Ok(Outcome(ExecFailed, None, message)))
  {
    hide Apply, Step, Inv;
    ExecKeepsInv(u, INITIAL, before);
    var s := Exec(u, INITIAL, before);
    FailureIsStored(u, s, id, stored);
    ApplyKeepsInv(u, s, Advance(id, stored));
    FinishedRowsNeverChange(u, Apply(u, s, Advance(id, stored)), after);
    LoserIsTold(u, Exec(u, Apply(u, s, Advance(id, stored)), after), reader, read);
  }

  lemma DoneIsReported(u: Unicode, t: Table, c: Caller, read: Choice, out: ExtractResult)
    requires c.pc.Selecting? && read.fault == Healthy
    requires c.article.id in t && t[c.article.id].status == DONE
    requires Holds(c.article.id, t[c.article.id], out) && out == Normalized(out)
    ensures Step(u, t, c, read).caller.pc == Returned(Ok(Outcome(ExecDone, Some(out), "")))
  {
  }

  /**
   What a caller stored as done is what every later claim of the article reads back, whatever
   happened in between.
   */
  lemma DoneReadsBack(u: Unicode, before: seq<Move>, id: CallerId, stored: Choice,
                      after: seq<Move>, reader: CallerId, read: Choice)
    requires var s := Exec(u, INITIAL, before); id in s.callers && s.callers[id].pc.StoringSuccess?
    requires stored.fault != FailsBefore && read.fault == Healthy
    requires var s := Exec(u, Apply(u, Exec(u, INITIAL, before), Advance(id, stored)), after);
             && reader in s.callers && s.callers[reader].pc.Selecting?
             && s.callers[reader].article.id == Exec(u, INITIAL, before).callers[id].article.id
    ensures var out := Exec(u, INITIAL, before).callers[id].pc.out;
            var s := Exec(u, Apply(u, Exec(u, INITIAL, before), Advance(id, stored)), after);
            Step(u, s.table, s.callers[reader], read).caller.pc == Returned(Ok(Outcome(ExecDone, Some(out), "")))
  {
    ExecKeepsInv(u, INITIAL, before);
    var s := Exec(u, INITIAL, before);
    assert CallerSound(s, id);
    SuccessIsStored(u, s, id, stored);
    ApplyKeepsInv(u, s, Advance(id, stored));
    var s1 := Apply(u, s, Advance(id, stored));
    FinishedRowsNeverChange(u, s1, after);
    var s2 := Exec(u, s1, after);
    DoneIsReported(u, s2.table, s2.callers[reader], read, s.callers[id].pc.out);
  }

  lemma HeldShows(id: int, row: Row, out: ExtractResult)
    requires Holds(id, row, out)
    ensures ShowsResult(ReadRow(id, row)) && ReadRow(id, row).articleId == out.articleId == id
  {
  }

  /** A record with a result of the contract: known values, scores in range, labels that are not empty. */
  ghost predicate ShowsResult(rec: Record) {
    && rec.articleId > 0 && HasResult(rec)
    && rec.eventType.value in {"geopolitical", "macro", "corporate", "supply_chain", "regulation", "markets"}
    && rec.geoCluster.value in GEO_CLUSTERS
    && rec.impactDirection.value in {"positive", "negative", "mixed", "neutral"}
    && 0 <= rec.impactStrength.value <= 100
    && rec.timeHorizon.value in {"intraday", "short", "medium"}
    && 0.0 <= rec.confidence.value <= 1.0
    && "" !in rec.countries && "" !in rec.companies && "" !in rec.sectors && "" !in rec.industries
    && (forall c :: c in rec.channels ==> c in CHANNELS)
    && forall i, j :: 0 <= i < j < |rec.channels| ==> rec.channels[i] != rec.channels[j]
  }

  /** Finished rows hold what the protocol promises. */
  lemma FinishedRowsSound(u: Unicode, moves: seq<Move>, article: int)
    requires article in Exec(u, INITIAL, moves).table
    ensures var row := Exec(u, INITIAL, moves).table[article];
            && row.status in {"pending", "done", "failed"} && row.model != "" && row.startedAt == Some(row.createdAt)
            && (row.status == "done" ==> ShowsResult(ReadRow(article, row)))
            && (row.status == "pending" ==> row.finishedAt == None && row.error == None && NoResult(row))
            && (row.status == "done" ==>
                  && row.finishedAt.Some? && row.error == None
                  && exists out :: Holds(article, row, out) && out.articleId == article)
            && (row.status == "failed" ==>
                  row.finishedAt.Some? && row.error.Some? && row.error.value != "" && NoResult(row))
  {
    ExecKeepsInv(u, INITIAL, moves);
    var row := Exec(u, INITIAL, moves).table[article];
    assert RowSound(article, row);
    if row.status == DONE {
      var out :| Holds(article, row, out);
      HeldShows(article, row, out);
    }
    assert forall out :: Holds(article, row, out) ==> out.articleId == article;
  }

  /** What a caller is told agrees with the row of its article. */
  ghost predicate IsTrue(t: Table, id: int, told: Result<Outcome>) {
    match told
    case Err(message) => message != ""
    case Ok(o) =>
      && id in t
      && match o.execution
         case NewlyExtracted =>
           o.error == "" && o.result.Some? && t[id].status == DONE && Holds(id, t[id], o.result.value)
         case ExecDone =>
           o.error == "" && o.result.Some? && t[id].status == DONE && Holds(id, t[id], o.result.value)
         case ExecPending => o.error == "" && o.result == None
         case ExecFailed =>
           o.error != "" && o.result == None && t[id].status == FAILED && t[id].error == Some(o.error)
  }

  ghost predicate AllTold(s: System) {
    forall id :: id in s.callers && s.callers[id].pc.Returned? ==>
                   IsTrue(s.table, s.callers[id].article.id, s.callers[id].pc.outcome)
  }

  lemma TruthStays(t: Table, t': Table, id: int, told: Result<Outcome>)
    requires IsTrue(t, id, told) && RowsPersist(t, t')
    ensures IsTrue(t', id, told)
  {
    hide Holds;
  }

  /** The step with which a caller returns tells it what the table holds. */
  lemma StepTells(u: Unicode, s: System, id: CallerId, ch: Choice)
    requires Inv(s) && id in s.callers && !s.callers[id].pc.Returned?
    ensures var e := Step(u, s.table, s.callers[id], ch);
            e.caller.pc.Returned? ==> IsTrue(e.table, s.callers[id].article.id, e.caller.pc.outcome)
  {
    hide IsValid, Holds;
    var c := s.callers[id];
    match c.pc
    case Inserting =>
    case Selecting =>
      if ch.fault == Healthy {
        LoserIsTold(u, s, id, ch);
      }
    case Extracting => ExtractingIs(u, s.table, c, ch);
    case StoringSuccess(_) =>
      if ch.fault == Healthy {
        SuccessIsStored(u, s, id, ch);
      }
    case StoringFailure(_) =>
  }

  lemma ApplyTells(u: Unicode, s: System, m: Move)
    requires Inv(s) && AllTold(s)
    ensures AllTold(Apply(u, s, m))
  {
    hide Step, IsTrue, Inv;
    ApplyPersists(u, s, m);
    var s' := Apply(u, s, m);
    forall id | id in s'.callers && s'.callers[id].pc.Returned?
      ensures IsTrue(s'.table, s'.callers[id].article.id, s'.callers[id].pc.outcome)
    {
      if m.Advance? && m.id == id {
        StepReturns(u, s, id, m.choice);
      } else {
        TruthStays(s.table, s'.table, s.callers[id].article.id, s.callers[id].pc.outcome);
      }
    }
  }

  lemma StepReturns(u: Unicode, s: System, id: CallerId, ch: Choice)
    requires Inv(s) && AllTold(s) && id in s.callers
    ensures var e := Step(u, s.table, s.callers[id], ch);
            && e.caller.article == s.callers[id].article
            && (e.caller.pc.Returned? ==> IsTrue(e.table, e.caller.article.id, e.caller.pc.outcome))
  {
    hide Step, IsTrue, Inv;
    if s.callers[id].pc.Returned? {
      ReturnedStays(u, s.table, s.callers[id], ch);
    } else {
      StepTells(u, s, id, ch);
      StepAdvances(u, s.table, s.callers[id], ch);
    }
  }

  lemma {:induction false} ExecTells(u: Unicode, moves: seq<Move>)
    ensures Inv(Exec(u, INITIAL, moves)) && AllTold(Exec(u, INITIAL, moves))
  {
    hide Apply, Inv, IsTrue;
    ExecKeepsInv(u, INITIAL, []);
    if moves != [] {
      ExecTells(u, moves[..|moves| - 1]);
      ApplyTells(u, Exec(u, INITIAL, moves[..|moves| - 1]), moves[|moves| - 1]);
      ApplyKeepsInv(u, Exec(u, INITIAL, moves[..|moves| - 1]), moves[|moves| - 1]);
    }
  }

  /** Nobody is told anything that the table does not hold, then and ever after. */
  lemma OutcomesAreTrue(u: Unicode, moves: seq<Move>, id: CallerId)
    requires var s := Exec(u, INITIAL, moves); id in s.callers && s.callers[id].pc.Returned?
    ensures var s := Exec(u, INITIAL, moves);
            var a := s.callers[id].article.id;
            match s.callers[id].pc.outcome
            case Err(message) => message != ""
            case Ok(o) =>
              && a in s.table
              && (o.execution in {NewlyExtracted, ExecDone} ==>
                    && o.error == "" && o.result.Some?
                    && s.table[a].status == "done" && Holds(a, s.table[a], o.result.value))
              && (o.execution == ExecPending ==> o.error == "" && o.result == None)
              && (o.execution == ExecFailed ==>
                    && o.error != "" && o.result == None
                    && s.table[a].status == "failed" && s.table[a].error == Some(o.error))
  {
    hide Inv;
    ExecTells(u, moves);
  }
}

/** `RunAndPersistWithOutcome` as one caller runs it, over the repository object. */
module Persist {
  import opened Results
  import opened Text
  import opened Extract
  import opened ExtractionTable
  import opened ArticleRun
  import opened ClaimProtocol

  method RecordToExtractResult(existing: Option<Record>) returns (r: Result<ExtractResult>)
    ensures r.Ok? <==> existing.Some? && HasResult(existing.value) && IsValid(ResultOf(existing.value))
    ensures r.Ok? ==> r.value == Normalized(ResultOf(existing.value))
  {
    if existing == None {
      return Err("record is nil");
    }
    if !HasResult(existing.value) {
      return Err("record missing required extracted fields");
    }
    var out := new ResultVar(ResultOf(existing.value));
    var invalid := out.Validate();
    if invalid.Some? {
      return Err("validate converted result: " + invalid.value);
    }
    return Ok(out.value);
  }

  /** A caller that takes three steps without interruption; no caller needs more. */
  ghost function RunAlone(u: Unicode, t: Table, c: Caller, x: Choice, y: Choice, z: Choice): Effect {
    var first := Step(u, t, c, x);
    var second := Step(u, first.table, first.caller, y);
    Step(u, second.table, second.caller, z)
  }

  /** What the extractor is asked in a step. */
  ghost function Asked(u: Unicode, article: Article, e: Effect): seq<Input> {
    if e.called then [InputFor(u, article)] else []
  }

  /** What it is asked in the three steps. */
  ghost function AskedAlone(u: Unicode, t: Table, c: Caller, x: Choice, y: Choice, z: Choice): seq<Input> {
    var first := Step(u, t, c, x);
    var second := Step(u, first.table, first.caller, y);
    Asked(u, c.article, first) + Asked(u, c.article, second)
    + Asked(u, c.article, Step(u, second.table, second.caller, z))
  }

  /** The claim, and the answer to a caller whose claim is not granted. */
  method ClaimArticle(u: Unicode, article: Article, repo: Repository, model: string, claim: Choice, read: Choice)
    returns (answer: Option<Result<Outcome>>)
    modifies repo
    ensures var e := Step(u, old(repo.rows), Caller(article, model, Inserting), claim);
            && repo.rows == e.table
            && (answer == None <==> e.caller.pc == Extracting) && (answer == None <==> e.granted) && !e.called
            && (answer.Some? ==>
                  Step(u, e.table, e.caller, read) == e.(caller := e.caller.(pc := Returned(answer.value))))
  {
    if model == "" {
      return Some(Err("claim extraction"));
    }
    var claimed := repo.ClaimPending(article.id, model, claim.now, claim.fault, read.fault);
    if claimed.Err? {
      return Some(Err("claim extraction"));
    }
    match claimed.value.outcome {
      case AlreadyDone =>
        var result := RecordToExtractResult(claimed.value.existing);
        if result.Err? {
          return Some(Err("convert done record"));
        }
        return Some(Ok(Outcome(ExecDone, Some(result.value), "")));
      case AlreadyPending =>
        return Some(Ok(Outcome(ExecPending, None, "")));
      case AlreadyFailed =>
        var message := "previous extraction failed";
        if claimed.value.existing.Some? && claimed.value.existing.value.error.Some? {
          message := claimed.value.existing.value.error.value;
        }
        return Some(Ok(Outcome(ExecFailed, None, message)));
      case Granted =>
        return None;
    }
  }

  /** The write of a failed extraction. */
  method StoreRunError(u: Unicode, article: Article, repo: Repository, model: string, message: string, store: Choice)
    returns (outcome: Result<Outcome>)
    modifies repo
    ensures var e := Step(u, old(repo.rows), Caller(article, model, StoringFailure(message)), store);
            repo.rows == e.table && e.caller.pc == Returned(outcome)
  {
    var failed := repo.StoreFailure(article.id, model, store.now, message, store.fault);
    if failed.Some? {
      return Err("persist failure state");
    }
    return Err("run extraction: " + message);
  }

  /** The write of an extraction result. */
  method StoreResult(u: Unicode, article: Article, repo: Repository, model: string, out: ExtractResult, store: Choice)
    returns (outcome: Result<Outcome>)
    modifies repo
    ensures var e := Step(u, old(repo.rows), Caller(article, model, StoringSuccess(out)), store);
            repo.rows == e.table && e.caller.pc == Returned(outcome)
  {
    var lost := repo.StoreSuccess(article.id, model, store.now, out, store.fault);
    if lost.Some? {
      return Err("persist success state");
    }
    return Ok(Outcome(NewlyExtracted, Some(out), ""));
  }

  /** The extraction and the write of its result, for a caller whose claim was granted. */
  method ExtractAndStore(u: Unicode, article: Article, extractor: Extractor, repo: Repository, model: string,
                         run: Choice, store: Choice)
    returns (outcome: Result<Outcome>)
    modifies repo, extractor
    ensures var e := Step(u, old(repo.rows), Caller(article, model, Extracting), run);
            var e' := Step(u, e.table, e.caller, store);
            && repo.rows == e'.table && e'.caller.pc == Returned(outcome)
            && extractor.asked == old(extractor.asked) + Asked(u, article, e) + Asked(u, article, e')
  {
    hide Step, ArticleRun.Report, InputFor;
    ghost var c := Caller(article, model, Extracting);
    ExtractingIs(u, repo.rows, c, run);
    OthersAskNothing(u, repo.rows, Step(u, repo.rows, c, run).caller, store);
    var report := Run(u, article, extractor, run.reply);
    if report.result.Err? {
      outcome := StoreRunError(u, article, repo, model, report.result.message, store);
    } else {
      outcome := StoreResult(u, article, repo, model, report.result.value, store);
    }
  }

  /** The three steps of a caller whose claim is answered at once: the last one changes nothing. */
  lemma AloneAnswered(u: Unicode, t: Table, c: Caller, x: Choice, y: Choice, z: Choice, answer: Result<Outcome>)
    requires c.pc == Inserting
    requires var first := Step(u, t, c, x);
             !first.caller.pc.Extracting?
             && Step(u, first.table, first.caller, y) == first.(caller := first.caller.(pc := Returned(answer)))
    ensures RunAlone(u, t, c, x, y, z).table == Step(u, t, c, x).table
    ensures RunAlone(u, t, c, x, y, z).caller.pc == Returned(answer)
    ensures AskedAlone(u, t, c, x, y, z) == []
  {
    hide Step;
    var first := Step(u, t, c, x);
    OthersAskNothing(u, t, c, x);
    OthersAskNothing(u, first.table, first.caller, y);
    ReturnedStays(u, first.table, first.caller.(pc := Returned(answer)), z);
  }

  /** The three steps of a caller whose claim is granted. */
  lemma AloneGranted(u: Unicode, t: Table, c: Caller, x: Choice, y: Choice, z: Choice)
    requires c.pc == Inserting && Step(u, t, c, x).caller.pc == Extracting
    ensures var table := Step(u, t, c, x).table;
            var second := Step(u, table, c.(pc := Extracting), y);
            var third := Step(u, second.table, second.caller, z);
            && RunAlone(u, t, c, x, y, z) == third
            && AskedAlone(u, t, c, x, y, z) == Asked(u, c.article, second) + Asked(u, c.article, third)
  {
    hide Step, InputFor;
    OthersAskNothing(u, t, c, x);
    StepAdvances(u, t, c, x);
  }

  /**
   The program's order of calls: it does to the table, asks the extractor, and reports, what the
   caller of the claim protocol does in three uninterrupted steps.
   */
  method RunAndPersistWithOutcome(u: Unicode, article: Article, extractor: Extractor, repo: Repository, model: string,
                                  claim: Choice, second: Choice, store: Choice)
    returns (outcome: Result<Outcome>)
    modifies repo, extractor
    ensures var c := Caller(article, model, Inserting);
            var e := RunAlone(u, old(repo.rows), c, claim, second, store);
            && repo.rows == e.table && e.caller.pc == Returned(outcome)
            && extractor.asked == old(extractor.asked) + AskedAlone(u, old(repo.rows), c, claim, second, store)
  {
    var answer := ClaimArticle(u, article, repo, model, claim, second);
    hide Step, InputFor, RunAlone, AskedAlone, Asked;
    ghost var start := Caller(article, model, Inserting);
    if answer.Some? {
      outcome := answer.value;
      AloneAnswered(u, old(repo.rows), start, claim, second, store, outcome);
    } else {
      AloneGranted(u, old(repo.rows), start, claim, second, store);
      outcome := ExtractAndStore(u, article, extractor, repo, model, second, store);
    }
  }
}

/**
 The extraction table (internal/repository/extraction): one row per article, and each SQL
 statement as one atomic change of the table. JSON columns hold their decoded lists.
 */
module ExtractionTable {
  import opened Results
  import opened Extract

  const PENDING := "pending"
  const DONE := "done"
  const FAILED := "failed"

  datatype Row = Row(
    status: string,
    model: string,
    startedAt: Option<int>,
    finishedAt: Option<int>,
    error: Option<string>,
    eventType: Option<string>,
    geoCluster: Option<string>,
    countries: Option<seq<string>>,
    companies: Option<seq<string>>,
    sectors: Option<seq<string>>,
    industries: Option<seq<string>>,
    impactDirection: Option<string>,
    impactStrength: Option<int>,
    channels: Option<seq<string>>,
    timeHorizon: Option<string>,
    confidence: Option<real>,
    createdAt: int,
    updatedAt: int)

  type Table = map<int, Row>

  /** A row as it is read back: NULL lists become empty ones. */
  datatype Record = Record(
    articleId: int,
    status: string,
    model: string,
    startedAt: Option<int>,
    finishedAt: Option<int>,
    error: Option<string>,
    eventType: Option<string>,
    geoCluster: Option<string>,
    countries: seq<string>,
    companies: seq<string>,
    sectors: seq<string>,
    industries: seq<string>,
    impactDirection: Option<string>,
    impactStrength: Option<int>,
    channels: seq<string>,
    timeHorizon: Option<string>,
    confidence: Option<real>,
    createdAt: int,
    updatedAt: int)

  function EmptyRow(status: string, model: string, now: int): (r: Row) {
    Row(status, model, None, None, None, None, None, None, None, None, None, None, None, None, None, None, now, now)
  }

  function PendingRow(model: string, now: int): (r: Row) {
    EmptyRow(PENDING, model, now).(startedAt := Some(now))
  }

  /** INSERT ... ON CONFLICT DO NOTHING. */
  function InsertPending(t: Table, id: int, model: string, now: int): (r: Table) {
    if id in t then t else t[id := PendingRow(model, now)]
  }

  /** The columns that a success writes, on top of whatever row there is. */
  function SucceededRow(row: Row, model: string, now: int, out: ExtractResult): (r: Row) {
    row.(status := DONE, model := model, finishedAt := Some(now), error := None,
    eventType := Some(out.eventType),
    geoCluster := Some(out.geoCluster),
    countries := Some(out.countries.Elems()),
    companies := Some(out.companies.Elems()),
    sectors := Some(out.sectors.Elems()),
    industries := Some(out.industries.Elems()),
    impactDirection := Some(out.impactDirection),
    impactStrength := Some(out.impactStrength),
    channels := Some(out.channels.Elems()),
    timeHorizon := Some(out.timeHorizon),
    confidence := Some(out.confidence),
    updatedAt := now)
  }

  /** The columns that a failure writes; extracted columns stay as they are. */
  function FailedRow(row: Row, model: string, now: int, message: string): (r: Row) {
    row.(status := FAILED, model := model, finishedAt := Some(now), error := Some(message), updatedAt := now)
  }

  /** INSERT ... ON CONFLICT DO UPDATE with a successful result. */
  function UpsertSuccess(t: Table, id: int, model: string, now: int, out: ExtractResult): (r: Table) {
    t[id := SucceededRow(if id in t then t[id] else EmptyRow(DONE, model, now), model, now, out)]
  }

  /** INSERT ... ON CONFLICT DO UPDATE with an error message. */
  function UpsertFailure(t: Table, id: int, model: string, now: int, message: string): (r: Table) {
    t[id := FailedRow(if id in t then t[id] else EmptyRow(FAILED, model, now), model, now, message)]
  }

  function OrEmpty(list: Option<seq<string>>): seq<string> {
    if list.Some? then list.value else []
  }

  function ReadRow(id: int, row: Row): (r: Record) {
    Record(id, row.status, row.model, row.startedAt, row.finishedAt, row.error, row.eventType, row.geoCluster,
           OrEmpty(row.countries), OrEmpty(row.companies), OrEmpty(row.sectors), OrEmpty(row.industries),
           row.impactDirection, row.impactStrength, OrEmpty(row.channels), row.timeHorizon, row.confidence,
           row.createdAt, row.updatedAt)
  }

  predicate HasResult(rec: Record) {
    && rec.eventType.Some? && rec.geoCluster.Some? && rec.impactDirection.Some?
    && rec.impactStrength.Some? && rec.timeHorizon.Some? && rec.confidence.Some?
  }

  function ResultOf(rec: Record): (r: ExtractResult)
    requires HasResult(rec)
  {
    ExtractResult(rec.articleId, rec.eventType.value, rec.geoCluster.value, Slice(rec.countries),
                  Slice(rec.companies), Slice(rec.sectors), Slice(rec.industries), rec.impactDirection.value,
                  rec.impactStrength.value, Slice(rec.channels), rec.timeHorizon.value, rec.confidence.value)
  }

  /** The stored result of a row, when the row holds a complete and valid one. */
  ghost predicate Holds(id: int, row: Row, out: ExtractResult) {
    && HasResult(ReadRow(id, row))
    && ResultOf(ReadRow(id, row)) == out
    && IsValid(out)
  }

  /** What a success writes is what is read back, up to nil lists. */
  lemma SuccessReadsBack(row: Row, id: int, model: string, now: int, out: ExtractResult)
    requires IsValid(out) && out.articleId == id
    ensures Holds(id, SucceededRow(row, model, now, out), Normalized(out))
    ensures Normalized(Normalized(out)) == Normalized(out)
  {
  }

  /** Where the database connection fails, if it does: before or after the statement took effect. */
  datatype Fault = Healthy | FailsBefore | FailsAfter

  datatype ClaimOutcome = Granted | AlreadyDone | AlreadyPending | AlreadyFailed

  datatype ClaimResult = ClaimResult(outcome: ClaimOutcome, existing: Option<Record>)

  function ClassifyExisting(rec: Record): (r: Result<ClaimResult>) {
    if rec.status == DONE then Ok(ClaimResult(AlreadyDone, Some(rec)))
    else if rec.status == PENDING then Ok(ClaimResult(AlreadyPending, Some(rec)))
    else if rec.status == FAILED then Ok(ClaimResult(AlreadyFailed, Some(rec)))
    else Err("claim pending unknown existing status")
  }

  /** The status columns of a row, field by field. */
  method ReadState(id: int, row: Row) returns (rec: Record)
    ensures rec == Record(id, row.status, row.model, row.startedAt, row.finishedAt, row.error, None, None, [], [], [], [],
                          None, None, [], None, None, row.createdAt, row.updatedAt)
  {
    rec := Record(id, row.status, row.model, None, None, None, None, None, [], [], [], [],
                  None, None, [], None, None, row.createdAt, row.updatedAt);
    if row.startedAt.Some? {
      rec := rec.(startedAt := row.startedAt);
    }
    if row.finishedAt.Some? {
      rec := rec.(finishedAt := row.finishedAt);
    }
    if row.error.Some? {
      rec := rec.(error := row.error);
    }
  }

  /** The extracted columns of a row, field by field. */
  method ReadExtracted(row: Row, state: Record) returns (rec: Record)
    requires state.eventType == state.geoCluster == state.impactDirection == state.timeHorizon == None
    requires state.impactStrength == None && state.confidence == None
    ensures rec == state.(eventType := row.eventType, geoCluster := row.geoCluster,
                          countries := OrEmpty(row.countries), companies := OrEmpty(row.companies),
                          sectors := OrEmpty(row.sectors), industries := OrEmpty(row.industries),
                          impactDirection := row.impactDirection, impactStrength := row.impactStrength,
                          channels := OrEmpty(row.channels), timeHorizon := row.timeHorizon,
                          confidence := row.confidence)
  {
    rec := state;
    if row.eventType.Some? {
      rec := rec.(eventType := row.eventType);
    }
    if row.geoCluster.Some? {
      rec := rec.(geoCluster := row.geoCluster);
    }
    if row.impactDirection.Some? {
      rec := rec.(impactDirection := row.impactDirection);
    }
    if row.impactStrength.Some? {
      rec := rec.(impactStrength := row.impactStrength);
    }
    if row.timeHorizon.Some? {
      rec := rec.(timeHorizon := row.timeHorizon);
    }
    if row.confidence.Some? {
      rec := rec.(confidence := row.confidence);
    }
    rec := rec.(countries := OrEmpty(row.countries), companies := OrEmpty(row.companies),
    sectors := OrEmpty(row.sectors), industries := OrEmpty(row.industries), channels := OrEmpty(row.channels));
  }

  /** The repository object over its table. */
  class Repository {
    var rows: Table

    constructor ()
      ensures rows == map[]
    {
      rows := map[];
    }

    method GetByArticleID(id: int, fault: Fault) returns (r: Result<Record>)
      ensures fault == Healthy && id in rows ==> r == Ok(ReadRow(id, rows[id]))
      ensures fault != Healthy || id !in rows ==> r.Err?
    {
      if fault != Healthy {
        return Err("get by article_id: connection");
      }
      if id !in rows {
        return Err("get by article_id: no rows");
      }
      var rec := ReadState(id, rows[id]);
      rec := ReadExtracted(rows[id], rec);
      return Ok(rec);
    }

    /** One insert-if-absent, then a separate read when the article is taken. */
    method ClaimPending(id: int, model: string, startedAt: int, insertFault: Fault, readFault: Fault)
      returns (r: Result<ClaimResult>)
      modifies this
      ensures id <= 0 || model == "" || insertFault == FailsBefore ==> r.Err? && rows == old(rows)
      ensures id > 0 && model != "" && insertFault != FailsBefore ==>
                rows == InsertPending(old(rows), id, model, startedAt)
      ensures insertFault != Healthy ==> r.Err?
      ensures id > 0 && model != "" && insertFault == Healthy ==>
                r == if id !in old(rows) then Ok(ClaimResult(Granted, None))
                     else if readFault != Healthy then Err("claim pending read existing")
                     else ClassifyExisting(ReadRow(id, old(rows)[id]))
    {
      if id <= 0 {
        return Err("article_id must be > 0");
      }
      if model == "" {
        return Err("model must not be empty");
      }
      if insertFault == FailsBefore {
        return Err("claim pending");
      }
      var affected := if id in rows then 0 else 1;
      rows := InsertPending(rows, id, model, startedAt);
      if insertFault == FailsAfter {
        return Err("claim pending rows affected");
      }
      if affected == 1 {
        return Ok(ClaimResult(Granted, None));
      }
      var rec := GetByArticleID(id, readFault);
      if rec.Err? {
        return Err("claim pending read existing");
      }
      return ClassifyExisting(rec.value);
    }

    method StoreSuccess(id: int, model: string, finishedAt: int, result: ExtractResult, fault: Fault)
      returns (err: Option<string>)
      modifies this
      ensures var accepted := id > 0 && model != "" && IsValid(result) && result.articleId == id;
              && rows == (if accepted && fault != FailsBefore
                          then UpsertSuccess(old(rows), id, model, finishedAt, result) else old(rows))
              && (err == None <==> accepted && fault == Healthy)
    {
      if id <= 0 {
        return Some("article_id must be > 0");
      }
      if model == "" {
        return Some("model must not be empty");
      }
      var copy := new ResultVar(result);
      var invalid := copy.Validate();
      if invalid.Some? {
        return Some("validate result: " + invalid.value);
      }
      if copy.value.articleId != id {
        return Some("article_id mismatch");
      }
      if fault == FailsBefore {
        return Some("upsert success");
      }
      rows := UpsertSuccess(rows, id, model, finishedAt, copy.value);
      return if fault == FailsAfter then Some("upsert success") else None;
    }

    method StoreFailure(id: int, model: string, finishedAt: int, message: string, fault: Fault)
      returns (err: Option<string>)
      modifies this
      ensures var accepted := id > 0 && model != "" && message != "";
              && rows == (if accepted && fault != FailsBefore
                          then UpsertFailure(old(rows), id, model, finishedAt, message) else old(rows))
              && (err == None <==> accepted && fault == Healthy)
    {
      if id <= 0 {
        return Some("article_id must be > 0");
      }
      if model == "" {
        return Some("model must not be empty");
      }
      if message == "" {
        return Some("error message must not be empty");
      }
      if fault == FailsBefore {
        return Some("upsert failure");
      }
      rows := UpsertFailure(rows, id, model, finishedAt, message);
      return if fault == FailsAfter then Some("upsert failure") else None;
    }
  }
}

/** src/routes/lm.rs: the handlers of `/api/v1/lm/log`. Each runs its
    statements against the table in sequence and then picks an HTTP status and
    a JSON body from their outcome. Request decoding and routing are not part of
    this model: a handler receives the path id and the decoded payload. */
module LmRoutes {
  import opened Wrappers
  import opened Int64
  import opened LogRecords
  import opened Database

  datatype StatusCode = Ok | Created | NotFound | InternalServerError

  /** The numeric HTTP status. */
  function Code(s: StatusCode): (n: int)
    ensures 200 <= n < 600
  {
    match s
    case Ok => 200
    case Created => 201
    case NotFound => 404
    case InternalServerError => 500
  }

  /** The JSON body of `get_log` and `put_log`: the record, or the error body
      `LogRecord::new_error(id)`, whose definition is not part of this model and
      which is known only to carry the requested id. */
  datatype LogBody = Record(record: LogRecord) | ErrorBody(id: i64)

  /** The `match` at the end of `post_log`: 201 with the new id, or 500 with the
      sentinel id -1 for any failure. */
  function PostLogResponse(outcome: Result<i64, StoreError>): (res: (StatusCode, LogRecordResponse))
    ensures res.0 == Created <==> outcome.Success?
    ensures outcome.Success? ==> res.1.id == outcome.value
    ensures outcome.Failure? ==> res == (InternalServerError, LogRecordResponse(-1))
    ensures Code(res.0) == if outcome.Success? then 201 else 500
  {
    match outcome
    case Success(id) => (Created, LogRecordResponse(id))
    case Failure(_) => (InternalServerError, LogRecordResponse(-1))
  }

  /** `post_log`: inserts the payload as a new row. A 201 carries the new id,
      which is never the error sentinel -1; a 500 carries -1 and nothing was
      written. */
  method PostLog(store: Store, payload: CreateLogRecord, ioFails: bool)
    returns (status: StatusCode, body: LogRecordResponse)
    requires Consistent(store)
    modifies store
    ensures Consistent(store)
    ensures status == Created <==> !ioFails && old(store.lastId) < MaxI64
    ensures status == Created ==>
      && body.id == old(store.lastId) + 1 && body.id !in old(Records(store))
      && store.lastId == body.id
      && Records(store) == old(Records(store))[body.id := FromCreate(body.id, payload)]
    ensures status != Created ==>
      status == InternalServerError && body.id == -1
      && store.rows == old(store.rows) && store.lastId == old(store.lastId)
  {
    var inserted := InsertCreateLogRecord(store, payload, ioFails);
    var res := PostLogResponse(inserted);
    status, body := res.0, res.1;
  }

  /** The `match` at the end of `get_log`: every failure, not only a missing
      row, is reported as 404. */
  function GetLogResponse(id: i64, outcome: Result<LogRecord, StoreError>): (res: (StatusCode, LogBody))
    ensures res.0 == Ok <==> outcome.Success?
    ensures outcome.Success? ==> res.1 == Record(outcome.value)
    ensures outcome.Failure? ==> res == (NotFound, ErrorBody(id))
    ensures Code(res.0) == if outcome.Success? then 200 else 404
  {
    match outcome
    case Success(r) => (Ok, Record(r))
    case Failure(_) => (NotFound, ErrorBody(id))
  }

  /** `get_log`: 200 with the stored record when the id exists and the SELECT
      succeeds, 404 otherwise; the table is not changed. */
  method GetLog(store: Store, id: i64, ioFails: bool) returns (status: StatusCode, body: LogBody)
    requires Consistent(store)
    ensures status == Ok <==> !ioFails && id in Records(store)
    ensures status == Ok ==> body == Record(Records(store)[id]) && body.record.id == id
    ensures status != Ok ==> status == NotFound && body == ErrorBody(id)
  {
    var found := GetLogRecord(store, id, ioFails);
    var res := GetLogResponse(id, found);
    status, body := res.0, res.1;
  }

  /** The nested `match` of `put_log`: 404 when the existence check failed, 500
      when the UPDATE failed, otherwise 200 with the record built from the path
      id and the payload (not re-read from the table). */
  function PutLogResponse(id: i64, payload: CreateLogRecord,
                          check: Result<i64, StoreError>, update: Option<Result<nat, StoreError>>)
    : (res: (StatusCode, LogBody))
    ensures check.Failure? ==> res == (NotFound, ErrorBody(id))
    ensures check.Success? && update.Some? && update.value.Failure? ==> res == (InternalServerError, ErrorBody(id))
    ensures res.0 == Ok <==> check.Success? && !(update.Some? && update.value.Failure?)
    ensures res.0 == Ok ==> res.1 == Record(FromCreate(id, payload))
    ensures Code(res.0) in {200, 404, 500}
  {
    if check.Failure? then (NotFound, ErrorBody(id))
    else if update.Some? && update.value.Failure? then (InternalServerError, ErrorBody(id))
    else (Ok, Record(FromCreate(id, payload)))
  }

  /** `put_log`: checks that row `id` exists and only then overwrites it. A
      missing id (or a failed check) answers 404 and writes nothing; a failed
      UPDATE answers 500 and writes nothing; otherwise it answers 200 with the
      record that a later `get_log(id)` returns. No id is ever changed and no
      other row is touched. */
  method PutLog(store: Store, id: i64, payload: CreateLogRecord, checkFails: bool, writeFails: bool)
    returns (status: StatusCode, body: LogBody)
    requires Consistent(store)
    modifies store
    ensures Consistent(store)
    ensures store.lastId == old(store.lastId) && store.rows.Keys == old(store.rows.Keys)
    ensures status == NotFound <==> checkFails || id !in old(store.rows)
    ensures status == InternalServerError <==> !checkFails && id in old(store.rows) && writeFails
    ensures status == Ok <==> !checkFails && id in old(store.rows) && !writeFails
    ensures status != Ok ==> body == ErrorBody(id) && store.rows == old(store.rows)
    ensures status == Ok ==>
      && body == Record(FromCreate(id, payload))
      && Records(store) == old(Records(store))[id := body.record]
  {
    var check := store.SelectId(id, checkFails);
    var update: Option<Result<nat, StoreError>> := None;
    if check.Success? {
      ghost var before := store.rows;
      var written := store.UpdateRow(id, RowOf(payload), writeFails);
      if written.Success? {
        DecodedWrite(before, id, payload);
      }
      update := Some(written);
    }
    var res := PutLogResponse(id, payload, check, update);
    status, body := res.0, res.1;
  }
}

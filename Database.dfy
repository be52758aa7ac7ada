/** src/database.rs: the `log_records` table and the gateway functions over it.
    The SQLite table is the class `Store`, an id-to-row map plus the table's
    AUTOINCREMENT counter; the connection pool and the SQL text are not part of
    this model. Every statement may meet an I/O failure, which the environment
    decides: each such outcome is a boolean parameter. */
module Database {
  import opened Wrappers
  import opened Int64
  import opened JsonText
  import opened Prompts
  import opened LogRecords

  /** The fifteen data columns of a `log_records` row as SQLite holds them; the
      `prompt` column holds the transcript as JSON text. */
  datatype Row = Row(
    modelProvider: string,
    modelName: string,
    modelVersion: string,
    appName: string,
    appProject: string,
    appVersion: string,
    prompt: string,
    response: string,
    promptUserId: string,
    promptAppHostname: string,
    promptSubmitTs: string,
    responseReceiptTs: string,
    inputTokens: i64,
    outputTokens: i64,
    totalTokens: i64)

  /** The `sqlx::Error` cases the gateway can meet. */
  datatype StoreError =
    | RowNotFound              // `fetch_one` found no row
    | DatabaseFull             // AUTOINCREMENT has handed out the largest i64
    | Io                       // the connection or the file failed
    | ColumnDecode(cause: JsonError)  // the `prompt` column is not a transcript

  /** The values bound to the fifteen `?` of INSERT and UPDATE: every field as
      given, the transcript serialised with serde_json. */
  function RowOf(c: CreateLogRecord): (row: Row)
    ensures DecodeTranscript(row.prompt) == Success(c.prompt)
    ensures row.inputTokens == c.inputTokens && row.outputTokens == c.outputTokens
    ensures row.totalTokens == c.totalTokens
  {
    TranscriptRoundTrip(c.prompt);
    Row(c.modelProvider, c.modelName, c.modelVersion, c.appName, c.appProject, c.appVersion,
        EncodeTranscript(c.prompt), c.response, c.promptUserId, c.promptAppHostname,
        c.promptSubmitTs, c.responseReceiptTs, c.inputTokens, c.outputTokens, c.totalTokens)
  }

  /** The derived `FromRow` of `LogRecord`: every column as stored, the `prompt`
      column decoded as JSON (`#[sqlx(json)]`). */
  function DecodeRow(id: i64, row: Row): (r: Result<LogRecord, StoreError>)
    ensures r.Success? ==> r.value.id == id
    ensures r.Success? <==> DecodeTranscript(row.prompt).Success?
  {
    match DecodeTranscript(row.prompt)
    case Failure(e) => Failure(ColumnDecode(e))
    case Success(ps) =>
      Success(LogRecord(id, row.modelProvider, row.modelName, row.modelVersion, row.appName,
                        row.appProject, row.appVersion, ps, row.response, row.promptUserId,
                        row.promptAppHostname, row.promptSubmitTs, row.responseReceiptTs,
                        row.inputTokens, row.outputTokens, row.totalTokens))
  }

  /** A payload written to a row reads back as the same payload under that
      row's id: every string (timestamps included) and every counter unchanged,
      and the transcript equal in length, order and content. */
  lemma DecodeRowOf(id: i64, c: CreateLogRecord)
    ensures DecodeRow(id, RowOf(c)) == Success(FromCreate(id, c))
  {
    TranscriptRoundTrip(c.prompt);
  }

  predicate AllDecode(rows: map<i64, Row>)
  {
    forall id :: id in rows ==> DecodeRow(id, rows[id]).Success?
  }

  /** The table as the records a SELECT returns for each id. */
  function Decoded(rows: map<i64, Row>): (m: map<i64, LogRecord>)
    requires AllDecode(rows)
    ensures m.Keys == rows.Keys
    ensures forall id :: id in m ==> m[id].id == id
  {
    map id | id in rows :: DecodeRow(id, rows[id]).value
  }

  /** Writing the row of `c` under `id` changes the decoded table at `id` only,
      where it now reads `FromCreate(id, c)`. */
  lemma DecodedWrite(rows: map<i64, Row>, id: i64, c: CreateLogRecord)
    requires AllDecode(rows)
    ensures AllDecode(rows[id := RowOf(c)])
    ensures Decoded(rows[id := RowOf(c)]) == Decoded(rows)[id := FromCreate(id, c)]
  {
    DecodeRowOf(id, c);
    DecodedUpdate(rows, id, RowOf(c), FromCreate(id, c));
  }

  /** Storing any row that decodes to `record` under `id`. */
  lemma DecodedUpdate(rows: map<i64, Row>, id: i64, row: Row, record: LogRecord)
    requires AllDecode(rows)
    requires DecodeRow(id, row) == Success(record)
    ensures AllDecode(rows[id := row])
    ensures Decoded(rows[id := row]) == Decoded(rows)[id := record]
  {
    var written := rows[id := row];
    assert AllDecode(written) by {
      forall k | k in written
        ensures DecodeRow(k, written[k]).Success?
      {
        if k != id {
          assert written[k] == rows[k];
        }
      }
    }
    var lhs, rhs := Decoded(written), Decoded(rows)[id := record];
    assert lhs.Keys == rhs.Keys;
    forall k | k in lhs
      ensures lhs[k] == rhs[k]
    {
      if k != id {
        assert written[k] == rows[k];
      }
    }
  }

  /** One field of the merge in `patch_log_record`:
      `patch.or(Some(existing)).unwrap()`, which cannot panic. */
  function MergeField<T>(patch: Option<T>, existing: T): (v: T)
    ensures patch.Some? ==> v == patch.value
    ensures patch.None? ==> v == existing
  {
    patch.Or(Some(existing)).Unwrap()
  }

  /** The row `patch_log_record` writes: each field of the patch that is present,
      and the existing record's value for each field that is absent. */
  function MergePatch(existing: LogRecord, patch: LogRecords.PatchLogRecord): (c: CreateLogRecord)
    ensures c.modelProvider == patch.modelProvider.GetOr(existing.modelProvider)
    ensures c.modelName == patch.modelName.GetOr(existing.modelName)
    ensures c.modelVersion == patch.modelVersion.GetOr(existing.modelVersion)
    ensures c.appName == patch.appName.GetOr(existing.appName)
    ensures c.appProject == patch.appProject.GetOr(existing.appProject)
    ensures c.appVersion == patch.appVersion.GetOr(existing.appVersion)
    ensures c.prompt == patch.prompt.GetOr(existing.prompt)
    ensures c.response == patch.response.GetOr(existing.response)
    ensures c.promptUserId == patch.promptUserId.GetOr(existing.promptUserId)
    ensures c.promptAppHostname == patch.promptAppHostname.GetOr(existing.promptAppHostname)
    ensures c.promptSubmitTs == patch.promptSubmitTs.GetOr(existing.promptSubmitTs)
    ensures c.responseReceiptTs == patch.responseReceiptTs.GetOr(existing.responseReceiptTs)
    ensures c.inputTokens == patch.inputTokens.GetOr(existing.inputTokens)
    ensures c.outputTokens == patch.outputTokens.GetOr(existing.outputTokens)
    ensures c.totalTokens == patch.totalTokens.GetOr(existing.totalTokens)
  {
    CreateLogRecord(
      MergeField(patch.modelProvider, existing.modelProvider),
      MergeField(patch.modelName, existing.modelName),
      MergeField(patch.modelVersion, existing.modelVersion),
      MergeField(patch.appName, existing.appName),
      MergeField(patch.appProject, existing.appProject),
      MergeField(patch.appVersion, existing.appVersion),
      MergeField(patch.prompt, existing.prompt),
      MergeField(patch.response, existing.response),
      MergeField(patch.promptUserId, existing.promptUserId),
      MergeField(patch.promptAppHostname, existing.promptAppHostname),
      MergeField(patch.promptSubmitTs, existing.promptSubmitTs),
      MergeField(patch.responseReceiptTs, existing.responseReceiptTs),
      MergeField(patch.inputTokens, existing.inputTokens),
      MergeField(patch.outputTokens, existing.outputTokens),
      MergeField(patch.totalTokens, existing.totalTokens))
  }

  /** The all-absent patch writes back the existing record unchanged. */
  lemma MergeEmptyIsIdentity(r: LogRecord)
    ensures FromCreate(r.id, MergePatch(r, EmptyPatch)) == r
  {
  }

  /** The all-present patch writes exactly the patch's values. */
  lemma MergeFullOverwrites(r: LogRecord, c: CreateLogRecord)
    ensures MergePatch(r, FullPatch(c)) == c
  {
  }

  /** A patch that sets only the response changes the response and nothing else. */
  lemma MergeResponseOnly(r: LogRecord, text: string)
    ensures MergePatch(r, EmptyPatch.(response := Some(text))) == r.ToCreate().(response := text)
    ensures FromCreate(r.id, MergePatch(r, EmptyPatch.(response := Some(text)))) == r.(response := text)
  {
  }

  /** Applying a patch a second time changes nothing more. */
  lemma MergeIdempotent(r: LogRecord, p: LogRecords.PatchLogRecord)
    ensures MergePatch(FromCreate(r.id, MergePatch(r, p)), p) == MergePatch(r, p)
  {
  }

  /** Two patches in a row: `q`'s present fields over `p`'s. */
  function Then(p: LogRecords.PatchLogRecord, q: LogRecords.PatchLogRecord): LogRecords.PatchLogRecord
  {
    LogRecords.PatchLogRecord(
      q.modelProvider.Or(p.modelProvider), q.modelName.Or(p.modelName),
      q.modelVersion.Or(p.modelVersion), q.appName.Or(p.appName),
      q.appProject.Or(p.appProject), q.appVersion.Or(p.appVersion),
      q.prompt.Or(p.prompt), q.response.Or(p.response),
      q.promptUserId.Or(p.promptUserId), q.promptAppHostname.Or(p.promptAppHostname),
      q.promptSubmitTs.Or(p.promptSubmitTs), q.responseReceiptTs.Or(p.responseReceiptTs),
      q.inputTokens.Or(p.inputTokens), q.outputTokens.Or(p.outputTokens),
      q.totalTokens.Or(p.totalTokens))
  }

  /** Patching with `p` and then with `q` writes what patching once with their
      combination writes. */
  lemma MergeComposes(r: LogRecord, p: LogRecords.PatchLogRecord, q: LogRecords.PatchLogRecord)
    ensures MergePatch(FromCreate(r.id, MergePatch(r, p)), q) == MergePatch(r, Then(p, q))
  {
  }

  /** The `log_records` table (created at src/database.rs:20-47). */
  class Store {
    var rows: map<i64, Row>
    /** The table's `sqlite_sequence` entry: the largest id AUTOINCREMENT has
        handed out so far (0 before the first insert). */
    var lastId: i64

    ghost predicate Valid()
      reads this
    {
      0 <= lastId && forall id :: id in rows ==> 1 <= id <= lastId
    }

    constructor ()
      ensures Valid() && rows == map[] && lastId == 0
    {
      rows := map[];
      lastId := 0;
    }

    /** `SELECT * FROM log_records WHERE id = ?` with `fetch_one`: the row, or
        `RowNotFound` when no row has that id. */
    method SelectRow(id: i64, ioFails: bool) returns (r: Result<Row, StoreError>)
      ensures r.Success? <==> !ioFails && id in rows
      ensures r.Success? ==> r.value == rows[id]
      ensures r.Failure? ==> r.error == (if ioFails then Io else RowNotFound)
    {
      if ioFails {
        r := Failure(Io);
      } else if id in rows {
        r := Success(rows[id]);
      } else {
        r := Failure(RowNotFound);
      }
    }

    /** `SELECT id FROM log_records WHERE id = ?` with `fetch_one`: the
        existence check of `put_log`, which reads no other column. */
    method SelectId(id: i64, ioFails: bool) returns (r: Result<i64, StoreError>)
      ensures r.Success? <==> !ioFails && id in rows
      ensures r.Success? ==> r.value == id
      ensures r.Failure? ==> r.error == (if ioFails then Io else RowNotFound)
    {
      if ioFails {
        r := Failure(Io);
      } else if id in rows {
        r := Success(id);
      } else {
        r := Failure(RowNotFound);
      }
    }

    /** `INSERT INTO log_records (...) VALUES (...)`, returning
        `last_insert_rowid()`. AUTOINCREMENT gives one more than the largest id
        ever handed out, and fails once that is the largest i64. */
    method InsertRow(row: Row, ioFails: bool) returns (r: Result<i64, StoreError>)
      requires Valid()
      modifies this
      ensures Valid()
      ensures r.Success? <==> !ioFails && old(lastId) < MaxI64
      ensures r.Success? ==> r.value == lastId == old(lastId) + 1 && r.value !in old(rows)
      ensures r.Success? ==> rows == old(rows)[r.value := row]
      ensures r.Failure? ==> r.error == (if ioFails then Io else DatabaseFull)
      ensures r.Failure? ==> rows == old(rows) && lastId == old(lastId)
    {
      if ioFails {
        r := Failure(Io);
      } else if lastId == MaxI64 {
        r := Failure(DatabaseFull);
      } else {
        lastId := lastId + 1;
        rows := rows[lastId := row];
        r := Success(lastId);
      }
    }

    /** `UPDATE log_records SET ... WHERE id = ?`: overwrites the row with that
        id, if any, and reports how many rows it changed; no row is not an
        error. */
    method UpdateRow(id: i64, row: Row, ioFails: bool) returns (r: Result<nat, StoreError>)
      requires Valid()
      modifies this
      ensures Valid() && lastId == old(lastId)
      ensures ioFails ==> r == Failure(Io) && rows == old(rows)
      ensures !ioFails && id in old(rows) ==> r == Success(1) && rows == old(rows)[id := row]
      ensures !ioFails && id !in old(rows) ==> r == Success(0) && rows == old(rows)
    {
      if ioFails {
        r := Failure(Io);
      } else if id in rows {
        rows := rows[id := row];
        r := Success(1);
      } else {
        r := Success(0);
      }
    }
  }

  /** The gateway's invariant: every row was written from a payload, so every
      row decodes. */
  ghost predicate Consistent(store: Store)
    reads store
  {
    store.Valid() && AllDecode(store.rows)
  }

  /** What the invariant says of each row: its id was handed out by
      AUTOINCREMENT, and its `prompt` column holds a transcript. */
  lemma ConsistentRows(store: Store, id: i64)
    requires Consistent(store) && id in store.rows
    ensures 1 <= id <= store.lastId
    ensures DecodeTranscript(store.rows[id].prompt).Success?
  {
  }

  /** The table as the records the gateway reads back, by id. */
  ghost function Records(store: Store): (m: map<i64, LogRecord>)
    reads store
    requires Consistent(store)
    ensures m.Keys == store.rows.Keys
    ensures forall id :: id in m ==> DecodeRow(id, store.rows[id]) == Success(m[id]) && m[id].id == id
  {
    Decoded(store.rows)
  }

  /** `get_log_record`: the stored record for `id`, or the failure of the
      SELECT; the table is not changed. */
  method GetLogRecord(store: Store, id: i64, ioFails: bool) returns (r: Result<LogRecord, StoreError>)
    requires Consistent(store)
    ensures r.Success? <==> !ioFails && id in Records(store)
    ensures r.Success? ==> r.value == Records(store)[id] && r.value.id == id
    ensures r.Failure? ==> r.error == (if ioFails then Io else RowNotFound)
  {
    var row := store.SelectRow(id, ioFails);
    if row.Failure? {
      return Failure(row.error);
    }
    r := DecodeRow(id, row.value);
  }

  /** `insert_create_log_record`: one new row holding the payload, under a
      fresh id larger than every id already in the table; no other row changes.
      On failure nothing is written. */
  method InsertCreateLogRecord(store: Store, payload: CreateLogRecord, ioFails: bool)
    returns (r: Result<i64, StoreError>)
    requires Consistent(store)
    modifies store
    ensures Consistent(store)
    ensures r.Success? <==> !ioFails && old(store.lastId) < MaxI64
    ensures r.Success? ==> r.value == old(store.lastId) + 1 >= 1 && store.lastId == r.value
    ensures r.Success? ==> forall k :: k in old(store.rows) ==> k < r.value
    ensures r.Success? ==> Records(store) == old(Records(store))[r.value := FromCreate(r.value, payload)]
    ensures r.Failure? ==> r.error == (if ioFails then Io else DatabaseFull)
    ensures r.Failure? ==> store.rows == old(store.rows) && store.lastId == old(store.lastId)
  {
    ghost var before := store.rows;
    r := store.InsertRow(RowOf(payload), ioFails);
    if r.Success? {
      DecodedWrite(before, r.value, payload);
    }
  }

  /** `update_log_record`: overwrites all fifteen columns of row `id` (the id
      and every other row are unchanged), then reads the row back. A missing
      id writes nothing and fails on the read-back. */
  method UpdateLogRecord(store: Store, id: i64, payload: CreateLogRecord, writeFails: bool, rereadFails: bool)
    returns (r: Result<LogRecord, StoreError>)
    requires Consistent(store)
    modifies store
    ensures Consistent(store)
    ensures store.lastId == old(store.lastId) && store.rows.Keys == old(store.rows.Keys)
    ensures Records(store) ==
      if !writeFails && id in old(store.rows) then old(Records(store))[id := FromCreate(id, payload)]
      else old(Records(store))
    ensures r ==
      if writeFails || rereadFails then Failure(Io)
      else if id in old(store.rows) then Success(FromCreate(id, payload))
      else Failure(RowNotFound)
  {
    ghost var before := store.rows;
    var written := store.UpdateRow(id, RowOf(payload), writeFails);
    if written.Failure? {
      return Failure(written.error);
    }
    if id in before {
      DecodedWrite(before, id, payload);
      assert Records(store) == old(Records(store))[id := FromCreate(id, payload)];
    } else {
      assert store.rows == before;
    }
    r := GetLogRecord(store, id, rereadFails);
  }

  /** `patch_log_record`: reads row `id`, merges the patch into it and writes the
      result back under the same id. A missing id fails at the read, before any
      write. */
  method PatchLogRecord(store: Store, id: i64, payload: LogRecords.PatchLogRecord,
                        readFails: bool, writeFails: bool, rereadFails: bool)
    returns (r: Result<LogRecord, StoreError>)
    requires Consistent(store)
    modifies store
    ensures Consistent(store)
    ensures store.lastId == old(store.lastId) && store.rows.Keys == old(store.rows.Keys)
    ensures readFails || id !in old(store.rows) ==>
      store.rows == old(store.rows) && r == Failure(if readFails then Io else RowNotFound)
    ensures !readFails && id in old(store.rows) ==>
      var merged := FromCreate(id, MergePatch(old(Records(store))[id], payload));
      && Records(store) == (if writeFails then old(Records(store)) else old(Records(store))[id := merged])
      && r == (if writeFails || rereadFails then Failure(Io) else Success(merged))
  {
    var existing := GetLogRecord(store, id, readFails);
    if existing.Failure? {
      return Failure(existing.error);
    }
    var patchRow := MergePatch(existing.value, payload);
    r := UpdateLogRecord(store, id, patchRow, writeFails, rereadFails);
  }
}

/** Clients of the gateway and the handlers, each starting from a new table
    with every statement succeeding: create and read, create twice, create and
    patch, create and replace. What each step returns follows from the
    contracts alone. */
module EndToEnd {
  import opened Wrappers
  import opened Int64
  import opened ChatRoles
  import opened Prompts
  import opened LogRecords
  import opened Database
  import opened LmRoutes

  /** The first insert into a new table gets id 1 and reads back as sent,
      transcript included; an id that was never created is not found. */
  method CreateThenRead(payload: CreateLogRecord)
    returns (id: i64, first: LogRecord, missing: Result<LogRecord, StoreError>)
    ensures id == 1
    ensures first == FromCreate(1, payload)
    ensures missing == Failure(RowNotFound)
  {
    var store := new Store();
    assert Records(store) == map[];
    var created := InsertCreateLogRecord(store, payload, false);
    id := created.value;
    assert Records(store) == map[1 := FromCreate(1, payload)];
    var read := GetLogRecord(store, id, false);
    first := read.value;
    missing := GetLogRecord(store, 999, false);
  }

  /** Two inserts into a new table get ids 1 and 2, and both records are
      stored as sent. */
  method CreateTwice(a: CreateLogRecord, b: CreateLogRecord)
    returns (first: LmRoutes.StatusCode, firstId: i64, second: LmRoutes.StatusCode, secondId: i64)
    ensures first == Created && firstId == 1
    ensures second == Created && secondId == 2
  {
    var store := new Store();
    assert Records(store) == map[];
    var body1, body2;
    first, body1 := PostLog(store, a, false);
    firstId := body1.id;
    second, body2 := PostLog(store, b, false);
    secondId := body2.id;
  }

  /** A patch that carries only a response changes the stored response and
      leaves every other field, the id included, as it was. */
  method CreatePatchThenRead(payload: CreateLogRecord, text: string) returns (patched: LogRecord)
    ensures patched == FromCreate(1, payload.(response := text))
  {
    var store := new Store();
    assert Records(store) == map[];
    var created := InsertCreateLogRecord(store, payload, false);
    assert Records(store) == map[1 := FromCreate(1, payload)];
    patched := PatchResponseThenRead(store, payload, text);
  }

  /** The second half of the scenario above: the table holds the one record
      created from `payload`, and a response-only patch is applied to it and
      read back. */
  method PatchResponseThenRead(store: Store, payload: CreateLogRecord, text: string)
    returns (patched: LogRecord)
    requires Consistent(store) && Records(store) == map[1 := FromCreate(1, payload)]
    modifies store
    ensures patched == FromCreate(1, payload.(response := text))
  {
    ghost var stored := FromCreate(1, payload);
    var edit := EmptyPatch.(response := Some(text));
    var merged := payload.(response := text);
    assert MergePatch(stored, edit) == merged by {
      MergeResponseOnly(stored, text);
      assert stored.ToCreate() == payload;
    }
    var after := Database.PatchLogRecord(store, 1, edit, false, false, false);
    assert Records(store)[1] == FromCreate(1, merged);
    var reread := GetLogRecord(store, 1, false);
    patched := reread.value;
  }

  /** A full replace through the handlers answers with the record a later
      `get_log` returns, holding the replacement exactly as sent (its total
      token count included, whatever the other two counters are), and answers
      404 for an id that was never created. */
  method ReplaceThenGet(payload: CreateLogRecord, replacement: CreateLogRecord)
    returns (putStatus: StatusCode, putBody: LogBody, getStatus: StatusCode,
             getBody: LogBody, absentStatus: StatusCode)
    ensures putStatus == Ok && getStatus == Ok
    ensures getBody == putBody
    ensures getBody.Record? && getBody.record.ToCreate() == replacement
    ensures absentStatus == NotFound
  {
    var store := new Store();
    assert Records(store) == map[];
    var status, created := PostLog(store, payload, false);
    assert created.id == 1 && store.rows.Keys == {1};
    putStatus, putBody := PutLog(store, created.id, replacement, false, false);
    getStatus, getBody := GetLog(store, created.id, false);
    var absentBody;
    absentStatus, absentBody := PutLog(store, 2, replacement, false, false);
  }
}

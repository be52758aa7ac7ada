/** The record shapes of src/routes/lm/log_record.rs, and `PatchLogRecord`,
    whose definition is not part of this model and is taken from its use in
    src/database.rs: every `CreateLogRecord` field wrapped in `Option`. */
module LogRecords {
  import opened Wrappers
  import opened Int64
  import opened Prompts

  /** The full persisted entity: the row id plus the fifteen data columns.
      Timestamps are plain strings, token counts caller-supplied integers. */
  datatype LogRecord = LogRecord(
    id: i64,
    modelProvider: string,
    modelName: string,
    modelVersion: string,
    appName: string,
    appProject: string,
    appVersion: string,
    prompt: Transcript,
    response: string,
    promptUserId: string,
    promptAppHostname: string,
    promptSubmitTs: string,
    responseReceiptTs: string,
    inputTokens: i64,
    outputTokens: i64,
    totalTokens: i64)
  {
    /** The fifteen data fields, without the id. */
    function ToCreate(): CreateLogRecord
    {
      CreateLogRecord(modelProvider, modelName, modelVersion, appName, appProject, appVersion,
                      prompt, response, promptUserId, promptAppHostname,
                      promptSubmitTs, responseReceiptTs, inputTokens, outputTokens, totalTokens)
    }
  }

  /** The request body of create and full replace: a LogRecord without its id. */
  datatype CreateLogRecord = CreateLogRecord(
    modelProvider: string,
    modelName: string,
    modelVersion: string,
    appName: string,
    appProject: string,
    appVersion: string,
    prompt: Transcript,
    response: string,
    promptUserId: string,
    promptAppHostname: string,
    promptSubmitTs: string,
    responseReceiptTs: string,
    inputTokens: i64,
    outputTokens: i64,
    totalTokens: i64)

  /** The body of a create response: the new row's id only. */
  datatype LogRecordResponse = LogRecordResponse(id: i64)

  /** A partial update: each field present (overwrite) or absent (keep). */
  datatype PatchLogRecord = PatchLogRecord(
    modelProvider: Option<string>,
    modelName: Option<string>,
    modelVersion: Option<string>,
    appName: Option<string>,
    appProject: Option<string>,
    appVersion: Option<string>,
    prompt: Option<Transcript>,
    response: Option<string>,
    promptUserId: Option<string>,
    promptAppHostname: Option<string>,
    promptSubmitTs: Option<string>,
    responseReceiptTs: Option<string>,
    inputTokens: Option<i64>,
    outputTokens: Option<i64>,
    totalTokens: Option<i64>)

  /** `LogRecord::from_create_log_record(id, c)`: the payload's fields copied
      one by one, with `id` added. */
  function FromCreate(id: i64, c: CreateLogRecord): (r: LogRecord)
    ensures r.ToCreate() == c && r.id == id
  {
    LogRecord(id, c.modelProvider, c.modelName, c.modelVersion, c.appName, c.appProject,
              c.appVersion, c.prompt, c.response, c.promptUserId, c.promptAppHostname,
              c.promptSubmitTs, c.responseReceiptTs, c.inputTokens, c.outputTokens, c.totalTokens)
  }

  /** Splitting a record into id and payload and joining them again gives the
      record back: a LogRecord is its id plus exactly the create fields. */
  lemma SplitJoin(r: LogRecord)
    ensures FromCreate(r.id, r.ToCreate()) == r
  {
  }

  /** Two records are equal exactly when their ids and their fifteen data
      fields are equal. */
  lemma RecordEquality(a: LogRecord, b: LogRecord)
    ensures a == b <==> a.id == b.id && a.ToCreate() == b.ToCreate()
  {
  }

  /** The patch with every field absent. */
  const EmptyPatch: PatchLogRecord :=
    PatchLogRecord(None, None, None, None, None, None, None, None, None, None, None, None, None, None, None)

  /** The patch with every field present, carrying the values of `c`. */
  function FullPatch(c: CreateLogRecord): PatchLogRecord
  {
    PatchLogRecord(Some(c.modelProvider), Some(c.modelName), Some(c.modelVersion), Some(c.appName),
                   Some(c.appProject), Some(c.appVersion), Some(c.prompt), Some(c.response),
                   Some(c.promptUserId), Some(c.promptAppHostname), Some(c.promptSubmitTs),
                   Some(c.responseReceiptTs), Some(c.inputTokens), Some(c.outputTokens),
                   Some(c.totalTokens))
  }
}

# lm-logging-api: the log-record model and its persistence contract

This project models, in Dafny, the core of a small REST service that logs
language-model invocations. Each log record holds the model and application
identity, the prompt transcript (a sequence of role-tagged messages), the
response, the user and host, two timestamps and three token counters. The
model covers:

- the value types: `ChatRole` with its wire tags, `Prompt`, `LogRecord`,
  `CreateLogRecord`, `LogRecordResponse` and the all-optional `PatchLogRecord`
  (modules `ChatRoles`, `Prompts`, `LogRecords`);
- the text the `prompt` column holds: the JSON array serde_json writes for a
  `Vec<Prompt>`, its string escaping, and a decoder for it (`JsonText`,
  `Prompts`), with the round trip proved;
- the `log_records` table as a class `Database.Store` (an id-to-row map and
  the AUTOINCREMENT counter), and the four gateway functions of
  src/database.rs as methods over it, including the field-by-field patch merge;
- the three handlers of src/routes/lm.rs, which run the same statements and
  map their outcome to an HTTP status and body (`LmRoutes`);
- four client scenarios, each starting from a new table: create then read,
  create twice, create then patch the response, and create then replace
  through the handlers (`EndToEnd`).

The environment's part is explicit: every SQL statement takes a boolean that
says whether it meets an I/O failure, so each failure branch of the source is
reachable in the model. `Consistent(store)` (every row decodes) is kept by
every writing method, and `Records(store)` is the table as the records a
SELECT returns.

Behaviour of the code worth noting:

- `update_log_record` does not check for the id before writing: the UPDATE
  matches no row and the failure (`RowNotFound`) comes from the re-read.
  Only `put_log` checks first (with `SELECT id`), and `patch_log_record` reads
  first.
- `get_log` reports every failure, I/O included, as 404.
- Timestamps are plain strings. No format is checked on the way in, and the
  model stores them as text (see "## Left out" for what SQLite's column
  affinity does to some of them).
- Token counts are stored as given. `total_tokens` is never compared with or
  derived from the other two.

## Model

| member | source | states |
|---|---|---|
| `ChatRoles.Tag` | src/routes/lm/chat_role.rs:7-14 | each variant's `rename` tag is a non-empty lower-case word that the deserialiser accepts (`IsTag`); `TagRoundTrip` and `TagInjective` make it the inverse of `FromTag` |
| `ChatRoles.FromTag` | src/routes/lm/chat_role.rs:6-15 | decoding accepts exactly the four tags `system`, `assistant`, `user`, `tool`, re-encodes to the same tag, and fails with "unknown variant" naming any other string |
| `ChatRoles.TagRoundTrip` | src/routes/lm/chat_role.rs:7-14 | every role's tag is a known tag and decodes back to that role |
| `ChatRoles.TagInjective` | src/routes/lm/chat_role.rs:7-14 | distinct roles have distinct tags |
| `JsonText.StringRoundTrip` | src/database.rs:87 | a string written as a serde_json string literal reads back as the same string, leaving what follows untouched |
| `JsonText.ParseStringBodyEscaped` | src/database.rs:87 | the escaped body of a string literal plus its closing quote decodes to the original text (induction on the text) |
| `JsonText.ParseOneCharEscaped` | src/database.rs:87 | each character's escape (short forms, `\u00xx` for other control characters, the character itself otherwise) decodes to that character and consumes exactly the escape |
| `JsonText.EscapePlain` | src/routes/lm/chat_role.rs:7-14 | lower-case ASCII text, such as the role tags and the field names, is written unescaped |
| `Prompts.PromptShape` | src/routes/lm/prompt.rs:7-11 | a prompt serialises as an object with key `role` holding the role's tag and key `content` holding the escaped text |
| `Prompts.EncodePrompt` | src/routes/lm/prompt.rs:7 | serde's derived `Serialize` writes one JSON object, opening with `{` and closing with `}`; its exact text is `PromptShape`, its inverse `PromptRoundTrip` |
| `Prompts.ParsePrompt` | src/routes/lm/prompt.rs:7 | serde's derived `Deserialize` (fields in declaration order) consumes at least one character on success, leaving what follows; it inverts `EncodePrompt` (`PromptRoundTrip`) and rejects unknown role tags (`UnknownRoleRejected`) |
| `Prompts.MemberRoundTrip` | src/routes/lm/prompt.rs:7-11 | one `"key":"value"` member of a prompt object reads back as its value |
| `Prompts.PromptRoundTrip` | src/routes/lm/prompt.rs:7-11 | decoding the serialisation of any prompt yields an equal prompt and leaves the rest of the text |
| `Prompts.UnknownRoleRejected` | src/routes/lm/prompt.rs:9 | a prompt object whose role is not one of the four tags fails with "unknown variant", whatever its content |
| `Prompts.TailRoundTrip` | src/routes/lm/log_record.rs:15-16 | the comma-separated tail of the transcript array reads back as the same prompts, in order (induction on the prompts) |
| `Prompts.EncodeTranscript` | src/database.rs:87 | `serde_json::to_string` of a `Vec<Prompt>` is one JSON array, opening with `[` and closing with `]`; its inverse is `DecodeTranscript` (`TranscriptRoundTrip`) |
| `Prompts.DecodeTranscript` | src/routes/lm/log_record.rs:15-16 | the `#[sqlx(json)]` decoding of the `prompt` column succeeds only on text that is a JSON array after optional whitespace; it inverts `EncodeTranscript` (`TranscriptRoundTrip`) |
| `Prompts.TranscriptRoundTrip` | src/database.rs:87 | the JSON text written to the `prompt` column decodes to the same transcript: same length, order and content |
| `LogRecords.FromCreate` | src/routes/lm.rs:161 | the record built from an id and a payload carries that id and exactly the payload's fifteen fields |
| `LogRecords.SplitJoin` | src/routes/lm/log_record.rs:6-45 | a `LogRecord` is its id plus exactly the fields of `CreateLogRecord`, same names and types |
| `LogRecords.RecordEquality` | src/routes/lm/log_record.rs:6 | two records are equal iff their ids and all fifteen data fields are equal |
| `Database.RowOf` | src/database.rs:81-95 | the fifteen values bound to the INSERT and UPDATE: the `prompt` column holds text that decodes to the payload's transcript, and the three token counters are bound as given (none is recomputed) |
| `Database.DecodeRow` | src/routes/lm/log_record.rs:6-16 | the derived `FromRow`: the record carries the row's id, and decoding succeeds exactly when the `prompt` column decodes as a transcript (otherwise a column-decode error) |
| `Database.DecodeRowOf` | src/database.rs:81-95 | a payload bound into a row reads back under that row's id as the same payload: text columns as bound, counters as given, the transcript equal (text timestamps only; see "## Left out") |
| `Database.DecodedWrite` | src/database.rs:107-145 | writing a payload's row under an id keeps every row decodable and changes the decoded table at that id only |
| `Database.Records` | src/database.rs:49-54 | the table as the gateway reads it: one record per stored row, under the same ids, each the row's `FromRow` decoding and carrying its own id |
| `Database.ConsistentRows` | src/database.rs:24 | the invariant `Consistent` that every writing method keeps: each stored id was handed out by AUTOINCREMENT (between 1 and the counter) and each row's `prompt` column holds a transcript |
| `Database.MergeField` | src/database.rs:158-161 | `patch.or(Some(existing)).unwrap()` never fails, and gives the patch value when present and the existing value when absent |
| `Database.MergePatch` | src/database.rs:157-194 | each of the fifteen merged fields is the patch value if present, otherwise the existing record's value |
| `Database.MergeEmptyIsIdentity` | src/database.rs:157-196 | the all-absent patch writes back a record equal to the existing one, under the same id |
| `Database.MergeFullOverwrites` | src/database.rs:157-194 | the all-present patch writes exactly the patch values |
| `Database.MergeResponseOnly` | src/database.rs:171 | a patch of the response alone changes the response and no other field |
| `Database.MergeIdempotent` | src/database.rs:157-194 | merging the same patch again changes nothing more |
| `Database.MergeComposes` | src/database.rs:157-194 | two successive patches write what one patch with the later one's present fields over the earlier one's writes |
| `Database.Store.constructor` | src/database.rs:20-47 | a new table is valid, empty, and has handed out no id |
| `Database.Store.SelectRow` | src/database.rs:49-54 | `fetch_one` gives the stored row for the id, `RowNotFound` when there is none, `Io` on failure |
| `Database.Store.SelectId` | src/routes/lm.rs:110-113 | the existence check succeeds with the id exactly when the row exists and the statement does not fail |
| `Database.Store.InsertRow` | src/database.rs:24 | AUTOINCREMENT gives one more than the largest id handed out, never an id in use, adds exactly that row, and fails with nothing written on I/O failure or once the largest i64 is used |
| `Database.Store.UpdateRow` | src/database.rs:107-145 | UPDATE overwrites the row with that id if there is one, reports 1 or 0 rows changed, changes no other row and no counter |
| `Database.GetLogRecord` | src/database.rs:49-54 | gives exactly the stored record for the id when it exists, `RowNotFound` when it does not, `Io` on failure; changes nothing |
| `Database.InsertCreateLogRecord` | src/database.rs:56-100 | adds exactly one record, equal to the payload under the returned id, which is larger than every existing id and becomes the AUTOINCREMENT counter; other records unchanged; nothing written on failure |
| `Database.UpdateLogRecord` | src/database.rs:102-148 | overwrites all fifteen fields of record `id` and returns `from_create_log_record(id, payload)` on re-read; no id and no other record changes; a missing id writes nothing and fails with `RowNotFound` |
| `Database.PatchLogRecord` | src/database.rs:150-197 | a missing id fails at the first read with nothing written; otherwise the merged record is written under the same id and returned |
| `LmRoutes.PostLogResponse` | src/routes/lm.rs:62-73 | a successful insert answers 201 (`Code`) with its id; any failure answers 500 with id -1 |
| `LmRoutes.PostLog` | src/routes/lm.rs:19-74 | 201 carries the new id (at least 1, so never -1), which becomes the AUTOINCREMENT counter, and the table gains exactly the payload's record; 500 carries -1 and neither the rows nor the counter change |
| `LmRoutes.GetLogResponse` | src/routes/lm.rs:92-95 | a record answers 200 with it; every failure answers 404 (`Code`) with the error body for the id |
| `LmRoutes.GetLog` | src/routes/lm.rs:83-96 | 200 with the stored record exactly when the id exists and the read succeeds, 404 otherwise |
| `LmRoutes.PutLogResponse` | src/routes/lm.rs:115-170 | failed check answers 404, failed update 500, otherwise 200 with the record built from the path id and the payload; the numeric status (`Code`) is one of those three |
| `LmRoutes.PutLog` | src/routes/lm.rs:105-171 | a missing id answers 404 with no write; a failed UPDATE answers 500 with no write; 200 answers the record a later read returns; ids and other rows never change |
| `EndToEnd.CreateThenRead` | src/database.rs:49-100 | the first insert into a new table gets id 1 and reads back as sent; id 999 is not found |
| `EndToEnd.CreateTwice` | src/routes/lm.rs:19-74 | two `post_log` calls on a new table both answer 201, with ids 1 and 2 |
| `EndToEnd.CreatePatchThenRead` | src/database.rs:150-197 | patching only the response of a stored record changes the response and nothing else |
| `EndToEnd.PatchResponseThenRead` | src/database.rs:150-197 | on a table holding one record with id 1, a response-only patch followed by a read gives that record with the new response and every other field unchanged |
| `EndToEnd.ReplaceThenGet` | src/routes/lm.rs:83-171 | after `put_log` answers 200, `get_log` answers 200 with the same body, holding the replacement exactly as sent (text timestamps only; see "## Left out"); `put_log` on an id never created answers 404 |

## Left out

- Connecting to or creating the SQLite file, creating the table, and the pool held in `AppState` (src/database.rs:7-47): I/O. The table is the class `Database.Store`.
- The SQL text, query binding and sqlx's row mapping. They are modelled by what they do to the id-to-row map.
- Concurrency. Each handler and each gateway call runs as one sequential step, so the read-merge-write race in `patch_log_record` is not modelled.
- I/O failures are boolean parameters chosen by the caller. Why a statement fails is not modelled.
- The HTTP layer (src/main.rs, src/custom_middleware.rs, src/routes/health.rs, src/api_doc.rs), and decoding the request's JSON body and path. Handlers receive a decoded payload and an i64 id.
- The `patch_log` handler referenced from src/main.rs is not part of this model. Patching is modelled only through `patch_log_record`.
- `LogRecord::new_error` is not part of this model. Its result is the body `ErrorBody(id)`, which only carries the id.
- The `.expect` on transcript serialisation. Serialising a `Vec<Prompt>` cannot fail, so the encoder is total.
- General JSON decoding. The transcript decoder accepts whitespace between tokens, but it requires the keys in the order serde writes them (`role`, then `content`) and no others. serde would also accept other orders and ignore unknown keys.
- `\u` escapes in the surrogate range are rejected by the decoder. serde_json would combine a surrogate pair into one character. The encoder never writes such an escape.
- `#[non_exhaustive]` on `ChatRole` affects only other crates, so it does not appear in the model.
- The derived `Debug`, `Clone` and OpenAPI schema implementations. They are not behaviour of the core.
- SQLite column affinity for the two timestamp columns, `prompt_submit_ts` and `response_receipt_ts`. They are declared `DATETIME` (src/database.rs:35-36), which gives them NUMERIC affinity. A timestamp string that is a well-formed number, such as `1700000000` or `3.0e+5`, would be stored as an INTEGER or REAL, and reading it back as a Rust `String` would then fail or give other text. The model stores every timestamp as the text that was bound, so `Consistent` is kept for all payloads.
- Database.DecodeRowOf: states the read-back for every payload. For a payload whose `promptSubmitTs` or `responseReceiptTs` is a numeric literal, the real table does not give it back, because of the column affinity described above.
- EndToEnd.ReplaceThenGet: `get_log` answering 200 with the replacement assumes the timestamps are stored as text. A numeric-literal timestamp would make the read fail (404) or return different text.

# Bulk WhatsApp sender: job store and text send loop

This project models the logic of a small bulk-messaging service and proves
properties of it.

The service has two servers:

- `server.js` takes a CSV upload and keeps the non-empty rows. It writes a
  `queued` job record to a per-job file and reports the job id and the row
  count. It also serves a job's record back, merges patches into job records
  with `updateJob`, and answers the provider's webhook verification request.
- `server/index.js` sends one text message per phone number. It first fills
  in each number's `{{key}}` placeholders, then calls the provider, and
  records one result per number. It also stores every successful send in an
  in-memory `messagesDB` list, and keeps an in-memory list of auto-reply
  rules.

The Dafny modules:

- `Wrappers` (`wrappers.dfy`): `Option`, for JavaScript values that may be
  `undefined`.
- `JobStore` (`job_store.dfy`): the jobs directory seen as a map from job id to
  job record. A record is a field map, so `Object.assign({}, job, patch)` is
  the map union `job + patch`. The class `JobFiles` holds the directory.
  Its methods (`Upload`, `GetJob`, `UpdateJob`) are specified by pure
  functions (`Uploaded`, `Lookup`, `Updated`), and the lemmas are about those
  functions. Webhook verification is the pure function `VerifyWebhook`.
- `TextReplace` (`text_replace.dfy`): `String.prototype.replace` with a global
  regular expression whose source is plain text. The model is a literal,
  left-to-right replace-all. Split-at-pattern followed by join-with-replacement
  is the independent reference definition.
- `BulkSend` (`bulk_send.dfy`): the class `Server` holds `messagesDB` and
  `autoReplies` and has the handlers `Send`, `AddAutoReply` and `GetDashboard`.
  `Send` is a loop over the numbers. It is specified by the functions
  `Results`, `Calls` and `NewMessages` of its inputs. The renderer `Render` is
  a loop over the keys, specified by `Rendered`.

The provider is an oracle. `replies[i]` is the provider's answer for the i-th
number: success with an optional message id, or an error. `freshIds[i]` is
the id `uuidv4()` would produce for that number. Clocks are parameters too:
`Upload` takes `now`, the value of `Date.now()`, and the job id is
`"job_" + decimal(now)`.

Three facts about the code shape the model:

- An update replaces the whole `records` list. It does not merge per
  recipient index (see `StaleRecordsPatchLosesSibling`).
- The shown code has no webhook correlation. `sendJob`, which would hold any
  retry or concurrency logic, is not shown.
- Only rows of length zero are dropped. A row whose first column is empty is
  kept.

## Model

| member | source | states |
|---|---|---|
| `JobStore.Decimal` | server.js:57 | the job id's number part is at least one digit, ends in the last digit of the time, and has two or more digits exactly when the time is 10 or more |
| `JobStore.JobIdInjective` | server.js:57-58 | two uploads get the same job id, and so the same job file, only if `Date.now()` gave both the same value |
| `JobStore.CollectRecords` | server.js:46-54 | the `data` handler's loop collects exactly the rows `KeepNonEmpty` specifies |
| `JobStore.KeepNonEmptyExactlyOnceInOrder` | server.js:49-53 | the kept rows are exactly the rows of non-zero length, each kept once, in file order: kept positions strictly increase, and a position is kept exactly when its row is non-empty |
| `JobStore.KeptRowsNonEmpty` | server.js:51 | no kept row is empty |
| `JobStore.NewJobQueued` | server.js:60 | a new job's `total` is the number of kept rows and equals the length of its `records`, its `status` is `queued`, and its `id` is the job id |
| `JobStore.UploadErrorReply` | server.js:42-65 | a form parse error or a missing `csv` field (lines 42-44) gets status 400, and a CSV stream error (line 65) gets 500, and only that error does |
| `JobStore.JobFiles.Upload` | server.js:39-66 | on a complete CSV, the directory gains exactly the new queued job under `job_<now>`, and the reply carries that id and the same `total` the record holds; on any error, nothing is written and the matching error reply is returned |
| `JobStore.Lookup` | server.js:72-75 | an unknown id gives status 404 and "job not found"; a known id gives the stored record unchanged |
| `JobStore.JobFiles.GetJob` | server.js:70-76 | `GET /jobs/:id` answers exactly as `Lookup` on the current directory |
| `JobStore.Merge` | server.js:103 | the merged record has the keys of both; every patch key has the patch's value; every other key keeps the job's value |
| `JobStore.UpdatePatchWins` | server.js:102-104 | after `updateJob(id, patch)`, every field in the patch has the patch's value and every other field of the record read keeps its value |
| `JobStore.UpdateMissingStartsFromDefault` | server.js:102 | updating a job with no record starts from `{id, total: 0, records: []}`, so each of these that the patch does not set has its default value |
| `JobStore.MergeIdempotent` | server.js:103 | merging the same patch twice gives the record of merging it once |
| `JobStore.UpdateIdempotent` | server.js:101-104 | applying the same `updateJob` twice gives the directory of applying it once |
| `JobStore.UpdateOnlyAddressed` | server.js:101-104 | an update adds at most the addressed id to the directory and leaves every other job's record unchanged |
| `JobStore.LookupAfterUpdate` | server.js:99-108 | after an update, the lookup of the addressed id gives the merged record, and the lookup of any other id is as before |
| `JobStore.LookupAfterUpload` | server.js:57-75 | after an upload, looking up its job id gives the kept rows, their count as `total`, and `queued` |
| `JobStore.StaleRecordsPatchLosesSibling` | server.js:103 | a `records` patch replaces the whole list: if two writers read the same list and each change a different entry, the second write restores the first writer's entry to its stale value |
| `JobStore.JobFiles.UpdateJob` | server.js:99-108 | the read-merge-write leaves the directory as `Updated` of the old one |
| `JobStore.VerifyWebhook` | server.js:79-88 | the reply is 200 exactly when the mode is `subscribe` and the token equals the verify token, and then it echoes the challenge; otherwise it is 403 `Forbidden` |
| `TextReplace.Split` | server/index.js:34 | split yields at least one piece, and the first piece is a prefix of the text |
| `TextReplace.SplitJoin` | server/index.js:34 | joining the pieces with the pattern gives the text back |
| `TextReplace.SplitPiecesFree` | server/index.js:34 | no piece contains the pattern; for the placeholder of a brace-free key, which cannot overlap itself, this means every occurrence lies between two pieces |
| `TextReplace.ReplaceAllIsSplitJoin` | server/index.js:34 | a global replace equals splitting at every occurrence and joining with the replacement |
| `TextReplace.ReplaceAllAbsent` | server/index.js:34 | a text without an occurrence of the pattern is returned verbatim |
| `BulkSend.Render` | server/index.js:31-36 | the per-key loop produces `Rendered`: starting from `message`, replace the placeholders of each key in turn |
| `BulkSend.RenderOneKeyReplacesEvery` | server/index.js:34 | for one key, the text is cut at every `{{key}}`, the pieces hold no `{{key}}`, and the result joins them with the value (every occurrence is replaced, not only the first) |
| `BulkSend.RenderSequential` | server/index.js:33-35 | rendering with `first + second` is rendering with `second` applied to the output of `first`: keys apply in sequence |
| `BulkSend.RenderUnsuppliedVerbatim` | server/index.js:33-35 | a text that holds no placeholder of any supplied key is sent unchanged |
| `BulkSend.RenderKeepsUnsupplied` | server/index.js:33-35 | with brace-free keys, a placeholder whose key is not supplied survives verbatim, while the text on each side of it is rendered as usual: `Rendered(u + {{c}} + v) == Rendered(u) + {{c}} + Rendered(v)` |
| `BulkSend.ReplaceAllAround` | server/index.js:34 | replacing the placeholder of one brace-free key leaves the placeholder of a different brace-free key in place and replaces on each side of it |
| `BulkSend.PlaceholderUntouched` | server/index.js:34 | no occurrence of `{{k}}` touches a `{{c}}` when `k` and `c` are different brace-free keys, whatever text surrounds it |
| `BulkSend.PlaceholderAbsent` | server/index.js:34 | the placeholder of a brace-free key contains no placeholder of a different brace-free key |
| `BulkSend.ReplaceAllSplitsBefore` | server/index.js:34 | replacing `{{k}}` in `u + {{c}} + v` is replacing in `u` and then in `{{c}} + v`, since no occurrence straddles the start of `{{c}}` |
| `BulkSend.ReplaceAllSkipsPlaceholder` | server/index.js:34 | replacing `{{k}}` in `{{c}} + v` keeps `{{c}}` and replaces in `v` |
| `TextReplace.ReplaceAllConcat` | server/index.js:34 | when no occurrence straddles the boundary of `u + w`, replacing in `u + w` is replacing in `u` and then in `w` |
| `BulkSend.NoVariablesSendsMessage` | server/index.js:31-32 | with no variables for a number, or none given at all, the sent text is `message` |
| `BulkSend.StoredId` | server/index.js:44 | a stored message's id is the provider's id when it is present and non-empty, and the fresh id otherwise |
| `BulkSend.ResultsOnePerNumber` | server/index.js:29-49 | one result per number, in input order; a result is `sent` exactly when that number's provider call succeeded, and otherwise it carries the error text |
| `BulkSend.CallsOnePerNumber` | server/index.js:30-43 | exactly one provider call per number, in input order, carrying that number and its rendered text |
| `BulkSend.SuccessPositionsExact` | server/index.js:44-47 | the successful positions strictly increase, and a position is among them exactly when that number's provider call succeeded |
| `BulkSend.NewMessagesAtSuccessPositions` | server/index.js:44 | the k-th new `messagesDB` entry is the entry stored for the k-th successful number: its id, number, text and status `sent` |
| `BulkSend.NewMessagesOnePerSuccess` | server/index.js:44 | the new `messagesDB` entries are one per successful send, in send order, each with status `sent`, its number, its text and the id rule; a position is among them exactly when its send succeeded |
| `BulkSend.StoredCountMatchesSent` | server/index.js:44-47 | `messagesDB` grows by exactly the number of `sent` results |
| `BulkSend.Server.constructor` | server/index.js:16-17 | both lists start empty |
| `BulkSend.Server.Send` | server/index.js:25-51 | if `numbers` is missing, or `message` is missing or empty, the reply is 400, no call is made, and `messagesDB` is unchanged; otherwise the reply holds `Results`, the calls are `Calls`, and `messagesDB` is the old list followed by `NewMessages`; every stored entry has status `sent`, and `autoReplies` is untouched |
| `BulkSend.Server.AddAutoReply` | server/index.js:77-81 | exactly one rule is appended at the end, earlier rules and `messagesDB` are unchanged, and the reply is the full rule list |
| `BulkSend.Server.GetDashboard` | server/index.js:84-86 | the dashboard returns both lists as they are, without modifying them |
| `JobStore.JobId` | server.js:57 | the job id `job_${Date.now()}`; pinned down by `JobIdInjective` and `Decimal` |
| `JobStore.KeepNonEmpty` | server.js:49-53 | the rows the upload keeps, never more than it read; pinned down by `KeepNonEmptyExactlyOnceInOrder` |
| `JobStore.NewJob` | server.js:60 | the record an upload writes; pinned down by `NewJobQueued` and `LookupAfterUpload` |
| `JobStore.DefaultJob` | server.js:102 | the record `updateJob` starts from for a missing job; pinned down by `UpdateMissingStartsFromDefault` |
| `JobStore.Uploaded` | server.js:57-60 | the directory after a successful upload; pinned down by `LookupAfterUpload` |
| `JobStore.Current` | server.js:101-102 | the record `updateJob` reads, stored or default; pinned down by `UpdatePatchWins` and `UpdateMissingStartsFromDefault` |
| `JobStore.Updated` | server.js:101-104 | the directory after `updateJob`; pinned down by `UpdatePatchWins`, `UpdateOnlyAddressed`, `UpdateIdempotent` and `LookupAfterUpdate` |
| `TextReplace.ReplaceAll` | server/index.js:34 | the literal global replace; pinned down by `ReplaceAllIsSplitJoin`, `ReplaceAllAbsent` and `ReplaceAllConcat` |
| `BulkSend.Placeholder` | server/index.js:34 | the token `{{key}}`, never empty; pinned down by `PlaceholderUntouched` |
| `BulkSend.Rendered` | server/index.js:31-36 | the text after substituting the keys in turn; pinned down by `Render`, `RenderOneKeyReplacesEvery`, `RenderSequential`, `RenderUnsuppliedVerbatim` and `RenderKeepsUnsupplied` |
| `BulkSend.MessageText` | server/index.js:31-32 | the text sent to one number; pinned down by `NoVariablesSendsMessage` and `CallsOnePerNumber` |
| `BulkSend.Sendable` | server/index.js:27 | the request passes the `numbers`/`message` check; pinned down by `Server.Send` |
| `BulkSend.Results` | server/index.js:29-49 | the response's result list; pinned down by `ResultsOnePerNumber` |
| `BulkSend.Calls` | server/index.js:30-43 | the provider calls made; pinned down by `CallsOnePerNumber` |
| `BulkSend.NewMessages` | server/index.js:44 | the entries appended to `messagesDB`; pinned down by `NewMessagesOnePerSuccess` and `StoredCountMatchesSent` |
| `BulkSend.StoredFor` | server/index.js:44 | the entry stored for one successful send; pinned down by `NewMessagesAtSuccessPositions` and `StoredId` |

## Left out

- Express routing, CORS, morgan and static file serving are plumbing around
  the handlers and are not modelled.
- Multipart and CSV parsing (formidable, csv-parse, multer, csv-parser) are
  foreign libraries. Their output is an input here: `UploadForm` holds the
  parsed rows, or says which stage failed. `POST /api/upload-csv` is only that
  parsing, so it is not modelled.
- File system calls and JSON (de)serialisation are replaced by an in-memory
  map. Writing a record to a file and reading it back is taken to return the
  same record.
- `JobStore.Lookup` and `JobStore.JobFiles.GetJob` take an id as a plain file
  name, one record per id. In the source the path is joined from the
  URL-decoded `:id`, so an id holding `/` or `..` reaches another `.json`
  file, possibly outside `jobs/` (`..%2Fpackage` reads `package.json`), and
  returns it with 200. The model answers 404 for such an id and does not
  capture that path traversal.
- `JobStore.JobFiles.UpdateJob` always writes the merged record. In the
  source, a failing read or write (for example a missing `jobs/` directory,
  or a job file holding invalid JSON) is caught and logged, and the update is
  silently lost. The model does not capture that lost write.
- Provider HTTP calls, bearer tokens and Graph API URLs are network
  operations, replaced by the `replies` oracle. `uuidv4()` is the `freshIds`
  parameter, and `Date.now()` is the `now` parameter.
- `sendJob`, `p-limit`, `CONCURRENCY`, `RETRY_LIMIT` and the truncated
  `sendTemplate` are not modelled: `server.js` ends inside `sendTemplate` and
  never shows `sendJob`, so retry, backoff, concurrency and webhook
  correlation would be invented.
- Environment parsing and `process.exit` are process configuration. The
  verify token is a parameter of `VerifyWebhook`.
- The webhook POST handlers and the media-upload placeholder only log or
  echo, so they are not modelled.
- Concurrent requests are not modelled. Several `/api/send` requests can
  interleave at each `await` and append to `messagesDB` in between. The
  contract of `BulkSend.Server.Send` describes one request running alone.
- `JobStore.Value` covers only the JSON kinds a job record holds (strings,
  integers, lists of rows). A patch with other kinds of values is not modelled.
- `BulkSend.Render`: keys are taken as plain text and the replacement as
  literal. A key with a regular-expression metacharacter is not modelled.
  Neither is a key of the form `n`, `n,` or `n,m` (digits, optionally
  followed by a comma and more digits), which makes `{{key}}` a quantifier
  on its first `{`. Such a key's regex matches other text instead of its
  placeholder: a run of `{` followed by `}`, where the run is exactly `n`
  long for key `n`, at least `n` for `n,`, and `n` to `m` for `n,m`. With a
  minimum of 1 or more, the placeholder stays in place and other text is
  replaced (for key `1`, every `{}`). With a minimum of 0 (`0`, `0,`,
  `0,m`), every `}` in the message is replaced by the value, together with
  the `{`s directly before it that the regex allows. A key such as `2,1`
  makes the `RegExp` constructor throw, so the request gets no reply. A
  `$`-pattern in a value is not modelled either.
- `BulkSend.SendRequest`: `numbers` is taken to be an array of strings,
  `message` a string, and `variables[num]` an object of string values whose
  keys come in `Object.keys` order. Other JavaScript types are not modelled,
  and neither are the truthiness rules they bring.

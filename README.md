# Batch-trading client workflow, modelled in Dafny

The `App` React component of the Sonic batch-trading client is the only logic in its
repository. The operator picks a spreadsheet of mnemonics and uploads it with a progress
bar. The client then fetches the parsed roster and previews it. The operator sets three
run parameters (batch size, transaction count, failure count) and starts execution:
the configuration is posted, then the run is triggered. Throughout, a WebSocket push
channel appends backend log lines to the on-screen log.

This project models that workflow:

- `RunConfig` (`run_config.dfy`): the values of the three inputs (a number at first, the
  input's text after an edit), JavaScript truthiness, and the configuration built with
  `x || 2`, `x || 3`, `x || 1`.
- `Progress` (`upload_progress.dfy`): `Math.round(loaded * 100 / total)` computed exactly
  as `(200 * loaded + total) / (2 * total)`, with its rounding characterised and its range
  and monotonicity proved.
- `Roster` (`roster.dfy`): the preview of the first 15 entries, the `...` item and the count.
- `Transcript` (`transcript.dfy`): the log as a string extended by `${prev}\n${line}`,
  a reference definition of a burst of lines, and reading the log back line by line.
- `Workflow` (`workflow.dfy`): class `App`, whose fields are the component's state hooks
  plus `requests`, the requests sent so far. Its methods are the handlers. Each HTTP call
  is an `Outcome` parameter (resolved with data, or `Failed`). Each `await` is a parameter
  too: the push messages (and, for the upload, the progress callbacks) that arrive while
  the call is pending. Those are delivered in order through `OnMessage` and `OnUploadProgress`.
- `Scenarios` (`scenarios.dfy`): client runs with fixed outcomes, proved from the handlers'
  contracts alone.

Where a description of the workflow and the code differ, the model follows the code:

- A successful upload REPLACES the log with the response text, and a failed one replaces
  it with `File upload failed.`. Neither appends. So push lines that arrive while the upload
  POST is pending are always lost, and so are those that arrive during the roster GET
  when that GET fails (`Workflow.App.HandleUpload`; `Scenarios.EighteenEntryUpload` drops one).
- The roster fetch sits in the same `try` as the upload post. If it fails, the success
  flag is cleared again and the log is replaced by the failure text.
- `handleUpload` neither resets the progress nor clears the roster; only a file change does.
  So a failed second upload of the same file leaves the first roster in place while the
  upload is marked unsuccessful (`Scenarios.StaleRoster`). The roster is therefore not
  empty-unless-successful.
- There is no "in progress" upload outcome; `uploadSuccess` is a plain boolean.
- The configuration uses `||` substitution, not a lower bound. Batch size 1 is sent as 1.
  After an edit a field holds text, so a typed `0` is the truthy string `"0"` and is sent
  as is. Only an empty input (or the number 0) is replaced.

## Model

| member | source | states |
|---|---|---|
| `RunConfig.Truthy` | src/App.js:79-81 | JavaScript truthiness of an input value: the falsy values are exactly the number 0 and the empty text |
| `RunConfig.Or` | src/App.js:79-81 | JavaScript `v or fallback`: the result is truthy; it is `v` itself, or the fallback when `v` is falsy |
| `RunConfig.BuildConfig` | src/App.js:78-82 | every field sent is truthy; a truthy input is sent unchanged, a falsy one becomes 2, 3 or 1 respectively |
| `RunConfig.BuildConfigFixedPoint` | src/App.js:78-82 | a configuration is left unchanged by the substitution exactly when it has no falsy field (so the substitution is idempotent) |
| `RunConfig.FallbackIsNotAFloor` | src/App.js:78-82 | values below the fallback (number 1, text "0") are sent unchanged: the fallbacks are not lower bounds |
| `RunConfig.FalsyInputsUseFallbacks` | src/App.js:78-82 | cleared inputs or zeros are sent as 2 / 3 / 1; a zero batch size with the other defaults is sent as 2 / 100 / 30 |
| `Progress.Percent` | src/App.js:50-52 | the stored progress is 100 * loaded / total rounded to nearest with halves up |
| `Progress.PercentUnique` | src/App.js:50-52 | that rounding condition has exactly one solution, `Percent` |
| `Progress.PercentInRange` | src/App.js:49-53 | for 0 <= loaded <= total the progress lies in [0, 100] |
| `Progress.PercentEnds` | src/App.js:49-53 | nothing sent shows 0, everything sent shows 100 |
| `Progress.PercentMonotone` | src/App.js:49-53 | more bytes sent never shows a smaller percentage |
| `Progress.AfterEvents` | src/App.js:49-54 | after a transfer's callbacks the progress is the last reported percentage (unchanged if none) and stays in [0, 100] |
| `Roster.PreviewOf` | src/App.js:163-168 | shows min(15, n) entries, a prefix of the roster in order; the `...` item appears exactly when n > 15; the count is n |
| `Roster.PreviewHidesOnlyTheTail` | src/App.js:165-168 | without `...` the whole roster is shown; with it exactly the entries after the 15th are hidden |
| `Roster.EighteenEntries` | src/App.js:163-168 | an 18-entry roster previews its first 15 entries, `...` and the count 18 |
| `Transcript.Append` | src/App.js:22-24 | the `${prevLog}\n${line}` update used by the push handler and the execute handler (also at lines 89, 92, 95): the log grows by a newline plus the line |
| `Transcript.AppendAll` | src/App.js:22-24 | a burst of such appends in arrival order; the log grows by at least one character per line |
| `Transcript.AppendKeepsPrefix` | src/App.js:23 | one line appended: the old log is a prefix, then a newline, then the line verbatim |
| `Transcript.AppendAllKeepsPrefix` | src/App.js:22-24 | appending a burst of lines keeps the old log as a prefix |
| `Transcript.AppendAllIsConcat` | src/App.js:22-24 | a burst appended line by line equals the old log followed by each line after a newline, none dropped or reordered |
| `Transcript.AppendAllTwice` | src/App.js:22-24 | two bursts appended in turn equal one burst of their concatenation |
| `Transcript.AppendAllSnoc` | src/App.js:89-95 | one more line after a burst extends the burst by that line |
| `Transcript.TranscriptReadsBack` | src/App.js:159 | a log built from empty, read back line by line, gives an empty line and then exactly the appended lines in arrival order (when none holds a newline) |
| `Workflow.ExecuteLines` | src/App.js:76-95 | the lines added to the cleared log in arrival order: the push lines during the config call, then the config acknowledgment (or the failure text, and nothing more); then exactly the push lines during the execute call, and last the execute acknowledgment or the failure text |
| `Workflow.QuietExecutionLog` | src/App.js:76-95 | with no push messages the log after execute is `\n`+config ack+`\n`+execute ack, or `Execution failed.` in place of the first call that failed |
| `Workflow.App.constructor` | src/App.js:6-15 | the initial state: no file, progress 0, not uploaded, empty roster, inputs 20 / 100 / 30, empty log, not loading, nothing sent |
| `Workflow.App.OnMessage` | src/App.js:22-24 | a push message turns the log into log + `\n` + data |
| `Workflow.App.DeliverMessages` | src/App.js:22-24 | messages arriving during an await are appended in arrival order |
| `Workflow.App.OnUploadProgress` | src/App.js:49-54 | each callback overwrites the progress with the rounded percentage |
| `Workflow.App.DeliverProgress` | src/App.js:49-54 | after a transfer's callbacks the progress is the last one reported |
| `Workflow.App.HandleFileChange` | src/App.js:31-36 | stores the chosen file and resets progress to 0, success to false and the roster to empty; nothing else changes |
| `Workflow.App.SetBatchSize` | src/App.js:116-121 | an edit stores the input's text as the batch size |
| `Workflow.App.SetMaxTransactionCount` | src/App.js:125-130 | an edit stores the input's text as the transaction count |
| `Workflow.App.SetMaxFailureCount` | src/App.js:134-139 | an edit stores the input's text as the failure count |
| `Workflow.App.HandleUpload` | src/App.js:38-67 | no file: nothing changes and nothing is sent; otherwise POST then (on success) GET are sent, progress is the last callback's; both succeed: success, roster stored, log = response text (plus later push lines); either fails: not successful, log = `File upload failed.`, roster kept; file, inputs and loading unchanged |
| `Workflow.App.HandleExecute` | src/App.js:69-99 | not uploaded: nothing changes and nothing is sent; otherwise the built config is posted, the execute GET is sent only after the config call succeeded, the log is the cleared log with every arriving line appended in order, and loading ends false on every path |
| `Scenarios.EighteenEntryUpload` | src/App.js:31-67 | upload with progress to 100 and an 18-entry roster previews 15 entries, `...` and 18 |
| `Scenarios.FailedUpload` | src/App.js:38-99 | a failed upload leaves exactly the failure line, the execute button disabled, and a later execute sends nothing |
| `Scenarios.StaleRoster` | src/App.js:38-67 | a failed re-upload keeps the earlier roster while success is false |
| `Scenarios.ClearedInputsRun` | src/App.js:69-99 | cleared inputs are sent as 2 / 3 / 1, the execute GET follows the config POST, the log is the two acknowledgments |
| `Scenarios.InterleavedPush` | src/App.js:22-24 | push lines during and after an execution appear among the acknowledgments in arrival order |

## Left out

- Rendering: JSX, CSS, the `<progress>` element and the `disabled` attributes (src/App.js:101-172). The UI facts used are that execute is offered when `!loading && uploadSuccess` (src/App.js:150), the roster preview, modelled as a value, and the `<pre>` transcript view (src/App.js:159), modelled as the log split at each newline (`Transcript.Split`).
- Network: axios, `FormData`, the backend URLs and the WebSocket object's opening and closing (src/App.js:18-29). Each call is an `Outcome` parameter; the requests sent are recorded in `requests` as values, not transmitted.
- `alert` and `console.error` (src/App.js:40, 63, 71, 94): no effect on state.
- React scheduling: every handler runs to completion in one method call, with the messages that arrive at each `await` passed in. Interleavings at a finer grain than these suspension points are not modelled.
- Overlapping handlers are not modelled. Only execute is fenced: the inputs and both buttons are disabled on `loading` (src/App.js:105, 120, 129, 138, 145, 150), and `handleUpload` never sets `loading`. So nothing prevents, while an upload's POST or roster GET is pending, picking another file, starting a second upload (a second POST), or starting an execution when `uploadSuccess` is already true (after an earlier upload, or once line 57 has run). The pending upload's later `setLog` then overwrites the running execution's log, and `uploadSuccess` can turn false mid-run. The model runs each handler to completion before the next starts.
- Floating point: `Math.round` is modelled on exact integers. The `NaN` case of an unknown total is left out.
- Progress.AfterEvents: requires every callback to have a positive total no smaller than the bytes sent, as the browser reports it; other callbacks are not modelled.
- `NaN` as a field value is not modelled. (An edited input's text is sent as text because the source itself never converts it to a number; nothing is dropped there.)
- The backend (spreadsheet parsing, trade execution) is not part of this model.

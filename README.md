# api_interaction front end, modelled in Dafny

The application is a React single-page front end with four pieces of state-holding logic: a footer
health indicator that probes the API and shows a coloured status, a collections page that lists and
deletes collections, a chat page that keeps a message log, and an upload page that tracks one file
upload. This project models the sequential logic inside each component. Every network call is
replaced by an abstract outcome value: `Ok(body)` when `response.ok` held (a 2xx status), `NotOk(status,
detail, text)` for any other status, and `Thrown(name, message)` when `fetch` or the body decoding
threw. A health-check timeout is a throw named `AbortError`.

Files and modules:

- `optional.dfy` (`Optional`): the `Option` datatype.
- `text.dfy` (`Text`): the JavaScript string built-ins the components call, written out.
  These are `includes`, `trim`, and the decimal text of a number in a template literal.
  It also holds the `prefix + status + ' - ' + reason` error line and its inverse parser.
- `json.dfy` (`Json`): JavaScript values a JSON body can hold, plus `undefined`.
  It covers truthiness, property reads, object spread and `||` chains.
- `http.dfy` (`Http`): the outcome datatype and the `detail || text || 'Unknown error'` reason.
- `health.dfy` (`Health`): the `HealthMonitor` class (status, last-checked stamp, `Probe`) and the
  pure display mappings and warning test.
- `collections.dfy` (`Collections`): body normalisation, card titles, deletion filter and the
  `CollectionsPage` class with its fetch and delete handlers.
- `chat.dfy` (`Chat`): reply selection, bot error text and the `ChatPage` class.
- `upload.dfy` (`Upload`): status texts, the success-colour test and the `UploadPage` class.

The fetch, send and upload handlers write state before their request, so each is split at the
`await`. The first method models the handler up to the request (`Submit`, `StartUpload`,
`BeginFetch`). The second models the handler after the request settles (`Receive`, `FinishUpload`,
`CompleteFetch`). A third method runs both, for the case where no other handler runs in between. The
health check and the delete handler write nothing before their request, so `Probe` and
`DeleteCollection` are single methods. The delete's list update is a functional update of the list
current when the request settles (`prev => prev.filter(...)`), which is all one call can observe.
`Chat.ChatPage.Receive` requires `loading`: the code after the `await` only runs for an accepted
send, which set `loading`, and nothing else clears it before that code does.

`checkHealth` never sets the status to `checking`; only the initial state is `checking`
(HealthIndicator.jsx:4, 7-32). The health status is kept as a string, as in the source, so the grey
"Unknown" default branches of the display functions exist in the model. `Health.ReachableStatusDisplay`
proves that they are never reached from a valid monitor.

## Model

| member | source | states |
|---|---|---|
| Health.HealthMonitor.constructor | src/components/HealthIndicator.jsx:4-5 | the monitor starts with status `checking`, no last-checked stamp and no completed probe |
| Health.HealthMonitor.Probe | src/components/HealthIndicator.jsx:7-32 | an ok response leaves `healthy`; a non-ok response or any throw leaves `down`; the stamp is always set to the completion time; the status stays one of the three and reflects the last completed probe; the warning is written exactly for a throw that passes the warning test |
| Health.ProbeStatus | src/components/HealthIndicator.jsx:19-23 | a probe's verdict is never `checking`, and it is `healthy` exactly when the response was ok |
| Health.PulsesUntilFirstProbe | src/components/HealthIndicator.jsx:83 | the dot pulses exactly while no probe has completed; afterwards it never shows the checking colour again |
| Health.StatusColor | src/components/HealthIndicator.jsx:42-53 | the grey default colour is used exactly for strings that are not one of the three statuses |
| Health.StatusText | src/components/HealthIndicator.jsx:55-66 | the "Unknown" label is used exactly for strings that are not one of the three statuses |
| Health.DisplayDistinguishesStatuses | src/components/HealthIndicator.jsx:42-66 | the colour and the label each tell the three statuses apart |
| Health.ShouldWarnIff | src/components/HealthIndicator.jsx:26-28 | a failure is logged iff its name is not `AbortError` and "Failed to fetch" occurs at no position of its message |
| Health.ReachableStatusDisplay | src/components/HealthIndicator.jsx:42-66 | a monitor in any reachable state never shows the grey colour or the "Unknown" label |
| Health.ShouldWarn | src/components/HealthIndicator.jsx:26 | the warning test of a failed probe; characterised by `Health.ShouldWarnIff` |
| Health.Pulses | src/components/HealthIndicator.jsx:83 | whether the dot pulses; characterised by `Health.PulsesUntilFirstProbe` |
| Health.NetworkFailureIsQuiet | src/components/HealthIndicator.jsx:26 | a failure whose message contains "Failed to fetch" anywhere is never logged |
| Collections.Normalise | src/components/collectionsPage.jsx:21-36 | the list a fetched body becomes; characterised by `Collections.NormaliseShapes` and `Collections.NormaliseObjectBody` |
| Collections.SpreadSource | src/components/collectionsPage.jsx:33 | what a property's value contributes to its entry: its own fields for an object, its indices for an array, nothing for `null` or a scalar; characterised by `Collections.KeyedEntryName` |
| Collections.KeyedEntry | src/components/collectionsPage.jsx:31-34 | the entry `{name: key, ...value}` made for one property; characterised by `Collections.KeyedEntryName` and `Collections.KeyedEntryTitle` |
| Collections.KeyedEntries | src/components/collectionsPage.jsx:31 | `Object.keys(data).map(...)` over an object body; characterised by `Collections.NormaliseObjectBody` |
| Collections.NormaliseShapes | src/components/collectionsPage.jsx:21-28 | an array body is the list itself; an array `collections` field wins over an array `data` field, and either is used unchanged; a body that is neither an array nor an object gives the empty list |
| Collections.KeyedEntryName | src/components/collectionsPage.jsx:31-34 | an entry's `name` is the value's own `name` when the value is an object with that key, else the key (array indices and scalars never override it) |
| Collections.NormaliseObjectBody | src/components/collectionsPage.jsx:29-35 | an object body without an array `collections` or `data` field yields exactly one entry per property, in property order, each the property's value spread over a `name` set to its key, and named as above |
| Collections.DisplayName | src/components/collectionsPage.jsx:110-114 | the title of a card; characterised by `Collections.DisplayNameFallback` |
| Collections.DisplayNameFallback | src/components/collectionsPage.jsx:110-114 | the card title is the first truthy of `name`, `collection_name`, `id`, `title`; else a string entry itself; else `Collection {index+1}` |
| Collections.DisplayNameFalsyOnlyForEmptyString | src/components/collectionsPage.jsx:110-114 | a card gets an empty title only when the entry is the empty string |
| Collections.DefaultLabel | src/components/collectionsPage.jsx:114 | the positional title `Collection {index+1}`; characterised by `Collections.DefaultLabelsDistinct` |
| Collections.DefaultLabelsDistinct | src/components/collectionsPage.jsx:114 | positional labels at different positions differ |
| Collections.KeyedEntryTitle | src/components/collectionsPage.jsx:31-34 | a card made from a non-empty key whose value has no `name` is titled by that key |
| Collections.Keeps | src/components/collectionsPage.jsx:64 | the filter's test: an entry survives unless its `name` is the deleted name as a string |
| Collections.RemoveNamed | src/components/collectionsPage.jsx:64 | the kept entries are exactly those whose `name` is not the deleted name, and the list never grows |
| Collections.RemoveNamedAppend | src/components/collectionsPage.jsx:64 | the filter works piecewise over a concatenation, so kept entries stay in their original order |
| Collections.RemoveNamedAbsent | src/components/collectionsPage.jsx:64 | a list with no entry of that name is left unchanged |
| Collections.RemoveNamedIdempotent | src/components/collectionsPage.jsx:64 | deleting the same name twice removes nothing more |
| Collections.DeleteByTitleRemovesCard | src/components/collectionsPage.jsx:64 | deleting a key-titled card by its title removes it from the list |
| Collections.TitledByCollectionNameSurvivesDelete | src/components/collectionsPage.jsx:64-114 | any entry of any list whose `name` is falsy and whose non-empty `collection_name` titles its card stays in the list after a successful delete of that title, because the filter compares `name` only |
| Collections.HttpErrorMessage | src/components/collectionsPage.jsx:17 | the thrown message starts with "HTTP error! status: " and continues with decimal digits that read back as the status |
| Collections.FailureMessage | src/components/collectionsPage.jsx:42-67 | `err.message` of a failed fetch or delete: the HTTP message for a non-ok response, the thrown message otherwise |
| Collections.CollectionsPage.constructor | src/components/collectionsPage.jsx:6-8 | an empty list, not loading, no error |
| Collections.CollectionsPage.BeginFetch | src/components/collectionsPage.jsx:12-13 | a fetch sets loading and clears the error, and leaves the list alone |
| Collections.CollectionsPage.CompleteFetch | src/components/collectionsPage.jsx:16-46 | a settled fetch clears loading; on success the list is the normalised body; on failure the list is unchanged and the error names the HTTP status or the thrown message |
| Collections.CollectionsPage.FetchCollections | src/components/collectionsPage.jsx:11-47 | a whole fetch: loading is off afterwards; success replaces the list and leaves no error; failure keeps the list and sets the error |
| Collections.CollectionsPage.DeleteCollection | src/components/collectionsPage.jsx:50-70 | a declined confirm changes nothing; a successful delete filters the list and keeps the error; a failed delete keeps the list and sets the error; loading is never touched |
| Chat.ReplyCandidates | src/components/chatPage.jsx:208 | the five reply fields read from the body, in the order the `||` chain tries them; characterised by `Chat.ReplyPicksFirstTruthyField` |
| Chat.ReplyText | src/components/chatPage.jsx:208 | the reply shown for a successful body is never falsy |
| Chat.ReplyPicksFirstTruthyField | src/components/chatPage.jsx:208 | the reply is the first truthy of `response`, `message`, `reply`, `text`, `answer`, else "Sorry, I received an empty response." |
| Chat.NullReadMessage | src/components/chatPage.jsx:208 | the text of the TypeError raised when the body is `null` or `undefined` and `data.response` is read |
| Chat.BotText | src/components/chatPage.jsx:189-223 | every settled request yields a truthy bot text |
| Chat.ServerErrorReadsBack | src/components/chatPage.jsx:201-219 | a non-ok response is shown as "Error: Server error: {status} - {reason}", and the status and reason can be parsed back out of it |
| Chat.ChatPage.constructor | src/components/chatPage.jsx:155-157 | an empty log, empty input, not loading |
| Chat.ChatPage.EditInput | src/components/chatPage.jsx:272 | typing replaces the input and nothing else |
| Chat.ChatPage.Submit | src/components/chatPage.jsx:161-171 | a send is refused (nothing changes) when the trimmed input is empty or a send is in flight; otherwise exactly one user message with the trimmed text is appended, the input is cleared and loading is set |
| Chat.ChatPage.Receive | src/components/chatPage.jsx:173-226 | a settled request appends exactly one bot message and clears loading; users and bots keep alternating |
| Chat.ChatPage.Send | src/components/chatPage.jsx:161-227 | an accepted send appends exactly the user message then the bot message to the unchanged old log, and ends with loading off |
| Upload.UploadPage.constructor | src/components/uploadPage.jsx:6-9 | no file, progress 0, not uploading, empty status |
| Upload.UploadPage.SelectFile | src/components/uploadPage.jsx:11-15 | choosing a file stores it (or none when the dialog is cancelled), resets progress to 0 and clears the status |
| Upload.UploadPage.StartUpload | src/components/uploadPage.jsx:17-20 | with no file nothing changes; otherwise uploading is set and the status cleared |
| Upload.UploadPage.FinishUpload | src/components/uploadPage.jsx:38-65 | success gives progress 100 and "File uploaded successfully!"; failure gives progress 0 and "Upload failed: " plus the error message; uploading is off; progress stays 0 or 100 |
| Upload.UploadPage.HandleUpload | src/components/uploadPage.jsx:17-66 | a whole upload: a no-op without a file, otherwise ends not uploading with the success or failure state above |
| Upload.FailureMessage | src/components/uploadPage.jsx:50-61 | for a non-ok response the message is "Upload failed: {status} - {reason}" and parses back to that status and reason; for a throw it is the thrown message |
| Upload.FailureStatus | src/components/uploadPage.jsx:61 | the status line of a failed upload, "Upload failed: " followed by the failure message |
| Upload.ShownAsSuccess | src/components/uploadPage.jsx:116 | the colour test of the status box; characterised by `Upload.SuccessShownAsSuccess` and `Upload.FailureShownAsSuccessIff` |
| Upload.SuccessShownAsSuccess | src/components/uploadPage.jsx:57-117 | the success status is shown in the success colours |
| Upload.FailureShownAsSuccessIff | src/components/uploadPage.jsx:50-117 | a failure status is shown in the success colours exactly when the reason it carries contains "success" |
| Http.ErrorReason | src/components/chatPage.jsx:201 | the reason in a non-ok error is never empty; a non-empty detail wins; without one, a non-empty body text, else "Unknown error" |
| Text.Includes | src/components/HealthIndicator.jsx:26 | `String.prototype.includes`; characterised by `Text.IncludesIff` |
| Text.IncludesIff | src/components/HealthIndicator.jsx:26 | `includes` succeeds exactly when the pattern occurs at some position |
| Text.IncludesAfterPrefix | src/components/uploadPage.jsx:116 | a prefix without the pattern's first character does not change whether the pattern is found |
| Text.Trim | src/components/chatPage.jsx:165 | the trimmed text is a slice of the input with only white space cut off before and after it, and it neither starts nor ends with white space |
| Text.TrimEmptyIff | src/components/chatPage.jsx:163 | the trimmed input is empty exactly when every character is white space |
| Text.TrimIdempotent | src/components/chatPage.jsx:165 | trimming twice is trimming once |
| Text.NatToString | src/components/collectionsPage.jsx:114 | a number's text is non-empty, all digits, with no leading zero |
| Text.DigitsValueOfNatToString | src/components/collectionsPage.jsx:17 | reading a number's text back gives the number |
| Text.StatusLine | src/components/uploadPage.jsx:50 | the "{prefix}{status} - {reason}" line; its read-back is `Text.ParseStatusLineRoundTrip` |
| Text.ParseStatusLineRoundTrip | src/components/uploadPage.jsx:50 | a "prefix status - reason" line parses back to its status and reason |
| Json.Truthy | src/components/chatPage.jsx:208 | JavaScript truthiness: only `undefined`, `null`, `false`, `0` and `""` are falsy |
| Json.Get | src/components/collectionsPage.jsx:110-114 | property access: an object's own first binding of the key, `undefined` for a missing key or a non-null non-object (reading a property of `null` is covered under "## Left out", on the `Collections.DisplayNameFallback` line) |
| Json.Spread | src/components/collectionsPage.jsx:31-34 | `{...base, ...extra}`; characterised by `Json.LookupSpread` |
| Json.LookupSpread | src/components/collectionsPage.jsx:31-34 | after `{...base, ...extra}` a key of `extra` reads from `extra`, any other key from `base` |
| Json.OrChain | src/components/chatPage.jsx:208 | an `a || b || … || last` chain; characterised by `Json.OrChainPicksFirstTruthy` and `Json.OrChainFallsThrough` |
| Json.OrChainPicksFirstTruthy | src/components/chatPage.jsx:208 | an `||` chain yields its first truthy operand |
| Json.OrChainFallsThrough | src/components/collectionsPage.jsx:110-114 | an `||` chain whose operands are all falsy yields its last operand |

## Left out

- Network calls are not modelled: `fetch`, `FormData`, `res.text()`, `res.json()` and `JSON.parse` of error bodies. Each handler receives their net result as an `Outcome` value. The fixed base URLs and the `collection_name: "Resume"` request fields are not modelled either.
- The health check's `AbortController` and its 5000 ms timer are not modelled; a timeout arrives as a throw named `AbortError`.
- The polling timers (`setInterval` every 30000 ms and every 5000 ms) and their clean-up on unmount are timer concurrency. Overlapping requests can be expressed with the split methods, called in any interleaving; nothing in the model schedules them.
- Rendering is not modelled: styles, the pulse keyframes added to `document.head`, `scrollIntoView`, the "Loading collections..." and "Bot is typing" views, and the disabled states of buttons and inputs. The disabled states keep a user from starting a second upload or send. The model checks only the handlers' own guards (`!file` for upload; empty input or `loading` for chat).
- `window.confirm` is the `confirmed` input of `DeleteCollection`; `alert` is not modelled.
- `Date.now()` message ids, `new Date()` and the locale formatting of times are not modelled. The probe's completion time is the `now` input, an opaque number.
- `console` logging is not modelled, apart from the health check's warning test, which `Probe` reports as its `warned` result.
- `src/App.jsx` holds routing and footer composition only.
- JavaScript numbers are modelled as integers; fractions, NaN and their truthiness are not.
- `Object.keys` lists integer-like keys first, in ascending order. The model takes an object's field sequence to be in that enumeration order already: a body's fields, and so the entries made from them, come in the order `Object.keys` would list them. A field sequence in any other order stands for no JavaScript object, with one exception: an entry made by `KeyedEntry` keeps `name` first even when the spread value has integer-like keys, which JavaScript would list before it. The model only ever reads entries by property name, so no result depends on this.
- A JavaScript object never has one key twice. The model's objects may, so the lemmas that need unique keys require them (`DistinctKeys`).
- Http.Outcome: the error body's `detail` is modelled as optional text. A non-string `detail` and its conversion to text are not modelled.
- Collections.RemoveNamed: the name passed to delete is modelled as a string. A card titled by a non-string, such as a numeric `id`, is not covered.
- Collections.DisplayNameFallback: reading `.name` on a `null` list entry throws a TypeError in JavaScript. The model reads it as `undefined`; `RemoveNamed` does the same.
- Strings are sequences of Unicode code points, not UTF-16 code units, so lone surrogates cannot be represented. The patterns searched for and the white space trimmed consist of code points of the Basic Multilingual Plane, so this does not change any result.
- Chat.BotText: for a `null` success body, the TypeError message is written as V8 words it; other engines word it differently.

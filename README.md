# flavorcode, modelled in Dafny

flavorcode is an editor extension that manages "projects" and "devlogs" on the
Flavortown service (`https://flavortown.hackclub.com/api/v1`), lists a
project's devlogs in a sidebar tree and mirrors the current project to a
Discord rich-presence status. This project models three parts of it and proves
what they promise:

- **The devlog tree** (`DevlogProvider`, `devlog_provider.dfy`). It turns a
  devlog record into a tree item. The label is the first non-blank line of the
  body with `#` and `+` turned into bullets, or `Devlog <id>`. The
  description is the duration as `h h; m min; s sec`. The item opens its
  record. The module also models the whitespace-collapsing truncation
  `trimBody` and which children the tree root shows.
- **The API client and the presence session** (`ApiCalls`, `api_calls.dfy`).
  It covers which credential a call uses and which form fields a project
  create or update sends, and in which order. `URLSearchParams` is a class
  whose `Set` rewrites its pairs in place. It also covers the "no project
  set" guard that stops a devlog read before any request. The presence state
  is a `Presence` class with the `rpc`, `rpcReady` and `lastActivity` slots.
  The login retry loop uses exponential back-off. An HTTP call takes its
  response as a parameter, and its outcome records the request that would be
  sent, the settings afterwards, the error messages shown, and the value
  returned or the error thrown.
- **The workspace configuration file** (`ConfigStore`, `config_store.dfy`).
  This is `.vscode/flavorcode.config.json`, modelled as a `WorkspaceConfig`
  class holding the parsed JSON object. A key can be read or written only
  while it holds a truthy value. So no key is ever added, and a key set to
  `""` or `0` is locked from then on.

`JsString` (`js_string.dfy`) models the JavaScript string built-ins these use:
`trim` and the `\s` class, `split`/`join`, `slice(0, n)`, `includes` and the
decimal text of integers. `Outcomes` (`outcomes.dfy`) holds `Option` and
`Result` (a value or a thrown error message).

An optional field of a project create or update body is sent only when
`if (arg)` lets it through, so an empty string is dropped just like a missing
argument (src/apiCalls.ts:297-307, 369-379); `ApiCalls.EmptyAndMissingAgree`
states the consequence.

## Model

| member | source | states |
|---|---|---|
| JsString.TrimStart | src/apiCalls.ts:104 | the start-trimmed string is a suffix of the input, everything cut off is white space, and it does not start with white space |
| JsString.TrimEnd | src/apiCalls.ts:104 | the end-trimmed string is a prefix of the input, everything cut off is white space, and it does not end with white space |
| JsString.TrimStartEmpty | src/apiCalls.ts:104 | trimming the start leaves nothing exactly when the input has no character other than white space |
| JsString.Trim | src/apiCalls.ts:104 | `trim` neither starts nor ends with white space, and is empty exactly when the input has no non-white-space character |
| JsString.TrimStretch | src/apiCalls.ts:104 | (`WhitespaceAround`) `trim` is the stretch of the input that starts where the leading white space ends, character for character; everything before and after that stretch is white space |
| JsString.JoinSplit | src/devlogProvider.ts:125 | splitting on one character and joining the pieces back with it gives the original string |
| JsString.SliceTo | src/apiCalls.ts:25-26 | `slice(0, end)` is a prefix of the string; its length is `end` clamped to the string, with a negative `end` counting back from the end |
| JsString.Decimal | src/apiCalls.ts:20 | `${n}` is a non-empty run of digits without a leading zero (except `0`) that reads back as `n` |
| DevlogProvider.FormatDuration | src/devlogProvider.ts:100-113 | the label contains the hours segment (`h`) exactly when the duration is 3600 s or more |
| DevlogProvider.FormatDurationReadsBack | src/devlogProvider.ts:100-113 | reading the label back gives minutes and seconds below 60 which, with the hours, add up to the duration; the hours field is present exactly when the duration is at least 3600 s |
| DevlogProvider.SplitLines | src/devlogProvider.ts:125 | splitting on `\r?\n` gives at least one line and no line contains a line feed |
| DevlogProvider.SplitLinesPieces | src/devlogProvider.ts:125 | the lines are the pieces between the line feeds, which join back with `\n` to the body; each line before a line feed is its piece without the one carriage return the piece ends in, if any, and the last line is the last piece |
| DevlogProvider.TrimmedLines | src/devlogProvider.ts:125 | there is one trimmed line per line of the body, line i being `trim` of line i; each is free of line feeds and neither starts nor ends with white space |
| DevlogProvider.NonBlank | src/devlogProvider.ts:126 | the filter keeps only non-empty lines, all taken from the input |
| DevlogProvider.KeepsNonBlank | src/devlogProvider.ts:126 | every non-empty line is kept, in its place: the kept lines before it, then it, then the kept lines after it |
| DevlogProvider.NonBlankAppend | src/devlogProvider.ts:126 | filtering a concatenation is the concatenation of the filtered parts, so the kept lines stay in order |
| DevlogProvider.NonBlankEmpty | src/devlogProvider.ts:126-128 | the filter keeps nothing exactly when every line is empty |
| DevlogProvider.SplitHeadline | src/devlogProvider.ts:124-134 | the headline is a trimmed single line, and an empty headline comes with empty content |
| DevlogProvider.BlankBodyHeadline | src/devlogProvider.ts:128-130 | the result is an empty headline and empty content exactly when the body has no non-blank line |
| DevlogProvider.HeadlineIsFirstNonBlankLine | src/devlogProvider.ts:124-134 | the headline is the first non-empty trimmed line and the content is the later non-empty trimmed lines joined by single spaces |
| DevlogProvider.ContentIsOneLine | src/devlogProvider.ts:133 | the content contains no line feed |
| DevlogProvider.ReplaceMarkers | src/devlogProvider.ts:78 | each character is replaced by itself, or by the bullet when it is `#` or `+`; the length is kept |
| DevlogProvider.TrimHeadline | src/devlogProvider.ts:77-85 | every `#` and `+` becomes `●`, every other character is unchanged, the length is kept, and no `#` or `+` remains |
| DevlogProvider.TrimHeadlineIdempotent | src/devlogProvider.ts:77-85 | transforming a transformed headline changes nothing |
| DevlogProvider.CollapseWhitespace | src/devlogProvider.ts:88 | the result is single-spaced (every white-space character is a plain space and no two are adjacent), keeps the non-white-space characters in order, is empty exactly when the input is, and starts with white space exactly when the input does |
| DevlogProvider.Words | src/devlogProvider.ts:88 | every word is a non-empty run without white space, and a text that starts with a visible character has its leading run as first word |
| DevlogProvider.Normalize | src/devlogProvider.ts:88 | the collapsed, trimmed text is exactly the words of the body (its maximal runs without white space) joined by single spaces, and it is single-spaced with no white space at either end |
| DevlogProvider.CollapsedWords | src/devlogProvider.ts:88 | for a text that does not start with white space, collapsing and then trimming the end joins its words with single spaces |
| DevlogProvider.NormalizeSpec | src/devlogProvider.ts:88 | the collapsed, trimmed text is single-spaced, has no white space at either end, and keeps every non-white-space character in order |
| DevlogProvider.NormalizeIdempotent | src/devlogProvider.ts:88 | normalizing an already normalized text returns it unchanged |
| DevlogProvider.TrimBody | src/devlogProvider.ts:87-98 | an all-blank body gives `""`; a normalized text that fits is returned unchanged; otherwise the result ends in `...` and, for a limit of at least 3, is no longer than the limit |
| DevlogProvider.TrimBodyTruncates | src/devlogProvider.ts:95-97 | a text over the limit (at least 3) becomes exactly `maxLength` characters: a prefix of the normalized text followed by `...` |
| DevlogProvider.ToTreeItem | src/devlogProvider.ts:55-75 | the label is non-empty, free of `#`/`+`, and is the transformed headline or `Devlog <id>`; tooltip equals label; description is the formatted duration; the item holds the record and its command opens exactly that record |
| DevlogProvider.TreeItemLabel | src/devlogProvider.ts:55-63 | the label is the transformed headline when the body has a non-blank line and `Devlog <id>` when it has none |
| DevlogProvider.GetChildren | src/devlogProvider.ts:34-53 | no children below an item; at the root, no items for a missing response or a missing `devlogs` field; no items plus a shown error when loading threw; otherwise one item per record, in the same order |
| DevlogProvider.ChildOpensItsRecord | src/devlogProvider.ts:68-72 | the item at position i opens the record at position i |
| DevlogProvider.RootWithoutProject | src/devlogProvider.ts:39-46 | with a stored key but no selected project, no request is sent, the setup message is shown, and the tree is empty with no load error |
| DevlogProvider.RootWithoutKey | src/devlogProvider.ts:39-52 | without a stored key no request is sent and the tree shows the missing-key error as a load failure |
| DevlogProvider.RootListsDevlogs | src/devlogProvider.ts:39-48 | with a key, a selected project and an ok response, the tree shows one item per devlog in order |
| ApiCalls.ResolveApiKey | src/apiCalls.ts:90-108 | a given key with non-white-space content is used untrimmed; otherwise the stored key; the call fails with the "api key not set" error exactly when neither exists; a resolved key is never empty |
| ApiCalls.GetApiKeyFromSettings | src/apiCalls.ts:89-99 | the stored key is returned exactly when it is set and not empty; otherwise the call throws the "api key not set" error |
| ApiCalls.GivenKeyWins | src/apiCalls.ts:103-108 | with a given key that has content, the stored setting does not matter |
| ApiCalls.SearchParams.constructor | src/apiCalls.ts:293-296 | the params start with title then description |
| ApiCalls.SearchParams.Set | src/apiCalls.ts:297-307 | `set` replaces the first pair with the name, drops later ones, or appends when there is none |
| ApiCalls.SetEntry | src/apiCalls.ts:297-307 | after `set` the name reads as the new value, and a name not yet present is appended as a new last pair |
| ApiCalls.SetEntryLookup | src/apiCalls.ts:297-307 | after `set`, reading the name gives the new value and every other name reads as before |
| ApiCalls.LookupDistinct | src/apiCalls.ts:293-308 | when no name occurs twice, reading a name gives the value of the pair that has it |
| ApiCalls.KeepDistinct | src/apiCalls.ts:293-308 | keeping some names of a field order with no repeats gives a list with no repeats that holds exactly the names whose flag is set |
| ApiCalls.CreateBody | src/apiCalls.ts:293-308 | the create body starts with title then description, has at most five pairs, and every optional pair after those two has a non-empty value |
| ApiCalls.UpdateBody | src/apiCalls.ts:365-380 | the update body starts with title then description, has at most five pairs, and every optional pair after those two has a non-empty value |
| ApiCalls.CreateBodyOrder | src/apiCalls.ts:293-308 | the create body's names are title, description, demo_url, ai_declaration, repo_url with the omitted fields left out, so none appears twice |
| ApiCalls.CreateBodyValues | src/apiCalls.ts:293-308 | title and description are always sent; each optional field is sent, with its value, exactly when its argument is a non-empty string |
| ApiCalls.UpdateBodyOrder | src/apiCalls.ts:365-380 | the update body's names are title, description, repo_url, demo_url, ai_declaration with the omitted fields left out, so none appears twice |
| ApiCalls.UpdateBodyValues | src/apiCalls.ts:365-380 | title and description are always sent; each optional field is sent, with its value, exactly when its argument is a non-empty string |
| ApiCalls.EmptyAndMissingAgree | src/apiCalls.ts:297-307 | an empty-string argument sends the same body as an absent one |
| ApiCalls.BuildCreateBody | src/apiCalls.ts:293-308 | building the create body through successive `set` calls gives the create body |
| ApiCalls.BuildUpdateBody | src/apiCalls.ts:365-380 | building the update body through successive `set` calls gives the update body |
| ApiCalls.CreateProjectCall | src/apiCalls.ts:267-337 | a POST to `/projects` with the create body is sent exactly when a key resolves; the stored project id changes only when `setAsCurrent` holds and the response was ok, and then becomes the new id; the key setting never changes; a non-ok response shows a failure and throws |
| ApiCalls.CreateProject | src/apiCalls.ts:320-327 | as written, a request answered with a non-ok response shows `Failed to create Project: <status> <text>` and throws the error of the second body read |
| ApiCalls.CreateProjectIntended | src/apiCalls.ts:320-327 | as intended, a request answered with a non-ok response shows the failure and throws exactly the message it showed |
| ApiCalls.CreateFailureLosesMessage | src/apiCalls.ts:320-327 | as written, a non-ok response shows `Failed to create Project: <status> <text>` but throws a different error, from reading the body a second time |
| ApiCalls.CreateFailureReported | src/apiCalls.ts:320-327 | as intended, a non-ok response throws exactly the failure it shows and leaves the settings alone |
| ApiCalls.UpdateProject | src/apiCalls.ts:340-402 | a PATCH of `/projects/<id>` with the update body is sent exactly when a key resolves; the settings never change; the call succeeds exactly when the response is ok; a non-ok response throws `Failed to update Project: <status> <text>`, and an unresolved key throws the "api key not set" error |
| ApiCalls.GetProjectDevlogs | src/apiCalls.ts:410-487 | a GET of `/projects/<projectId>/devlogs` is sent exactly when a key resolves and a project (id set and not 0) is selected; with a key but no project the setup message is shown and `undefined` returned; a returned value is the response's payload; a non-ok response throws `Failed to get devlogs: <status> <text>` and an unresolved key the "api key not set" error, neither showing a message |
| ApiCalls.GetDevlog | src/apiCalls.ts:489-547 | a GET of `/devlogs/<id>` is sent exactly when a key resolves and a project is selected; with a key but no project the setup message is shown and `undefined` returned; a returned value is the response's payload; a non-ok response throws `Failed to get devlogs: <status> <text>` and an unresolved key the "api key not set" error, neither showing a message |
| ApiCalls.Payload | src/apiCalls.ts:18-29 | the status reads `Working on: <title>` and `Devlogs so far: <count>` with the Flavortown image; its one button is labelled `To the Project` (at most 32 characters) and links to the project page address cut to 512 characters: a prefix of it of length min(length, 512), all of it when that fits |
| ApiCalls.Presence.constructor | src/apiCalls.ts:6-8 | the session starts with no client, not ready, and no activity |
| ApiCalls.Presence.UpdateActivity | src/apiCalls.ts:10-32 | a status is sent only when there is a client, it is ready and an activity is stored, and then it is the payload of that activity |
| ApiCalls.Presence.Connect | src/apiCalls.ts:34-72 | the stored activity is always overwritten; a client is created only when none exists; otherwise the status is updated |
| ApiCalls.Presence.OnReady | src/apiCalls.ts:42-46 | the ready event marks the session ready and sends the stored activity when there is a client |
| ApiCalls.Presence.Disconnect | src/apiCalls.ts:74-87 | without a client nothing changes; otherwise client, ready flag and activity are cleared even when teardown throws, and the throw is passed on |
| ApiCalls.LoginAttempts | src/apiCalls.ts:50-67 | at most 6 login attempts are made, with one delay between each two |
| ApiCalls.LoginDelays | src/apiCalls.ts:56-58 | (`ScheduledFrom`) the delay after the attempt with retry count r is min(1000·2^r, 10000) ms |
| ApiCalls.LoginRetried | src/apiCalls.ts:56-60 | every attempt but the last failed with a message containing `RPC_CONNECTION_TIMEOUT` while the retry count was below 5 |
| ApiCalls.LoginEnds | src/apiCalls.ts:53-64 | (`EndsWithLast`) at least one attempt is made; no error is shown when the last attempt succeeded; otherwise its message is shown with the `Flavortown discord richpresence: ` prefix |
| ApiCalls.LoginStopsWithoutRetry | src/apiCalls.ts:56-64 | (`StopsWithoutRetry`) a run stops at a failed attempt only when that failure calls for no retry: its message lacks `RPC_CONNECTION_TIMEOUT` or five retries were made |
| ApiCalls.LoginFrom | src/apiCalls.ts:52-65 | at least one attempt is made, and an error shown carries the `Flavortown discord richpresence: ` prefix |
| ApiCalls.RetryDelay | src/apiCalls.ts:57 | the delay is the smaller of 1000·2^retry and 10000 ms, and at least 1000 ms |
| ApiCalls.ShouldRetryExamples | src/apiCalls.ts:56 | a timeout message is retried at retry count 4 but not 5, and a message without the timeout code is not retried |
| ApiCalls.RetryDelaySchedule | src/apiCalls.ts:57 | the delays are 1000, 2000, 4000, 8000 and 10000 ms |
| ApiCalls.PersistentTimeouts | src/apiCalls.ts:50-67 | endless timeouts give delays 1000, 2000, 4000, 8000, 10000, six attempts, and the sixth failure shown |
| ApiCalls.Login | src/apiCalls.ts:52-67 | the retry loop makes exactly the attempts, delays and final report of the recursive login |
| ConfigStore.Source | src/utils/settings.ts:16-44 | the config read is the workspace file when it exists, otherwise the template |
| ConfigStore.Get | src/utils/settings.ts:48-55 | a read succeeds exactly when the key is present with a truthy value, and returns that value; otherwise it fails with `Unable to get <key>: not in config` |
| ConfigStore.Put | src/utils/settings.ts:66-71 | a write succeeds exactly when the key is present with a truthy value; it then sets that key only, keeping the set of keys; otherwise it fails with `Unable to set <key>: not in config` |
| ConfigStore.PutThenGet | src/utils/settings.ts:51-71 | a truthy value written to a key reads back |
| ConfigStore.FalsyValueLocksKey | src/utils/settings.ts:51-70 | after writing a falsy value (`""`, `0`), both reading and writing that key fail |
| ConfigStore.PutKeepsOtherReads | src/utils/settings.ts:71-77 | a write to one key does not change what any other key reads |
| ConfigStore.PutAllKeepsKeys | src/utils/settings.ts:68-71 | no sequence of writes adds or removes a key |
| ConfigStore.WorkspaceConfig.InitConfigJson | src/utils/settings.ts:9-45 | without a folder, `No folder open`; an existing file is read unchanged; a missing one is created from the template, never overwriting |
| ConfigStore.WorkspaceConfig.GetConfig | src/utils/settings.ts:48-55 | the result is the guarded read of the file's object (or template), and the file exists afterwards |
| ConfigStore.WorkspaceConfig.SetConfig | src/utils/settings.ts:58-78 | without a folder, `No folder open` and nothing written; otherwise the file is rewritten with the key replaced exactly when the guarded write succeeds, and left as initialised when it fails |

## Findings

| source | as written | input that shows it | evidently intended | confidence | as-written member | corrected member |
|---|---|---|---|---|---|---|
| src/apiCalls.ts:320-327 | the failure text is built twice, each time with `await res.text()`; the second read of an already consumed body rejects, so the thrown error is the runtime's "body unusable" `TypeError` | any create request answered with `ok` false, e.g. status 422 | throw `Error("Failed to create Project: <status> <text>")`, the message just shown | not executed | ApiCalls.CreateFailureLosesMessage | ApiCalls.CreateFailureReported |

## Left out

- DevlogProvider.TrimBody: lengths and `slice` count Unicode code points (a Dafny `char`), whereas JavaScript's `length` and `slice` count UTF-16 code units. A text with characters outside the Basic Multilingual Plane, such as emoji, is measured and cut differently, and JavaScript can cut such a character in half.
- DevlogProvider.TrimBodyTruncates: the exact length `maxLength` is in code points, for the same reason.
- ApiCalls.Payload: the 32- and 512-character limits on the button label and link count code points, not UTF-16 code units, for the same reason.
- JsString.SliceTo: `slice(0, end)` counts code points, not UTF-16 code units.

- Network I/O: `fetch`, HTTP status handling beyond `ok`, and JSON decoding of responses. A response is a parameter, and a decoded payload is taken as given.
- `getUserSelf`, `getAllUsers`, `getProject` and `getAllProjects` (src/apiCalls.ts:112-265). They are plain authenticated GETs whose only logic is the key resolution modelled in `ResolveApiKey`. `createDevlog` has an empty body.
- src/commands.ts, src/extension.ts, the webview providers, src/context.ts and src/webviews/*.ts. These are command wiring, UI prompts, HTML templates and host plumbing, and they are not part of this model.
- `formatDate` (src/devlogProvider.ts:115-122). It depends on host date parsing and locale formatting.
- `refresh` and `getTreeItem` (src/devlogProvider.ts:26-32). They fire a host event or return their argument.
- Information messages and `console.log` output. Only error messages shown to the user are recorded.
- The Discord library: IPC transport, `RPC.register` beyond recording the call, and real time. `setTimeout` is modelled by the delays it is given. A login attempt's outcome is a parameter.
- ApiCalls.Presence.Disconnect: `clearActivity` and `destroy` are not awaited, so only a synchronous throw is modelled. A rejected promise does not reach the caller.
- ApiCalls.Login: the login run is modelled on its own. A `disconnectDiscordGateway` between retries, which turns later `rpc?.login` calls into no-ops, is not modelled.
- ApiCalls.CreateProjectCall: `config.update("projectId", …)` is not awaited. The model applies it at once and does not model a failure of that write.
- ApiCalls.BodyAlreadyRead: the exact text of the error raised by a second body read differs between runtimes. The model uses one fixed text.
- DevlogProvider.FormatDuration: durations are natural numbers. Fractional or negative seconds and JavaScript floating-point `Math.floor`/`%` are not modelled.
- ApiCalls.HostSettings: `projectId` is an integer. A non-integer stored id is not modelled.
- JsString.Decimal: `${n}` is modelled for integers only. Exponent notation for numbers of 1e21 or more is not modelled.
- ConfigStore.Json: numbers are integers, and arrays and objects are kept only as truthy text. Malformed JSON in the workspace file and inherited prototype keys such as `constructor` (truthy through the object prototype) are not modelled.
- ConfigStore.WorkspaceConfig.InitConfigJson: file access errors other than "file missing" are not modelled, and neither is a template copy that fails. The file order of keys is not modelled either, since the object is a map.

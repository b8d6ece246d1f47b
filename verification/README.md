# Commit-message assistant: decision logic

This project models the decision logic of a VS Code extension that helps with
commits. The extension does four things:

- It asks a backend for a commit message written from the staged diff.
- It commits, or commits and pushes, or stages everything and commits, through the VS Code Git extension.
- It asks for a review of the open file.
- It drives a small panel (a webview) holding a message box, a generate button, an action dropdown and a commit button.

Every handler is a pure function. Its inputs are the outcomes of the calls it makes:

- `execSync` output or the error it threw;
- whether the Git extension is there and active, and what its repository calls did;
- how `fetch` settled: a transport failure, or a status with a parsed body.

Its result is the ordered trace of what it did. A trace records:

- processes run;
- Git extension calls;
- messages posted to the panel;
- notifications shown, with their severity;
- requests sent.

Lemmas over these traces state the properties.

Modules:

- `Results`: `Option`, `Result`, `Outcome`.
- `JsText`: the JavaScript string operations the code uses:
  - `trim` over ECMAScript whitespace;
  - `split('\n').filter(Boolean)`;
  - decimal rendering of a status.
- `Effects`: the effect vocabulary and the filters over traces (`Posts`, `Notices`, `GitCalls`, `Sends`).
- `Services`: `src/services/index.ts`, the three backend calls.
- `Helpers`: `src/helpers.ts`, covering:
  - the backend URL;
  - the nonce;
  - the staged-diff lookup;
  - the working-tree diff.
- `Extension`: `src/extension.ts`, covering:
  - the generate-message command;
  - the commit-action command;
  - the code-review command;
  - the routing of panel messages.
- `Webview`: `media/index.js`, the panel's state machine.
- `Session`: the panel and the extension together. A user event leads to the routed command, and that command's posts are applied back to the panel.

## Model

| member | source | states |
|---|---|---|
| JsText.Trim | media/index.js:23 | The result is never longer than the input, and it is empty exactly when the input is blank. |
| JsText.TrimShape | media/index.js:23 | The result is the part of the input between its leading and trailing whitespace. Both cut-off parts are blank, and a non-empty result neither starts nor ends with whitespace. |
| JsText.TrimCharacterised | media/index.js:23 | Any cut of a string into a blank prefix, a core that starts and ends with non-whitespace, and a blank suffix has that core as its trim. |
| JsText.TrimIdempotent | src/extension.ts:40 | Trimming an already trimmed diff changes nothing. |
| JsText.SplitThenJoin | src/helpers.ts:65 | Joining the pieces of a split on a separator gives back the original string. |
| JsText.JoinThenSplit | src/helpers.ts:65 | Splitting the join of separator-free pieces gives back those pieces. |
| JsText.NonEmpty | src/helpers.ts:65 | `filter(Boolean)` keeps exactly the non-empty strings, and nothing else. |
| JsText.NonEmptySingle | src/helpers.ts:65 | `filter(Boolean)` drops an empty string and keeps a non-empty one. |
| JsText.NonEmptyAppend | src/helpers.ts:65 | The filter of two lists in a row is the filter of the first followed by the filter of the second. With the case for one string, this fixes the kept strings' order and their repetitions. |
| JsText.Lines | src/helpers.ts:65 | Every listed untracked name is non-empty and contains no newline. |
| JsText.LinesOfJoin | src/helpers.ts:65 | A listing written as newline-free names joined by newlines reads back as exactly its non-empty names, in listing order. |
| JsText.NatToString | src/services/index.ts:35 | A status renders as a non-empty string of decimal digits with no leading zero. |
| JsText.DecimalRoundTrip | src/services/index.ts:35 | Reading the rendered digits back gives the status. |
| Services.MessageRequest | src/services/index.ts:18-32 | The commit-message request goes to the given URL with header `Authorization: Bearer <token>` and JSON content type. Its body has exactly the keys diff, prompt, model, format, commitType, maxLength and apiKey, in that order, and maxLength carries `length`. |
| Services.FetchMessage | src/services/index.ts:34-41 | A transport failure, a non-ok status, an unparsable body and a `null` body each become a thrown "Fetch failed: ..." error, and a non-ok status yields exactly "Fetch failed: Error: HTTP error! status: N". An ok status with an object or array body succeeds. A non-empty `message` is returned unchanged, otherwise 'Default commit message', so a success is never empty. |
| Services.FetchMessageReportsStatus | src/services/index.ts:34-36 | The status can be read back from the decimal digits at the end of the error text. |
| Services.ModelsRequest | src/services/index.ts:47-56 | The models request carries the bearer header and a body whose only key is apiKey. |
| Services.FetchOpenAiModels | src/services/index.ts:57-64 | Failures become "Failed to fetch OpenAI models: ..." and a non-ok status is reported with its number. An ok status returns the parsed body, and a `null` body returns the fixed three-model list instead. |
| Services.ReviewRequest | src/services/index.ts:77-88 | The review request carries the bearer header and a body with exactly the keys diff, model and apiKey. |
| Services.FetchCodeReview | src/services/index.ts:89-105 | It succeeds exactly on an ok status with a non-empty `message`. An ok body without one throws "...: Error: No review message returned from the server.". A success is a non-empty prefix of the message, at most 10000 characters long. It equals the message exactly when the message fits, and is exactly the first 10000 characters when it does not. Exactly one truncation warning is shown exactly when the message was cut. |
| Helpers.GetBackendUrl | src/helpers.ts:25-33 | An empty end point is refused first. Then an empty or missing base URL is refused. Otherwise the result is the base URL followed by the end point: the base is its prefix and the end point its suffix. |
| Helpers.Pick | src/helpers.ts:16 | `floor(r * 62)` for r in [0, 1) is a valid index into the 62-character alphabet. |
| Helpers.AlphabetIsAlphanumeric | src/helpers.ts:14 | The alphabet has 62 characters and holds exactly the ASCII letters and digits. |
| Helpers.GetNonce | src/helpers.ts:12-19 | The nonce has exactly 32 characters. The k-th one is the alphabet character the k-th random draw picks, so every one is a letter or digit. |
| Helpers.GetStagedDiffOrShowError | src/helpers.ts:36-52 | With no folder it returns nothing, shows one error and runs no git. Otherwise it runs `git diff --staged` once in the first folder. A failure propagates. A blank diff returns nothing and shows one warning. Otherwise it returns the folder and a non-blank diff. |
| Helpers.NewFileBlocksAppend | src/helpers.ts:67-73 | The new-file blocks of consecutive parts of the listing are concatenated in listing order. |
| Helpers.GetDiffFromWorkSpace | src/helpers.ts:55-93 | With no folder, or when the listing or a file read fails, it returns '' with the matching error or warning. Otherwise the result is the trimmed text made of one block per existing untracked file in listing order, then the `git diff` output. It returns '' with one warning exactly when that text is blank. A non-empty result is never blank and is its own trim. |
| Helpers.CollectNewFiles | src/helpers.ts:67-73 | The loop over the listing reports the error of the first file that exists but cannot be read. When there is none, it returns one block per existing file, in listing order. |
| Helpers.FailureStops | src/helpers.ts:67-91 | The first unreadable file met while walking the listing is the one whose error is reported. |
| Extension.GenerateRunEffects | src/extension.ts:16-57 | One run posts `startLoading` first. It posts `updateInput` with the backend text exactly when the diff was usable and the backend answered. It posts `stopLoading` after a usable diff or a failing `git diff`; after the two early returns it posts it only in the corrected variant. It sends exactly one request, carrying the trimmed diff, exactly when the diff was usable. It shows no notification exactly when a message was produced. |
| Extension.LookupEffects | src/extension.ts:35-38 | The lookup part of a run posts nothing and sends nothing. It notifies exactly on the two early returns. |
| Extension.PhaseEffects | src/extension.ts:48-56 | Once the backend is called, exactly one request is sent. `updateInput` follows only on success and an error notice only on failure, and `stopLoading` is posted in both cases. |
| Extension.GenerateUsableEffects | src/extension.ts:40-56 | With a usable diff the posts are `startLoading`, then `updateInput` on success, then `stopLoading`. The request carries the trimmed diff. |
| Extension.GenerateGitFailedEffects | src/extension.ts:42-46 | A failing `git diff` posts `startLoading` and `stopLoading` and shows "Failed to get Git diff: ...". It sends no request. |
| Extension.GenerateEarlyEffects | src/extension.ts:35-38 | On the early returns a notification is shown and no request is sent. The posts are `startLoading` alone. |
| Extension.GenerateMessage | src/extension.ts:16-57 | The posts of the command as written are bracketed by `startLoading` and `stopLoading` exactly when the diff was usable or `git diff` failed. |
| Extension.GenerateLeavesLoading | src/extension.ts:35-38 | With no folder or a blank diff, the only post of the command as written is `startLoading`. |
| Extension.GenerateLeavesLoadingExample | src/extension.ts:36-37 | A concrete input with no folder open never posts `stopLoading`. |
| Extension.GenerateMessageFixed | src/extension.ts:16-57 | With `stopLoading` also posted on the early returns, every run's posts are bracketed. `updateInput` arrives exactly when there is backend text, and carries that text. |
| Extension.GenerateFixedPostsOnly | src/extension.ts:16-57 | The corrected command posts only `startLoading`, `stopLoading` and `updateInput`, never a commit loading message. |
| Extension.GenerateFixedExtends | src/extension.ts:36-37 | The correction differs from the original only on the early returns, where it appends `stopLoading`. |
| Extension.PreCheck | src/extension.ts:97-128 | The checks before the switch all pass exactly when git runs, the extension exists and activates, a repository exists, and its status, state and staged list can be read. |
| Extension.Execute | src/extension.ts:130-168 | The switch makes at most three effects. Nothing is thrown exactly when the chosen action finds staged changes and the commit succeeds. |
| Extension.ExecuteShape | src/extension.ts:130-168 | The switch only calls Git and notifies. A notification comes only as its last effect, and exactly when nothing was thrown. It commits exactly when the action finds staged changes, and only the given message. |
| Extension.ScmSteps | src/extension.ts:96-168 | The `try` block always starts with `git --version`. When a check fails, it throws what that first failing check throws. It throws nothing exactly when every check passes, the action finds staged changes and the commit succeeds. |
| Extension.ScmStepsEffects | src/extension.ts:96-168 | The `try` block posts nothing and sends nothing. Its one notification comes last, exactly when nothing was thrown. |
| Extension.ScmStepsCommits | src/extension.ts:96-168 | The `try` block commits exactly when every check passes and the action finds staged changes, and only the given message. When a check fails it makes no Git call other than activation and `status`. |
| Extension.CommitAction | src/extension.ts:85-175 | Without an action or a message the only effect is the error "No commit action or message provided.". Otherwise `git --version` runs first. With a panel it comes right after `startCommitLoading`, and the last effect is `stopCommitLoading`. |
| Extension.CommitActionEffects | src/extension.ts:91-174 | Every path shows exactly one notification and sends no request. With a valid request and a panel, the posts are exactly `startCommitLoading` then `stopCommitLoading`. |
| Extension.CommitActionCommits | src/extension.ts:130-161 | A commit happens exactly when the request is valid, every check passes and the action's staged-change test passes, and it carries the given message. |
| Extension.CommitActionStopsAtFirstFailure | src/extension.ts:97-128 | The first failing check ends the request with exactly one "SCM action failed: ..." error naming it. No commit, push or add is made. |
| Extension.CommitActionRejectsUnknown | src/extension.ts:162-163 | After the checks, an unknown action is rejected by name with no Git call beyond the setup. |
| Extension.CommitActionTally | src/extension.ts:91-174 | With a valid request, the notifications are those of the `try` block followed by its failure report. The Git calls are exactly those of the block. |
| Extension.ReadyActionTally | src/extension.ts:96-174 | Once the checks pass, the notifications are the switch's plus its failure report. The Git calls are activation if needed, `status`, then the switch's. |
| Extension.CommitOnlySwitch | src/extension.ts:131-138 | The `commit` case makes no Git call without staged entries. Otherwise it commits once, and notifies "Changes committed." or reports the commit's error. |
| Extension.CommitAndPushSwitch | src/extension.ts:139-152 | The `commitAndPush` case commits only when the repository's staged list is non-empty. After a successful commit it pushes, then reports success, or warns with the push error. |
| Extension.CommitAllSwitch | src/extension.ts:153-161 | The `commitAll` case always calls `add(['.'])` first. It commits only when the staged list is non-empty afterwards. |
| Extension.CommitOnlyOutcome | src/extension.ts:131-138 | `commit` with zero staged entries in the state throws "No staged changes found..." and never commits. Otherwise it commits the message once, then shows "Changes committed.", or reports what the commit threw. |
| Extension.CommitAndPushOutcome | src/extension.ts:139-152 | `commitAndPush` checks the repository's own staged list. After a successful commit it always pushes. A failing push gives a warning with the push error and no error notice, and nothing is undone. |
| Extension.CommitAllOutcome | src/extension.ts:153-161 | `commitAll` calls `add(['.'])` before any check. It commits only if the staged list is non-empty afterwards, otherwise it throws "No changes to commit...". |
| Extension.CodeReviewRequest | src/extension.ts:248-255 | The review request's body has the code as its only field. |
| Extension.GetCodeReview | src/extension.ts:178-192 | With no editor the only effect is the "No active editor found..." error. Otherwise the request goes out first. |
| Extension.GetCodeReviewEffects | src/extension.ts:181-191 | Exactly one notification on every path and no panel message. The request is sent exactly when an editor is open. The review is shown when it arrives, "Failed to fetch code review: ..." otherwise. |
| Extension.Route | src/extension.ts:353-366 | Each of the four known message types starts its own command: `generateMessage` exactly the generate command, `getCodeReview` exactly the review, `commitAction` exactly the commit action, `showError` exactly an error notice. A commit request passes on exactly the action and message fields. Any other type is ignored. |
| Webview.CommitClick | media/index.js:21-30 | A commit click posts `commitAction` with the trimmed text exactly when an action is chosen and the text is not blank. It alerts exactly when the text is blank. Otherwise it does nothing. |
| Webview.OnEvent | media/index.js:11-35 | The dropdown disables the commit button exactly when the choice is empty. Editing changes only the text. The generate and review clicks each post one message of their type. Clicks on disabled buttons do nothing. |
| Webview.SentMessagesRoute | media/index.js:21-30 | Every message the panel posts is routed to the command it names. A commit request from the panel always passes the extension's own action-and-message check. |
| Webview.Receive | media/index.js:37-72 | `updateInput` sets the text and makes it editable. The two generate messages disable and then re-enable the generate button unconditionally. `stopCommitLoading` sets the commit button to "no action chosen". Unknown messages change nothing. |
| Webview.BracketedGenerateEnds | media/index.js:47-58 | Posts bracketed by `startLoading` and `stopLoading` leave the generate button enabled. |
| Webview.BracketedCommitEnds | media/index.js:59-70 | Posts bracketed by the commit loading messages leave the commit button disabled exactly when no action is chosen. |
| Session.GenerateCycleIdle | media/index.js:47-58 | With the corrected generate command, a generate click returns an idle panel to idle. |
| Session.GenerateHost | media/index.js:11-14 | A click on the enabled generate button runs the generate command, and its posts are applied to the panel. |
| Session.CommitHost | media/index.js:21-30 | A commit click that passes the panel's guard runs the commit action with the chosen action and the trimmed text. |
| Session.CommitIgnored | media/index.js:21-30 | A commit click that fails the guard reaches no command and leaves the panel unchanged. |
| Session.CommitCycleIdle | media/index.js:59-70 | A commit click returns an idle panel to idle, whatever Git does. |
| Session.CyclePreservesIdle | media/index.js:11-72 | With the corrected generate command, every user event returns an idle panel to idle once the extension is done. |
| Session.RunStaysIdle | media/index.js:11-72 | With the corrected generate command, any sequence of events keeps an idle panel idle. |
| Session.InitialStaysIdle | src/extension.ts:434 | The page starts idle, with the commit button disabled. With the corrected generate command, every reachable panel is therefore idle. |
| Session.AsWrittenGenerateSticks | src/extension.ts:36-37 | With the command as written, a generate click with no folder open leaves the generate button disabled, and later clicks on it send nothing. |

"Idle" means that the generate button is enabled, and that the commit button is
enabled exactly when an action is chosen.

## Left out

Collaborators and runtime (their outcomes are parameters of the model):

- `execSync`, `exec`, `existsSync`, `readFile`, `fetch`, `https.request` and the Git extension API are not modelled.
- Configuration reads are not modelled. The settings are one record.
- The 3-second `setTimeout` at src/extension.ts:19, console logging, command and view registration, the HTML template and its CSP, and CSS classes and button captions are left out. None of them decides anything.
- Asynchrony is left out. Each command runs to completion before the next user event, so overlapping commands are not modelled.
- The mock review parsing inside the extension's local `fetchCodeReview` (src/extension.ts:246-274) is callback-driven network code. The command receives its settled value, a review text or the rejection message.
- The request's `Content-Length` header is left out. It is the UTF-8 byte length of the body.

Encodings and values:

- Strings are sequences of code points. JavaScript lengths count UTF-16 units, so `substring(0, 10000)` and the 10000 cap differ for text outside the Basic Multilingual Plane.
- `Math.random()` is a real in [0, 1), not a double.
- A parsed response body is one of: unparsable, `null`, an object with or without a string `message`, or an array of strings. Other JSON values and non-string `message` fields are left out.
- An error value is given by its rendering: what `${error}` prints, or its message where the code takes `.message`.
- `showErrorMessage(message.value)` with an absent `value` is left out. An absent field reads as "".

Handlers not modelled separately:

- The copies of `fetchMessage` and `getStagedDiffOrShowError` inside src/extension.ts (lines 206-243 and 320-336) are not modelled separately. They agree with the services and helpers versions, except that the extension's copy appends `/commit-messages` to the base URL itself and returns `null` rather than `undefined`. The model uses one definition of each.
- The extension's own copy of `getDiffFromWorkSpace` (src/extension.ts:277-318) differs from the helpers version only in the text of its warning. It is unused, so only the helpers version is modelled.
- src/draft/ and src/constants.ts are not part of this model.
- The extension's own `getNonce` (src/extension.ts:444-451) is the same as the helpers one and is not modelled separately.

Modelling choices:

- Extension.Repository: the staged lists read at src/extension.ts:141 and 156 come from the repository object, not its state. They are kept as separate inputs, as the code reads them. The Git API's own typings are not part of this model.
- `!state.indexChanges` at src/extension.ts:133 cannot be true there. Line 128 already threw on an absent list.
- Webview.OnEvent: choosing a non-empty action while a commit is running re-enables the commit button. The code does this, and the model keeps it.
- Helpers.GetBackendUrl: an `endPoint` of `undefined` would render as "Endpoint undefined invalid."; the model takes a string, so the message is "Endpoint  invalid.".

## Findings

| source | as written | input that shows it | evidently intended | confidence | as-written member | corrected member |
|---|---|---|---|---|---|---|
| src/extension.ts:36-37 | The generate command posts `startLoading`. When no workspace folder is open or the staged diff is blank, it then returns without posting `stopLoading`. | No workspace folder open (or nothing staged). The only panel message is `startLoading`, so the generate button stays disabled and later clicks send nothing. | Every run ends its loading state, as the `catch` and `finally` paths do. | high; not executed | Extension.GenerateLeavesLoading | Extension.GenerateMessageFixed |

`Extension.GenerateLeavesLoadingExample` and `Session.AsWrittenGenerateSticks` exhibit the same input. `Session` composes the panel with the corrected command.

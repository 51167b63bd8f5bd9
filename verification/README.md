# AMC Genesis business pipeline — a Dafny model

AMC Genesis turns a one-line business idea into a generated business. The idea goes
through six generation stages: Strategy blueprint, Brand kit, Structure schema,
Asset generation, AI Agent profile and Build + Validate. Each stage is billed to a
token ledger. A validated version has its source files stored, and it can then be
deployed as a Cloud Run service. This project models the core of that flow and
proves properties of it:

- the server's version routes (`server.ts`): authentication with admin-role sync,
  the ownership guard, business creation, stage generation with bounded retry, the
  validation rewrite and ledger accounting, deployment, build status, file
  persistence and version reads;
- the artifact path and content-type rules of the upload helper (`storage.ts`);
- the browser driver (`App.tsx`): the bounded log, default-workspace selection, the
  stage loop of `runPipeline` with its persistence gate, and `startNewProject`;
- the progress strip (`components/PipelineStatus.tsx`);
- the deployment panel's polling state machine (`components/DeploymentPanel.tsx`).

Every route is a pure function from the store before a request to its answer and
the store after it. The store holds one map per Firestore collection and the ledger
as a sequence. The outside world comes in as parameters:

- the generative provider (`nat -> Attempt`, how the k-th call goes);
- OAuth token verification;
- the Cloud Build submission and its status;
- the settings document;
- document ids and timestamps;
- on the client, each server call's outcome.

Modules follow the source. `Values` and `Strings` hold the JavaScript value and
string semantics the code relies on: truthiness, `includes`, `trim`, `split`,
`toLowerCase`, `slice`. `Stages` and `Records` hold the data model of `types.ts`.
`Ownership`, `Retry`, `StageRules`, `Ledger`, `Auth` and `Server` follow
`server.ts`. `Storage` follows `storage.ts`, and `Client`, `PipelineStatus` and
`DeploymentPanel` follow the front end.

Behaviours of the code worth noting:

- After a stage, the version's `stage` field holds the stage just executed. It is
  not advanced to the next stage.
- The ledger entry is written before the user's counters are updated. When the
  user document is missing, the counter update throws and the route answers 500.
  The version update and the ledger entry stay written.
- The deploy route consults neither `isValidated` nor `filesStored`. Only the
  client hides the panel.
- The status route forwards the build service's status only. It never updates the
  stored build record and never returns a service URL, so the panel can show one
  only if the record already had one.
- The response schema's required fields are not enforced: whatever object the
  provider returns is stored.
- Deployment records are keyed by version id, so a redeploy replaces the record.
  The earlier build id then answers 404.
- A build whose id is missing makes the first store write fail, because the store
  refuses an undefined field. Nothing is written and the route answers 500
  "Build failed".
- The panel keeps polling only while the status is WORKING or QUEUED. Any other
  status stops it, not only SUCCESS and FAILURE.
- `generateStage` never checks `businessId`. A stage name outside the field table
  is written under the key `undefined`, except a name every object inherits
  (`toString`, `constructor`, `__proto__` and the other `Object.prototype`
  members). For those, the table lookup finds the inherited member, and the key
  becomes its string form, such as `function toString() { [native code] }` or
  `[object Object]`. Firestore refuses a field path containing `[` or `]`. So for
  these names the real update throws, and the route answers 500 "AI Pipeline
  Failure" with neither the version update nor the ledger entry written.
- A token without a `name` or `picture` claim cannot be written to the users
  collection, because the store refuses an undefined field; the middleware's catch
  then answers 401.
- Two versions whose ids share their first ten characters get the same Cloud Run
  service name.

## Model

| member | source | states |
|---|---|---|
| Stages.Parse | types.ts:1-9 | reading a name back yields the stage carrying that name, and a string no stage carries reads as no stage |
| Stages.ParseName | types.ts:1-9 | stage names are distinct: every stage is recovered from its name |
| Stages.IndexOf | components/PipelineStatus.tsx:20-21 | `indexOf` is -1 exactly when the name is absent, otherwise the first position holding it |
| Stages.IndexOfPipelineName | components/PipelineStatus.tsx:10-21 | the strip finds each generating stage at its own pipeline position |
| Stages.CompleteNotInPipeline | components/PipelineStatus.tsx:10-17 | `Complete` is not one of the six stages the strip lists |
| Stages.IndexOfName | components/PipelineStatus.tsx:20-21 | `indexOf` finds a generating stage's name at that stage's rank, and finds neither `Complete` nor a string naming no stage |
| PipelineStatus.GetStatus | components/PipelineStatus.tsx:19-27 | a generating stage is active exactly when the stored stage names it, complete exactly when the stored stage names a stage further along (`Complete` included), and pending otherwise, also when the stored string names no stage |
| PipelineStatus.Row | components/PipelineStatus.tsx:10-32 | one status per generating stage in pipeline order: stage i is active exactly when the stored stage names it and complete exactly when the stored stage ranks above i |
| PipelineStatus.CompleteShowsAllComplete | components/PipelineStatus.tsx:23 | a version at `Complete` shows every stage complete |
| PipelineStatus.CurrentStageRule | components/PipelineStatus.tsx:19-27 | with stage k current, earlier stages show complete, stage k active and later ones pending |
| PipelineStatus.ExactlyOneActive | components/PipelineStatus.tsx:19-27 | while a generating stage is current, exactly one stage is shown active |
| PipelineStatus.UnknownStageAllPending | components/PipelineStatus.tsx:19-27 | a stored stage naming no stage shows all six pending |
| PipelineStatus.StatusMonotone | components/PipelineStatus.tsx:19-27 | along the strip, no stage after a pending one is complete or active, and no stage before a complete one is anything else |
| Strings.Contains | server.ts:60 | `includes` holds exactly when the substring occurs at some index |
| Strings.LowerIsLowerCase | server.ts:26 | lower-casing leaves no upper-case letter and is idempotent |
| Strings.Trim | server.ts:26 | `trim` yields a contiguous piece of the input with no white space at either end, and everything it drops before and after that piece is white space |
| Strings.Split | server.ts:26 | `split` pieces contain no separator and join back to the input |
| Strings.SplitJoin | server.ts:26 | splitting the join of separator-free pieces gives the pieces back |
| Strings.UpTo | server.ts:91 | element 1 of a split: the longest prefix in which no separator starts, so it is followed by the first separator when there is one, and is the whole input when there is none |
| Strings.Take | server.ts:285 | `slice(0, n)` is a prefix of length min(n, length) |
| Auth.AdminEmails | server.ts:26 | an address is on the admin list exactly when some comma-separated piece trims and lower-cases to it and it is non-empty; every entry is normalised |
| Auth.Normalize | server.ts:26 | every entry kept is a normalised address (non-empty, without commas, surrounding white space or upper-case letters), and there are no more entries than pieces |
| Auth.NormalizeListed | server.ts:26 | the map-and-filter pipeline keeps exactly the non-empty normalised pieces |
| Auth.BearerToken | server.ts:88-91 | the token is the text after the leading `Bearer ` up to the next `Bearer `, or the whole rest of the header when no second prefix occurs |
| Auth.Authenticate | server.ts:86-142 | a missing or non-bearer header, a failed verification or a missing email gives 401, and a disabled account 403, each with nothing written; a verified user with an email is refused exactly when disabled or when the token lacks a name or picture (401, the store refusing the undefined field); an admitted user carries the token's name and picture; a first login creates a Free user with 10000 tokens; a returning user keeps plan, counters and creation time; the role is admin iff the list grants it or it was already admin |
| Auth.Admit | server.ts:96-137 | once the token has verified: a missing email gives 401; a stored disabled account gives 403; a token without name or picture gives 401; otherwise the user is written with the token's claims |
| Auth.RoleNeverDowngraded | server.ts:132-135 | an admin stays admin on every login, whatever the list says |
| Auth.DisabledAccountRefused | server.ts:127-130 | a disabled account is refused with 403 and the users collection is unchanged |
| Ownership.VerifyOwner | server.ts:156-162 | a missing document gives 404, someone else's 403, and only the owner gets the document |
| Ownership.VerifyOwnerLocal | server.ts:156-162 | the guard's answer depends on the requested document alone |
| Retry.GenerateWithRetry | server.ts:164-179 | at most `retries` provider calls; success returns the first parsed result, with every earlier call having thrown; exhaustion means every call threw and the last error is rethrown |
| Retry.Attempts | server.ts:166-177 | the loop from iteration i on: the same guarantees, counted from i |
| Retry.FirstSuccessWins | server.ts:164-179 | if call k is the first that succeeds within the budget, the loop makes k+1 calls and returns its result |
| Retry.ThreeFailuresExhaust | server.ts:164-179 | with the default budget, three throws exhaust the loop after exactly three calls and rethrow the third error |
| StageRules.EffectiveSettings | server.ts:235-236 | a stored settings document wins; otherwise the built-in flash and pro defaults apply |
| StageRules.HighReasoningNames | server.ts:238 | the literal list of reasoning stages holds exactly the names of Strategy blueprint, Brand kit, Structure schema and Build + Validate |
| StageRules.ModelFor | server.ts:238-239 | a stage name of the four synthesis stages uses the reasoning model; every other name, known or not, the default model |
| StageRules.InputTokens | server.ts:269 | a call is charged 600 input tokens on the reasoning tier and 300 otherwise |
| StageRules.OutputTokens | server.ts:269 | a call is charged 1200 output tokens on the reasoning tier and 400 otherwise |
| StageRules.TierTable | server.ts:238-239 | the four synthesis stages use the reasoning model at 600/1200 tokens; every other stage uses the default model at 300/400 |
| StageRules.FieldKeysDistinct | server.ts:254-263 | the six stages write six different version fields, and only Build + Validate writes `validation` |
| StageRules.FieldKey | server.ts:254-263 | the key is one of the table's slots exactly when the stage is listed, and then it is that stage's slot; an unlisted name gives "undefined" exactly when it is not an inherited object member |
| StageRules.MissingKey | server.ts:254-263 | for a name the table does not list, the key is never a slot, and it is "undefined" exactly when the name is not inherited |
| StageRules.InheritedKeys | server.ts:254-263 | a stage named after an inherited object member gets a key that is neither `undefined` nor any stage's field |
| StageRules.ToStringKey | server.ts:254-263 | the stage name `toString` is written under the printed source of `Object.prototype.toString` |
| StageRules.ValidatedPayload | server.ts:249-252 | on Build + Validate, `isValid` and `buildTestPassed` are recomputed from the score (0.7 and 0.8), replacing what the provider said, and all other fields are kept; other stages pass through unchanged |
| StageRules.ValidationThresholds | server.ts:249-252 | both thresholds are inclusive and independent: 0.65 fails both, 0.75 passes validation only, 0.85 passes both |
| StageRules.BuildTestImpliesValid | server.ts:249-252 | passing the build test implies validity, and a missing or non-numeric score fails both |
| StageRules.RewriteKeepsScore | server.ts:249-264 | the rewrite keeps the score, its `isValid` agrees with its own output, and rewriting twice equals rewriting once |
| StageRules.StageUpdate | server.ts:263-266 | the stage's field receives the payload, other fields are untouched, `stage` becomes the executed stage, and `isValidated` changes only on Build + Validate, to the payload's `isValid` |
| Ledger.CostUSD | server.ts:60-61 | the provider cost is non-negative and proportional to the tokens, at 3.5 USD per million for a model id containing "pro", else 0.075 |
| Ledger.CostIsRateTimesMillions | server.ts:60-61 | the cost equals the token count in millions times the model's rate |
| Ledger.LogLedgerEntry | server.ts:55-81 | exactly one entry is appended, charging input plus output tokens at the model's cost; the caller's used counter rises and remaining falls by that total iff the user exists; no other user changes |
| Ledger.LedgerWriteKeepsCounters | server.ts:55-81 | after a ledger write, every user's used counter still equals the baseline plus what the ledger charged them |
| Ledger.TokensConserved | server.ts:76-80 | used plus remaining tokens is unchanged by a charge |
| Ledger.ReasoningCallCost | server.ts:60-61 | one reasoning-tier call on the default pro model costs 0.0063 USD |
| Server.CreateBusiness | server.ts:196-220 | creation succeeds iff the caller owns the workspace; it then writes one business and its first version (stage Strategy blueprint, not validated, no files); a failure writes nothing |
| Server.GenerateStage | server.ts:229-275 | no API key, a foreign or missing version, or exhausted retries answer an error and write nothing; otherwise the version update and ledger entry are written, and the answer is the rewritten payload iff the user document exists, else 500 |
| Server.ServiceName | server.ts:285 | the service name is `biz-` followed by at most the first ten characters of the version id |
| Server.ServiceNameCollision | server.ts:285 | two versions share a service exactly when their ids agree on the first ten characters |
| Server.NewBuild | server.ts:306-307 | a new build record is WORKING, in us-central1, under the version's service name, with no URL |
| Server.Deploy | server.ts:278-318 | a deploy succeeds iff the cloud is configured, the caller owns the version, and the build service returned an id; it then records the build on the version and in the deployment keyed by the version; any error writes nothing |
| Server.DeployStatus | server.ts:320-325 | a status is answered iff one of the caller's deployments carries the build id, and it is the build service's status unchanged; otherwise 404 |
| Server.DeployThenStatus | server.ts:306-325 | the caller who started a build can poll its status |
| Server.RedeployForgetsOldBuild | server.ts:309-322 | redeploying a version makes its previous build id answer 404 |
| Server.DeployIgnoresValidation | server.ts:278-283 | a version neither validated nor holding files deploys all the same |
| Server.PersistFiles | server.ts:327-337 | for the owner with a bucket configured, the source tree and then the dist tree are uploaded under `versions/<id>/source` and `/dist`, and the version is marked as having files; otherwise nothing is uploaded or written |
| Server.PlainUploadPaths | server.ts:333-334 | with a clean version id and relative path, a file lands at exactly `versions/<id>/source/<path>` (or `dist`) |
| Server.GetVersion | server.ts:339-343 | the version is returned to its owner only; others get 403, and a missing version 404 |
| Server.NonOwnerGetsNothing | server.ts:229-343 | no version route reads, changes or uploads for a caller who does not own the version |
| Server.ValidationSlotIsValidateOnly | server.ts:254-264 | only Build + Validate writes the `validation` field |
| Server.StageUpdateConsistent | server.ts:249-264 | a stage update keeps `isValidated` equal to "the stored validation's score reaches 0.7" |
| Server.CreateKeepsConsistency | server.ts:209-217 | creating a business keeps every version's validation flag consistent with its stored result |
| Server.GenerateKeepsConsistency | server.ts:229-275 | generation keeps every version's validation flag consistent with its stored result |
| Server.DeployKeepsConsistency | server.ts:306-312 | deploying keeps every version's validation flag consistent with its stored result |
| Server.PersistKeepsConsistency | server.ts:335 | persisting files keeps every version's validation flag consistent with its stored result |
| Server.ValidateReplyMatchesVersion | server.ts:249-271 | the `isValid` a validation answer carries is the `isValidated` stored on the version, and both say whether the score reached 0.7 |
| Server.GenerateStageKeepsCounters | server.ts:266-269 | every generation request keeps the users' counters equal to the ledger's charges |
| Server.ResultsOnlyGrow | server.ts:263-266 | a generation step never removes a version or any of its stored results |
| Server.NonConformingPayloadStored | server.ts:243-271 | an empty provider answer to the strategy stage is stored and returned although it lacks the schema's required fields |
| Server.UnknownStageWritesUndefinedSlot | server.ts:254-263 | a stage name outside the field table that is not an inherited object member is stored under the key `undefined` and becomes the version's stage |
| Server.InheritedStageWritesMemberSlot | server.ts:254-266 | in the model, a stage named after an inherited object member is stored under that member's string form, not `undefined`, and becomes the version's stage (the real store refuses that key; see Left out) |
| Server.LedgerFailureStillWrites | server.ts:266-273 | with the user document missing, the route answers 500 after the version update and the ledger entry were both written |
| Storage.Collapse | storage.ts:17 | collapsing slash runs never lengthens a path and keeps whether it starts with a slash |
| Storage.CollapseRun | storage.ts:17 | a run of any positive number of slashes collapses exactly as a single slash would |
| Storage.CollapseDoubleSlash | storage.ts:17 | a double slash anywhere in a path collapses exactly as a single slash would |
| Storage.CollapseAppend | storage.ts:17 | when no slash run straddles the seam, the collapse of a join is the join of the collapses |
| Storage.CollapseNoDoubleSlash | storage.ts:17 | the collapsed path has no two slashes in a row |
| Storage.CollapseKeepsText | storage.ts:17 | collapsing removes slashes only: every other character stays, in order |
| Storage.CollapseFixedPoints | storage.ts:17 | the paths collapsing leaves unchanged are exactly those without a double slash |
| Storage.CollapseIdempotent | storage.ts:17 | collapsing twice is collapsing once |
| Storage.Destination | storage.ts:17 | an object name has no double slash, and its characters other than slashes are the prefix's then the path's |
| Storage.DestinationSeam | storage.ts:17 | the object name is the collapsed prefix without its trailing slashes, exactly one slash, and the collapsed path without its leading slashes |
| Storage.DestinationPlainJoin | storage.ts:17 | for a clean prefix and relative path, the object name is their join with a single slash |
| Storage.ExtName | storage.ts:45 | the extension is a suffix of the last path component, empty or starting with its only dot, and it is non-empty exactly when that component has a dot after its first character and is not `..` |
| Storage.ExtOf | storage.ts:45 | on one path component, the extension is the suffix from the last dot, non-empty exactly when a dot follows the first character and the component is not `..` |
| Storage.ExtNameCases | storage.ts:45 | `index.html` has `.html` and `app.min.js` has `.js` (only the last dot counts); a dot-file and `..` have no extension |
| Storage.ExtNameInDirectory | storage.ts:45 | the directories before the last slash do not affect the extension |
| Storage.ContentType | storage.ts:44-62 | a listed lower-cased extension gets its MIME type, anything else `application/octet-stream` |
| Storage.ContentTypeFallback | storage.ts:61 | a path without an extension is served as `application/octet-stream` |
| Storage.ContentTypeIgnoresCase | storage.ts:45 | the content type does not depend on the letter case of the path |
| Storage.ExtNameLower | storage.ts:45 | taking the extension commutes with lower-casing |
| Storage.UploadPlan | storage.ts:12-39 | one upload per file, in order, each at the file's collapsed destination with its inferred type and its content unchanged |
| DeploymentPanel.InitialPanel | components/DeploymentPanel.tsx:10-13 | the panel starts from the last build's id, status and URL; an empty or missing id or URL leaves none tracked, a missing status reads IDLE, and a never-deployed version starts idle |
| DeploymentPanel.Tick | components/DeploymentPanel.tsx:15-30 | a poll changes only the status and URL; when not polling, or when the request fails, nothing changes; an answered poll sets the status to the answer's and the URL to the answer's when it carries one, otherwise keeps it |
| DeploymentPanel.Run | components/DeploymentPanel.tsx:15-30 | polling never changes the tracked build id or the in-flight flag |
| DeploymentPanel.PollingContinuesIffRunning | components/DeploymentPanel.tsx:17-23 | after a poll, polling continues exactly when the new status is WORKING or QUEUED; SUCCESS and FAILURE stop it |
| DeploymentPanel.PollFailureChangesNothing | components/DeploymentPanel.tsx:24-26 | a failed status request leaves the panel as it was |
| DeploymentPanel.StatusRouteKeepsUrl | components/DeploymentPanel.tsx:20-22 | a status answer without a URL leaves the panel's URL as it was |
| DeploymentPanel.StoppedPanelIsFixed | components/DeploymentPanel.tsx:15-30 | once polling has stopped, no later poll changes the panel |
| DeploymentPanel.TerminalRunStops | components/DeploymentPanel.tsx:15-30 | after SUCCESS or FAILURE, further polls change nothing |
| DeploymentPanel.Deploying | components/DeploymentPanel.tsx:33 | while a deploy is in flight the button is disabled and nothing else changes |
| DeploymentPanel.HandleDeploy | components/DeploymentPanel.tsx:32-43 | a started deploy tracks the new build as WORKING; a failed one only re-enables the button |
| DeploymentPanel.StartedDeployPolls | components/DeploymentPanel.tsx:15-43 | a deploy that returned an id starts polling with the button disabled |
| DeploymentPanel.InitialPolling | components/DeploymentPanel.tsx:11-17 | a version whose last build is WORKING resumes polling; a never-deployed one starts idle with the button enabled |
| Client.AddLog | App.tsx:173 | the log keeps the sixteen newest entries, the new message last |
| Client.AddLogsKeepsNewest | App.tsx:173 | after any number of messages the log is exactly the sixteen most recent |
| Client.AddLogsNewestLast | App.tsx:173 | the log never exceeds sixteen entries and ends with the last message |
| Client.LoadWorkspaces | App.tsx:65-69 | the list is stored, and its first workspace is selected only when none is selected yet |
| Client.LoadWorkspacesIdempotent | App.tsx:65-69 | loading the same list twice is loading it once |
| Client.ContextContents | App.tsx:148-152 | the context holds the idea and every earlier result under its stage's name, and nothing else |
| Client.RunStages | App.tsx:149-159 | the loop from stage k sends another request while stages remain and never more than six in all; without a throw all six stages ran and answered; a throw leaves the loop unstopped |
| Client.RunStagesSent | App.tsx:149-159 | every request is the next pipeline stage with the context of the results before it, and every result is its reply's |
| Client.RunStagesOutcome | App.tsx:149-159 | without a throw the last stage answered, its version is active, and the loop stopped exactly when the validation result is not valid; with a throw the last call failed |
| Client.StageLoop | App.tsx:146-159 | the stages are requested in pipeline order from the idea alone, with the record and outcome above |
| Client.Persist | App.tsx:160-170 | files are persisted exactly when the gate holds, logging "Architecting" and then "finalized" |
| Client.RunPipelineAsWritten | App.tsx:146-171 | as written, the stages run from the version just created while persistence depends only on the version captured when the handler began; the log starts with the first stage's notice |
| Client.RunPipeline | App.tsx:146-171 | corrected: persistence follows the version fetched after the validation stage |
| Client.RequestsFollowPipeline | App.tsx:147-152 | request i is stage i with the context of results 0..i-1, and `Complete` is never requested |
| Client.NoThrowRunsEveryStage | App.tsx:149-158 | a run without a throw requested all six stages and logged each start in order, followed by the stop notice when validation failed |
| Client.PersistsIffValidationPassed | App.tsx:155-160 | against an honest server, the corrected run persists exactly when the validation it ran passed |
| Client.StaleGateCounterexample | App.tsx:160 | as written, a fresh session's fully validated run never persists, and a failed run after a validated one does; the corrected gate does neither |
| Client.StartNewProject | App.tsx:128-144 | with no workspace it only logs an error; during a run it does nothing; a failed creation leaves only "Genesis failed to initiate." in the cleared log; otherwise the new project is prepended and selected, the log holds exactly the run's messages (plus the failure notice after a throw), the version the run left is active, and the busy flag is cleared |
| Client.StartNewProjectCorrected | App.tsx:128-144 | the same steps with the corrected persistence gate |
| Client.Launched | App.tsx:134-142 | after the run, the project is prepended and selected, the log is rebuilt from the cleared buffer without dropping a message, and the run's last version stays active |
| Client.CreateFailedState | App.tsx:131-140 | a throwing `createBusiness` leaves only the catch's notice in the cleared log |
| Client.ShowDeployPanel | App.tsx:222-226 | with no version active no panel is shown; an active version shows it exactly when it is validated and has its files stored |
| Client.ValidatedRunOffersDeploy | App.tsx:160-226 | as written, after a run that persisted files and fetched a validated, stored version, the deployment panel is shown |
| Client.FreshSessionNeverPersists | App.tsx:128-171 | as written, a project started with no version active never reaches the persistence step, whatever its validation says, and ends on the last version the stages fetched |
| Client.CorrectedRunPersists | App.tsx:128-171 | with the corrected gate and an honest server, a run whose validation passes logs the persistence step and ends on the refetched version |

## Left out

- Network, storage and provider I/O: Firestore, Gemini, Google OAuth, Cloud Build and
  Cloud Storage are represented by parameters that say how each call went. Prompt
  text, request schemas sent to the provider and base64 decoding are not modelled.
- Concurrency and timing: the five-second polling interval, React re-render
  scheduling and overlapping requests. The panel is modelled as one poll per tick.
- Floating point: JSON numbers and costs are exact reals.
- JavaScript coercion of a non-numeric `score` (a string "0.9" compares as a
  number in the code). Here, only a numeric score can pass.
- Unicode case mapping: `toLowerCase` is modelled on ASCII letters only.
- Storage.ExtName: trailing slashes are not stripped before taking the last
  component, as `path.extname` does; such paths get no extension here.
- The admin routes (summary, users, plans, ledger, audit, settings, deploys), the
  export route, `/api/workspaces`, `/api/projects`, `loadProjects`,
  `selectProject`, the sign-in flow and the admin panel: not part of the
  generation pipeline.
- Log timestamps: entries are the messages alone.
- Malformed request bodies: a missing `context`, and a settings document lacking
  the model fields (the code would then pass an undefined model). Both end in a 500
  or an exception the model does not distinguish. A `generateStage` body without
  `businessId` is not modelled either (`businessId` is always a string here): the
  ledger write would refuse the undefined project id after the version update was
  written, so the route would answer 500 with the version changed, no ledger entry
  and no counter update.
- `JSON.parse` returning a non-object (`null`, a number, an array): results are
  always objects here.
- Upload failures inside `uploadFileTree` and a throwing `getBuild` in the status
  route: the uploads are listed, not executed, and the build service is a total
  function.
- The deployment panel's display text and its export button.
- Server.InheritedStageWritesMemberSlot: the model stores the payload under an
  inherited member's string form, but Firestore would refuse that key. Such keys
  contain `[` and `]`, which a field path may not hold, so the real route answers
  500 with nothing written. The store's field-path rules are not modelled.
- Server.GenerateStage: a failed write of the version update itself is not
  modelled; only the ledger's counter update can fail.

## Findings

| source | as written | input that shows it | evidently intended | confidence | as-written member | corrected member |
|---|---|---|---|---|---|---|
| App.tsx:160 | the persistence gate reads `activeVersion` as the handler's closure captured it when `startNewProject` began, not the version the loop just fetched | a first run in a fresh session (no version active) whose validation passes: the captured value is the initial `null`, so files are never stored and the deployment panel never appears; conversely, a failing run after a validated version was active persists anyway | gate on the version fetched after the validation stage | not executed | Client.RunPipelineAsWritten, Client.StaleGateCounterexample, Client.StartNewProject, Client.FreshSessionNeverPersists | Client.RunPipeline, Client.PersistsIffValidationPassed, Client.StartNewProjectCorrected, Client.CorrectedRunPersists |

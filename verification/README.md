# IronClaw: models and proofs

IronClaw is an LLM agent runtime. This project models the parts of it where a mistake is easy to
make and hard to see: the agentic loop and its tool batches, the cost guard, settings as a JSON
tree, three pieces of text surgery, and one small locking protocol.

* **The chat loop** (`Transcript`, `Compaction`, `ToolBatch`, `ChatWorld`, `RunTrace`, `RunSteps`,
  `ChatLoop`, `ApprovalResume`, `ChatTurn`). A provider accepts a message list only if every assistant
  message with tool calls is followed at once by one tool message per call, in order, and there are
  no other tool messages. `Transcript.WellFormed` says so by position and is proved equal to a left-to-right
  scan that names the ids still waiting. The loop, the model call with its compacted retry, the three
  phases of a batch and the resumption after an approval are methods; the model, hooks, tools,
  signals and scheduler are arbitrary. `RunTrace` describes a run by what an observer sees, the
  requests, the answers and the executed batches: which runs are legal, what every legal run keeps
  (`KeepsRules`, computed from requests and replies alone), and that there is only one legal run per
  world. `RunSteps` spells the run out event by event. The loop is proved to make it.
* **The cost guard** (`CostHistory`, `CostGuard`, `CostRuns`). A class whose totals, ledgers, pruned
  window and latched flag are tied to the plain history of calls, and bounds over every interleaving
  of checks and records by many callers.
* **Settings** (`JsonTree`, `DottedPaths`, `SettingsDb`, `SettingsRoundTrip`, `SettingsMerge`,
  `Settings`). Setting by dotted path, flattening to rows, rebuilding from rows in any order, and the
  default-aware merge. The round trip is characterised exactly: which trees come back, and what the
  others become.
* **Text** (`LineMask`, `LinePieces`, `TestContexts`, `TestRegions`, `Utf8`, `EnvFile`). The
  Rust-line masker and test-block tracker of the panic check, UTF-8-safe truncation, and the `.env` escaper and upserter.
* **The tenant registry** (`TenantRegistry`). Double-checked creation as interleaved steps.

`dafny verify dfyconfig.toml` checks everything. A clock or date reading is a parameter, one per call.

## Findings

Each is a property one would expect, with the input that breaks it and the exact condition under
which the code keeps it.

* Upserts in the `.env` file keep the text of other lines exactly when none of them ends in a carriage
  return of its own: every upsert takes one off (`OtherLinesKeptIff`, `OtherLinesAfter`, instance
  `BareCarriageReturnIsLost`). The map of the touched keys is right on every file.
* A sensitive argument survives the BeforeToolCall hook exactly when the hook does not replace the
  arguments by JSON that is not an object (`SensitiveArgumentSurvivesIff`, instance
  `HookCanDropSensitiveArguments`).
* A call deferred behind an approval never meets that hook: it runs even if the hook denies it. It is
  treated as in its own batch exactly when the hook would leave it alone and, for a call that asks, the
  channel is not a shared relay (`DeferredAsJudgedIff`, `ReplayIgnoresHooks`, instance
  `DeniedCallRunsOnceDeferred`).
* An auth response is returned before the approval branch, and then the calls from the cut on have no
  tool message. The context after a batch is well formed exactly when no call asks for approval
  (`BatchLeavesUnhandled`, instance `AuthHidesTheApproval`).
* The masker takes a lifetime or loop label for the start of a character literal, and ends a raw string
  only at a quote with exactly its number of hashes. It keeps exactly the code of a line exactly when
  the line has no lifetime and no raw string directly followed by a hash
  (`MaskKeepsExactlyTheCodeIff`). A lifetime hides everything up to the next single quote, also across
  lines, since the lexer state is carried over (`LifetimeHidesToNextQuote`, `LifetimeHidesTheLine`,
  `LinesStayHidden`, instance `CodeBehindLifetimeIsHidden`); the comment at
  scripts/check_no_panics.py:126-127 promises an effect on the same line only. A hash behind a raw
  string hides the code after it (`CodeAfterRawIsHidden`).
* Once the daily budget is reached, calls are recorded again, on whatever date, exactly if some were
  already in flight: only a record opens a new day, and no check allows one
  (`ReachedBudgetNeverLifts`, `ReachedBudgetLiftsIff`, instance `OneCallClosesForGood`).
* Setting a key that the struct does not know succeeds, and the key is gone. After a successful set the
  value is there exactly when deserializing the tree keeps it at its path (`Settings.Set`, instance
  `UnknownKeyIsDropped`).
* `to_cents` reads a total past the u64 range as zero (`OverflowDisarmsTheBudget`). The latched flag
  answers as the sum does exactly as long as no day that reached its budget goes past that range
  (`LatchMattersIff`, instance `LatchOutlivesTheSum`).
* The per-user check answers as the spending says exactly when the limit is not zero or the user has a
  call today (`UserLimitAppliesIff`, instance `ZeroUserLimitLetsOneThrough`).

Two remarks. The loop needs no promise from the model to end: with `force_text` set no tools are
offered, and `respond_with_tools` then only returns text. And `merge_non_default` is associative on
trees that have objects wherever the defaults have them, as all serialized `Settings` do, but not on
arbitrary JSON (`GroupingMattersWithoutSkeleton`).

## Model

| member | source | states |
|---|---|---|
| Transcript.WellFormedIffNothingOutstanding | src/agent/dispatcher.rs:499-506 | the positional provider rule holds exactly when the scan of waiting call ids ends with none waiting |
| Transcript.AppendResults | src/agent/dispatcher.rs:843-996 | tool messages for the first waiting ids leave exactly the other ids waiting |
| Transcript.SuffixFromUser | src/agent/dispatcher.rs:1169-1171 | a suffix starting at a user message is as well formed as the whole list |
| Transcript.DroppingSystemsKeepsScan | src/llm/reasoning.rs:695-703 | taking the system messages out leaves the same ids waiting |
| Transcript.SelectionsByPosition | src/llm/reasoning.rs:697-703 | the non-system messages of a request, and the system messages that compaction keeps, are exactly those of the context, at strictly increasing positions |
| Compaction.LastUserIndex | src/agent/dispatcher.rs:1150-1150 | the last user message, or None exactly when there is none |
| Compaction.CompactMessagesForRetry | src/agent/dispatcher.rs:1144-1188 | keeps the earlier system messages, a note only if history is dropped, and everything from the last user message; well-formedness is preserved |
| Compaction.CompactionByPosition | src/agent/dispatcher.rs:1144-1188 | by position: the system messages before the last user message, a note exactly if anything stood before it, and all from it on; or the system messages first if there is no user message |
| ToolBatch.RestoreSensitive | src/agent/dispatcher.rs:644-652 | sensitive keys are put back one by one as the specification function says |
| ToolBatch.RestoredAt | src/agent/dispatcher.rs:644-652 | after restoring, a sensitive key has the original value and any other key the hook's |
| ToolBatch.Judge | src/agent/dispatcher.rs:603-714 | a judged call keeps id and name; hook denials reject; with auto-approval off a registered tool runs only if it needs no approval on the arguments run, and is asked about only if it does |
| ToolBatch.VerdictMeans | src/agent/dispatcher.rs:603-714 | every verdict by the hook's answer and the tool's requirement: an object rewrite decides every key but the sensitive ones given, other JSON stands, and a call runs, is refused or asks exactly as its requirement, auto-approval and the channel say |
| ToolBatch.SensitiveArgumentSurvivesIff | src/agent/dispatcher.rs:641-654 | a sensitive argument reaches the tool or the approval unchanged exactly when the hook does not put non-object JSON in place of the arguments |
| ToolBatch.HookCanDropSensitiveArguments | src/agent/dispatcher.rs:643-653 | a hook that answers null makes a call run without its sensitive argument |
| ToolBatch.PreflightOne | src/agent/dispatcher.rs:603-714 | one turn of the preflight loop gives the verdict |
| ToolBatch.FirstAsk | src/agent/dispatcher.rs:664-710 | the calls before it do not ask for approval, and it does |
| ToolBatch.Preflight | src/agent/dispatcher.rs:590-715 | one judged slot per call before the first that asks, that call as the cut, and the unrejected slots with their positions |
| ToolBatch.JoinAll | src/agent/dispatcher.rs:759-822 | for every join order each task that is not lost puts its own call's answer into its own slot, and all other slots stay empty |
| ToolBatch.FillLost | src/agent/dispatcher.rs:824-837 | afterwards every runnable slot holds its own call's answer, or the filler exactly if its task was lost; rejected slots stay empty |
| ToolBatch.Execute | src/agent/dispatcher.rs:717-838 | the same for the whole phase; a single call runs inline and cannot be lost |
| ToolBatch.ResultMessage | src/tools/execute.rs:126-140 | one tool message carrying the given call id, the tool's name and the wrapped result |
| ToolBatch.AuthRequiredIff | src/agent/dispatcher.rs:1078-1097 | a token is asked for exactly if an auth tool succeeded with an object that says so and names the extension; its own instructions are given if it has any |
| ToolBatch.OneByOneAnswersEverySlot | src/agent/dispatcher.rs:843-996 | the sequential reference appends, per slot in order, the message of that slot's rejection or of what its own call answers |
| ToolBatch.AuthIsTheFirst | src/agent/dispatcher.rs:930-957 | the auth response is that of the first slot that ran and waits for a token |
| ToolBatch.SpawningIsInvisible | src/agent/dispatcher.rs:717-838 | parallel and inline execution give the same messages unless a task is lost |
| ToolBatch.Postflight | src/agent/dispatcher.rs:840-996 | messages and auth response equal those of running the calls one by one |
| ToolBatch.ExecuteToolCalls | src/agent/dispatcher.rs:480-1024 | for every schedule the transcript gains the model's message and one result per call before the first that asks, each by its own verdict and answer; auth comes before approval; the context is well formed exactly if no call asks |
| ToolBatch.BatchByVerdict | src/agent/dispatcher.rs:843-996 | the result told of each call is its rejection, its own tool's answer, or the filler exactly if its task was spawned and lost |
| ToolBatch.ResponseByVerdict | src/agent/dispatcher.rs:930-1001 | a batch responds exactly if some call that ran asks for a token, with the request of the first of them |
| ToolBatch.HandledSlotsAreCleared | src/agent/dispatcher.rs:664-714 | every slot that runs is the model's own call and needs no approval on its final arguments |
| ToolBatch.BatchLeavesUnhandled | src/agent/dispatcher.rs:843-996 | after a batch the context waits for exactly the calls from the first that asks on |
| ToolBatch.AuthHidesTheApproval | src/agent/dispatcher.rs:998-1020 | a batch with a token request before a call that asks responds and leaves a context that is not well formed |
| ToolBatch.CutIsPartition | src/agent/dispatcher.rs:1003-1020 | at the cut the calls are the handled prefix, the pending call and the deferred calls, and the saved context waits for exactly the last two |
| ToolBatch.ResultsRepairSavedContext | src/agent/dispatcher.rs:1003-1020 | one result for the pending call and one per deferred call make a saved context well formed |
| ApprovalResume.FirstStop | src/agent/thread_ops.rs:1192-1216 | the deferred calls before it need no approval, and it does |
| ApprovalResume.DeferredPreflight | src/agent/thread_ops.rs:1181-1219 | the runnable calls are the deferred ones before the first that needs approval |
| ApprovalResume.ReplayDeferred | src/agent/thread_ops.rs:1181-1440 | for every schedule the messages are those of replaying the deferred calls before the next stop one by one; the rest are left waiting |
| ApprovalResume.ReplayedAt | src/agent/thread_ops.rs:1221-1416 | the result told of each deferred call is its own tool's answer on its original arguments, or the filler if its task was lost |
| ApprovalResume.AsksAsPreflight | src/agent/thread_ops.rs:1192-1216 | deferred calls ask exactly as preflight does where no hook and no relay interferes |
| ApprovalResume.DeferredAsJudgedIff | src/agent/thread_ops.rs:1192-1219 | a deferred call is run, or asked about, as in its own batch exactly when the hook would leave it alone and, if it asks, the channel is not a shared relay |
| ApprovalResume.ReplayIgnoresHooks | src/agent/thread_ops.rs:1192-1219 | the replay is the same whatever the hooks say |
| ApprovalResume.DeniedCallRunsOnceDeferred | src/agent/thread_ops.rs:1192-1219 | a call that the hook denies is rejected in its batch and runs once deferred |
| ApprovalResume.ResumeApproved | src/agent/thread_ops.rs:1074-1482 | the approved call's result and the replay make the new context exactly; it is complete and well formed, or waits again for fewer calls, or an auth response ends the turn |
| RunTrace.EscalatedIff | src/agent/agentic_loop.rs:232-257 | the mode latches exactly when three truncated replies came with no complete batch of calls between them, by position in the run |
| RunTrace.LegalContextsWellFormed | src/agent/agentic_loop.rs:146-269 | from a well-formed start every context of a legal run is well formed, through nudges, truncations, batches, injected messages and compaction |
| RunTrace.LegalRequests | src/agent/agentic_loop.rs:146-269 | so every request is well formed; it extends or compacts the last one, and is text-only exactly at the limit or after three truncations with no batch between |
| RunTrace.LegalRunNudges | src/agent/agentic_loop.rs:192-215 | the nudged texts since the last complete batch never exceed the maximum |
| RunTrace.NeighboursKeepRules | src/agent/agentic_loop.rs:232-264 | every request is answered at once, and a reply's calls are executed exactly if it is not truncated |
| RunTrace.LegalRunsKeepRules | src/agent/agentic_loop.rs:135-270 | every finished legal run from a well-formed start keeps all of these rules |
| RunTrace.OneRun | src/agent/agentic_loop.rs:135-270 | world and first transcript determine all requests, batches and the result of a legal run |
| RunSteps.LegalRunsGoInOrder | src/agent/agentic_loop.rs:135-270 | every finished legal run goes step by step as the next three rows say |
| RunSteps.LegalRequestInOrder | src/agent/dispatcher.rs:275-403 | a request carries the prompt, exactly the non-system messages of its context and the tools on offer; it retries one context-length error on the compacted context, or was allowed by signal, cost and limit and its context grew by exactly the reaction to the last event, the injected message and the limit notice |
| RunSteps.LegalAnswerInOrder | src/llm/reasoning.rs:686-870 | every answer is the provider's to the request right before it, with tools exactly if it offered any |
| RunSteps.LegalTextsInOrder | src/agent/agentic_loop.rs:189-224 | a run goes on after a text only if tools were offered and the text speaks of using one, and the last text is returned sanitized exactly if it could not be nudged |
| RunTrace.SentIsWellFormed | src/llm/reasoning.rs:695-703 | the request built from a well-formed context is well formed |
| ChatLoop.ReasoningContext.Push | src/agent/agentic_loop.rs:151-153 | adding a message without calls keeps the transcript well formed |
| ChatLoop.BeforeLlmCall | src/agent/dispatcher.rs:275-341 | text-only mode is entered at the limit and never left; the limit notice is added once; tools are refreshed |
| ChatLoop.RespondWithTools | src/llm/reasoning.rs:686-870 | the reply is exactly the provider's answer to the recorded request, which offers tools only outside text-only mode |
| ChatLoop.CallLlm | src/agent/dispatcher.rs:343-403 | a cost refusal sends nothing; a context-length error is retried once on the compacted context; the answer is that of the last try, and an error ends the run |
| ChatLoop.HandleText | src/agent/agentic_loop.rs:189-224 | the run goes on exactly after a nudge, which adds the reply and the nudge; otherwise the sanitized reply ends it |
| ChatLoop.DiscardTruncated | src/agent/agentic_loop.rs:232-254 | truncated calls leave only the narrative and a notice; text-only mode is on exactly after escalation |
| ChatLoop.RunBatch | src/agent/agentic_loop.rs:256-264 | the executed batch is the reply's; the run goes on exactly if it neither responds nor asks |
| ChatLoop.Iterate | src/agent/agentic_loop.rs:156-268 | one iteration extends the legal run and ends it as its last event calls for, or leaves all loop variables equal to what the run amounts to, below the limit |
| ChatLoop.RunAgenticLoop | src/agent/agentic_loop.rs:135-270 | the run is legal, keeps all rules and goes step by step in order, ends with the result its last event, signal or cost check calls for, and takes no more iterations than the limit |
| ChatLoop.RunChat | src/agent/dispatcher.rs:166-208 | a chat run is legal and keeps the rules, takes at most max(1, limit) iterations and never ends as MaxIterations; a saved approval waits for exactly its calls |
| ChatTurn.ApprovalReadiesIff | src/agent/thread_ops.rs:1141-1484 | an approval leaves the thread ready exactly if no token is asked for and no deferred call asks |
| ChatTurn.TakeStep | src/agent/thread_ops.rs:973-1490 | a run, an approval or a refusal moves the thread as the run or the replay says and keeps it sound; stale answers change nothing |
| ChatTurn.RunTurn | src/agent/thread_ops.rs:973-1490 | over any sequence of runs, approvals and refusals the thread moves so at every step, and every run starts well formed and keeps the rules |
| CostHistory.ToCents | src/agent/cost_guard.rs:399-402 | whole cents below the amount, and zero for amounts that do not parse as u64 |
| CostHistory.CheckMeans | src/agent/cost_guard.rs:131-175 | a check refuses for the budget first and then for the rate, with the numbers it compared, and allows everything else |
| CostHistory.DayBegins | src/agent/cost_guard.rs:222-236 | the current day is the longest tail of the history with the last call's date |
| CostHistory.OverflowDisarmsTheBudget | src/agent/cost_guard.rs:143-153 | the budget test passes exactly below the limit or past the u64 range |
| CostHistory.LatchMattersIff | src/agent/cost_guard.rs:131-153 | the latched answer equals that of the plain daily sum exactly unless a day that reached its budget goes past the u64 range |
| CostHistory.NotReachedMeansBelow | src/agent/cost_guard.rs:221-260 | while no single call can jump past the u64 range, a day not seen to reach its budget is below it |
| CostHistory.HugeCallIsNotSeen | src/agent/cost_guard.rs:399-402 | a single call past the range is allowed and not counted against the limit |
| CostHistory.LatchOutlivesTheSum | src/agent/cost_guard.rs:131-153 | two calls on one day after which the latch still refuses and the sum would not |
| CostHistory.LedgerEntry | src/agent/cost_guard.rs:268-275 | a running ledger has an entry for exactly the keys that occur, holding the cost of their calls |
| CostHistory.LedgerConserves | src/agent/cost_guard.rs:268-275 | the entries of a ledger and the unattributed calls add up to all calls |
| CostGuard.CallCost | src/agent/cost_guard.rs:200-219 | never negative; without cached tokens it is the two rates times the two counts |
| CostGuard.ReadCost | src/agent/cost_guard.rs:207-213 | cached reads times the discount cost the input rate per token; a discount of zero counts as one |
| CostGuard.WriteCost | src/agent/cost_guard.rs:214-215 | cache writes cost the input rate times the multiplier per token |
| CostGuard.CostIsAdditive | src/agent/cost_guard.rs:205-219 | a call costs what its uncached, read, written and output tokens cost one by one |
| CostGuard.OverflowingCacheCounts | src/agent/cost_guard.rs:205-206 | cache counts that overflow together leave no uncached tokens to bill |
| CostGuard.UserCheckMeans | src/agent/cost_guard.rs:334-357 | the global answer comes first; a user's refusal names the user, the spending of the day and the limit |
| CostGuard.UserLimitAppliesIff | src/agent/cost_guard.rs:341-353 | the per-user check answers as the spending says exactly when the limit is positive or the user has a call today |
| CostGuard.ZeroUserLimitLetsOneThrough | src/agent/cost_guard.rs:341-353 | a limit of zero lets a user's first call of the day through |
| CostGuard.BooksMean | src/agent/cost_guard.rs:222-275 | the running totals are the day's sum, the day's per-user ledger and the whole per-model ledger |
| CostGuard.WindowIsLastHour | src/agent/cost_guard.rs:156-172 | a window with no expired front is the calls of the last hour, also with less than an hour of uptime |
| CostGuard.Guard.constructor | src/agent/cost_guard.rs:113-126 | a new guard matches the empty history |
| CostGuard.Guard.Drain | src/agent/cost_guard.rs:158-165 | dropping the expired front keeps the window a suffix of the history |
| CostGuard.Guard.ActionsThisHour | src/agent/cost_guard.rs:381-390 | the number of calls in the last hour of the full history |
| CostGuard.Guard.CheckBudget | src/agent/cost_guard.rs:132-154 | refuses exactly if some total of the current day read as over the limit, for every total |
| CostGuard.Guard.CheckAllowed | src/agent/cost_guard.rs:131-175 | for every history the answer of a guard that reads all of it at every check |
| CostGuard.Guard.RollOver | src/agent/cost_guard.rs:223-236 | a new date resets total and flag and prunes the users; the same date changes nothing |
| CostGuard.Guard.RecordCall | src/agent/cost_guard.rs:221-275 | the history grows by exactly the call, and every field follows it |
| CostGuard.Guard.RecordLlmCall | src/agent/cost_guard.rs:189-278 | records an unattributed call at its computed cost |
| CostGuard.Guard.RecordLlmCallForUser | src/agent/cost_guard.rs:285-328 | records a call attributed to the user at its computed cost |
| CostGuard.Guard.CheckAllowedForUser | src/agent/cost_guard.rs:334-357 | global limits first, then the user's own spending of the day, as the full history has it |
| CostGuard.Guard.DailySpend | src/agent/cost_guard.rs:360-368 | the sum of the given day's calls, zero on another day |
| CostGuard.Guard.DailySpendForUser | src/agent/cost_guard.rs:371-378 | the user's share of the given day's calls |
| CostGuard.Guard.LedgersConserve | src/agent/cost_guard.rs:222-275 | per-user entries carry the reset date and add up with unattributed calls to the daily total; per-model costs add up to all costs ever |
| CostGuard.Guard.UserLedgerIsDailyTotal | src/agent/cost_guard.rs:297-327 | when all calls are attributed the per-user totals add up to the daily total |
| CostRuns.Replay | src/agent/cost_guard.rs:131-278 | any run played on a real guard gets the answers of the full history at every check |
| CostRuns.ReachedBudgetNeverLifts | src/agent/cost_guard.rs:131-175 | with the budget reached and nothing in flight no call is recorded any more |
| CostRuns.ReachedBudgetLiftsIff | src/agent/cost_guard.rs:131-175 | with the budget reached, calls are recorded afterwards exactly if some were in flight |
| CostRuns.OneCallClosesForGood | src/agent/cost_guard.rs:131-175 | one checked call that reaches the limit, after which every later check is refused |
| CostRuns.HourlyRateBound | src/agent/cost_guard.rs:156-172 | with at most k calls between check and record no closed hour holds more than limit + k - 1 records |
| CostRuns.DailyOverspendBound | src/agent/cost_guard.rs:143-153 | with at most k calls in flight costing at most M each, the daily total never passes limit/100 + k*M, across any dates |
| DottedPaths.SplitJoin | src/settings.rs:982-984 | dotted names of dot-free paths split back into the path |
| DottedPaths.JoinSplit | src/settings.rs:982-984 | joining the parts of any name gives the name |
| SettingsDb.ReadIff | src/settings.rs:998-1040 | a text is read exactly if it parses as the type already there, and then as a value of that type or as the JSON it is |
| SettingsDb.ApplyTouchesOneKey | src/settings.rs:978-1049 | a set changes at most the first key of its path; below it, it is the same set one level down |
| SettingsDb.OverlayLocal | src/settings.rs:807-846 | only the rows below a position matter to it |
| SettingsDb.ApplyExtendsOverlay | src/settings.rs:815-843 | applying one more row turns the order-free meaning of the old rows into that of the new rows |
| Settings.SetFailsIff | src/settings.rs:982-1040 | `set` fails exactly if the parent is missing, is no object, or the text does not fit the value there, with the error of the first that applies |
| Settings.SetThenLookup | src/settings.rs:978-1049 | after a successful set the path holds the text read by the type of the old value |
| Settings.SetElsewhere | src/settings.rs:978-1049 | paths that neither continue nor lead to the set path are untouched |
| Settings.Settings.Set | src/settings.rs:978-1049 | succeeds exactly if the path can be set and the tree deserializes, and then holds what deserializing kept: the value set exactly if that was kept, and everything else too if the tree was; an error changes nothing |
| Settings.UnknownKeyIsDropped | src/settings.rs:1041-1048 | setting an unknown key succeeds and the key is not there afterwards |
| Settings.Settings.Get | src/settings.rs:957-973 | the text of the value at the path, None exactly when there is none |
| Settings.Settings.MergeFrom | src/settings.rs:935-954 | the tree becomes what deserializing keeps of the merge, or stays as it is if the merge does not deserialize |
| SettingsRoundTrip.CollectSettingsJson | src/settings.rs:1076-1096 | exactly one row per leaf under its dotted name, the other results kept, for any key order |
| SettingsRoundTrip.ToDbMap | src/settings.rs:851-861 | one row per leaf except the owner's |
| SettingsRoundTrip.FromDbMap | src/settings.rs:807-846 | unless one name continues another or the struct does not hold what the rows say, the result is the overlay of the rows whatever the order |
| SettingsRoundTrip.ContinuedNamesDependOnOrder | src/settings.rs:815-843 | two rows, one name continuing the other, whose order decides the result |
| SettingsRoundTrip.OverlayOfLeavesIsRestore | src/settings.rs:807-861 | the overlay of a tree's own rows is the key-by-key restore |
| SettingsRoundTrip.LeafSurvivesIff | src/settings.rs:998-1040 | a leaf is restored exactly when its type fits the default in its place |
| SettingsRoundTrip.RestoreIsIdentityIff | src/settings.rs:807-861 | a tree is restored unchanged exactly when every default key is present, objects stand where defaults have objects and every leaf fits |
| SettingsRoundTrip.OwnerExcepted | src/settings.rs:816-818 | the same for the stored tree with the owner taken from the defaults |
| SettingsRoundTrip.SaveAndLoad | src/settings.rs:807-861 | for trees whose leaves the struct can hold, saving and loading gives the restored tree in every row order, and the tree itself exactly when all its keys survive |
| SettingsMerge.MergeNonDefault | src/settings.rs:1137-1163 | the loop computes the merge for any key order |
| SettingsMerge.MergeDefaultsIsIdentity | src/settings.rs:928-934 | an overlay of defaults changes nothing |
| SettingsMerge.MergeIsIdempotent | src/settings.rs:935-954 | merging an overlay twice is merging it once |
| SettingsMerge.MergeKeepsSkeleton | src/settings.rs:1137-1163 | merging keeps objects where the defaults have objects |
| SettingsMerge.MergeIsAssociative | src/settings.rs:1137-1163 | layers with the defaults' object skeleton can be grouped in any way |
| SettingsMerge.GroupingMattersWithoutSkeleton | src/settings.rs:1157-1161 | on JSON that no settings serialize to, the recursion of `merge_non_default` is not associative |
| SettingsMerge.MergeAtChoice | src/settings.rs:1143-1161 | at every leaf position, however deep, the overlay's value wins exactly when it is not the default |
| SettingsMerge.LastChoiceWins | src/settings.rs:928-934 | any stack of overlays gives at every leaf position the last non-default value |
| SettingsMerge.WizardKeepsItsChoices | src/setup/wizard.rs:398-405 | step 1, then the database, then step 1 again: step 1's choices win and database values are recovered elsewhere |
| LineMask.Step | scripts/check_no_panics.py:57-133 | a turn moves forward within the line and keeps a column only in code, never a quote or a comment opener |
| LineMask.Mask | scripts/check_no_panics.py:52-135 | the masked line has the same length |
| LineMask.MaskKeepsColumns | scripts/check_no_panics.py:52-135 | each column is blank or shows its own character |
| LineMask.MaskLeavesNoOpeners | scripts/check_no_panics.py:52-135 | no quote and no comment opener survives masking |
| LineMask.MaskingIsAFixpoint | scripts/check_no_panics.py:52-135 | masking a masked line from a fresh state returns it and stays fresh |
| LineMask.LexerState.Advance | scripts/check_no_panics.py:57-133 | the six fields keep at most one mode active and follow the mode machine |
| LineMask.LexerState.SanitizeLine | scripts/check_no_panics.py:52-135 | the method masks the line and leaves the mode after it |
| LinePieces.MaskShift | scripts/check_no_panics.py:57-59 | masking from a column depends only on the rest of the line |
| LinePieces.QuotedIsBlanked | scripts/check_no_panics.py:87-130 | a whole string or character literal, escapes included, is blanked and the lexer is back in code |
| LinePieces.RawIsBlankedIff | scripts/check_no_panics.py:73-120 | a whole raw string is blanked, with the lexer back in code, exactly if no hash follows it |
| LinePieces.CodeAfterRawIsHidden | scripts/check_no_panics.py:73-85 | after `r#"a"##` the rest of the line is blanked and the lexer stays in the raw string |
| LinePieces.CommentIsSkipped | scripts/check_no_panics.py:61-112 | a whole block comment, with comments nested to any depth, is blanked and leads back to where it was opened |
| LinePieces.MaskKeepsExactlyTheCodeIff | scripts/check_no_panics.py:52-135 | a line written as code, lifetimes, literals and comments keeps exactly its code in its columns exactly if it has no lifetime and no raw string directly followed by a hash |
| LinePieces.LifetimeHidesToNextQuote | scripts/check_no_panics.py:97-130 | a lifetime is blanked with everything up to the next single quote of its line |
| LinePieces.LifetimeHidesTheLine | scripts/check_no_panics.py:97-130 | without such a quote the rest of the line is blanked and the lexer stays in the literal |
| LinePieces.LinesStayHidden | scripts/check_no_panics.py:97-105 | a following line without a single quote is blanked whole |
| LinePieces.CodeBehindLifetimeIsHidden | scripts/check_no_panics.py:125-130 | behind `<'a>` all code of this line and the next is hidden |
| LinePieces.LineCommentIsBlanked | scripts/check_no_panics.py:107-108 | a line comment hides the rest of its line and leaves the lexer in code |
| LinePieces.LiteralLeftOpen | scripts/check_no_panics.py:87-130 | a literal open at the end of a line leaves the lexer inside it |
| LinePieces.LiteralClosedLater | scripts/check_no_panics.py:87-130 | it ends at its quote on a later line, whose other pieces are read as code |
| TestContexts.TrackLine | scripts/check_no_panics.py:155-183 | one line's verdict and new block stack |
| TestContexts.LineTestContexts | scripts/check_no_panics.py:148-185 | the verdict on every line of a file |
| TestContexts.MaskOneMore | scripts/check_no_panics.py:155-156 | each line is masked in the mode the line before left |
| TestRegions.MarkedIff | scripts/check_no_panics.py:148-185 | a line is marked exactly if, by position, it starts in a test block or the block of a test item, or of an item in test code, has still to open |
| TestRegions.TestItemIsMarked | scripts/check_no_panics.py:161-170 | the line of `mod tests`, or of an item under a test attribute with only blank or attribute lines between, is marked |
| TestRegions.LinesToTheBlockAreMarked | scripts/check_no_panics.py:165-183 | so are the lines until its block opens |
| TestRegions.InsideTestItemIsMarked | scripts/check_no_panics.py:172-181 | so is every line that starts inside the block it opens, at any depth |
| TestRegions.MarkedHasTestItem | scripts/check_no_panics.py:148-185 | every marked line traces back to a test item at or above it |
| TestRegions.NoTestItemNoTestCode | scripts/check_no_panics.py:148-185 | a file without test items has no marked line |
| TestRegions.OpenIff | scripts/check_no_panics.py:172-181 | a block is open where a line starts exactly if since its brace never more braces closed than opened |
| TestContexts.TrackerInherits | scripts/check_no_panics.py:148-185 | over any file no production block stands above a test block, and a production item waits only outside tests |
| TestContexts.InsideTestIsTest | scripts/check_no_panics.py:158-170 | a line starting inside a test block at any depth is marked as test code |
| Utf8.CharLengthIff | src/tracing_fmt.rs:107-120 | the byte ranges of section 4 of RFC 3629 accept exactly the shortest forms of Unicode scalar values |
| Utf8.BoundaryIff | src/tracing_fmt.rs:107-120 | in valid UTF-8 the character boundaries are exactly the non-continuation bytes, with at most three continuation bytes in a row |
| Utf8.ValidConcat | src/tracing_fmt.rs:136-146 | joining valid UTF-8 gives valid UTF-8 |
| Utf8.Utf8Floor | src/tracing_fmt.rs:112-120 | the largest boundary not above the cap, at most three bytes below it |
| Utf8.FloorCharBoundary | src/util.rs:10-19 | the length for caps past the end, otherwise the largest boundary not above the cap |
| Utf8.FloorsAgree | src/util.rs:10-19 | two cuts that are both the largest boundary are equal, so both functions agree |
| Utf8.DropNewline | src/tracing_fmt.rs:138-143 | dropping a trailing newline keeps valid UTF-8 valid |
| Utf8.DigitsAreDecimal | src/tracing_fmt.rs:133-133 | the suffix names the true length |
| Utf8.EventBuffer.Write | src/tracing_fmt.rs:96-100 | appends the data |
| Utf8.EventBuffer.Drop | src/tracing_fmt.rs:122-171 | short events unchanged; long ones are cut at the floor, lose one trailing newline and gain the suffix; valid input gives valid output |
| EnvFile.UnescapeEscape | src/bootstrap.rs:202-202 | one-pass unescaping undoes the two-pass escaping of every value, so no bare quote is left |
| EnvFile.DecodeNewLine | src/bootstrap.rs:282-283 | a written line decodes to its value |
| EnvFile.LinesUnlines | src/bootstrap.rs:290-301 | reading written lines back drops one carriage return from each line end |
| EnvFile.LinesOfOpenEnd | src/bootstrap.rs:290-291 | a last line without a newline is a line too, and keeps its text |
| EnvFile.LinesAccountForAll | src/bootstrap.rs:290-291 | every text is finished lines and an open end, and its lines are exactly those |
| EnvFile.SetsOneKey | src/bootstrap.rs:284-284 | a line is the entry of at most one key |
| EnvFile.Upsert | src/bootstrap.rs:273-310 | the new text is the old lines with the key's first line replaced, later ones dropped, or one appended |
| EnvFile.UpsertLinesEffect | src/bootstrap.rs:288-307 | the key has exactly the new line; other keys' entries and other lines are unchanged |
| EnvFile.UpsertInPlace | src/bootstrap.rs:290-307 | the new line takes the place of the key's first line, or comes last if there was none |
| EnvFile.UpsertAll | src/bootstrap.rs:273-310 | a sequence of upserts, one after another |
| EnvFile.UpsertsRefineAMap | src/bootstrap.rs:273-310 | after any upserts on any file each touched key has exactly one line, which decodes to its last value |
| EnvFile.OtherLinesAfter | src/bootstrap.rs:290-301 | all other lines keep their order, and each loses one trailing carriage return per upsert |
| EnvFile.OtherLinesKeptIff | src/bootstrap.rs:290-301 | a sequence of upserts keeps all other lines exactly when it is empty or none of them ends in a carriage return |
| EnvFile.BareCarriageReturnIsLost | src/bootstrap.rs:290-301 | a file on which an upsert changes another line |
| TenantRegistry.NextKeepsInv | src/tenant.rs:812-831 | every step of every caller keeps the registry invariant and all entries |
| TenantRegistry.EntriesAreNeverReplaced | src/tenant.rs:812-831 | in every interleaving an entry once inserted stays |
| TenantRegistry.CallersShareByUser | src/tenant.rs:812-831 | two callers get the same state exactly when they asked for the same user |
| TenantRegistry.SomeoneCanMove | src/tenant.rs:812-831 | while a caller has not returned, some step is enabled |

## Left out

- CostRuns.DailyOverspendBound: stated for costs that cannot carry a total from below the limit past the u64 range of cents in one call; `HugeCallIsNotSeen` shows that such a call leaves the guard open.
- CostGuard.Guard.RecordLlmCallForUser: one date reading per call; the source reads the date twice, and a midnight between the two readings is not modelled.
- CostGuard.CallCost: Decimal is modelled by reals, rates are non-negative, and the price table lookup is a parameter.
- SettingsRoundTrip.SaveAndLoad: works on the serialized tree; which trees deserialize, and to what, is a parameter with the law in `Savable`, and printing and parsing are a parameter with the laws of `Faithful`.
- SettingsRoundTrip.CollectSettingsJson: nothing is claimed for trees with empty or dotted keys, whose names collide.
- ChatLoop.RespondWithTools: response cleaning, tool-call recovery from text and the wording of the merged system prompt are inside the arbitrary replies and prompt.
- ApprovalResume.ResumeApproved: one result stands for running the approved call; request-id checks and session state are not modelled.
- TestContexts.LineTestContexts: the regular expressions and `strip` are arbitrary functions.
- Per-model token counters, the 80% warning and `model_usage`: plain sums and logging.
- The job worker's and container's loop delegates: only the chat delegate is modelled.
- `ensure_ends_with_user_message`, `extract_suggestions`, `llm_signals_*`, `strip_internal_tool_call_text`: phrase lists and regular expressions.
- Status messages, redaction, image sentinels, the tool-output stash and the thread record: no effect on the transcript.
- `save_bootstrap_env_to` and `upsert_bootstrap_vars_to`: the same escaping without, or with a simpler, line rewrite; they would add easy members.
- File and network I/O, dotenvy's own substitution rules, tokio and its locks beyond atomic steps.
- Startup, wiring, tenant scopes, compaction of stored threads, job monitor, router, profile and error types.

# Models of the sp4rk framework

This project models the parts of sp4rk in which something can go subtly wrong, and proves what they promise:
for every plan, every text, every tree, every run and every interleaving. To verify it:

    dafny verify dfyconfig.toml

One module models one component; a module named `...Spec` holds the values and laws of the class next to it.

| modules | component |
|---|---|
| PlanDag, PlanValidator, PlanRun, TaskRunner | planned execution: readiness, carrying results into a new plan, plan validation, the wave loop with retry, reflection and replanning, the reported status |
| JsonText, JsonExtract | finding the JSON value in a model's answer: the backward brace scanner against the forward reading of RFC 8259 |
| Glob, IgnoreRules, IgnoreWalk | ignore files: patterns, scoping, and the walk that prunes by what it has gathered |
| CacheSpec, ToolCache | the tool-result cache and its short keys |
| Utf8, Truncation | the two truncation stages and the way back to the full text |
| ExecutorSpec, Breakers, Executor | the agent loop: budgets, circuit breakers, the user's decisions, the mutation gate, response groups, verification after edits |
| EmbedSpec, Tokenization, OnnxSession, Embedder | embedding one text and many: rows, tensors, pooling, batches, buckets |
| Pipeline | the one-ahead pipeline as a machine over all interleavings |
| ProviderLadder | the execution-provider ladder and the native option handles |
| Chunker | cutting files into chunks with sizes and line numbers |
| ModelNames | model identifiers: postfix stripping, normalization, the index |
| GoogleWire | conversations to Google turns and back |
| Prelude, Strings | shared vocabulary |

Code that changes state step by step is a class or a loop here too, proved against a specification function whose
laws are the main results. Answers of models, tools, users, runtimes and clocks are arbitrary: a nondeterministic
choice inside a method, or a parameter. Ghost books kept beside a run (the executor's `Ledger` with what the user
decided and what ran, the ladder's handles and what it `asked` the runtime for, the plans `offered` to a task run)
and ghost results (the answers a method was given) say what happened; they decide nothing.

## Where code and comments part

- Duplicate step ids make a complete run report Partial without any cycle (`DuplicateIdsReportPartial`); the planner
  rejects such plans, `runPlanned` itself does not check. A negative retry bound records steps as failed without an
  attempt.
- `completedInOrder` says that steps unknown to the plan are appended; the code drops them, and so does the model.
- `ExtractJSON` speaks of the longest value; the code takes the last one to close, and so does the model.
- agent/tool_cache.go:214-217 says that a retired full-length key cannot exist; `FullLengthKeyReissued` builds one.
  What holds always is that no key is ever handed to a different hash. `Store` also returns the key of an expired
  duplicate (`StaleDuplicate`).
- `lineCount` counts no line for the empty string, so a config file split behind an empty first part reports every
  line one too small (`ShiftedExample`); `ConfigLinesIff` says exactly when.
- A message that is not skipped can still render an empty turn (`EmptyTurnExample`); `EmptyTurnsIff` says exactly
  when. A thought signature is lost on names that contain the separator (`SignatureLostExample`);
  `SignatureSurvives` says exactly when.
- A content-backed result that spells the path, modification time and size of a stored file, joined by NULs, gets
  that file's key, and a lookup brings back an entry without the text: `TwinExample`; `RecoveredIff` says exactly
  when a stored result comes back whole.
- When a circuit breaker asks the user, a denial ends the run if and only if no interception was flagged earlier in
  the same response: the four checks ensure it (`Judged`). `DeniedAfterRejection` runs the failing case: a rejected
  call, repeated, and then denied.
- Behind an error the thresholds for identical calls drop by one, to be lower; one that is 1 drops to 0,
  which is off. `LoweringIff` says when lowering is lowering.
- A pause in mid-call flushes a pending verification, but abandons a verifier that does not return in time; a pause
  at a step boundary flushes nothing (`Round`). `EndsVerified` says which endings leave an edit unverified;
  `PausedAbandoned` and `PausedUnverified` run a response that ends so at either pause.
- The comment in `runPlanned` says that a refused replan ends in a partial result; it is reported Failed when some
  step has failed (`StatusFits`). Validation accepts dependencies on the previous plan's ids, which a run resolves
  only if the new plan repeats them: `AcceptedSucceedsIff` says exactly when an accepted plan can succeed.
- A provider in front of a model name that itself has a slash changes the normalized name (`SlashedNameDiffers`);
  `VendorInvisibleIff` says exactly when it does not.

## Model

The main results come first, component by component; then the operations and lemmas they rest on.

| member | source | states |
|---|---|---|
| TaskRunner.TaskRun.RunPlanned | task.go:278-391 | for every sequence of outcomes: termination, at most MaxReplans further plans, which are exactly those the planner gave, in order; dependency order and attempt budget under each; aborted if and only if a reflection said "abort", cancelled if and only if the context said so in front of a wave; the reported status, why a Partial is partial, that a faultless run of a sound plan runs each step exactly once and reports Success, and that behind a refused replan it never does |
| PlanRun.SuccessIffWellFormed | task.go:316-433 | with every attempt a success, the report is Success if and only if the plan is closed, acyclic and has unique ids |
| PlanRun.AcceptedSucceedsIff | planner/planner.go:1002-1075 | a validated plan whose attempts all succeed reports Success if and only if it leans on no id of a previous plan; without a previous plan it always does |
| PlanRun.PartialExplained | task.go:403-433 | a drained, failure-free Partial has a duplicate id, or a dangling dependency or cycle among the steps that never ran |
| PlanRun.SuccessRunsEachOnce | task.go:333-433 | Success means that every step was carried over or ran, and no step ran twice |
| PlanDag.StuckHasCycle | task.go:316-332 | a non-empty set of steps none of which can ever become ready contains a dangling dependency or a dependency cycle |
| PlanDag.BuildCarryForward | orchestration/dag.go:46-90 | the results carried into a new plan are the one largest set of error-free results whose in-plan dependencies are carried too; nil when that set is empty |
| PlanValidator.ValidatePlanDAG | planner/planner.go:1014-1075 | accepts exactly the plans with unique ids, resolvable dependencies and no cycle, and names the first violated check |
| Executor.Executor.Run | agent/executor.go:1403-1614 | every finite prefix of every run: every response is accounted for (each call served in order, with the steps it left, or one broke the response off), settled books, the resumed steps in front, the promise of its ending, failure only when something outside failed in the last round, a verification abandoned only at a pause that says so, and at most max(0, maxSteps - resumed + granted) model calls unless unlimited |
| ExecutorSpec.AccountedMeans | agent/executor_run.go:855-1113 | an account in plain terms: whatever happened concerns a call of the response or of one of its batches; whatever ran had been allowed right before, and ran with the changed input if there was one; a response that was not broken off left one step for each of these calls, in order and in its group |
| ExecutorSpec.ServedMeans | agent/executor_run.go:809-845 | calls that were all served ran only as allowed and left one step each, in order, a batch one for every sub-call |
| Executor.Executor.SettledMeans | agent/executor_run.go:809-1113 | settled books in plain terms: exact counts of mutations and edits, contiguous unshared response groups, the debounce equivalence, no response verified twice |
| Executor.Executor.FinishedMutated | agent/executor_run.go:1198-1333 | under a required mutation an inline finish is reported finished if and only if a successful mutation was resumed with or dispatched |
| Executor.Executor.EndsVerified | agent/verify_on_edit.go:146-255 | a finish leaves no edit unverified; a pause in mid-call leaves one if and only if its verification was abandoned; any other ending if and only if a verification is pending |
| Executor.Executor.ProcessToolCalls | agent/executor_run.go:809-845 | a multi-call response gets a group above every group of the trajectory; all its calls are served in order, each with the steps it left, or one of them breaks the response off; a rejection raises the flag |
| Executor.Executor.ProcessSingleToolCall | agent/executor_run.go:855-1113 | on every path: a call runs only behind the leave of the user, with the input the user gave; a rejected one runs nowhere and leaves one rejected step; successes recorded equal successes dispatched, the group stays one block, at most one verification, pending as specified |
| Executor.Executor.ProcessBatchTool | agent/executor_run.go:1419-1770 | the same for a batch and each of its sub-calls, in order, nested batches and wrapped finishes included; a batch without calls reaches no hook |
| CacheSpec.NeverAliased | agent/tool_cache.go:149-317 | a key never resolves to an entry with another full hash, whatever happened before and happens after |
| CacheSpec.RecoveredIff | agent/tool_cache.go:149-317 | the key of a stored result brings back the whole result at any later time if and only if the entry has not expired and no entry of the other kind spells the same |
| CacheSpec.RecoveredInRun | agent/tool_cache.go:149-360 | the same after any sequence of operations on an empty cache; an entry of the other kind is always the doing of an earlier store |
| CacheSpec.RecoveredLater | agent/tool_cache.go:149-360 | however the run goes on, the key brings back the whole result or nothing, unless the run stores the same spelling in the other kind; a result without time limit is never lost |
| CacheSpec.RunInv | agent/tool_cache.go:149-317 | these invariants hold along every sequence of stores, lookups and evictions |
| CacheSpec.ReissuedIff | agent/tool_cache.go:214-230 | a used key is handed out again if and only if every prefix of the hash, itself included, is used |
| ToolCache.ToolResultCache.Store | agent/tool_cache.go:149-207 | computes the specified new table; the key returned was issued for exactly the stored hash, and earlier keys keep theirs |
| Truncation.ResultPipeline.ProcessToolResult | agent/executor_run.go:1781-1866 | the full result is stored if and only if the tool is cacheable or bytes are dropped; whenever bytes are dropped with a cache installed, the key is not empty, occurs in the text, and at any later time a lookup under it brings back the whole result if and only if the entry has not expired and no entry of the other kind spells the same |
| Truncation.BudgetPrediction | agent/executor.go:1037-1120 | the prediction is true exactly when stage 2 drops bytes; the kept prefix is valid and ends at most three bytes below the limit |
| Truncation.Stage1Utf8 | agent/executor.go:1140-1170 | on valid UTF-8 the kept text is valid and a byte cut ends at most three bytes below the limit |
| Truncation.Stage1Means | agent/executor.go:1140-1170 | what is kept: the configured number of whole lines or all there are, and of these the longest valid prefix within the byte limit |
| Truncation.ComputeBudgetCap | agent/executor.go:1037-1052 | off exactly without a hard cap; above the minimum the cap is the hard one or the whole number of tokens in the fraction of what is available |
| Truncation.WillBudgetTruncate | agent/executor.go:1060-1073 | at four bytes a token, exactly what is longer than the cap by a whole token is cut |
| JsonExtract.ExtractsObject | llm/jsonutil.go:34-104 | an object embedded in text without fences, with no closing brace behind it, is returned exactly |
| JsonExtract.ExtractMeans | llm/jsonutil.go:15-108 | for every text: the block between the line of the first fence and the next fence if the validator accepts it, else the accepted object that closes last, else the trimmed text |
| JsonExtract.ExtractsDespite | llm/jsonutil.go:34-104 | an embedded object is returned exactly, whatever closing braces follow it, as long as nothing that closes there is accepted |
| JsonExtract.BackwardIsForward | llm/jsonutil.go:44-94 | scanning leftwards, string flag and brace depth agree with the forward lexer at every position |
| JsonExtract.ParityIsEscape | llm/jsonutil.go:56-76 | inside an object, the backslash parity to the left is odd exactly where the forward lexer has an escape pending |
| JsonExtract.ExtractsFenced | llm/jsonutil.go:20-33 | a fenced value is returned without fence, language tag and surrounding blanks, whatever stands in front, as long as the first fence is on the line before it |
| JsonExtract.ExtractJSON | llm/jsonutil.go:15-108 | the loops compute the specified extraction |
| JsonText.RunValue | llm/jsonutil.go:34-104 | the forward lexer crosses any JSON value (RFC 8259, sections 2 to 7) and is back at the same depth outside strings |
| IgnoreWalk.PruningKeepsMatch | ignore/ignore.go:241-262 | pruning changes no verdict of Match |
| IgnoreWalk.MatchMeans | ignore/ignore.go:225-514 | end to end: Match says ignored if and only if a line of an honoured file outside .git directories, or an extra line, hits the path or one of the directories above it |
| IgnoreRules.NameLine | ignore/ignore.go:442-514 | a line without slash, or with a final one alone, matches exactly the paths at any depth below its directory whose last segment it matches; a final slash restricts it to directories |
| IgnoreRules.PathLine | ignore/ignore.go:442-514 | a line with a leading or inner slash matches exactly what its body matches directly below its directory; a final slash restricts it to directories |
| IgnoreWalk.OriginQueryMissesOnlyIgnored | ignore/ignore.go:287-306 | an .aiignore-only query never says too much, and where it says less than the unpruned one the path is ignored anyway |
| IgnoreWalk.VisitingOrderIrrelevant | ignore/ignore.go:341-405 | two visiting orders over the same ignore files give the same verdicts |
| IgnoreWalk.Resolver.Load | ignore/ignore.go:341-405 | the walk appends to the patterns exactly what the pruned specification gathers |
| Embedder.Embedder.EmbedDocuments | embedding/embedder.go:668-775 | in every mode and for every batch size, position i of an answer is the embedding of text i: the unit vector of the masked mean of the hidden values over the tokens of that text, cut to the limit; every error has its cause |
| Embedder.Embedder.EmbedLengthBuckets | embedding/embedder.go:792-842 | each result is its text embedded alone, and each index is written exactly once |
| Embedder.Embedder.EmbedFixedPipeline | embedding/pipeline.go:81-123 | the pipelined chunks give the same; an error names a text that does not encode or trouble outside |
| OnnxSession.OnnxSession.RunBatch | embedding/onnx.go:355-394 | exact error cases; each vector depends on its own row alone, whatever earlier calls left in the tensors |
| EmbedSpec.BucketVector | embedding/embedder.go:778-842 | cutting an encoded row to any length that holds its tokens keeps its vector |
| EmbedSpec.EmbeddingMeans | embedding/onnx.go:423-468 | the embedding of a text, coordinate by coordinate, from its tokens, the hidden values and the mask |
| Pipeline.InOrderOneAhead | embedding/pipeline.go:30-55 | items arrive as 0, 1, 2 without loss; at most one finished item waits; call i + 1 starts only after item i was taken |
| Pipeline.ItemStands | embedding/pipeline.go:37-55 | the item handed over by call i is item i of everything received from then on |
| Pipeline.StopReports | embedding/pipeline.go:57-65 | stop returns nil exactly when all items were taken, a produce error exactly when a call failed, and the producer is past its last call |
| Pipeline.StopNeverBlocks | embedding/pipeline.go:57-65 | inside stop, the join is ready or the producer can move, whatever produce answers |
| Pipeline.RunsAreBounded | embedding/pipeline.go:33-65 | every interleaving is finite |
| ProviderLadder.Ladder.Open | embedding/embedder.go:375-640 | behind a successful initialization and load an auto request fails only if every rung was tried and failed, in order, and then the CPU too; an explicit one only if its provider was refused and, for OpenVINO, each counted device too; then nothing is left alive; on success one handle is held, of the recorded provider: the asked one, or the first rung of the ladder that did not fail, or the CPU when all did |
| ProviderLadder.Lifetime | embedding/embedder.go:297-1126 | for every request and any number of sessions wanted, every handle ever built is dead at the end and no other handle was touched |
| ProviderLadder.Ladder.NewSessionWithFallback | embedding/embedder.go:909-967 | an explicit request never changes provider; an auto request without sessions ends on the first remaining rung that comes up, or the CPU; it fails only when the provider with its devices, and for an auto request every remaining rung and the CPU, was refused |
| Chunker.ChunkFile | embedding/chunker.go:49-99 | the chunks are the pieces its kind of file is cut into, without the blank ones: each a stretch of the text on exactly its lines, bounded and not blank; every rune that is not white space is in some chunk; empty and binary files give none |
| Chunker.ConfigLinesIff | embedding/chunker.go:324-347 | the line numbers of a config file are right if and only if it is not split behind an empty first part |
| Chunker.JsonKeyShape | embedding/chunker.go:349-357 | a JSON line starts a section exactly when it is an indented quoted name with a colon |
| Chunker.YamlKeyShape | embedding/chunker.go:371-383 | a YAML line does exactly when it is an unindented name with a colon |
| Chunker.GenericKeyShape | embedding/chunker.go:395-405 | any other config line does exactly when it is not indented, not blank and no comment |
| Chunker.HeadingShape | embedding/chunker.go:298-308 | a Markdown line does exactly when it is a second-level heading |
| ModelNames.ChainInvisible | llm/modelregistry.go:936-942 | no chain of recognized postfixes, in any letter case, changes the normalized name |
| ModelNames.NormalizedIs | llm/modelregistry.go:889-942 | the normalized name of a vendor, a base, any chain of postfixes and an @ qualifier is the base in lower case without separators |
| ModelNames.EveryNameReads | llm/modelregistry.go:889-942 | every identifier reads so |
| ModelNames.PostfixMeans | llm/modelregistry.go:787-880 | the recognized postfixes are exactly a separator and a core, a width and "bit" apart, or a variant: mtp, oq with a number and e, or fp, q, bf with a number and perhaps b or bit |
| ModelNames.BuildNormalizedIndex | llm/modelregistry.go:1027-1047 | every normalized name maps to the value of the smallest key of its class by lower-case, then raw spelling |
| ModelNames.IndexUnique | llm/modelregistry.go:1027-1047 | there is only one such table, so the iteration order cannot matter |
| ModelNames.KeyLessMeans | llm/modelregistry.go:1027-1047 | of two keys the one that comes first in lower case wins, and between spellings that differ in case alone the one that comes first as it is |
| ModelNames.VendorInvisibleIff | llm/modelregistry.go:936-942 | a provider in front does not change the normalized name if and only if the model has no slash, or an @ stands before its first slash and what precedes that slash has the same normalized name |
| GoogleWire.RoundTrip | llm/provider_google.go:411-431 | replaying a parsed response sends back the same calls, arguments and signatures if and only if every name carries its signature |
| GoogleWire.CallsAnswered | llm/provider_google.go:306-342 | n calls followed by their n results are answered by one turn of n responses, the k-th named after the k-th function |
| GoogleWire.OrderKept | llm/provider_google.go:306-342 | grouping loses, repeats and moves no part |
| GoogleWire.NamesFaithful | llm/provider_google.go:451-478 | every response is named after the function called if and only if calls sharing an identifier share the name |
| GoogleWire.EmptyTurnsIff | llm/provider_google.go:335-341 | no empty turn is sent if and only if every message that is not skipped renders something |
| PlanDag.FindReadySteps | orchestration/dag.go:12-38 | returns, in plan order, the steps a recursive specification selects |
| PlanDag.ReadyIff | orchestration/dag.go:12-38 | a step is ready if and only if it is not completed and every dependency completed without error |
| PlanDag.TopologicalAcyclic | planner/planner.go:1014-1075 | an order that lists every step after its in-plan dependencies proves the plan acyclic |
| PlanValidator.Search.Visit | planner/planner.go:1051-1075 | the colouring search fails only on cyclic plans and otherwise leaves the node finished and the path as it was |
| PlanValidator.HasDuplicate | planner/planner.go:1015-1021 | finds a repeated id exactly when there is one |
| PlanValidator.HasUnknown | planner/planner.go:1023-1029 | finds a dependency that resolves neither to the plan nor to earlier ids, exactly when there is one |
| PlanValidator.BuildDeps | planner/planner.go:1039-1049 | the table of in-plan dependencies of every step |
| PlanDag.AcceptsWellFormed | planner/planner.go:1002-1075 | without a previous plan validation accepts exactly the plans with unique ids, closed dependencies and no cycle |
| PlanRun.PlanCompletionStatus | task.go:407-433 | precedence aborted, paused, failed, partial, success; incomplete exactly when partial; success means no failed step |
| PlanRun.CompletedInOrder | task.go:454-469 | the completed steps in plan order; without a plan each of them once, in any order |
| PlanRun.CandidatesInOrder | task.go:454-469 | listing results in plan order offers for carrying exactly the error-free results of steps known to both plans |
| PlanRun.DuplicateIdsReportPartial | task.go:407-433 | when every id completed, the report is Partial if and only if the plan repeats an id |
| PlanRun.DrainedIsStuck | task.go:316-332 | without failures, when nothing is ready the unrun steps are stuck |
| PlanRun.StartsDistinct | task.go:333-348 | under a plan with unique ids no step starts twice |
| PlanRun.CoveringStartsWellFormed | task.go:316-433 | starts in dependency order that cover the plan prove it closed and acyclic |
| TaskRunner.TaskRun.SwitchModelMidLoop | task.go:441-448 | a failed switch is reported and survived; otherwise the asked model is active |
| TaskRunner.TaskRun.Reflect | task.go:541-593 | the run is aborted if and only if the reflection says "abort", and gets a plan if and only if it says "replan" and the planner gives one; whatever it decides, the execution model is back in force |
| TaskRunner.TaskRun.RunStep | task.go:481-594 | at most MaxRetries + 1 attempts, only the last of which may succeed or pause; reflections behind every other one, if there is a reflector, and no attempt behind an abort or an offered plan; exactly one result may change, with the message of the last attempt that has one |
| TaskRunner.TaskRun.Consult | task.go:541-593 | the step is over if and only if the advice is to abort or to adopt the plan the planner gives |
| TaskRunner.TaskRun.TryStep | task.go:499-540 | one attempt and, unless it succeeded, paused or was cancelled, its reflection; what follows from both, exactly |
| TaskRunner.TaskRun.Prepare | task.go:287-313 | the plan is the one the planner gave; a refusal names what failed, and nothing has started |
| TaskRunner.TaskRun.RunWave | task.go:333-348 | running a wave keeps dependency order, attempt budget and multiplicity, and completes another step unless stopped |
| TaskRunner.TaskRun.Settle | task.go:339-370 | a stop is classified by what stopped the wave; a replan is adopted while the budget lasts |
| TaskRunner.TaskRun.AdoptReplan | task.go:349-370 | an adopted plan starts from the greatest supported part of the old results, the only one there is |
| TaskRunner.TaskRun.Round | task.go:333-371 | every round asks the context first, and adopts one of at most MaxReplans plans, or completes another step, or stops |
| TaskRunner.TaskRun.Loop | task.go:333-371 | the loop ends for every sequence of answers, with at most MaxReplans adopted plans |
| JsonExtract.MatchBrace | llm/jsonutil.go:44-94 | the inner loop returns what the leftward specification finds |
| JsonExtract.FindFenced | llm/jsonutil.go:20-33 | the block starts behind the line of the first fence and ends at the next fence; none is found exactly when there are no such places |
| JsonExtract.ObjectMatched | llm/jsonutil.go:34-104 | started on an object's closing brace, the scan returns its opening brace |
| JsonExtract.LastAccepted | llm/jsonutil.go:34-104 | refused candidates behind an accepted object do not matter |
| JsonExtract.ExtractSound | llm/jsonutil.go:15-108 | what is returned passed the validator or is the whole trimmed text |
| Glob.Scoped | ignore/ignore.go:478-493 | a literal directory prefix restricts a glob to that directory |
| Glob.AnyDepth | ignore/ignore.go:478-493 | `**` before one segment matches at every depth |
| Glob.StarMeans | ignore/ignore.go:308-323 | a star matches any characters of one segment |
| Glob.CharMeans | ignore/ignore.go:308-323 | a question mark matches one character, any other one itself |
| Glob.AnyMeans | ignore/ignore.go:308-323 | two stars match any segments |
| Glob.SegmentMeans | ignore/ignore.go:308-323 | any other segment of a glob matches one segment |
| IgnoreRules.ParsePatternLines | ignore/ignore.go:442-472 | blank, comment and negation lines give no pattern, every other line one, in order |
| IgnoreRules.UnanchoredMeaning | ignore/ignore.go:478-514 | a name without inner slash matches at any depth beneath its directory and nowhere else |
| IgnoreRules.AnchoredMeaning | ignore/ignore.go:478-514 | an anchored pattern matches exactly what its body matches directly beneath its directory |
| IgnoreRules.ParsedScoped | ignore/ignore.go:442-514 | no pattern of a directory's file matches outside that directory |
| IgnoreRules.SilentLine | ignore/ignore.go:442-472 | blank lines, comments, negations and bare slashes match nothing |
| IgnoreRules.LineShapes | ignore/ignore.go:442-514 | every line is of one of these shapes |
| IgnoreRules.FileMeaning | ignore/ignore.go:241-472 | the patterns of a file match a path if and only if one of its lines hits the path or a directory above it |
| IgnoreRules.IdleSegments | ignore/ignore.go:241-248 | an empty segment, a dot, or a name and the way back changes no verdict |
| IgnoreRules.OutsideNeverIgnored | ignore/ignore.go:241-247 | the root itself and what lies outside it is never ignored |
| IgnoreRules.MatchOneLoop | ignore/ignore.go:308-323 | some pattern of the asked origin matches, directory-only patterns on directories alone |
| IgnoreRules.MatchLoop | ignore/ignore.go:241-262 | the path or one of its ancestor directories is matched; paths outside the root never are |
| IgnoreWalk.Resolver.Match | ignore/ignore.go:232-262 | the verdict of the gathered patterns of every origin |
| IgnoreWalk.Resolver.IgnoredByAIIgnore | ignore/ignore.go:296-306 | the verdict of the .aiignore patterns alone |
| IgnoreWalk.BlockedStillIgnored | ignore/ignore.go:241-262 | what a blocked pattern would match is ignored through the directory that blocks it |
| IgnoreWalk.KeptOrBlocked | ignore/ignore.go:341-405 | every pattern of an ignore file is gathered, or lies below a pruned directory that the gathered patterns ignore |
| ToolCache.ToolResultCache.AbbreviateLocked | agent/tool_cache.go:218-230 | the shortest prefix of at least the minimum length that is neither live nor retired, else the full hash |
| ToolCache.ToolResultCache.EvictExpiredLocked | agent/tool_cache.go:352-360 | removes and retires exactly the expired entries, whatever the iteration order |
| ToolCache.ToolResultCache.ResolveLocked | agent/tool_cache.go:243-278 | an issued key, or the one entry whose full hash begins with the text; nothing for retired or ambiguous text |
| ToolCache.ToolResultCache.Get | agent/tool_cache.go:285-317 | returns a live entry, drops and retires an expired one |
| ToolCache.ToolResultCache.Len | agent/tool_cache.go:363-367 | how many different results are held |
| CacheSpec.StoreInv | agent/tool_cache.go:149-207 | a store keeps the tables mutually inverse, keys prefixes of their hashes, used keys growing |
| CacheSpec.LiveIsFound | agent/tool_cache.go:243-317 | every live unexpired entry is found by its key and by its full hash |
| CacheSpec.StoreThenGet | agent/tool_cache.go:149-317 | a stored result is found later exactly until its entry expires |
| CacheSpec.RunKnown | agent/tool_cache.go:149-360 | along every run each entry carries the hash of what it describes and goes back to a store of the run: its tool, file, input and time are those of that store, and it runs out a time limit behind it if the tool was an MCP tool, and never otherwise |
| CacheSpec.StoreEffect | agent/tool_cache.go:149-207 | a store touches no other entry, except that every hundredth one that adds an entry drops and retires exactly the expired ones |
| CacheSpec.ResolveMeans | agent/tool_cache.go:243-278 | a text that is no key finds an entry if and only if it begins the full hash of that one alone, is not empty and is no retired key |
| CacheSpec.FileTextTells | agent/tool_cache.go:129-135 | the hashed text of a file determines path, time and size, whatever the path contains |
| CacheSpec.TwinExample | agent/tool_cache.go:149-172 | a content-backed store that returns the key of a file-backed entry without the content, for every hash function |
| CacheSpec.StaleDuplicate | agent/tool_cache.go:164-172 | storing what is still in the table but expired returns a key that a lookup no longer finds |
| CacheSpec.FullLengthKeyReissued | agent/tool_cache.go:214-230 | a concrete run after which the full-length key is retired and is handed out again |
| Utf8.WalkBackLoses | agent/executor.go:1155-1168 | walking back to valid UTF-8 (RFC 3629, section 4) gives up at most three bytes of valid text |
| Truncation.ApplyPerToolTruncation | agent/executor.go:1140-1170 | keeps a prefix; reports truncation exactly when bytes are missing |
| Truncation.ApplyToolResultBudget | agent/executor.go:1077-1120 | renders the kept prefix and, when bytes were dropped, the notice |
| Truncation.NudgesShowKey | agent/executor.go:1179-1216 | both recovery nudges contain the key |
| ExecutorSpec.CountedMutation | agent/executor_run.go:281-307 | the mutation count is positive exactly when a scan finds a successful mutation |
| ExecutorSpec.GroupKeepsBlocks | agent/executor_run.go:812-838 | another step of the open group keeps equal groups contiguous blocks of one response |
| Executor.Executor.HasMutatingToolExecuted | agent/executor_run.go:300-307 | the scan finds a successful mutation exactly when there is one |
| Executor.Executor.CountProductiveToolCalls | agent/executor_run.go:347-367 | the loop counts the productive calls |
| Executor.Executor.RunVerifyOnEditHook | agent/verify_on_edit.go:146-167 | pending holds exactly when an edit succeeded after the last verification; behind the last call nothing is pending |
| Executor.Executor.FlushPendingVerifyOnEdit | agent/verify_on_edit.go:175-181 | afterwards nothing is pending, and at most one verification was added |
| Executor.Executor.FlushPendingVerifyOnEditAtCheckpoint | agent/verify_on_edit.go:216-255 | a pause in mid-call leaves nothing pending; the edits are verified, or the verification is abandoned with a note and they stay unverified |
| Executor.Executor.AbandonVerification | agent/verify_on_edit.go:239-252 | a late verifier: nothing is pending any more, one note is recorded, no edit is verified |
| Executor.Executor.ExecuteToolCall | agent/executor_run.go:935-985 | what runs is noted with name, input and outcome; a success enters the ledger of mutations and edits when it is observed, before anything is recorded |
| Executor.Executor.CheckRepeatIdenticalTool | agent/executor_run.go:1870-1987 | the user is asked exactly when the run of identical calls reaches the abort threshold, which drops by one after an error; a denial ends the run if and only if nothing was flagged before; an intercepted call is recorded as an error; nothing is granted |
| Executor.Executor.CheckFruitlessResult | agent/executor_run.go:1991-2079 | exempt tools always pass; for others the user is asked exactly when the count of minimal results reaches the threshold, and a denial ends the run if and only if nothing was flagged before; a reprieve resets the count |
| Executor.Executor.CheckSameToolRepetition | agent/executor_run.go:2085-2201 | the same for similar results of one tool; a success after an error starts afresh |
| Executor.Executor.CheckParseErrors | agent/executor_run.go:2220-2293 | the same for failed calls with unparsable input; a success resets the count |
| Breakers.KeyTells | agent/executor_run.go:1879 | two calls count as identical if and only if they name the same tool and their inputs have the same compact form |
| Breakers.RepeatsInARow | agent/executor_run.go:1880-1905 | the same call m times in a row counts m, and the next one is stopped if and only if m + 1 reaches a threshold that is on |
| Breakers.LoweringIff | agent/executor_run.go:1889-1901 | behind an error the threshold is one lower, and trips no later than without the error if and only if it was not 1: a threshold of 1 is switched off instead |
| Breakers.FruitlessSince | agent/executor_run.go:2000-2020 | the count of minimal results is how many successes there were since the last one that was not minimal; errors leave it alone |
| Breakers.AlikeInARow | agent/executor_run.go:2094-2144 | as many results of one tool as are alike in a row count as many; another one, or a success behind an error, starts afresh |
| Breakers.ExemptClears | agent/executor_run.go:2094-2108 | an exempt tool passes both counts and clears them |
| Breakers.ParseErrorsInARow | agent/executor_run.go:2220-2293 | unparsable inputs of one tool in a row count as many; a success clears the count |
| Breakers.StopsMeans | agent/executor_run.go:1034-1113 | a result ends the response if and only if a stop tool succeeded or one of the counts reached an abort threshold, or a nudge threshold not used before |
| Executor.Executor.AskForReprieve | agent/executor_run.go:1902-1941 | a reprieve nudges once, flags an interception and grants no iteration; a denial leaves no trace |
| Executor.DeniedAfterRejection | agent/executor_run.go:1902-1948 | a concrete response in which a denial is not honoured: the call was rejected before, then repeated |
| Executor.Executor.FinishGates | agent/executor_run.go:1152-1290 | a finish passes exactly when guard, mutation gate and both checklist gates have no objection; the first that objects leaves one nudge and, except the guard, spends itself |
| Executor.Executor.HandleFinishCall | agent/executor_run.go:1140-1335 | accepted if and only if no gate objects; an accepted finish has nothing pending and is reported finished exactly when a required mutation is in the trajectory; a refused one leaves one nudge; unfinished only after the mutation nudge |
| Executor.Executor.StopToolTermination | agent/executor_run.go:1360-1415 | ends the run if and only if a stop tool succeeded and the guard does not object; an objection leaves one nudge |
| Executor.Executor.RecordRejected | agent/executor_run.go:913-963 | a rejected call is recorded as one rejected error step and raises the flag, and verification an earlier edit left pending still happens behind the last call |
| Executor.Executor.FinishDispatch | agent/executor_run.go:985-1110 | the response goes on if and only if no breaker stops the result and no stop tool succeeded; then exactly the step of the call is recorded, and a dispatched mutating success always reaches its step |
| Executor.Executor.ProcessSubCall | agent/executor_run.go:1490-1767 | one sub-call: the same account as for a direct call; nested batches are errors, a refusing handler and a broken tool leave an error step, a finish ends the run as a direct one does |
| Executor.Executor.ProcessLeaf | agent/executor_run.go:855-960 | a call outside any batch: the repeat breaker stops it exactly when its count reaches a threshold, and otherwise the user decides before anything runs |
| Executor.Executor.CheckResult | agent/executor_run.go:1034-1085 | a result passes if and only if neither the count of minimal results, nor that of similar ones, nor that of unparsable inputs reaches a threshold, and the counts behind it are those specified |
| Executor.Executor.HandleResponse | agent/executor.go:1540-1600 | the account of this response is the latest and in order; the calls of a response cut off at the token limit are not run |
| Executor.Executor.HandleImplicitFinish | agent/executor_run.go:574-712 | a text-only answer is nudged, each kind a bounded number of times, aborted or accepted; accepted means finished with nothing left to verify |
| Executor.Executor.HandleTruncation | agent/executor_run.go:715-806 | a cut-off call is recorded as an error and never counts as a mutation; a reprieve grants nothing |
| Executor.Executor.HandleStepLimitBoundary | agent/executor_run.go:71-127 | the only place that grants, and exactly what the answer allows: one, the configured budget (at least one), or no limit; a denial ends the run; going on implies being within the limit |
| Executor.Executor.CallLLM | agent/executor_run.go:136-258 | one call of the model is counted; a failed call is forgiven once, until a step completes |
| Executor.Executor.AfterStep | agent/executor_run.go:2296-2368 | the wrap-up nudge fires once from three steps before the limit, the checklist nudge at most twice, three productive calls after an update; a full context is compacted once |
| Executor.Executor.Round | agent/executor.go:1464-1606 | one round calls the model at most once, and only within the limit; going on means one more call of the model and one more account of a response, or a forgiven failure; a pause between two steps calls and verifies nothing |
| Executor.Executor.StartRun | agent/executor.go:1427-1462 | a fresh run over the resumed steps, its group counter past all their groups |
| Executor.PausedUnverified | agent/executor.go:1502-1510 | a concrete response behind which a pause between two steps leaves an edit unverified |
| Executor.PausedAbandoned | agent/verify_on_edit.go:239-255 | a concrete response whose second call pauses and leaves the edit of the first unverified, the verifier being late |
| EmbedSpec.PaddingIrrelevant | embedding/onnx.go:423-468 | trailing padding changes no pooled vector |
| EmbedSpec.UnitLength | embedding/onnx.go:453-463 | every vector has length one, or is the zero vector |
| EmbedSpec.PoolAgrees | embedding/onnx.go:428-449 | pooling reads hidden values at unmasked positions only |
| Tokenization.EncodeWithLength | embedding/tokenizer.go:101-150 | token p of the row is token p of the text, with its mask and type, up to the least of the three lengths and the limit; behind that all is zero; it fails exactly when the limit is below two or the text has no tokens |
| Tokenization.EncodeBatchWithLengths | embedding/tokenizer.go:227-249 | the tokens of text i stand in row i of the flat tensors, with zeros behind them; it fails exactly when some text does not encode |
| Tokenization.BatchRow | embedding/tokenizer.go:227-249 | row i of the flat tensors is the encoding of text i |
| Tokenization.EncodesAll | embedding/tokenizer.go:227-249 | a batch encodes if and only if each of its texts does |
| OnnxSession.PoolRow | embedding/onnx.go:428-465 | the accumulation loops compute masked mean and normalization of one row of the output tensor |
| OnnxSession.NormalizeInPlace | embedding/onnx.go:453-463 | the in-place loops compute the normalized vector |
| OnnxSession.MeanPoolAndNormalize | embedding/onnx.go:425-468 | row b of the answer is the pooled row b, for every row |
| OnnxSession.PooledRow | embedding/onnx.go:355-394 | pooling the output tensor over a row gives the vector of that row |
| OnnxSession.OnnxSession.Run | embedding/onnx.go:321-347 | the same for the session of capacity one |
| Embedder.SmallestBucket | embedding/embedder.go:778-788 | the bucket holds the text, does not exceed the limit, and is the smallest that does |
| Embedder.SequenceBucket | embedding/embedder.go:778-788 | the loop picks that bucket |
| Embedder.GroupRows | embedding/embedder.go:793-802 | every used bucket once, each with exactly its texts in order |
| Embedder.Gather | embedding/embedder.go:812-822 | row r of the gathered tensor is the cut row of the r-th chosen text |
| Embedder.Embedder.RunBucket | embedding/embedder.go:805-838 | the vectors of one bucket chunk are those of its texts alone |
| Embedder.Scatter | embedding/embedder.go:836-838 | each chosen index receives its vector and is written once more; the others stay |
| Embedder.Embedder.EmbedChunks | embedding/embedder.go:742-772 | serial chunks of any batch size give every text's own vector, in order |
| Embedder.Embedder.EmbedQuery | embedding/embedder.go:1060-1069 | a query is embedded as a document of its own, to the vector its tokens and hidden values give, with the same causes of errors |
| Embedder.NewEmbedder | embedding/embedder.go:336-339 | a batch size below one becomes the default; without length buckets the session for single texts is opened at once, and only then can opening fail |
| Embedder.Embedder.EnsureBatchSession | embedding/embedder.go:1040-1057 | created once, reused afterwards; a failure leaves none |
| Embedder.Embedder.EnsureBucketSession | embedding/embedder.go:1023-1036 | one session per length: a new one is kept under its length, a kept one returned again |
| Pipeline.RunKeeps | embedding/pipeline.go:33-65 | the invariant of the two goroutines holds in every state of every interleaving |
| Pipeline.ClosedMeansOver | embedding/pipeline.go:37-55 | a closed channel means the producer is gone, and without an error nothing is left to take |
| Pipeline.ReceiveNeverBlocks | embedding/pipeline.go:37-52 | while the consumer waits, the channel is closed or the producer can move |
| Pipeline.AfterStop | embedding/pipeline.go:37-65 | after stop only the closing of the channel is left |
| Pipeline.OneAheadPipeline.Receive | embedding/pipeline.go:37-55 | under any scheduler the next item is the next result, or the channel is closed |
| Pipeline.OneAheadPipeline.Stop | embedding/pipeline.go:57-65 | terminates under any scheduler with the specified answer; a second call changes nothing |
| ProviderLadder.Ort.BuildSessionOptions | embedding/onnx.go:163-200 | a failure leaves no live handle; a success adds exactly one, of the asked provider, or none for the plain CPU |
| ProviderLadder.Ladder.Install | embedding/embedder.go:923-930 | the held handle is destroyed and the new one committed together with its provider |
| ProviderLadder.Ladder.AdvanceAutoLadderSession | embedding/embedder.go:260-285 | the remaining rungs are tried in order until the first success; every failed rung adds exactly one reason; the books of handles stay balanced |
| ProviderLadder.Ladder.RetryOpenVINODevices | embedding/openvino.go:279-313 | the other devices in order, one reason per failure; the winner is the preferred device its options name; without one the preference is forgotten |
| ProviderLadder.Ladder.RetryOpenVINOSession | embedding/openvino.go:238-257 | no retry with at most one device; device failures add no rung reason |
| ProviderLadder.Ladder.OptionsStage | embedding/embedder.go:445-463 | the first rung whose options build is held; each earlier rung left exactly one reason |
| ProviderLadder.Ladder.SelectOptions | embedding/embedder.go:425-480 | the asked provider, or the first rung whose options build, or the CPU; on failure nothing is left alive |
| ProviderLadder.Ladder.EagerSession | embedding/embedder.go:512-598 | the eager session comes from the held options, another device, a later rung or the CPU; it fails only when all of these were tried and refused, in order, and then everything is released |
| ProviderLadder.Ladder.SessionOnProvider | embedding/embedder.go:862-945 | a session on the held options or, for OpenVINO, on one of the other devices; refused exactly when all of them are |
| ProviderLadder.Ladder.NextProviders | embedding/embedder.go:909-967 | the rungs behind a failed one in order, and then the CPU |
| ProviderLadder.Ladder.DegradeToCPU | embedding/embedder.go:984-1019 | without CPU options everything stays as it was; with them the hardware handle dies and the CPU is recorded |
| ProviderLadder.Ladder.EnsureSession | embedding/embedder.go:1023-1057 | a lazy session keeps the books of handles, changes the provider only before the first session of an auto request, and fails only when the remaining rungs and the CPU were refused |
| ProviderLadder.Ladder.Close | embedding/embedder.go:1078-1126 | afterwards nothing the embedder built is alive; a second call does nothing |
| Chunker.ChunkerConfig.WithDefaults | embedding/chunker.go:29-40 | the overlap ends up below the chunk size, a fifth of it when it was too large; sound settings are kept, missing ones become 1500 and 200 |
| Chunker.FixedSizePieces | embedding/chunker.go:229-253 | terminates; full windows with the configured overlap, on exactly their lines, covering the text |
| Chunker.SplitBySingleBlanks | embedding/chunker.go:189-208 | the pieces join back to the text, end with their first blank line, and start on the right lines |
| Chunker.CutAtKeys | embedding/chunker.go:353-412 | the parts join back to the text; each but the first begins with a key line, and none holds a second |
| Chunker.JoinGroups | embedding/chunker.go:189-208 | joining the joined groups gives back all lines |
| Chunker.SplitOversized | embedding/chunker.go:212-222 | the splitter's cut replaces each oversized piece, the others stay; lines and coverage are kept, and windows bound the size |
| Chunker.PiecesToSections | embedding/chunker.go:268-283 | the pieces that hold text, in order, as sections that end on the line of their last rune |
| Chunker.PiecesFromContiguousLines | embedding/chunker.go:287-295 | cumulative start lines, one too small behind an empty first part |
| Chunker.ChunkConfig | embedding/chunker.go:324-347 | config files cut in front of top-level keys, the oversized parts in windows; sections on exactly their lines, counted from line 0 when the text is split behind an empty first part |
| Chunker.FirstPart | embedding/chunker.go:353-412 | the first part is empty if and only if the first line is empty and the second starts a section |
| Chunker.ShiftedExample | embedding/chunker.go:165-170 | a two-line file whose chunk claims the wrong line |
| Chunker.ChunkMarkdown | embedding/chunker.go:298-324 | sections cut in front of second-level headings, the oversized ones behind blank lines and then in windows: bounded, on exactly their lines, covering the text |
| Chunker.ChunkCode | embedding/chunker.go:181-186 | sections cut behind blank lines, the oversized ones in windows: bounded, on exactly their lines, covering the text |
| Chunker.FixedSizeSplit | embedding/chunker.go:416-419 | full windows with the configured overlap as sections: bounded, on exactly their lines, covering the text |
| Chunker.IsBinary | embedding/chunker.go:57-65 | true exactly when a null byte is among the first 512 bytes |
| Chunker.DropBlank | embedding/chunker.go:83-97 | exactly the blank sections are dropped, and no rune that is not white space is lost |
| ModelNames.ParseComposed | llm/modelid.go:19-45 | parsing undoes composing exactly for providers without a slash |
| ModelNames.BuildModelIDPostfixes | llm/modelregistry.go:823-855 | the loop expands every core into its spellings |
| ModelNames.RecognizedShaped | llm/modelregistry.go:787-880 | a recognized postfix starts with a separator and holds another only before a final bit |
| ModelNames.UniquePostfix | llm/modelregistry.go:787-855 | a name ends in at most one recognized postfix |
| ModelNames.StripModelIDPostfixes | llm/modelregistry.go:889-907 | stripping terminates at a name without a recognized postfix |
| ModelNames.StripPostfix | llm/modelregistry.go:889-907 | appending any recognized postfix does not change the stripped name |
| ModelNames.StripTakes | llm/modelregistry.go:889-907 | a pass that strips takes off a recognized postfix |
| ModelNames.StripSeesPostfix | llm/modelregistry.go:889-907 | a pass never overlooks a recognized postfix |
| ModelNames.StripNormal | llm/modelregistry.go:889-907 | stripping twice is stripping once |
| ModelNames.SeparatorsDrop | llm/modelregistry.go:787-790 | exactly dots, hyphens and underscores are dropped |
| ModelNames.SlashedNameDiffers | llm/modelid.go:11-16 | under a provider, a model name with a slash normalizes differently |
| ModelNames.BaseBeatsDecorated | llm/modelregistry.go:1010-1026 | next to its base a postfixed spelling never wins |
| ModelNames.FuzzyLookup | llm/modelregistry.go:968-997 | the indexed lookup equals three scans in order of precedence, overrides and observed entries completed from below |
| ModelNames.EnrichPartialWith | llm/modelregistry.go:683-722 | field by field, what is unset comes from below; a complete entry is left alone; a guess travels with its capabilities |
| GoogleWire.SignatureSurvives | llm/provider_google.go:488-507 | a signature read back from an identifier is the one written if and only if the name carries it; the identifier begins with the name, and is the name without a signature |
| GoogleWire.SignatureLostExample | llm/provider_google.go:488-507 | a name on which the signature is lost |
| GoogleWire.PayloadIsObject | llm/provider_google.go:511-518 | the response payload is a JSON object whatever the tool printed |
| GoogleWire.PayloadMeans | llm/provider_google.go:511-518 | a JSON object is sent as it is, without the white space around it; any other content as the member "result" |
| GoogleWire.UnknownNamed | llm/provider_google.go:451-466 | a response to a call nobody made is named by its id |
| GoogleWire.BuildToolCallIDIndex | llm/provider_google.go:468-478 | the loop computes the index of named calls |
| GoogleWire.GoogleMadeCoherent | llm/provider_google.go:480-497 | identifiers made from responses are coherent for names without the separator |
| GoogleWire.ExtractSystemPrompt | llm/provider_helpers.go:27-41 | system texts joined from the first non-empty one on, all other messages in order |
| GoogleWire.Divided | llm/provider_helpers.go:27-41 | system messages go to the prompt and all others to the turns, in order |
| GoogleWire.FromFirstMeans | llm/provider_helpers.go:27-41 | only empty system texts in front are left out |
| GoogleWire.ConvertGoogleMessage | llm/provider_google.go:389-441 | one message, one turn: only the assistant speaks as the model, says its content and then makes its calls, reasoning left out; a user says the blocks, behind the content when none is text, or the content; a result is one response |
| GoogleWire.BlocksRendered | llm/provider_google.go:391-410 | block by block, a text gives a text, an image its data, anything else nothing |
| GoogleWire.BuildGoogleRequest | llm/provider_google.go:286-342 | the loops compute the joined system texts and the turns of all other messages |
| GoogleWire.RunBecomesOneTurn | llm/provider_google.go:306-332 | a maximal run of tool results becomes one user turn of their responses at its place in the conversation |
| GoogleWire.ResultAnswers | llm/provider_google.go:312-332 | within a run each result gives one response at its place, unless it has no content, blocks and call id |
| GoogleWire.MessageBecomesOneTurn | llm/provider_google.go:334-342 | any other message becomes a turn of its own at its place, and is skipped exactly when it has no content, blocks, calls and call id |
| GoogleWire.EmptyTurnExample | llm/provider_google.go:335-341 | a message that is sent as an empty turn |
| GoogleWire.ParseGoogleResponse | llm/provider_google.go:524-588 | visible texts, thoughts and calls collected in order, each in its own channel; why the model stopped; the two error cases exactly |
| GoogleWire.PartsUnderstood | llm/provider_google.go:535-572 | part by part, a text is a line of its channel and a call is made under its signed name |
| GoogleWire.ThoughtStaysInside | llm/provider_google.go:535-553 | a thought changes neither the answer nor the calls, wherever it stands; a visible text never reaches the reasoning |

## Left out

- Texts, events, telemetry, logging and prompts: nudges are steps without a tool name, outputs and notes are not
  modelled except in Truncation; token counts and reasoning carriage are left out.
- TaskRunner.TaskRun.RunPlanned: the aggregated output text is not modelled; a failed model switch before planning is
  reported as a rejection.
- JsonExtract.ExtractJSON: `json.Valid` is a parameter; the results assume only that it accepts the object in question.
- Glob.Scoped: braces, character classes and escapes of the glob library are not modelled; `d/**` matches `d` itself.
  Directory names are free of glob metacharacters, because the source pastes them into patterns unescaped.
- IgnoreWalk.PruningKeepsMatch: the tree is a finite value, so reading files, symbolic links and errors are out, and
  the caller's directory flag agrees with the tree where the path is one of its directories.
- CacheSpec.NeverAliased: SHA-256 is any function with 64-character values, assumed free of collisions only
  among the texts of the run in question, and tool names free of NUL, where contents are recovered; one instant per operation; each locked method is one step. `CheckCoherence` is not modelled.
- Truncation.BudgetPrediction: percentages and tool-specific hints are parameters; bytes are characters up to 255;
  the fill fraction is a real number.
- Executor.Executor.Run: a run granted unlimited steps need not end, so every finite prefix is covered instead. The
  wall-clock watchdog is one outcome of a tool; the content of checklists and the detection of tool-call syntax in
  text are arbitrary; 64-bit wrap-around of the group counter is not modelled. A stop-tool exit, an abort, a
  boundary pause, the step limit and a verification abandoned at a pause may leave an edit unverified, as in the
  source. What a verification reports is not modelled: an edit counts as verified when its verifier has returned.
- EmbedSpec.UnitLength: numbers are reals, so rounding is out; the square root is a parameter.
- Embedder.Embedder.EmbedDocuments: the network acts on each row by itself and does not look at padding, by
  assumption; it is the same function on every provider. The tokenizer library with its sanitizing and its retry on
  folded text is one function from text to encoding or error.
- OnnxSession.OnnxSession.RunBatch: `session.Run` is an assignment to the output tensor or a failure.
- ProviderLadder.Ladder.Open: sessions themselves are not tracked, since a failed attempt releases its own tensors;
  validation of the configuration and the process-global environment are out.
- Chunker.ChunkFile: texts are sequences of runes, so invalid UTF-8 is out; extensions are already classified.
- ModelNames.ChainInvisible: lower-casing is ASCII only.
- ModelNames.FuzzyLookup: what the tiers below an entry say about the model is a parameter.
- GoogleWire.BuildGoogleRequest: tool declarations, schema sanitizing and sampling parameters are copied fields and
  left out; `json.Valid` and string quoting are parameters.
- Providers over HTTP, token sources, error classification, sub-agents, memory, skills, MCP and the builders: plumbing
  that would only add easy members.

# Oxcer agent core: a verified model

Oxcer is a local desktop agent: a plan-first orchestrator in Rust, a Swift driver that executes what the orchestrator asks for, and the components around them. This project models the parts that decide something over many steps and proves what they promise over every run, every interleaving or every input.

| File | Models |
|---|---|
| `OrchestratorTypes.dfy`, `Orchestrator.dfy` | session, plan, intents; `next_action`, `agent_step`, `do_expand_plan`, guards and sanitizer |
| `OrchestratorRuns.dfy` | whole runs of the orchestrator |
| `AgentRequest.dfy` | the blocking driver `agent_request` |
| `AgentRunner.dfy` | the Swift driver with its approval gate and step budget, over the FFI mapping |
| `Masking.dfy` | merging of sensitive spans and the in-place masking |
| `LazyEngine.dfy` | lazy engine loading under a `OnceLock` and a `Mutex`, for any number of callers |
| `GlobRegex.dfy`, `GlobMeaning.dfy`, `GlobDocumented.dfy`, `GlobText.dfy` | the glob-to-regex compiler, its correctness, where the documented meaning ends, and the meaning on the characters of the pattern |
| `Walks.dfy` | the early-exit directory walks behind `grep` and `glob` |
| `Memory.dfy` | the Markdown fact store |
| `Guardrail.dfy`, `RecentFiles.dfy`, `Fsm.dfy` | tool-call parser, most-recently-used list, and the bounded agent loop |
| `Telemetry.dfy` | log retention |
| `Filling.dfy` | filling a template with one text and then another |
| `Text.dfy`, `StableSort.dfy`, `Wrappers.dfy` | strings, stable sorting, `Option` and `Result` |

How the outside world enters: executors, users, language models, JSON parsing, clocks and file contents are arbitrary functions or arbitrary input lists, so every theorem holds for all of them. An oracle takes the number of the call as an argument, so it may answer the same question differently each time; any strategy, however it reads its prompts, gives some such function. Session JSON is passed back unchanged by the driver and is the session itself. Strings are sequences of characters, and a byte length is the number of characters.

A *run* feeds step results one by one, from `agent_step`'s start, until the first completion. `Answered(rs)` are the results of a run without the pending approvals.

## What the proofs found

- `grep` never reports truncation: the walk stops at 500 matches, so `results.len() > MAX_GREP_LINES` is false for every tree (`Walks.Grep`), also where hits are cut off (`Walks.HitsAreCutOff`). `glob` says "first 1000" also for exactly 1000 matches (`Walks.Glob`).
- A comma outside braces becomes a bare alternation and changes what a glob means, and the dot of `**` stops at a line feed although `**` is documented to match any characters. For patterns with balanced braces, the compiled regex has the documented meaning on all paths if and only if no comma stands outside braces and the pattern has no `**` (`GlobDocumented.DocumentedExactly`, and on the pattern's characters `GlobText.CompiledDocumentedExactly`). On paths without a line feed only the comma matters (`GlobMeaning.MeaningPreserved`, `GlobMeaning.MeaningPreservedExactly`).
- `**/` is read as `**` alone, so `**/x` also means `yx`. The comment above the compiler lists `**` only; the code says so where it skips the slash, and the model's glob meaning has it (`GlobDocumented.SlashIsSwallowed`).
- File text that is injected into a prompt can be altered, because `{{FILE_CONTENTS}}` is filled before `{{FS_RESULT}}`. It reaches the model unaltered if and only if the filled prompt spells the second placeholder nowhere the plan does not (`OrchestratorRuns.FileTextsReachModel`); for one file hole on a line of its own, as the planner writes it, if and only if the text does not contain it (`OrchestratorRuns.FileTextOnOwnLine`). A run in which it does is `OrchestratorRuns.FileTextsCanBeAltered`.
- A fact list survives a save and a reload if and only if every fact is canonical (`Memory.ReloadsExactly`). Lists that were loaded from a file always are.
- A panic while the engine loads poisons the lock for good: an engine can still be published if and only if that has not happened (`LazyEngine.PublishableUnlessPoisoned`, `LazyEngine.PanicPoisons`). A failed load is retried by the next caller at the lock (`LazyEngine.FailedLoadIsRetried`).
- The `awaiting_approval` branch of the Swift driver is unreachable (`AgentRunner.Run`).

## Model

| member | source | states |
|---|---|---|
| OrchestratorRuns.LiveSession | oxcer-core/src/orchestrator/execution.rs:145-415 | before completion every answer of a run was Ok, and the whole session (plan, counter, traces, listing, root, file texts, approvals) is a closed form of the answers |
| OrchestratorRuns.TracesAlign | oxcer-core/src/orchestrator/execution.rs:159-164 | in every state of every run trace i names the tool of plan step i although the plan grows; their number is the step index before completion, and the step index or one more after it |
| OrchestratorRuns.AnswersAreRecorded | oxcer-core/src/orchestrator/types.rs:563-597 | in every state of every run, trace i records plan step i and answer i: the tool's name, whether it was allowed or failed, and its text, its JSON cut to 200 characters, or its error; a live session reports the last answer's text or JSON |
| OrchestratorRuns.PlanExpandsOnce | oxcer-core/src/orchestrator/execution.rs:243-280 | the plan of every run is the original with at most one expansion, spliced in directly after its first directory listing |
| OrchestratorRuns.ExpansionFollowsListing | oxcer-core/src/orchestrator/execution.rs:250-280 | a step changes the plan or the pending expansion only as the Ok answer to a listing, and then the new steps stand directly behind that listing, with what was before and after them unchanged |
| OrchestratorRuns.SelectionIsExact | oxcer-core/src/orchestrator/planning.rs:652-698 | an expansion acts on the listed names at exactly the positions that pass its filter, in listing order and each as often |
| OrchestratorRuns.ExpansionStepsAreConfined | oxcer-core/src/orchestrator/planning.rs:643-700 | inserted steps are reads of the selected names at the listing's workspace and the session's root, or first the folder and then a move of each selected name into it, in listing order |
| OrchestratorRuns.FiltersOnText | oxcer-core/src/orchestrator/planning.rs:402-408 | on the text of a name: a filter has to occur in it, a read needs one of eight extensions in any case and no leading dot, a move without a filter spares hidden names |
| OrchestratorRuns.TaskRuns | oxcer-core/src/orchestrator/types.rs:239-254 | a run is a Task, with guards and sanitizer, if and only if its plan has a step that is no prompt |
| OrchestratorRuns.ApprovalsStutter | oxcer-core/src/orchestrator/execution.rs:150-158 | deleting all pending approvals from a run gives a run with the same intents, the same last status and the same session, except that `approvals_requested` is exactly the deleted ids in order |
| OrchestratorRuns.StepIgnoresApprovals | oxcer-core/src/orchestrator/execution.rs:145-415 | no step reads the recorded approvals |
| OrchestratorRuns.CompletionCases | oxcer-core/src/orchestrator/execution.rs:145-415 | a completed run has exhausted its plan if and only if its last answer did not fail, was not refused by the sanitizer and did not lead to a guard; it then answers with its last report, a failure with its message, a refusal or a guard with the text for that reason; the observations note the failure or the refusal and nothing else |
| OrchestratorRuns.RefusalIsText | oxcer-core/src/orchestrator/execution.rs:213-232 | an answer is refused if and only if, in a Task session, it answers a prompt and one of nine narration patterns occurs in its text in any case |
| OrchestratorRuns.GuardIsText | oxcer-core/src/orchestrator/execution.rs:100-136 | a guard stands before a step if and only if it is a Task's prompt for file contents with no file read, or for a result that is missing, empty or a JSON object, or it reads the most recent file with nothing listed |
| OrchestratorRuns.IntentProvenance | oxcer-core/src/orchestrator/execution.rs:306-410 | every intent asked for after an answer is the planned one: a prompt filled as in `PromptProvenance`, a read of the most recent file with the newest listing's first name in its path, and any other intent unchanged |
| OrchestratorRuns.TextsAreRead | oxcer-core/src/orchestrator/execution.rs:199-208 | in every state of every run, completed ones included, the collected texts are exactly those of the successful reads, in order |
| OrchestratorRuns.PromptProvenance | oxcer-core/src/orchestrator/execution.rs:306-391 | every prompt after an answer is the planned text with the file hole filled by exactly this run's read texts in order and the result hole by the report, or its first 4000 characters and a notice; in a Task session a file hole is never filled from nothing, a result hole never from an empty text or a JSON object |
| OrchestratorRuns.FileTextsReachModel | oxcer-core/src/orchestrator/execution.rs:351-391 | in every run, the emitted prompt is the planned one with the file texts unaltered in its file holes if and only if, with those texts in place, it spells the result placeholder nowhere the plan does not (or the report is that placeholder) |
| OrchestratorRuns.FileTextsOnTheirOwn | oxcer-core/src/orchestrator/execution.rs:351-391 | for a prompt whose file holes stand apart, as on lines of their own, that is exactly when the file text does not contain the result placeholder |
| OrchestratorRuns.FileTextOnOwnLine | oxcer-core/src/orchestrator/planning.rs:581-596 | for the shape of the planner's summary prompt, one file hole on a line of its own, the file text stays unaltered exactly when it does not contain the result placeholder |
| Filling.FillingKeepsText | oxcer-core/src/orchestrator/execution.rs:351-391 | for any template, inserted text and unbordered second placeholder: the second filling leaves the inserted text alone exactly when the joined template has no occurrence beyond those of its parts |
| OrchestratorRuns.FileTextsCanBeAltered | oxcer-core/src/orchestrator/execution.rs:351-391 | a run of one read and one summary whose only file text is altered on its way into the prompt |
| Orchestrator.DoExpandPlan | oxcer-core/src/orchestrator/planning.rs:643-700 | the new steps go in at the step index and nothing else of the session changes |
| Orchestrator.NextAction | oxcer-core/src/orchestrator/execution.rs:145-415 | the mutating transition computes the function that the run theorems are about |
| Orchestrator.SanitizeLlmGenerateOutput | oxcer-core/src/orchestrator/execution.rs:64-77 | text is refused exactly when it contains a narration pattern in any case, and otherwise kept |
| Orchestrator.AgentSession.AgentStep | oxcer-core/src/orchestrator/execution.rs:440-543 | one in-place step of a session: start, transition, or an error that leaves it alone |
| AgentRequest.DrivingStep | oxcer-core/src/orchestrator/execution.rs:547-568 | no step lets executions pass the plan's length or approvals pass the executions |
| AgentRequest.Request | oxcer-core/src/orchestrator/execution.rs:547-568 | the loop ends for every executor, with at most one execution per final plan step and one approval per execution; what is fed is exactly what the executor and the resolver answered, and an error is theirs |
| AgentRunner.FfiAgentStep | oxcer_ffi/src/lib.rs:642-807 | the bridge turns a result into a step (the payload that parses, JSON null without one, or the error text) and the turn into a status, for new and continued sessions |
| AgentRunner.GatedKindsAreDestructive | apps/OxcerLauncher/OxcerLauncher/AgentRunner.swift:63-65 | the gated kinds are exactly writes, deletes, renames, moves, new folders and shell commands |
| AgentRunner.Run | apps/OxcerLauncher/OxcerLauncher/AgentRunner.swift:108-201 | each executor result reaches the orchestrator as its own payload or error, and each denial as an error that names the intent; every destructive execution was approved by the user in that same step and emitted by the orchestrator; a denied or failed intent is the last activity and its error text is the answer; no missing intent, unknown status, backend error or Rust-side approval; a run whose log has no denial or failure and whose last answer was not refused and led to no guard exceeds the limit exactly when its final plan is at least that long |
| AgentRunner.StoppedTurn | oxcer-core/src/orchestrator/execution.rs:159-240 | a failing result completes the run with its "Error: ..." text |
| AgentRunner.AnswersAgainstPlan | apps/OxcerLauncher/OxcerLauncher/AgentRunner.swift:108-201 | a run that exhausts its plan has answered exactly as many steps as the final plan has |
| LazyEngine.InvHolds | oxcer_ffi/src/lib.rs:80-99 | the invariant of the shared state and all callers holds in every interleaving |
| LazyEngine.Safety | oxcer_ffi/src/lib.rs:80-99 | in every interleaving of any number of callers: at most one successful load, every Ok return is the published engine, at most one caller between lock and release |
| LazyEngine.PublishedForever | oxcer_ffi/src/lib.rs:69-99 | the published engine and every return value are never changed again |
| LazyEngine.PoisonIsFinal | oxcer_ffi/src/lib.rs:87-89 | after a panic under the lock nothing is ever loaded and every call fails |
| LazyEngine.PublishableUnlessPoisoned | oxcer_ffi/src/lib.rs:80-99 | from any state that can occur, some schedule still publishes an engine if and only if the lock is not poisoned |
| LazyEngine.PoisonNeedsPanic | oxcer_ffi/src/lib.rs:87-95 | without a panicking load the lock is never poisoned, however many loads fail |
| LazyEngine.PanicPoisons | oxcer_ffi/src/lib.rs:87-95 | a schedule from the start, of one caller, that poisons it |
| LazyEngine.FailedLoadIsRetried | oxcer_ffi/src/lib.rs:87-98 | after a failed load the error is returned, and a caller waiting at the lock loads itself; any engine it loads is published and returned |
| LazyEngine.LateCallersAreServed | oxcer_ffi/src/lib.rs:81-83 | a caller that arrives after publication gets that engine, whatever else happens |
| LazyEngine.NothingBeforeSetup | oxcer_ffi/src/lib.rs:84-86 | as long as the setup phase has not finished, nobody gets to the lock, nothing is loaded or published, and every caller that returned was told so |
| LazyEngine.FilesNotEnsuredIsTrue | oxcer_ffi/src/lib.rs:84-86 | that error is returned only to a caller that looked for the model root before setup finished |
| LazyEngine.LockPoisonedIsTrue | oxcer_ffi/src/lib.rs:87-89 | that error is returned only once the lock is poisoned |
| LazyEngine.LoadErrorIsTrue | oxcer_ffi/src/lib.rs:93-95 | a load error is returned only to a caller whose own load failed |
| LazyEngine.SomeoneCanMove | oxcer_ffi/src/lib.rs:80-99 | no deadlock: while a caller is unfinished, some caller can move |
| LazyEngine.MovesAreBounded | oxcer_ffi/src/lib.rs:80-99 | at most seven moves per caller in every interleaving |
| Masking.MergeOverlappingSpans | oxcer-core/src/data_sensitivity.rs:522-540 | the in-place merge of sorted findings is a merge of the set of them: separated spans that cover the same positions, contain every finding, start and end where findings do, and carry level, kind and pattern of the first of the strongest findings inside |
| Masking.MergeFindings | oxcer-core/src/data_sensitivity.rs:513-520 | sorting first, the same for findings in any order |
| Masking.HigherLevelsWin | oxcer-core/src/data_sensitivity.rs:522-540 | in every merge, a span is High if and only if a High finding lies inside it, Medium if and only if a Medium one does and no High one, and its kind and pattern are those of the first finding of that level inside it |
| Masking.MergeIsCanonical | oxcer-core/src/data_sensitivity.rs:511-540 | spans and levels depend only on the set of findings, not on their order |
| Masking.SpansAreDetermined | oxcer-core/src/data_sensitivity.rs:511-540 | separated spans are determined by the positions they cover |
| Masking.DedupContained | oxcer-core/src/data_sensitivity.rs:542-555 | keeps findings by start and then the stronger first, drops exactly what something kept subsumes, and is the identity on merged findings |
| Masking.ApplyMasking | oxcer-core/src/data_sensitivity.rs:558-582 | the right-to-left in-place rewrite of merged findings is the left-to-right splice; the guard on the rewritten length never skips one |
| Masking.MaskedLength | oxcer-core/src/data_sensitivity.rs:558-582 | output length is input length minus the spans plus what is shown for them |
| Masking.MaskedSpansDoNotShow | oxcer-core/src/data_sensitivity.rs:558-582 | two inputs that differ only inside masked spans are masked to the same text |
| Masking.LoneFindingMasked | oxcer-core/src/data_sensitivity.rs:558-582 | what is shown for one finding: `[REDACTED: kind]` in its place, nothing for a High one over the limit, the text itself for a Low one |
| Masking.ClassifyAndMask | oxcer-core/src/data_sensitivity.rs:606-637 | the pipeline masks the merge of all raw findings, reports both lengths exactly, and reports High if and only if some raw finding is High, Medium if and only if some is Medium and none High |
| GlobRegex.GlobToRegex | oxcer-core/src/mcp.rs:371-422 | the index loop emits the anchored translation of the pattern's tokens |
| GlobText.Compile | oxcer-core/src/mcp.rs:371-422 | the compiler as a whole: it fails if and only if the braces do not match up, and without an outer comma its result matches exactly the paths that the characters of the pattern say |
| GlobText.CompiledMeaning | oxcer-core/src/mcp.rs:364-422 | on the characters of the pattern, for balanced braces and no outer comma: the regex matches exactly the paths in which `**` with an optional slash stands for any text of one line, `*` for text without a slash, `?` for one character other than a slash, braces for one of their alternatives, and every other character for itself |
| GlobText.CompiledMeaningExactly | oxcer-core/src/mcp.rs:371-422 | for balanced braces, that is what the regex matches on all paths if and only if no comma stands outside braces |
| GlobText.CompiledDocumentedExactly | oxcer-core/src/mcp.rs:364-422 | for balanced braces, with `**` for any text at all, that is what it matches if and only if besides the pattern has no `**` |
| GlobText.BracesExpand | oxcer-core/src/mcp.rs:397-408 | `x{a,b,..}y` matches exactly what one of `xay`, `xby`, .. matches, for all balanced parts whose stars do not run over a seam |
| GlobMeaning.EmittedLexes | oxcer-core/src/mcp.rs:371-422 | the emitted text reads back as the regex tokens meant, every metacharacter escaped |
| GlobMeaning.Compiles | oxcer-core/src/mcp.rs:371-422 | the emitted regex compiles exactly when the pattern's braces balance |
| GlobMeaning.MeaningPreserved | oxcer-core/src/mcp.rs:364-422 | a balanced pattern without an outer comma matches exactly the paths the glob means, and on one-line paths exactly the documented ones |
| GlobMeaning.TopCommaBreaks | oxcer-core/src/mcp.rs:405-408 | every balanced pattern with an outer comma has a path that the regex matches and the glob does not mean, whether or not `**` may cross lines |
| GlobMeaning.MeaningPreservedExactly | oxcer-core/src/mcp.rs:371-422 | for balanced patterns, with `**` stopping at line feeds, meaning is preserved on all paths if and only if no comma stands outside braces |
| GlobDocumented.DocumentedExactly | oxcer-core/src/mcp.rs:364-422 | for balanced patterns, the documented meaning, with `**` matching any characters, holds on all paths if and only if no comma stands outside braces and the pattern has no `**` |
| GlobDocumented.DeepStopsAtLineEnd | oxcer-core/src/mcp.rs:376-383 | a witness: the pattern `**` does not match a line feed |
| GlobDocumented.SlashIsSwallowed | oxcer-core/src/mcp.rs:379-382 | a pattern is read otherwise than as `**` and what follows it exactly when a slash directly follows a `**` |
| GlobDocumented.SwallowedSlashShows | oxcer-core/src/mcp.rs:379-382 | a witness: `**/x` means `yx`, which has no slash |
| Walks.GrepWalk | oxcer-core/src/mcp.rs:212-248 | the early-exit recursive walk adds exactly the first matches, up to 500, of the full sorted depth-first walk |
| Walks.Grep | oxcer-core/src/mcp.rs:189-210 | the result is those first matches, and truncation is never reported |
| Walks.HitsAreExact | oxcer-core/src/mcp.rs:212-248 | the full walk lists a hit exactly when a file outside skipped directories has that matching line |
| Walks.HitsAreOrdered | oxcer-core/src/mcp.rs:224-245 | with names as a file system gives them, the hits of the full walk come in the order of their paths, component by component, and in a file in the order of its lines |
| Walks.HitsAreDistinct | oxcer-core/src/mcp.rs:224-245 | and none is listed twice |
| Walks.PathBeforeIsStrict | oxcer-core/src/mcp.rs:225 | that order of paths is strict |
| Walks.GlobWalk | oxcer-core/src/mcp.rs:425-464 | the early-exit recursive walk adds exactly the first matches, up to 1000, of the full walk |
| Walks.Glob | oxcer-core/src/mcp.rs:252-286 | the result is those paths, sorted; the cap note appears exactly from 1000 matches on |
| Walks.PathsAreExact | oxcer-core/src/mcp.rs:425-464 | below the base, the full walk lists a path exactly when a file outside skipped directories has it and it matches |
| Walks.BasePathsAreExact | oxcer-core/src/mcp.rs:425-464 | the same for the walk from the base, which is never skipped and has no paths if it is no directory |
| Walks.PathsAreOrdered | oxcer-core/src/mcp.rs:439-462 | the matching files are found in that order too, so each once; the cap cuts its end off |
| Walks.HitsAreCutOff | oxcer-core/src/mcp.rs:191-210 | files on which `grep` cuts hits off, unreported: any with more than 500 matching lines |
| StableSort.SortIsStable | oxcer-core/src/mcp.rs:225 | `sort_by_key` keeps the order of entries that tie |
| Memory.ToMarkdown | oxcer-core/src/memory.rs:226-239 | the loop prints the header and one line per fact |
| Memory.ParseMarkdownFacts | oxcer-core/src/memory.rs:241-264 | the loop collects what each line holds, in order |
| Memory.SplitTags | oxcer-core/src/memory.rs:267-282 | the cursor loop splits the leading backquoted tags off |
| Memory.CanonicalReloads | oxcer-core/src/memory.rs:71-82 | printing and parsing canonical facts gives them back |
| Memory.ParsedIsCanonical | oxcer-core/src/memory.rs:241-282 | whatever text is parsed, the facts are canonical |
| Memory.ReloadsExactly | oxcer-core/src/memory.rs:226-282 | a fact list round-trips if and only if timestamps have no `]`, tags no backquote, contents are trimmed and open no tag, and nothing has a line feed |
| Memory.ReloadIsFixedPoint | oxcer-core/src/memory.rs:226-282 | for every text, saving what was parsed and parsing again gives the same facts |
| Memory.Memory.AppendFact | oxcer-core/src/memory.rs:126-135 | the new store, compacted when over 200 facts, ends in the new fact and is what the file holds; parsing the file gives a canonical store back |
| Memory.HistoryReloads | oxcer-core/src/memory.rs:126-282 | after every history of canonical facts at clean clock readings, compactions included, parsing the saved file gives the store back |
| Memory.Memory.Compact | oxcer-core/src/memory.rs:200-210 | the newest 100 facts stay, unchanged and in order, behind a marker tagged `meta` that gives the number of dropped ones in decimal and the time |
| Memory.AppendIsBounded | oxcer-core/src/memory.rs:126-135 | from any loaded store, however long, an append leaves at most 200 facts |
| Memory.HistoryIsSuffix | oxcer-core/src/memory.rs:126-210 | after any n appends to an empty store the length is n up to 200 and then 101 + (n - 201) mod 100; the store is the history, or one marker that tells of 101 dropped facts and then exactly the newest part of it |
| Guardrail.ParsedIsExpressible | oxcer-core/src/guardrail.rs:65-160 | every call that parses has trimmed nonempty parts, a source without a pipe, and words as command and arguments |
| Guardrail.ParsesWhatItPrints | oxcer-core/src/guardrail.rs:51-61 | a call printed in the documented format parses back to itself if and only if it is of that kind |
| Guardrail.ParserIsExact | oxcer-core/src/guardrail.rs:65-160 | a reply parses to a call if and only if it is the documented line for that call with any amount of any white space around it, behind the tool name, between the words, and around the pipe |
| Guardrail.WordsOfConcat | oxcer-core/src/guardrail.rs:150 | white space between two texts separates their words, however much of it there is |
| Guardrail.ParsingNormalises | oxcer-core/src/guardrail.rs:65-160 | printing a parsed call and parsing again gives the same call, for every reply |
| Guardrail.RepliesAreClassified | oxcer-core/src/guardrail.rs:65-160 | a reply is reported empty exactly when it is blank, needs no tool exactly when it is the token, and any other reply that is no call of the named tool is a hallucination |
| Guardrail.FinalAnswersAreExact | oxcer-core/src/guardrail.rs:166-182 | a final reply is empty if and only if it is blank, refused if and only if the error token is the first thing in it, and otherwise the answer is the reply without the white space around it |
| Guardrail.PaddingIsIgnored | oxcer-core/src/guardrail.rs:66 | white space around a reply never matters |
| RecentFiles.PushFollowsHistory | oxcer-core/src/fsm.rs:389-395 | one push keeps the bounded list equal to its specification over the longer history |
| RecentFiles.RecentIsOrdered | oxcer-core/src/fsm.rs:384-395 | the list has at most eight distinct paths of the history, ordered by last push |
| RecentFiles.RecentIsNewest | oxcer-core/src/fsm.rs:384-395 | a path that is missing was last pushed before everything listed, and then the list is full |
| Fsm.FsmContext.PushRecentFile | oxcer-core/src/fsm.rs:389-395 | the in-place edit is that push |
| Fsm.FsmContext.Execute | oxcer-core/src/fsm.rs:157-212 | executing the pending tool consumes it, uses one step, and keeps output, document, directory and recent files functions of what was executed |
| Fsm.FirstStop | oxcer-core/src/fsm.rs:133-155 | the first reply within the budget that is no tool call; every reply before it is one |
| Fsm.Run | oxcer-core/src/fsm.rs:94-249 | against any model and executor the loop ends; result, executions and model calls are fixed by the first reply that is no tool call; at most max_steps executions and one model call more; an Ok run executed fewer than max_steps tools and ended in a final reply, whose text is the answer unless it is refused, with where the summary was saved; the limit error comes exactly after max_steps; every executed tool was selected by the reply just before it, its error is its output, and every prompt shows exactly the facts, the first 1000 characters of the newest output, the current directory and the eight most recent files of the executions before it |
| Fsm.FaithfulEverywhere | oxcer-core/src/fsm.rs:133-213 | the prefix-wise invariant of the loop, read at any position of the log |
| Telemetry.KeepNewest | oxcer-core/src/telemetry.rs:206-216 | the backwards scan with its break keeps the longest suffix within 10 MB |
| Telemetry.RotateRetention | oxcer-core/src/telemetry.rs:178-221 | the rotated file is that suffix of the stably time-sorted readable lines in the window; a file without content is left alone |
| Telemetry.KeepsTheNewest | oxcer-core/src/telemetry.rs:178-221 | the file as written is smaller than 10 MB, and with the entry before the kept ones it would not be; the window is exactly the readable lines from the cutoff on; nothing dropped from it is newer than anything kept |
| Telemetry.RotationsCompose | oxcer-core/src/telemetry.rs:178-221 | a rotation never changes what a later one, with the same or a later cutoff, leaves; in particular rotating twice is rotating once |
| Telemetry.LoadSessionLog | oxcer-core/src/telemetry.rs:403-444 | the ring buffer ends as the last 2000 events of the whole file, unreadable lines skipped |
| Telemetry.LinesHoldEvents | oxcer-core/src/telemetry.rs:417-434 | white space around an event is skipped, and so is a blank or unreadable line |

## Left out

- Masking.ApplyMasking: says nothing of findings that overlap or lie outside the input, which `classify_and_mask` never passes to it.
- Masking.MergeFindings: assumes nonempty findings inside the input; the secret patterns themselves are not modelled, and only one kind per merged span survives, as in the code.
- AgentRunner.Run: assumes a step limit of at least one, as the Swift range does; cancellation, logging and phase callbacks are not modelled.
- Telemetry.RotateRetention: works on the lines of a file; an append after a rotation, which leaves no final line feed, is not modelled, and read and write errors are not either.
- LazyEngine.Safety: atomic steps are reads and writes of the statics; the cloud engine slot and `get_active_engine` are not modelled.
- Router and plan construction: `start_session` may produce any plan with any pending expansion, which is more than the current planner does.
- Lower-casing is ASCII only; Unicode case folding and UTF-8 boundaries of byte slices are not modelled.
- Path normalisation after masking (`normalize_paths_low`).
- Regex size and nesting limits, and what a regex engine does with syntax that the compiler never emits.
- Symbolic links, unreadable directories and other I/O errors in the walks; a tree is finite and does not change while it is walked.
- `derive_tags`, keyword queries and context blocks of the fact store.
- Fixed prompt texts, the `insert_fact` side effect and the file that a summary is written to; whether that write succeeds is an oracle.
- `PathBuf` equality identifies spellings such as `a/./b` and `a/b`; here paths are equal only as texts.
- Head-plus-tail session summaries, which are approximate by design.
- MCP `read`, `edit` and path guarding, the cloud provider, metrics, settings and user interface.

# Roo-Code: assistant-message parser, log-entry schema, evaluation runner and test shells

This project models, in Dafny, five pieces of the Roo-Code repository and proves properties of the models.

- **The streaming parser for assistant replies.** It reads a model's reply one character at a time. It splits the reply into text blocks, tool uses (`<tool_name><param>value</param></tool_name>`) and log entries (`<log_entry><message>…</message><level>…</level></log_entry>`). Triple-backtick code fences switch tag recognition off. Anything left open at the end is emitted as a partial block.
- **The log-entry parameter schema.** It allows four levels: `debug`, `info`, `warn` and `error`. The level defaults to `info`.
- **The evaluation runner's command line.** This covers:
  - argument validation;
  - planning the task list;
  - grading a task by running its unit-test commands;
  - the resume rule for tasks that were already processed;
  - the staggered, concurrency-limited scheduler;
  - one task's session with the agent: relaying, logging and storing agent events, waiting, cancelling and closing.
- **The two simulated terminal streams used by the shell tests.**
  - CMD: the rewrite table that maps POSIX test commands to CMD equivalents.
  - PowerShell: single-quote escaping for the wrapping POSIX shell, and CRLF normalisation.
  - Both: the marker-bracketed chunk sequence, and the exit code taken from a finished execution.

Module layout:

| file | module | contents |
|---|---|---|
| `js_string.dfy` | `JsString` | the ECMAScript string operations the sources rely on (`trim`, `\s`, `endsWith`, `includes`, `indexOf`, `lastIndexOf`, `slice`) |
| `log_entry_schema.dfy` | `LogEntrySchema` | the log levels and the schema's validation |
| `assistant_message.dfy` | `AssistantMessage` | the parser's helpers, its per-character step, the finalisation and the imperative parse loop |
| `assistant_message_properties.dfy` | `AssistantMessageProperties` | lemmas about the parser |
| `eval_cli.dfy` | `EvalCli` | test commands, validation, planning, grading, processing, scheduling |
| `exercise_session.dfy` | `ExerciseSession` | the agent-event handler (a class) and the session around it |
| `command_stream.dfy` | `CommandStream` | the exit-code rule and the chunk sequence shared by both shells |
| `cmd_stream.dfy` | `CmdStream` | the CMD rewrite table, the `yes \| head` pattern, the CMD stream |
| `pwsh_stream.dfy` | `PwshStream` | quoting, CRLF normalisation, the PowerShell stream |

How each source form is modelled:

- **The parser's main loop** updates local variables character by character. It is the method `ParseAssistantMessage`, which has those variables and a `for` loop. It is proved equal to the specification function `Parse`, which folds `Step` over the reply. The properties are proved about `Parse`, `Run` and `Step`.
- **The parser's helpers** mutate the current block in place and return it. They are functions that return the updated block. No block is changed after it has been pushed, so the difference cannot be observed.
- **The task-event handler** closes over five variables that it updates. It is the class `ExerciseMonitor`, with those fields and one method per listener. Its methods are proved against the functions `NextMonitor`/`Next`/`HandleAll` (new state) and `EventEffects`/`Effects`/`AllEffects` (what the handler does to the store, the relay and the log).
- **The scheduler** is a loop over the tasks. It is the method `Schedule`, whose loop invariant is the stagger rule, the concurrency limit and the accounting of every task.

## Model

Paths are relative to the repository root. `parse-assistant-message.ts` stands for `src/core/assistant-message/parse-assistant-message.ts`, and `index.ts` for `evals/apps/cli/src/index.ts`.

| member | source | states |
|---|---|---|
| JsString.Trim | src/core/assistant-message/parse-assistant-message.ts:140 | `trim` never lengthens a string. The result neither starts nor ends with whitespace. It is empty exactly when the input is all whitespace. A string without whitespace is unchanged. |
| JsString.TrimOfTrimmed | src/core/assistant-message/parse-assistant-message.ts:25 | a string that neither starts nor ends with whitespace is its own trim |
| JsString.TrimStripsOnlyWhitespace | src/core/assistant-message/parse-assistant-message.ts:120 | the trim is a contiguous part of the input with only whitespace before and after it |
| JsString.Slice | src/core/assistant-message/parse-assistant-message.ts:20 | `slice(start)` is the suffix after `start`, and the input is the prefix followed by it. A start past the end gives the empty string. |
| JsString.DropLast | src/core/assistant-message/parse-assistant-message.ts:25 | `slice(0, -n)` drops the last `n` characters, or everything when the string is shorter |
| JsString.JsIndexOf | src/core/assistant-message/parse-assistant-message.ts:46 | `indexOf` is -1 exactly when the text does not occur. Otherwise it is an occurrence with none before it. |
| JsString.JsLastIndexOf | src/core/assistant-message/parse-assistant-message.ts:47 | `lastIndexOf` is -1 exactly when the text does not occur. Otherwise it is an occurrence with none after it. |
| LogEntrySchema.LevelFromName | src/schemas/log-entry.ts:3-4 | a name selects a level exactly when it is one of the four level names, and the level selected carries that name |
| LogEntrySchema.LevelNamesRoundTrip | src/schemas/log-entry.ts:3 | every level's name selects that level, and the names are pairwise distinct |
| LogEntrySchema.ParseLevel | src/schemas/log-entry.ts:4 | an absent level becomes `info`. A present level must be a string naming one of the four levels, or validation fails. |
| LogEntrySchema.ParseLogEntryParams | src/schemas/log-entry.ts:6-9 | parameters are valid exactly when the message is a string and the level is absent or allowed. The result keeps the message and the (defaulted) level. An issue is reported for each field that fails. |
| AssistantMessage.FirstEnclosed | src/core/assistant-message/parse-assistant-message.ts:116-117 | the lazy `<x>(.*?)</x>` match: the first opening tag, and the first closing tag after it. There is no match exactly when no opening tag is followed by a closing tag. |
| AssistantMessage.TagValue | src/core/assistant-message/parse-assistant-message.ts:116-120 | a completed entry's value is present exactly when the tag pair matches, and it is the trimmed text between the two tags |
| AssistantMessage.LevelOf | src/core/assistant-message/parse-assistant-message.ts:123-125 | the level changes only to a level whose name is the matched text. A matched text that names a level is always taken. |
| AssistantMessage.ParseToolParam | src/core/assistant-message/parse-assistant-message.ts:14-31 | a parameter completes exactly when the text since its start ends with its closing tag. It then stores the trimmed value before that tag. Otherwise the tool use is unchanged. |
| AssistantMessage.HandleWriteToFileContentAsWritten | src/core/assistant-message/parse-assistant-message.ts:36-54 | the special case as the code runs it. Only the `content` parameter of a `write_to_file` use can change, only once the reply ends with `</content>`, and all other parameters are kept. When the tool's text holds a `<content>`, the result is the intended one (`HandleWriteToFileContent`). When it holds none, the start index is 8 (-1 + 9) and the content is the trimmed text from 8 to the last `</content>`, if that lies after 8. |
| AssistantMessage.ContentBetween | src/core/assistant-message/parse-assistant-message.ts:43-49 | the corrected span of the first finding, not the lines as written: from the first `<content>` to the last `</content>`, with no earlier opening and no later closing tag. There is no span when either tag is missing or the last closing tag does not follow the first opening tag. |
| AssistantMessage.HandleWriteToFileContent | src/core/assistant-message/parse-assistant-message.ts:36-54 | the corrected special case of the first finding, which the parser does not run: only `content` of a `write_to_file` use can change, once the reply ends with `</content>`, to the trimmed span between the tags. With no `<content>` the tool use is unchanged. All other parameters are kept. |
| AssistantMessage.FirstOpenTag | src/core/assistant-message/parse-assistant-message.ts:78-90 | the first name in list order whose opening tag ends the reply. There is none exactly when no listed opening tag ends it. |
| AssistantMessage.ProcessToolUse | src/core/assistant-message/parse-assistant-message.ts:59-98 | a tool use completes exactly when the text since its start ends with its closing tag, and it is then no longer partial. Otherwise a parameter opens when its opening tag ends the reply, starting after the tag. Otherwise only the `write_to_file` content rule applies, as written (`HandleWriteToFileContentAsWritten`). |
| AssistantMessage.ProcessLogEntry | src/core/assistant-message/parse-assistant-message.ts:103-132 | a log entry completes exactly when the text since its start ends with `</log_entry>`. It is then not partial, and takes the enclosed message and the enclosed level when that names a level. Otherwise it is unchanged. |
| AssistantMessage.CreateTextContent | src/core/assistant-message/parse-assistant-message.ts:137-143 | a partial text block holding the trimmed reply since the text started |
| AssistantMessage.CloseText | src/core/assistant-message/parse-assistant-message.ts:170-178 | an open text block is closed with the partly read tag (all but its `>`) removed from its end and the rest trimmed. No block gives no block. |
| AssistantMessage.DetectLogEntryStart | src/core/assistant-message/parse-assistant-message.ts:148-189 | a log entry opens exactly when the reply ends with `<log_entry>`. It opens as a partial `info` entry with an empty message, and closes the text block. |
| AssistantMessage.DetectToolUseStart | src/core/assistant-message/parse-assistant-message.ts:194-241 | a tool use opens exactly when some tool's opening tag ends the reply. It is the first such tool in list order, partial with no parameters, and closes the text block. |
| AssistantMessage.PartialTagValueAsWritten | src/core/assistant-message/parse-assistant-message.ts:267-271 | the partial value as the end-anchored pattern computes it: present exactly when the opening tag occurs, and never longer than the text after the first opening tag |
| AssistantMessage.PartialTagValue | src/core/assistant-message/parse-assistant-message.ts:267-271 | the corrected partial value of the second finding, which the parser does not run: present exactly when the opening tag occurs. It equals the completed value when a closing tag follows, and otherwise is the trimmed rest after the opening tag. |
| AssistantMessage.PartialValuesAgreeUnclosed | src/core/assistant-message/parse-assistant-message.ts:267-271 | when no closing tag follows the first opening tag, the code's partial value is the intended one |
| AssistantMessage.PartialValuesAgreeClosedAtEnd | src/core/assistant-message/parse-assistant-message.ts:267-271 | when the first closing tag after the opening tag ends the text, the code's partial value is the intended one |
| AssistantMessage.FinalizePartialContent | src/core/assistant-message/parse-assistant-message.ts:246-285 | the blocks so far are kept and at most one open block is appended: the tool use (with its open parameter's trimmed value), else the log entry (with the partial message and level as the code computes them), else the text |
| AssistantMessage.Step | src/core/assistant-message/parse-assistant-message.ts:305-396 | one turn of the character loop. Its contract is carried by the lemmas below: `StepKeepsConsistent` (the state stays consistent and at most one finished block is appended), `CodeBlockIsOpaque`, `NoTagOpens`, `TextAccumulates`, `ParamPending` and `LogEntryPending` |
| AssistantMessage.Parse | src/core/assistant-message/parse-assistant-message.ts:292-409 | the whole parse: the fold of `Step` over the reply, then finalisation. `ParseAssistantMessage` computes exactly this, and `OnlyLastBlockPartial`, `CompletedBlocksAreStable`, `LeadingTagYieldsEmptyText`, `LogEntryReply` and `UnterminatedLogEntryReply` state what it yields |
| AssistantMessage.ParseAssistantMessage | src/core/assistant-message/parse-assistant-message.ts:292-409 | the character loop with its local variables computes exactly `Parse`, the fold of the per-character step followed by finalisation; both run the helpers as written, including the two findings |
| AssistantMessageProperties.StepKeepsConsistent | src/core/assistant-message/parse-assistant-message.ts:305-396 | one character keeps the parser state consistent: at most one open block, every open block partial, a parameter only inside a tool use, every finished block complete. The finished blocks only grow, by at most one. |
| AssistantMessageProperties.RunKeepsConsistent | src/core/assistant-message/parse-assistant-message.ts:305-396 | consistency holds after any number of characters |
| AssistantMessageProperties.AtMostOneOpenBlock | src/core/assistant-message/parse-assistant-message.ts:293-303 | after any reply, at most one of text, tool use and log entry is open, and an open parameter belongs to an open tool use |
| AssistantMessageProperties.OnlyLastBlockPartial | src/core/assistant-message/parse-assistant-message.ts:246-285 | in the parse result, a block is partial exactly when it is the last one and was still open at the end |
| AssistantMessageProperties.RunFromAppend | src/core/assistant-message/parse-assistant-message.ts:305-307 | parsing `u + v` is parsing `u` and then continuing with `v` |
| AssistantMessageProperties.BlocksOnlyAppended | src/core/assistant-message/parse-assistant-message.ts:338 | finished blocks are only ever appended, never changed or removed |
| AssistantMessageProperties.CompletedBlocksAreStable | src/core/assistant-message/parse-assistant-message.ts:305-409 | every block finished after a prefix of a reply appears unchanged, at the same position, in the parse of the whole reply |
| AssistantMessageProperties.NoTagOpens | src/core/assistant-message/parse-assistant-message.ts:158 | no log entry or tool use opens unless the reply ends with `>` |
| AssistantMessageProperties.CodeBlockIsOpaque | src/core/assistant-message/parse-assistant-message.ts:309-318 | inside a code fence, characters only accumulate until a closing fence |
| AssistantMessageProperties.TextAccumulates | src/core/assistant-message/parse-assistant-message.ts:391-395 | outside any block, characters other than a backtick and `>` extend one partial text block holding the trimmed text since it started |
| AssistantMessageProperties.ShortTextClosesEmpty | src/core/assistant-message/parse-assistant-message.ts:174-176 | a text block no longer than the partly read tag closes as an empty, non-partial text block |
| AssistantMessageProperties.LeadingOpenTag | src/core/assistant-message/parse-assistant-message.ts:171-178 | a reply that is exactly an opening tag has already produced one finished, empty text block |
| AssistantMessageProperties.LeadingTagYieldsEmptyText | src/core/assistant-message/parse-assistant-message.ts:221-228 | any reply that starts with a tool or log-entry tag parses to a first block that is an empty text |
| AssistantMessageProperties.ParamPending | src/core/assistant-message/parse-assistant-message.ts:321-330 | while no prefix of the value ends with the parameter's closing tag, and the reply never ends with a ``` fence, the parameter stays open and the tool use is unchanged |
| AssistantMessageProperties.ParamValueEndsAtFirstClosingTag | src/core/assistant-message/parse-assistant-message.ts:20-26 | when no ``` fence completes while the value is read, a parameter closes at the first occurrence of its closing tag, with the trimmed text before it as its value |
| AssistantMessageProperties.LogEntryPending | src/core/assistant-message/parse-assistant-message.ts:351-361 | while no prefix ends with `</log_entry>`, and the reply never ends with a ``` fence, the log entry stays open and unchanged |
| AssistantMessageProperties.LogEntryEndsAtFirstClosingTag | src/core/assistant-message/parse-assistant-message.ts:108-127 | when no ``` fence completes while the entry is read, a log entry closes at the first `</log_entry>` and is appended with the enclosed message and level |
| AssistantMessageProperties.LeadingLogEntryTag | src/core/assistant-message/parse-assistant-message.ts:157-186 | the exact parser state after reading `<log_entry>` |
| AssistantMessageProperties.LogEntryReply | src/core/assistant-message/parse-assistant-message.ts:103-132 | a reply holding one complete log entry with no ``` fence in it parses to an empty text block and the finished entry with the enclosed message (default empty) and level (default `info`) |
| AssistantMessageProperties.UnterminatedLogEntryReply | src/core/assistant-message/parse-assistant-message.ts:263-278 | a reply cut off inside its only log entry, with no ``` fence in it, is an empty text block and a partial entry whose message and level are what the code's end-anchored patterns give |
| AssistantMessageProperties.MessageSpan | src/core/assistant-message/parse-assistant-message.ts:116-120 | in `<message>m</message>` followed by anything, where `m` holds no `</message>` of its own, the message value is `m` trimmed |
| AssistantMessageProperties.WriteToFileGuardIsDead | src/core/assistant-message/parse-assistant-message.ts:46-50 | as written, the special case applied to a `write_to_file` use whose text is `</content></content>` (no `<content>`) passes the guard and sets `content` to `t>` |
| AssistantMessageProperties.WriteToFileWithoutContentTagUnchanged | src/core/assistant-message/parse-assistant-message.ts:42-53 | with the guard as intended, the same reply leaves the tool use unchanged |
| AssistantMessageProperties.PartialMessageKeepsClosingTag | src/core/assistant-message/parse-assistant-message.ts:267 | as written, a closed message followed by more text yields a partial message that runs on past `</message>` to the end |
| AssistantMessageProperties.PartialMessageStopsAtClosingTag | src/core/assistant-message/parse-assistant-message.ts:267 | as intended, the partial message of the same entry is the closed message `m`, for a non-empty `m` that neither starts nor ends with whitespace and holds no `</message>` of its own |
| AssistantMessageProperties.UnterminatedMessageRunsOn | src/core/assistant-message/parse-assistant-message.ts:263-278 | through the whole parser, a reply cut off in a log entry like `<log_entry><message>m</message><level>warn` gives a partial entry whose message is `m</message><level>warn` |
| EvalCli.LanguageFromName | evals/apps/cli/src/index.ts:103 | a name selects a language only when it is that language's name. An unknown name selects none. |
| EvalCli.LanguagesListed | evals/apps/cli/src/index.ts:69-96 | every language is listed, and its name leads back to it |
| EvalCli.TestCommands | evals/apps/cli/src/index.ts:69-96 | every language has a grading command, and only JavaScript has two (install, then test) |
| EvalCli.PlatformMattersOnlyForJavaAndPython | evals/apps/cli/src/index.ts:73-92 | Windows changes the commands of Java and Python and of no other language |
| EvalCli.ValidateArguments | evals/apps/cli/src/index.ts:103-109 | validation succeeds exactly when the language is absent, known or `all`, and the exercise is absent or a string. The language is checked first. |
| EvalCli.AllTasks | evals/apps/cli/src/index.ts:123-130 | a task is planned exactly when its language is listed and its exercise is in that language's catalogue |
| EvalCli.TasksOf | evals/apps/cli/src/index.ts:131-135 | one task per exercise of the language, in catalogue order |
| EvalCli.PlanRun | evals/apps/cli/src/index.ts:103-147 | invalid arguments fail with their error, and a successful plan is never empty. A resumed run keeps the stored tasks. A resumed run with no stored tasks fails. Language `all` plans every catalogue exercise, or fails when there is none. Exercise `all` plans every exercise of the named language in catalogue order, fails when it has none, and fails when no language is given. Otherwise the plan is one task: the named language or else the asked one, and the exercise given or else the asked one. |
| EvalCli.FirstFailure | evals/apps/cli/src/index.ts:442-537 | the index of the first unsuccessful command, with every earlier one successful, or none when all succeed |
| EvalCli.RunUnitTest | evals/apps/cli/src/index.ts:428-540 | a task passes exactly when every command succeeds. The commands run in order and stop after the first failure. |
| EvalCli.LaterResultsIrrelevant | evals/apps/cli/src/index.ts:521-535 | results after the first failure do not change which command failed |
| EvalCli.ProcessTask | evals/apps/cli/src/index.ts:165-185 | the agent runs exactly for an unfinished task. Grading and the pass/fail broadcast happen exactly for an ungraded task. A stored grade is reported unchanged. |
| EvalCli.ProcessingResumes | evals/apps/cli/src/index.ts:165-185 | processing a processed task again neither re-grades nor changes the result, and reruns the agent only if no finish time was stored |
| EvalCli.Without | evals/apps/cli/src/index.ts:187-193 | splicing out the settled tasks keeps exactly the unsettled ones. Together with the settled ones they are the original list, and the list shrinks when any settled. |
| EvalCli.Race | evals/apps/cli/src/index.ts:205 | waiting for the first of the in-flight tasks removes at least one. Still-running and settled tasks together are exactly the tasks that were in flight. |
| EvalCli.StaggerRuleExtends | evals/apps/cli/src/index.ts:195-205 | the next start delay keeps the stagger rule: one more stagger after the previous start, or 0 right after the list reached the limit |
| EvalCli.WithinLimitExtends | evals/apps/cli/src/index.ts:200-205 | no push makes the in-flight list longer than the concurrency limit, and no delay exceeds one stagger per slot |
| EvalCli.StartTask | evals/apps/cli/src/index.ts:198-206 | one turn of the loop: the task's delay and the list length are recorded, and the scheduler's invariant and the accounting of started tasks carry over |
| EvalCli.Schedule | evals/apps/cli/src/index.ts:195-209 | every task is started once, following the stagger rule and never above the concurrency limit, and every task settles exactly once. With a limit above the number of tasks, task `i` starts `i + 1` staggers in. |
| ExerciseSession.MetricsOf | evals/apps/cli/src/index.ts:321-334 | stored metrics copy the reported usage, with missing cache counts stored as 0 |
| ExerciseSession.NextMonitor | evals/apps/cli/src/index.ts:291-345 | the handler's variables after one event: the connection flag is untouched, the finish time changes only on a completion or an abort and is then the event's clock reading, and the metrics id and agent task id change only on a start |
| ExerciseSession.StoreEffects | evals/apps/cli/src/index.ts:291-345 | the store writes for one event are never relays or logs, include no metrics write unless a truthy metrics id is set, and include the finish write exactly on a completion or an abort |
| ExerciseSession.EventEffects | evals/apps/cli/src/index.ts:272-346 | what the listener does for one event: the relay, the log line and the store writes. `FilteringOnlyHidesEvents` states that only `Message` is not relayed, that exactly the message, token-usage and ask-response events are not logged, and that the store writes are kept regardless |
| ExerciseSession.ExerciseMonitor.constructor | evals/apps/cli/src/index.ts:261-265 | the handler starts with the start time, no finish time, no metrics record, no agent task id, and connected |
| ExerciseSession.ExerciseMonitor.OnTaskEvent | evals/apps/cli/src/index.ts:272-346 | the task-event listener's new variables and its relays, logs and store writes are those of the handler functions for that event |
| ExerciseSession.ExerciseMonitor.OnDisconnect | evals/apps/cli/src/index.ts:348-351 | the disconnect listener only marks the connection dropped |
| ExerciseSession.ExerciseMonitor.Feed | evals/apps/cli/src/index.ts:272-351 | handling a sequence of arrivals leaves the handler in the folded state, having done the concatenated effects |
| ExerciseSession.FilteringOnlyHidesEvents | evals/apps/cli/src/index.ts:267-289 | every event except `Message` is relayed, and exactly the events other than message, token-usage and ask-response are logged |
| ExerciseSession.NoMetricsBeforeStart | evals/apps/cli/src/index.ts:317-340 | until a task start has created a metrics record, no metrics are ever written |
| ExerciseSession.FinishedOnlyByCompletion | evals/apps/cli/src/index.ts:342-345 | with the clock past 0, a finish time is recorded exactly when a completion or an abort arrived |
| ExerciseSession.DisconnectIsFinal | evals/apps/cli/src/index.ts:348-351 | a dropped connection stays dropped |
| ExerciseSession.SessionCommands | evals/apps/cli/src/index.ts:355-423 | the commands a session sends: start, then a cancel after a timeout, then close and disconnect over a live connection. `CancelRule` states when the cancel is sent, and `RunExercise` sends exactly these commands |
| ExerciseSession.SessionEffects | evals/apps/cli/src/index.ts:272-393 | the handler's effects over the session, then the finish write when the wait ran out. `TimeoutRecordsFinish` states that a timed-out session always ends with that write |
| ExerciseSession.SessionSucceeds | evals/apps/cli/src/index.ts:252-425 | the success flag `!!taskFinishedAt` for a connected session, false when the connection failed. `SuccessMeansCompletion` states that it holds exactly when a completion or an abort arrived |
| ExerciseSession.RunExercise | evals/apps/cli/src/index.ts:252-425 | a session's commands, the handler's effects and the success flag are those of the session specification |
| ExerciseSession.CancelRule | evals/apps/cli/src/index.ts:373-393 | a cancel is sent for an agent task exactly when the wait ran out, the agent had named that task and the connection is live |
| ExerciseSession.TimeoutRecordsFinish | evals/apps/cli/src/index.ts:376-393 | a wait that runs out always ends by recording the finish time |
| ExerciseSession.SuccessMeansCompletion | evals/apps/cli/src/index.ts:374-425 | a session succeeds exactly when a completion or an abort arrived before the wait ended, or while cancelling after a timeout |
| CommandStream.RealOutput | src/integrations/terminal/__tests__/streamUtils/cmdStream.ts:62-70 | the captured output is all output on success. On failure it is the captured standard output, or nothing. |
| CommandStream.ExitCode | src/integrations/terminal/__tests__/streamUtils/cmdStream.ts:67-71 | a failure with a nonzero status reports that status |
| CommandStream.ZeroExitMeansCompleted | src/integrations/terminal/__tests__/streamUtils/pwshStream.ts:26-34 | the exit code is 0 exactly when the execution completed. A failure without a status, or with status 0, reports 1. |
| CommandStream.Chunks | src/integrations/terminal/__tests__/streamUtils/cmdStream.ts:75-88 | the stream opens with the command-start marker and closes with the command-end marker. The output is a middle chunk exactly when the captured output is not empty. |
| CommandStream.ChunksJoin | src/integrations/terminal/__tests__/streamUtils/cmdStream.ts:75-88 | read as one text, the stream is the (shown) output between the two markers |
| CmdStream.ToCmdCommand | src/integrations/terminal/__tests__/streamUtils/cmdStream.ts:10-43 | `true` becomes `exit /b 0`, `false` becomes `exit /b 1`, and a command holding `kill -SIGSEGV` never becomes `exit /b 139`. `RewriteFollowsTable` and `SegfaultRuleUnreachable` state the whole rewrite |
| CmdStream.FirstFiring | src/integrations/terminal/__tests__/streamUtils/cmdStream.ts:12-30 | the first rule in table order whose test holds, with no earlier rule's test holding, or none when no test holds |
| CmdStream.GuardsMean | src/integrations/terminal/__tests__/streamUtils/cmdStream.ts:12-30 | each table rule's guard holds exactly when the corresponding test of the if-chain does |
| CmdStream.RewriteFollowsTable | src/integrations/terminal/__tests__/streamUtils/cmdStream.ts:10-43 | the CMD command is the replacement of the first firing rule. Otherwise it is the `for /L` loop when the `yes "X" \| head -n N` pattern matches and `head` occurs. Otherwise the command is unchanged. |
| CmdStream.SegfaultRuleUnreachable | src/integrations/terminal/__tests__/streamUtils/cmdStream.ts:26-30 | every `kill -SIGSEGV` command is caught by the earlier `kill` test, so only the literal `exit /b 139` ever becomes `exit /b 139` |
| CmdStream.EchoRewrites | src/integrations/terminal/__tests__/streamUtils/cmdStream.ts:12-15 | `echo a` is kept, and any command containing `echo -n a` becomes `echo\|set /p=a` |
| CmdStream.RunEnd | src/integrations/terminal/__tests__/streamUtils/cmdStream.ts:33 | the end of the longest run of a character class, as a greedy `+` consumes it |
| CmdStream.YesHeadAt | src/integrations/terminal/__tests__/streamUtils/cmdStream.ts:33 | a match at a position starts with `yes` and captures a non-empty quote-free text and a non-empty digit string |
| CmdStream.SearchYesHead | src/integrations/terminal/__tests__/streamUtils/cmdStream.ts:33-34 | the leftmost match captures well-formed groups, and can only exist when `yes` occurs |
| CmdStream.YesHeadRecognised | src/integrations/terminal/__tests__/streamUtils/cmdStream.ts:33-35 | `yes "X" \| head -n N` followed by anything that is not a digit is matched, with captures `X` and `N` |
| CmdStream.YesHeadBecomesLoop | src/integrations/terminal/__tests__/streamUtils/cmdStream.ts:31-38 | such a command, when no earlier rule catches it, becomes `for /L %i in (1,1,N) do @echo X` |
| CmdStream.CreateCmdCommandStream | src/integrations/terminal/__tests__/streamUtils/cmdStream.ts:50-91 | the chunks open with the start marker and close with the end marker, there are three exactly when the captured output is non-empty, and the exit code is 0 exactly when the command completed |
| CmdStream.CmdStreamText | src/integrations/terminal/__tests__/streamUtils/cmdStream.ts:50-91 | CMD runs the rewritten command. Read as one text, the stream is the raw output between the markers. The exit code is 0 exactly when the command completed. |
| PwshStream.EscapeSingleQuotes | src/integrations/terminal/__tests__/streamUtils/pwshStream.ts:18 | escaping never shortens the command and leaves a command without single quotes unchanged |
| PwshStream.ShellLine | src/integrations/terminal/__tests__/streamUtils/pwshStream.ts:19 | the shell line is the `pwsh` invocation followed by the escaped command in single quotes |
| PwshStream.UnquoteEscaped | src/integrations/terminal/__tests__/streamUtils/pwshStream.ts:18 | the POSIX shell's quote removal turns the escaped command, read inside single quotes, back into the command |
| PwshStream.ShellLineQuotesCommand | src/integrations/terminal/__tests__/streamUtils/pwshStream.ts:18-19 | the argument handed to `pwsh` is exactly the original command, whatever quotes it contains |
| PwshStream.NormalizeCrlf | src/integrations/terminal/__tests__/streamUtils/pwshStream.ts:45 | normalising never lengthens the output, and the result is empty exactly when the output is |
| PwshStream.NormalizeOnlyDropsCarriageReturns | src/integrations/terminal/__tests__/streamUtils/pwshStream.ts:45 | normalising deletes one carriage return per `\r\n` pair and nothing else |
| PwshStream.NormalizeWithoutCarriageReturn | src/integrations/terminal/__tests__/streamUtils/pwshStream.ts:45 | output without carriage returns is streamed unchanged |
| PwshStream.NormalizeConcat | src/integrations/terminal/__tests__/streamUtils/pwshStream.ts:45 | normalising works piece by piece when a piece does not end inside a `\r\n` pair |
| PwshStream.NormalizeIsSinglePass | src/integrations/terminal/__tests__/streamUtils/pwshStream.ts:45 | the replacement scans left to right once: `\r\r\n` becomes `\r\n` |
| PwshStream.CreatePowerShellStream | src/integrations/terminal/__tests__/streamUtils/pwshStream.ts:10-54 | the chunks open with the start marker and close with the end marker. There are three exactly when the raw output is non-empty, and the middle one is then the normalised output. The exit code is 0 exactly when the command completed. |
| PwshStream.PowerShellStreamText | src/integrations/terminal/__tests__/streamUtils/pwshStream.ts:10-54 | the shell runs `pwsh` with exactly the command as its argument. Read as one text, the stream is the normalised output between the markers. The exit code is 0 exactly when the command completed. |

## Left out

- Process execution is not modelled: `execSync`, `execa`, the VS Code launch (`index.ts` 238-250), the IPC connection attempt and its 5-second readiness wait. A finished execution, the connection outcome and the arriving agent events are inputs instead.
- Timers and sleeps are not modelled: the start delay's `setTimeout`, the 1-second polling of the wait, the 2- and 5-second pauses, and the unit-test timeout that kills the process tree with `ps-tree`, `kill` or `taskkill`. A command killed at the timeout is a failed result.
- Console output and the log file are not modelled, except the choice of which events are logged. This includes the environment dump and the PowerShell stream's stderr messages (`pwshStream.ts` 30-33).
- The task store, the git commands (`index.ts` 149-153, 214-215), `settings.json`, `finishRun` and the process exit are not modelled. Store writes are listed as effects; store reads are inputs.
- The interactive prompts `askLanguage`/`askExercise` (`index.ts` 542-568) are not modelled; their answers are inputs. The command-line wiring of `main` (570-615) and the `PAUSE_ON_EXIT` pause are left out.
- Concurrency is not modelled. Asynchronous listeners are handled one event at a time, in arrival order, and events that arrive during the close pause are not modelled. A rejected task promise is not modelled. Which in-flight tasks settle in a race is an input.
- EvalCli.LanguageFromName: the order of the exercise languages comes from a package that is not part of this model; the model lists Go, Java, JavaScript, Python, Rust.
- CommandStream.ExitCode: a status that is `NaN` or not an integer cannot occur in the model; statuses are integers.
- CmdStream.CreateCmdCommandStream: how `cmd.exe` itself splits and quotes its `/c` argument is not modelled.
- ExerciseSession.CancelRule: the cancel is sent only when the agent named its task and the connection is live, which is what the code does. A cancel on every timeout is not what the code does.
- ContentBetween: this is the corrected span. The code's span starts at 8 when there is no `<content>`; `HandleWriteToFileContentAsWritten` models that, and the parser uses it.
- HandleWriteToFileContent: this is the corrected special case, and the parser does not use it. The code stores the text from index 8 when there is no `<content>`; `HandleWriteToFileContentAsWritten` models that.
- PartialTagValue: this is the corrected partial value, and the parser does not use it. The code's value runs on past a closing tag that does not end the text; `PartialTagValueAsWritten` models that.
- AssistantMessage.ParseAssistantMessage: the tool-name and parameter-name lists are a parameter of the parser, because the package that defines them is not part of this model.
- JsString.Trim: strings are sequences of code points. UTF-16 surrogate pairs are not modelled; no tag or whitespace character involves them.
- The `CommandStream` type the two stream files return comes from a module that is not part of this model; the model returns the line, the chunks and the exit code as one value.

## Findings

The parser (`Step`, `Parse`, `ParseAssistantMessage`) runs both helpers as the code writes them. Each corrected helper is defined and proved beside its as-written version, and the parser does not use it.

| source | as written | input that shows it | evidently intended | confidence | as-written member | corrected member |
|---|---|---|---|---|---|---|
| src/core/assistant-message/parse-assistant-message.ts:46-50 | the start index is `indexOf("<content>") + 9`, so the `!== -1` guard can never fail. A missing `<content>` gives start 8. | a `write_to_file` use whose text is `</content></content>` gets `content` = `t>` | leave the tool use unchanged when `<content>` does not occur | not executed | AssistantMessageProperties.WriteToFileGuardIsDead | AssistantMessageProperties.WriteToFileWithoutContentTagUnchanged |
| src/core/assistant-message/parse-assistant-message.ts:267-268 | the lazy group with an optional closing tag anchored at `$` extends to the end of the text whenever the text does not end with the closing tag | an unterminated entry `<message>m</message><level>warn` gets the message `m</message><level>warn` | stop the partial value at the first closing tag when there is one | not executed | AssistantMessageProperties.UnterminatedMessageRunsOn | AssistantMessageProperties.PartialMessageStopsAtClosingTag |

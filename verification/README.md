# A verified model of the arch-agent core

arch-agent runs language-model agents: a loop asks a model for completions, runs the tools it calls, shortens
the conversation when it grows too large, and tells a chat service what happens through a channel of events. This
project models that loop and what surrounds it, and proves what the design relies on.

The parts, each a module:

- **Messages, Sessions** – messages, merging of neighbours, the session that stores them. Adding batches to a
  session is shown to be the same as adding single messages, in any batching.
- **Conversation, Compaction** – when a conversation is well formed (each tool call has its one result, each
  result its call), and what cutting a conversation down to a summary and a tail does to that.
- **Runtime, Runs** – the loop itself. `RunAgentLoop` is a method with the loop, the local variables and the early
  exits of the original. It is proved equal to the recursive function `Loop`, about which the rest is proved. The
  model, the tools, the hooks and the cancellation of the context are arbitrary functions that read and change a
  world of any type, so each may remember, fail, panic and answer differently every time.
- **ToolCalls, Summaries, TurnCases, TurnLimits** – the same loop said without the functions that compute it: what
  the model gets for each call, which messages a summary stands for, what each path of a turn does, how many turns
  `max_turns` allows.
- **AnsweredCalls, OrphanedResults, Traces, Mirror, SavedSessions, ResumedSessions, Costs** – properties of all runs:
  every context sent to the model is well formed, and when it holds results without their call; the events follow a
  grammar; the session is a copy of the loop's own conversation; when a saved session can be resumed, and with which
  system messages; how many model calls a run can make.
- **Chat, Pipeline** – the event handler that keeps the session, and the two goroutines joined by a bounded channel,
  in every interleaving.
- **Delegation** – agents that call agents. The mutual recursion from the loop through a tool, the sub-agent service
  and the chat service back to the loop is written as recursion, so that Dafny's acceptance of it is the proof that it
  ends. **SubAgents** says what a delegation brings back.
- **TodoHook** – the hook that refuses to finish with undone todos; its own budget against that of the loop.
- **Dispatching, LockTables, Scheduling** – three concurrent protocols as state machines over any number of
  threads: one run per session, reference-counted path locks, the task scheduler. Each has an inductive invariant
  over all interleavings. The critical sections of the first two are classes whose methods are tied to the
  functions the steps use. **ReloadWindows, ReloadReturns, DeadRuntimes** follow one reload of the scheduler from its
  lock to its unlock: what it keeps, how long it can take, and what it leaves of one-shot tasks. **Totals** sums up
  the steps that are left.
- **Tasks, TaskEdits** – the scheduler's reload as the imperative code it is, and the editing of tasks on a task
  file that may fail at any access.
- **Secrets, WholeSecrets, CleanOutput** – masking of secrets: the ordering of the pairs, what the replacement does to
  any text, whether it reaches the last byte of every secret, and whether a masked text holds a secret again.
- **Text, FileLines, LogFiles, AgentFiles** – lines of text: the line of a search match, line ranges, trimming the
  log in place, splitting an agent file.

`dafny verify dfyconfig.toml` checks everything.

## What the code does not keep

Some natural expectations are false of the code. The code is modelled as it is; each has a concrete input and the
exact condition.

- Compaction can leave a tool result behind whose call was summarised away. A compacted context holds no such result,
  after an overflow as in the middle of a turn, if and only if the first message behind the cut is no tool result and
  none behind it was without its call before (`Compaction.CompactionOrphans`, `Compaction.CompactionCanOrphan`). In a
  run from a context without any, the contexts stay so if and only if no turn compacts with a tool result at its cut
  (`OrphanedResults.ContextsWithoutOrphans`).
- A chat can save a session that ends in unanswered tool calls. It happens if and only if some turn of its run accepts
  a completion that asks for tools and exceeds the threshold, and then cannot compact the context
  (`SavedSessions.LoopSavesAnswered`, `SavedSessions.ChatCanBeStoppedBeforeTools`).
- A session can come to hold the system message, which the next chat puts in front of it again. Over any history of
  chats it happens if and only if some turn of a chat compacts (`ResumedSessions.HistoryHoldsSystem`,
  `ResumedSessions.SystemCanBeDoubled`).
- A reload can neglect a runnable task: it was not executed meanwhile, and never will be. It happens if and only if the
  task has, when the reload takes the lock, a runtime with the snapshot's configuration, and that is the runtime of a
  one-shot that was executed (`DeadRuntimes.ReloadNeglects`, `DeadRuntimes.ReloadCanKeepTheDead`).
- Renaming a task can lose it. It happens if and only if the removal under the old name works and the saving under the
  new one fails (`TaskEdits.Editor.Patch`, `TaskEdits.RenameCanLose`).
- The text left by secret masking can depend on the order of a Go map. It does not, for any text, if and only if no
  two keys share a non-empty secret (`Secrets.OrderIndependentIffDistinct`).
- The last bytes of a secret can come through the masking. They never do if and only if they do not in the finitely
  many texts made of two overlapping secrets (`WholeSecrets.WholeOccurrencesMasked`, `WholeSecrets.ByteCanSurvive`).
- A masked text can hold a secret, which a placeholder brought in. It does if and only if it does for a text that is
  cut into at most as many pieces, copied characters and masked secrets, as the secret has characters; it never does if
  no secret touches a placeholder (`CleanOutput.ShortTextsSuffice`, `CleanOutput.OutputIsClean`,
  `CleanOutput.SecretCanComeOut`).
- An agent file does not always read back as it was written. It does if and only if the frontmatter does not hold the
  delimiter and neither text holds a carriage return before a newline (`AgentFiles.RoundTrip`,
  `AgentFiles.SecondReadDiffers`).

## Model

| member | source | states |
|---|---|---|
| Messages.MergeMatchedPair | internal/agent/message.go:220-246 | a pair merges exactly when the types agree and are not tool results; the type stays |
| Messages.CollapseMatched | internal/agent/message.go:248-271 | the in-place loop computes the one-by-one merge of all neighbours |
| Messages.MergeAssociative | internal/agent/message.go:220-246 | merging three neighbours gives the same message in either order |
| Messages.AddMessagesIsPushAll | internal/session/session.go:213-231 | collapsing a batch and joining it to the stored list is adding its messages one by one |
| Messages.AddBatchesIsCollapse | internal/session/session.go:213-231 | after any batches on an empty session, the messages are the collapse of everything added |
| Messages.CollapseFixedPoints | internal/agent/message.go:248-271 | collapse is idempotent, and leaves exactly those lists alone in which no two neighbours of one type stand except tool results |
| Messages.PushAllKeepsItems | internal/session/session.go:213-231 | content parts with their speaker, tool results and tool calls are neither lost, duplicated nor reordered |
| Sessions.Session.AddMessages | internal/session/session.go:213-231 | the stored list becomes the one-by-one addition; the token counts stay |
| Sessions.Session.ApplyCompletion | internal/session/session.go:233-240 | the agent message is appended unmerged, both token counts are replaced |
| Sessions.Session.OverwriteMessages | internal/session/session.go:242-249 | messages and input tokens are replaced, output tokens reset |
| Compaction.CompactionShape | internal/runtime/compaction.go:16-92 | system message, one user message that ends in the summary, untouched suffix |
| Compaction.CompactionKeeps | internal/runtime/compaction.go:16-92 | for every cut: system message and last message stay, the first other message is a user message, three or more messages become fewer |
| Compaction.CompactionKeepsAnswered | internal/runtime/compaction.go:16-92 | an answered conversation stays answered wherever the cut falls |
| Compaction.CompactionKeepsPending | internal/runtime/compaction.go:40-43 | in the middle of a turn the last message, whose calls are pending, is kept last, behind an answered conversation |
| Compaction.CompactionOrphans | internal/runtime/compaction.go:16-68 | in both contexts that are compacted, answered or with the last message's calls pending, the result holds no tool result without its call if and only if the first kept message is no tool result and every kept one had its call |
| Compaction.CompactionCanOrphan | internal/runtime/compaction.go:16-68 | a context where a result does lose its call |
| Conversation.AnsweredPending | internal/runtime/loop.go:82-84 | an agent message keeps a conversation answered only if it calls nothing |
| Conversation.AnsweredExtend | internal/runtime/loop.go:82-101 | an agent message with its results keeps a conversation answered |
| Runtime.ApplyHooks | internal/runtime/hook.go:21-38 | the loop applies the hooks in order, each to the previous one's event, and stops at the first error |
| ToolCalls.HooksInOrder | internal/runtime/hook.go:21-38 | a row of hooks is its first part and then, unless that failed, the rest on what the first part left |
| Runtime.ProcessToolCalls | internal/runtime/loop.go:139-162 | the loop's events, result messages and effects are those of `Batch`, which the lemmas of ToolCalls determine call by call |
| ToolCalls.ErrorTells | internal/runtime/loop.go:164-178 | what the model is told of a failed call: the timeout exactly if the deadline is in the error's chain, and the chain's first mistake exactly if it has one |
| ToolCalls.UnknownTool | internal/runtime/loop.go:187-191 | a call of a tool that is not there runs nothing and is answered with the mistake |
| ToolCalls.CallRefused | internal/runtime/loop.go:193-200 | a hook's error on the call is reported, and the tool does not run |
| ToolCalls.ToolAnswers | internal/runtime/loop.go:202-222 | the tool runs on the arguments that the hooks left, and the model gets what the result hooks make of its answer, or their error |
| ToolCalls.ToolBreaks | internal/runtime/loop.go:224-244 | a failing or panicking tool is reported, with the state it left, and no result hook runs |
| ToolCalls.BatchInOrder | internal/runtime/loop.go:139-162 | calls run one after the other, each in the state that the one before left |
| Runtime.CompactContext | internal/runtime/compaction.go:16-68 | context, event, model call and errors are those of `DoCompact`, which Summaries.Summarised and Summaries.TooShort determine |
| Summaries.Summarised | internal/runtime/compaction.go:16-92 | one model call, about just the messages that will be gone; its reply decides the outcome, and its summary takes their place |
| Summaries.TooShort | internal/runtime/compaction.go:23-25 | a context of at most one message is an error, and the model is not called |
| Summaries.ToldInOrder | internal/agent/message.go:174-180 | of a conversation the summarising model is told message by message |
| Summaries.OneMessageTold | internal/agent/message.go:82-124 | of a message it is told who said it, every text and every call |
| Summaries.CallsConcat | internal/agent/message.go:164-172 | of the calls it is told one by one |
| Runtime.RunTurn | internal/runtime/loop.go:38-106 | the loop body with its early exits computes `Turn`, which the lemmas of TurnCases determine path by path |
| TurnCases.CancelledTurn | internal/runtime/loop.go:38-43 | a done context stops the run before the model is asked |
| TurnCases.OverflowTurn | internal/runtime/loop.go:50-57 | an overflow anywhere in the error's chain is answered with a compaction, whose failure stops the run |
| TurnCases.MistakenTurn | internal/runtime/loop.go:59-77 | a mistake shows the agent its own words and the mistake's message, three times; the fourth stops the run |
| TurnCases.FailedTurn | internal/runtime/loop.go:79-80 | any other error of model or hooks stops the run |
| TurnCases.AcceptedTurn | internal/runtime/loop.go:82-105 | an accepted completion joins the conversation, above the threshold that is compacted, and then its calls run and their results join, unless the compaction failed |
| Runtime.RunAgentLoop | internal/runtime/loop.go:26-110 | the loop's events and effects are those of the recursive run; how many turns that has is in TurnLimits.LimitReached |
| Runs.RunEnds | internal/runtime/loop.go:37-110 | a run is some turns that continue, then one that exits, or the turn limit after all turns |
| TurnLimits.LimitReached | internal/runtime/loop.go:257-269 | with max_turns an integer, else with a hundred: a run ends with the turn limit's error if and only if none of so many turns ends it, and then consists of just these |
| AnsweredCalls.BatchAnswers | internal/runtime/loop.go:139-222 | whatever tools and hooks do, a batch has one result per call, in call order, with the call's ID |
| AnsweredCalls.TurnAnswered | internal/runtime/loop.go:38-106 | a turn that continues keeps the conversation answered, by every path |
| AnsweredCalls.EveryModelCallAnswered | internal/runtime/loop.go:26-110 | at every turn's model call, across compactions, mistakes and failing tools, each agent message is followed by exactly its results |
| OrphanedResults.TurnOrphans | internal/runtime/loop.go:49-101 | a turn that continues from a clean context leaves a result without its call if and only if it compacts with a tool result at its cut |
| OrphanedResults.ContextsWithoutOrphans | internal/runtime/loop.go:26-110 | the contexts of a run stay without such results up to a turn if and only if no turn before it cuts so |
| Chat.HandleEvent | internal/chat/service.go:211-291 | what one event does to the session, the repository, the activity log and the sink |
| Chat.RunWithCallbacks | internal/chat/service.go:211-291 | the consumer leaves the session at the fold of all events, forwards each event and saves at each exit |
| Chat.ActivityInOrder | internal/chat/service.go:251-258 | one report for each completion, in order, with its content and calls, and no other |
| Mirror.TurnMirrors | internal/chat/service.go:235-271 | a turn of the loop and the handling of its events keep loop and session in step |
| Mirror.SessionMirrorsLoop | internal/chat/service.go:153-155 | at every turn boundary the loop's messages without the mistake pairs are the session, behind the system message until the first compaction |
| SavedSessions.TurnOutcomes | internal/runtime/loop.go:82-104 | a turn leaves an answered session answered if and only if it does not fail to compact after accepting a completion with calls |
| SavedSessions.LoopSavesAnswered | internal/chat/service.go:211-271 | on every exit the saved session is answered if and only if no turn of the run failed to compact after accepting a completion with calls |
| SavedSessions.LoopShowsStop | internal/runtime/loop.go:92-96 | the last two events of a run show whether that happened |
| SavedSessions.ChatSavesAnswered | internal/chat/service.go:106-178 | the same for a whole chat on an answered session |
| SavedSessions.ChatsStayAnswered | internal/chat/service.go:106-178 | over any history of chats, all saved sessions are answered if and only if it never happened |
| SavedSessions.ChatCanBeStoppedBeforeTools | internal/runtime/loop.go:87-97 | a model with which the saved session is not answered |
| ResumedSessions.TurnKeepsSystem | internal/runtime/compaction.go:27-68 | in a turn on a context that starts with the system message, exactly the compactions announce a context, and it starts with that message |
| ResumedSessions.ChatSavesSystem | internal/chat/service.go:235-238 | a chat in which a turn compacts saves a session that starts with its system message, every other one just the stored system messages |
| ResumedSessions.SavedSystemMeansCompacted | internal/chat/service.go:235-238 | a session without system message holds one after a chat if and only if a turn compacted |
| ResumedSessions.HistoryHoldsSystem | internal/chat/service.go:106-178 | over any history of chats some saved session holds a system message if and only if some chat had a turn that compacted |
| ResumedSessions.NextChatSeesTwo | internal/chat/service.go:153-155 | after such a chat the next context starts with two system messages |
| ResumedSessions.SystemCanBeDoubled | internal/chat/service.go:153-155 | two chats on an empty session, the second with the same system message twice |
| Traces.TurnFollowsGrammar | internal/runtime/loop.go:38-106 | a turn sends a compaction, a mistake, an exit, or a completion with its compaction and tool events |
| Traces.LoopFollowsGrammar | internal/runtime/loop.go:26-110 | every run's events are a complete sentence of the grammar |
| Traces.TraceOfLoop | internal/runtime/loop.go:26-110 | one exit, and it is last; at most four mistakes, ErrTooManyMistakes exactly with the fourth; every call resolved once and in order unless a failed compaction stopped the run |
| Pipeline.ScheduleKeepsInv | internal/chat/service.go:197-291 | in every interleaving, sink, channel and what is in hand are together the events produced so far |
| Pipeline.NeverStuck | internal/chat/service.go:197-291 | loop and consumer never block each other over the bounded channel |
| Pipeline.PipelineIsDeterministic | internal/chat/service.go:197-291 | every complete interleaving ends with the sequential fold, after the same number of steps |
| Pipeline.ChatIsDeterministic | internal/chat/service.go:197-291 | every complete interleaving of a chat saves exactly once, after all updates, and forwards the events one for one, changed only at a cancelled exit |
| Delegation.CollectAnswer | internal/subagent/subagent.go:74-108 | the loop over the sink's events computes the answer |
| Delegation.AnswerOfRun | internal/subagent/subagent.go:74-108 | the caller gets the last completion's content, and a failure report exactly when the run failed otherwise than by cancellation |
| SubAgents.ChatSaves | internal/chat/service.go:106-178 | a chat runs on system message, stored conversation and question, and saves the session with everything the run added; an error of its preparation comes through |
| SubAgents.QuestionReceived | internal/chat/service.go:140-140 | the question joins a user message at the end of the stored conversation, or stands by itself |
| SubAgents.DelegationAnswers | internal/subagent/subagent.go:38-109 | above three delegations the answer is the report of the run of the sub-agent on the question, one level deeper; every error comes through; at three nothing is asked |
| SubAgents.OnlyCallAgentDelegates | internal/tools/call_agent.go:70-72 | of an agent's tools call_agent alone delegates |
| SubAgents.CallAgentSays | internal/tools/call_agent.go:99-129 | the tool puts the answer behind its heading, and turns each kind of error into a mistake of its own |
| SubAgents.TooDeep | internal/tools/call_agent.go:115-118 | three delegations deep the agent is told so, and nobody is asked |
| SubAgents.QuestionAnswered | internal/tools/call_agent.go:99-129 | the whole way: the message a model gets for its call of call_agent holds the report of the run that answered its question |
| Costs.LoopCost | internal/runtime/loop.go:26-110 | a run advances any meter by at most two model calls and one batch of tool calls per turn |
| TurnLimits.ModelCallsAllowed | internal/runtime/loop.go:257-269 | at most twice max(0, max_turns) model calls, and at most two hundred if that setting is no integer |
| Costs.ChatCost | internal/subagent/subagent.go:38-72 | a chat with everything it delegates costs at most the nested bound for its depth |
| Costs.NoModelCallBelowDepthThree | internal/subagent/subagent.go:117-124 | no chain of delegations reaches a model below depth three, whatever the turn limits and the number of calls |
| TodoHook.UndoneTodoHook.ExtractUndoneTodos | internal/hooks/completion.go:128-136 | the loop collects the todos that are neither done nor declined, in order |
| TodoHook.UndoneItems | internal/hooks/completion.go:128-136 | an item is undone if and only if it is listed and neither done nor declined, as often as it is listed |
| TodoHook.UndoneInOrder | internal/hooks/completion.go:128-136 | undone items keep their order |
| TodoHook.Judged | internal/hooks/completion.go:89-126 | by the todos' statuses: exactly when all are done or declined the agent may finish; else it is sent back with the undone ones, at most three times in a row |
| TodoHook.UndoneTodoHook.Apply | internal/hooks/completion.go:89-126 | counter, completion and error after the hook, in every case |
| TodoHook.LoopWithinBudget | internal/hooks/completion.go:89-161 | a run keeps the counter in 0..3, never ends in ErrTooManyMistakes, and clears the counter when it ends well |
| TodoHook.HistoryWithinBudget | internal/hooks/hook_sets.go:31-39 | the same over any history of runs of one session |
| TodoHook.NilExitMeansNoUndone | internal/hooks/completion.go:89-126 | the turn with which a run ends without error has a completion that was marked done while every listed todo was done or declined, and the run leaves the counter cleared |
| Dispatching.Dispatcher.Swap | internal/chat/dispatcher.go:81-88 | the request becomes the entry of its key and learns its predecessor; other entries stay |
| Dispatching.Dispatcher.Remove | internal/chat/dispatcher.go:90-97 | an entry goes only if it still names the request |
| Dispatching.StepKeepsInv | internal/chat/dispatcher.go:39-97 | every step of every thread keeps the invariant |
| Dispatching.OneRunPerSession | internal/chat/dispatcher.go:39-63 | at most one request per agent and session is inside Service.Chat, and all earlier ones are cancelled and done |
| Dispatching.MissingMeansDone | internal/chat/dispatcher.go:81-97 | without an entry for a key, all its earlier requests are done |
| Dispatching.InterruptStopsAll | internal/chat/dispatcher.go:65-79 | when an interruption returns, every request of the key is done |
| Dispatching.NeverDeadlocked | internal/chat/dispatcher.go:51-79 | although Interrupt waits while it holds the mutex, some thread can always move |
| Dispatching.AllCallsReturn | internal/chat/dispatcher.go:39-79 | every interleaving is finite and ends with all calls returned, the mutex free and the map empty |
| LockTables.LockTable.AcquireEntry | internal/files/locktable.go:19-30 | the path's entry, created if missing, with one reference more |
| LockTables.LockTable.ReleaseEntry | internal/files/locktable.go:32-40 | one reference less, and no entry left without references |
| LockTables.StepKeepsInv | internal/files/locktable.go:19-58 | every step of every thread keeps the invariant |
| LockTables.TableIsExact | internal/files/locktable.go:19-58 | counts are the live handles, a path is in the table exactly while it has one, and all its handles are to that entry |
| LockTables.NoWriterInCompany | internal/files/locktable.go:42-58 | two threads inside the lock of one path are both readers |
| LockTables.QuietTableEmpty | internal/files/locktable.go:32-40 | the table is empty when nobody is inside |
| LockTables.NeverDeadlocked | internal/files/locktable.go:42-58 | threads that use one path at a time never deadlock, whatever queueing the mutex uses |
| LockTables.AllThreadsFinish | internal/files/locktable.go:19-58 | every interleaving takes at most four steps for each thread, and one that cannot be continued has all threads finished and the table empty |
| Tasks.NewService | internal/task/service.go:35-60 | no service if the tasks cannot be loaded, else one with a runtime for exactly the runnable tasks |
| Tasks.Service.constructor | internal/task/service.go:44-57 | a new service has a runtime for exactly the runnable tasks |
| Tasks.Service.StopRuntime | internal/task/service.go:119-127 | the named runtime, if any, is stopped and unregistered, no other |
| Tasks.Service.Start | internal/task/service.go:129-174 | a new runtime under the task's name, or an error and no change for a bad cron expression |
| Tasks.Service.RunTasks | internal/task/service.go:108-117 | the active tasks with a good expression are started, in any order, the others skipped |
| Tasks.Service.StopDeleted | internal/task/service.go:75-80 | exactly the runtimes whose task is gone are stopped |
| Tasks.Service.StopChanged | internal/task/service.go:82-98 | exactly the runtimes with a changed configuration are stopped; new and changed tasks become candidates |
| Tasks.Service.Reload | internal/task/service.go:63-105 | afterwards exactly the runnable tasks of the snapshot have a runtime, unchanged ones the same as before; no loop leaks; a second reload does nothing |
| TaskEdits.Editor.Validate | internal/task/task.go:92-114 | the problems reported are exactly the defects of the configuration |
| TaskEdits.Editor.ValidateRecipients | internal/task/service.go:273-290 | all missing agents are named together, and an unreadable one ends the check |
| TaskEdits.Editor.ValidateIdentity | internal/task/service.go:292-301 | succeeds exactly if the file can be read and the name is free |
| TaskEdits.Editor.Save | internal/files/tasks.go:98-110 | the task is written under its name or nothing changes |
| TaskEdits.Editor.Remove | internal/files/tasks.go:112-129 | the task is gone, or an error and no change |
| TaskEdits.Editor.Add | internal/task/service.go:205-223 | exactly when a task is added; it never replaces one |
| TaskEdits.Editor.Patch | internal/task/service.go:225-264 | a success replaces the one task and touches no other; a failure changes nothing, but for the exact case in which a renamed task is lost |
| TaskEdits.PatchIsFieldwise | internal/task/task.go:60-90 | each field of the patch changes that field of the task and no other |
| TaskEdits.RenameCanLose | internal/task/service.go:253-263 | a file, a patch and a failing access that meet that case |
| TaskEdits.LoseRenamedTask | internal/task/service.go:253-263 | the same carried out: the file is left empty |
| Scheduling.StepKeepsInv | internal/task/service.go:63-188 | every step of reloads and goroutines keeps the invariant |
| Scheduling.ReloadConverges | internal/task/service.go:63-117 | a reload that unlocks leaves a map entry for exactly the runnable tasks of its snapshot, with its configurations, whatever ran beside it |
| ReloadWindows.ReloadKeepsUpToDate | internal/task/service.go:82-98 | a reload keeps exactly the runtimes that were up to date when it took the lock; every other one it ends with was started since |
| ReloadWindows.SettledReloadDoesNothing | internal/task/service.go:63-105 | a reload that finds what its snapshot asks for starts and stops nothing, whatever the goroutines do meanwhile |
| ReloadReturns.StepsOfHolder | internal/task/service.go:72-127 | while a reload holds the lock, the steps taken and the bound on those left grow only by timers |
| ReloadReturns.ReloadReturnsInTime | internal/task/service.go:72-127 | a reload that holds the lock is done within a bound that only timers raise |
| DeadRuntimes.DueMeansCanExecute | internal/task/service.go:176-188 | a goroutine is due if and only if there is a way to go on in which it executes its task again |
| DeadRuntimes.ReloadNeglects | internal/task/service.go:82-98 | a reload neglects a runnable task if and only if it finds it up to date with the runtime of a one-shot that was executed |
| DeadRuntimes.ReloadSchedules | internal/task/service.go:161-168 | behind a reload a task of its snapshot is still to be executed if and only if it is runnable and its runtime is not that of a one-shot that was executed |
| DeadRuntimes.ReloadCanKeepTheDead | internal/task/service.go:82-98 | a run of two reloads after which the only runnable task has a finished goroutine |
| Scheduling.OneLoopPerName | internal/task/service.go:119-188 | at most one live runLoop per task name, and it is the one in the map |
| Scheduling.NoExecutionAfterStop | internal/task/service.go:119-127 | a runtime never executes again once stopRuntime has returned |
| Scheduling.SavesOnlyFinishedOneshots | internal/task/service.go:145-169 | a task is switched off only by a one-shot that executed exactly once and was not stopped |
| Scheduling.NeverDeadlocked | internal/task/service.go:119-169 | a reload waiting for a goroutine under the mutex that the goroutine needs is never stuck, and needs no timer |
| Secrets.Replacer.Reload | internal/secrets/replacer.go:27-66 | the pairs are those of all non-empty secrets in some order with longer secrets first |
| Secrets.Replacer.ReplaceText | internal/secrets/replacer.go:68-73 | the output reads off a cut of the text into copied characters and longest secrets that covers the start of every occurrence |
| Secrets.MasksIsReplace | internal/secrets/replacer.go:68-73 | that specification determines the output, if equal secrets have equal placeholders |
| Secrets.SortByLength | internal/secrets/replacer.go:40-48 | a permutation of the keys with longer secrets first |
| Secrets.SegmentsExplain | internal/secrets/replacer.go:68-73 | the output is the text cut into copied characters and whole secrets, the latter replaced |
| Secrets.EveryOccurrenceStartsMasked | internal/secrets/replacer.go:68-73 | wherever a secret occurs, its first byte is masked |
| Secrets.MaskingIsComplete | internal/secrets/replacer.go:27-73 | for every key order: no occurrence escapes, each mask covers the longest secret matching there, the rest is copied |
| Secrets.MasksNameTheirKey | internal/secrets/replacer.go:51-64 | every mask names a key whose secret it stands for |
| Secrets.OrderIndependentIffDistinct | internal/secrets/replacer.go:33-48 | the output is independent of map order and unstable sort if and only if no two keys share a non-empty secret |
| WholeSecrets.MaskedIsCovered | internal/secrets/replacer.go:68-73 | the walk over positions masks what the cut of the text covers |
| WholeSecrets.WholeOccurrencesMasked | internal/secrets/replacer.go:39-48 | every byte of every occurrence in every text is masked if and only if that holds of the texts made of two overlapping secrets |
| WholeSecrets.NoOverlapIsEnough | internal/secrets/replacer.go:39-48 | it holds when no two secrets overlap |
| WholeSecrets.ByteCanSurvive | internal/secrets/replacer.go:68-73 | two secrets and a text of which a byte comes through |
| CleanOutput.OutputIsClean | internal/secrets/replacer.go:68-73 | no masked text holds a secret if none touches a placeholder |
| CleanOutput.ShortTextsSuffice | internal/secrets/replacer.go:68-73 | some masked text holds a secret if and only if one does of a text cut into no more pieces than the secret has characters |
| CleanOutput.MaskingTwice | internal/secrets/replacer.go:68-73 | then masking a masked text again changes nothing |
| CleanOutput.PlaceholderComesOut | internal/secrets/replacer.go:60-63 | the text of a secret becomes its placeholder, with every secret that is part of it |
| CleanOutput.SecretCanComeOut | internal/secrets/replacer.go:60-63 | a secret that is part of its own placeholder |
| FileLines.LineAtIsSplit | internal/tools/fs/find.go:130-152 | the line found for any index is that line of the split data, and the index lies in it |
| FileLines.FindAgreesWithRead | internal/tools/fs/read.go:222-240 | the line of a match is the line the read tool returns for its number |
| FileLines.ExtractedLines | internal/tools/fs/read.go:222-240 | for any integers, exactly the lines of the clamped range |
| FileLines.ClampedRange | internal/tools/fs/read.go:227-238 | which lines the clamped range has: those asked for, and the one an impossible range is moved to |
| FileLines.WholeRange | internal/tools/fs/read.go:222-240 | the default range and the full range return the data |
| FileLines.RangesRejoin | internal/tools/fs/read.go:222-240 | neighbouring ranges rejoin to the range of both |
| LogFiles.LogFile.Write | internal/logging/file.go:29-40 | the text is appended |
| LogFiles.LogFile.Trim | internal/logging/file.go:42-81 | the file is left with its last lines; a negative number panics before anything is written |
| LogFiles.TrimIsTheLineStart | internal/logging/file.go:57-81 | with more newlines than asked for, what is left is the one suffix that starts a line and holds that many |
| LogFiles.TrimTwice | internal/logging/file.go:42-81 | trimming twice is trimming to the smaller number |
| LogFiles.TrimmedHistory | internal/logging/file.go:29-81 | however writes and trims alternate, the next trim leaves the end of everything ever written |
| AgentFiles.ReadsAgentFile | internal/files/agents.go:178-199 | a text of opening line, frontmatter, first delimiter and rest is read as its frontmatter and its rest |
| AgentFiles.ReadsNothingElse | internal/files/agents.go:182-190 | a text is refused exactly if it does not start with the opening line, or no delimiter is behind that |
| AgentFiles.NormaliseLine | internal/files/agents.go:180-180 | a carriage return before a newline goes, wherever it stands |
| AgentFiles.ParseOfMarshal | internal/files/agents.go:178-219 | a written file reads back with normal line ends, or cut short at a delimiter in the frontmatter |
| AgentFiles.RoundTrip | internal/files/agents.go:178-219 | it reads back exactly as it was if and only if no delimiter and no carriage return before a newline is inside |
| AgentFiles.SecondReadDiffers | internal/files/agents.go:180-180 | normal line ends need more than one reading: a prompt that changes again when written back |

## Left out

- Pointers and shared slices: messages and their contents are values. After a compaction the session and the loop share a slice in the original, and SetContent writes through a pointer that both may hold; neither effect is in the model.
- Runtime.ProcessToolCalls: does not let a hook change a tool call in place. The installed one that masks secrets in arguments does (internal/hooks/secrets.go:36-48), through a pointer that the agent message and the events share; in the model they keep the call as the model sent it, and only the tool sees the changed one.
- Hooks are taken to keep the IDs of calls and results where a theorem says so.
- Completions that are nil on a mistake, and models that return mistakes: a mistake comes from a hook or a tool, with a completion.
- Error trees with several branches: error chains are linear.
- The float arithmetic of the compaction: the cut is any function that leaves a message behind and takes at least two of three or more, the threshold any predicate on the token counts.
- The 64-bit width of token counts: they are stored and passed on, never computed with here.
- Tool timeouts: a call that times out is one that fails with the deadline error.
- Runtime.RunAgentLoop: sends its events as a sequence; the channel, its capacity and the two goroutines are in Pipeline.
- Pipeline.NeverStuck: takes the reader of the sink to keep reading.
- Dispatching.NeverDeadlocked: takes Service.Chat to return once it was started.
- Dispatching.AllCallsReturn: is about a fixed, arbitrary set of calls, and on the same assumption.
- LockTables.NeverDeadlocked: does not cover callers that lock two paths, nor unlocking twice.
- Reader/writer queueing in sync.RWMutex: the lock table holds for every policy that admits a writer alone or readers only.
- Scheduling.NeverDeadlocked: takes a task execution to return.
- Scheduling.SavesOnlyFinishedOneshots: does not say what that save does to edits made meanwhile.
- Tasks.Service.constructor: treats construction as one step, as no goroutine needs the lock before it ends unless a timer fires at once.
- Tasks.Service.Start: is stated for an active task without a runtime, which its only caller guarantees; that is proved.
- TaskEdits.Editor.Patch: takes each access to the task file as atomic, and the agents not to change meanwhile.
- The exact texts of validation messages, prompts, the todo caution and the summary explanation: parameters, or labels.
- Secrets.Replacer.Reload: reading the secrets and the lock around the replacer.
- AgentFiles.RoundTrip: the frontmatter is text that ends its last line, as the YAML encoder writes it; encoding and decoding it, and the tool servers the encoder does not write, are not part of this model.
- Errors of opening, reading and writing the log file and the session store.
- ExcludeToolCallsData, the memory and empty-answer hooks, image and binary detection, list operations: easy members.
- HTTP, server-sent events, the model and tool-server SDKs, shell and fetch tools, logging, configuration: foreign code or no logic of their own.
- The provider and tool registries, activity buffers and file watchers: not modelled.

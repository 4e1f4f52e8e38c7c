# The agent execution engine, modelled and verified

This project models the part of the system that decides what runs, in which order, how often, under
whose approval and at what cost: the plan/execute/reflect/replan workflow and its scheduler, the task
life cycle with its queue, workers, control flags and approvals, the write-back of the hidden agent
state into the task record, the shared LLM budget and its attribution to trace spans, the tool-call
loop with its guards and retries, and some smaller pieces with a contract of their own (composite-id
memory, template scanner, source ranking, requirement merging, trace ring). Language models, tools,
clocks and embeddings are arbitrary inputs. Check everything with `dafny verify dfyconfig.toml`.

## How it is organised

| files | what they model |
|---|---|
| `common.dfy`, `agent_state.dfy` | options, counting; the agent state, its update records and how they merge |
| `scheduler.dfy`, `level_scheduling.dfy` | the choice of the next subtasks; when it is complete |
| `workflow.dfy`, `workflow_termination.dfy`, `workflow_outcome.dfy`, `reflection_laws.dfy`, `executor_runs.dfy`, `result_laws.dfy` | nodes and routing; termination and bounds; final results; what the verdict decides; the executor over a whole run; what its results say |
| `task_model.dfy`, `task_service.dfy`, `write_back.dfy` | the task record; the service that writes it; its agreement with the agent state |
| `lifecycle.dfy`, `task_control.dfy`, `engine.dfy` | requests, queue and workers as one state machine; the objects that implement it, and any run of them |
| `status_laws.dfy`, `single_flight.dfy`, `approvals.dfy`, `stuck_tasks.dfy`, `control_requests.dfy`, `request_effects.dfy` | the tables of statuses, messages and refusals; what every interleaving keeps, which steps break it, and what pause and cancel requests do |
| `budget.dfy`, `trace_recorder.dfy`, `agent_service.dfy`, `segment_runs.dfy` | counters and limits; the trace ring; one run with its spans and its closing write; the same run in the state machine |
| `tool_calls.dfy`, `checked_calls.dfy`, `tool_retry.dfy` | the tool-call loop; the loop with its parameter check; the retry loops |
| `memory.dfy`, `template.dfy`, `ranking.dfy`, `requirements.dfy` | the smaller pieces |

Expressions of the source are functions. Objects whose fields the source updates are classes whose
methods are proved equal to a function of the old state; the theorems are about these functions. Handlers
are atomic, as they are with the in-memory queue and repository, which never suspend them; a worker run
is one step per node event, interleaved with everything else.

## Where the code does not do what it seems to

Each item names the lemma that gives the exact condition, or the input that shows it.

* The scheduler jumps past subtasks that are not ready. For every plan, whatever its ids and whichever
  subtasks fail, it runs all of them if and only if there is no depends_on key or the plan is listed level by
  level, where a level is what the outcomes of the lower ones have unlocked; and each after its dependencies
  were completed if and only if these complete on lower levels (`RunsAllIffListed`,
  `SchedulesCorrectlyIffLevelOrdered`, and for the workflow below the replan limit
  `WorkflowIsCorrectIffLevelOrdered`). Only when nothing fails and the ids are distinct and new are these the
  dependency levels (`LevelOrderOfFreshIds`): of five subtasks in dependency order the first fails, and the
  one that depends on it is never run though later ones are (`FailureSkipsDependent`).
* A subtask that is not ready, because a dependency failed or its id was completed by an earlier result, is
  run only when it is the current one and at most one subtask is ready (`UnreadyIsRunIff`). In a retry from an
  index whose new plan counts its ids from the start again, the first of three independent subtasks is
  therefore never run (`RetrySkipsReusedId`).
* A failed replan leaves its error text behind in the service; if the run later ends without a result, the
  task is closed as completed with that text (`TaskFailsIff`; ten answers from the start of a run in
  `StaleTextIsClosedAsCompleted`).
* After the last allowed replan the executor runs once; that finishes the plan if and only if it runs the
  last subtask, and leaves nothing out if and only if there is one subtask or all are ready
  (`LastPlanIsFinishedIff`, `LastPlanIsCompleteIff`).
* A task never moves again if and only if it is not in a status from which it can be restarted, nothing is
  outstanding for it and no request of it can be decided (`NeverMovesIff`, in every state). For a task that
  waits for approval, while single flight holds, this is the case if and only if it has no pending request
  (`AwaitingIsStuckIff`), which is what cancelling it, or deciding it while the queue is full, leads to.
* Single flight is kept by every step except a template auto-run that reaches the queue, a run lost before
  its guarded part, and an approval request that is decided already or reuses an id (`StepKeepsInvIff`).
* While single flight holds, an accepted pause or cancel bounds the further work of a task that is not at
  rest by one node event if and only if the task is not about to enter a retry from an index, which clears
  the flags (`RequestHoldsIff`, `EntryForgetsIff`).
* In every state, an accepted pause or cancel can take effect if and only if a run of the task closes with it
  already, or something outstanding can still come across the flag (`TakesEffectIff`). So an accepted cancel
  of a pending, paused or waiting task without a run or message never cancels it
  (`CancelWithoutWorkDoesNothing`); that of a pending task after a template auto-run can
  (`CancelAfterTemplateRun`).
* A run that raises, as one that exceeds its budget does, keeps the calls of its node spans but records no
  total: the spans stay within the total if and only if the run did not raise, or no call was recorded before
  its node events (`SpansWithinTotalIff`; `CrashLosesTotal` is an input). An approval resume overwrites the
  total with that of its own segment (`ResumeForgetsFirstSegment`).
* A resume also opens a new budget, so the limits hold per segment: all runs of n segments with at most k
  calls in flight stay within max_calls if and only if n * (max_calls - 1 + k) does, and likewise for tokens
  (`TaskKeepsCallLimitIff`, `TaskKeepsTokenLimitIff`).
* Every completed task has a text as its final result, except that a retry of a completed task that finds
  the queue full erases the text and leaves the status (`TextsAreKeptIff`).
* A negative token count is counted as zero tokens but priced as it is: the cost is the price of the token
  totals if and only if no count of a priced kind is negative (`CostIsClosedFormIff`).
* A registered tool that reports a failure is listed as a success, while the model reads a failure
  (`ReportedFailureCountsAsSuccess`).
* Arguments that an approver substitutes are not checked for completeness again
  (`ApprovedArgumentsAreNotChecked`).
* Record ids of the long-term memory collide as soon as a tenant or user contains a colon; nothing leaks,
  but texts disappear (`ScopeIsSafeIff`, `CollisionHides`).
* A source without relevance scores a thousandth and can beat one that is better in every respect
  (`DominanceIff`). A higher search score counts for less if and only if it is above 1 and the lower one is
  above 0 and at most 1 (`RelevanceIsMonotoneIff`). An undated source is fresher than exactly those of more
  than 30 days (`FreshnessFallsWithAge`).
* Rendering what was rendered changes it if and only if an opening brace of the text is completed to a
  placeholder by the inserted values, for values without an opening brace (`RenderingTwiceAgreesIff`;
  `RenderingTwiceDiffers` is an input).
* An empty plan dictionary is not persisted: the older subtasks stay in the task record unless there were
  none (`PersistedAgreesIff`).
* Listing traces with an offset gives a page if and only if the offset is 0 or nothing is listed
  (`ListingIsPageIff`).

## Model

| member | source | states |
|---|---|---|
| Scheduler.GetParallelBatch | app/agent/executor_node.py:371-401 | the batch is the current position, or, with a depends_on key, exactly the ready positions from it on, in order |
| Scheduler.ChosenIsSorted | app/agent/executor_node.py:441-445 | the step leaves the index just past the largest position it ran |
| Scheduler.BatchIsSafe | app/agent/executor_node.py:379-401 | no member of a batch depends on another, all their dependencies were completed, and every position passed over was completed or had an unmet dependency |
| LevelScheduling.LevelsRunOnePerStep | app/agent/executor_node.py:371-458 | whatever its ids and whatever fails, a plan listed level by level takes as many steps as it has levels, and step s runs exactly level s |
| LevelScheduling.RunsAllIffListed | app/agent/executor_node.py:371-458 | for every plan, ids, earlier results and outcomes: every subtask is run if and only if there is no depends_on key or the plan is listed level by level |
| LevelScheduling.DepsRespectedIff | app/agent/executor_node.py:371-458 | of a plan so listed, every subtask runs after its dependencies were completed if and only if they are completed on lower levels |
| LevelScheduling.StepsGoForward | app/agent/executor_node.py:441-458 | no position is run in two steps of a schedule |
| LevelScheduling.LevelsAreNecessary | app/agent/executor_node.py:371-458 | a plan with dependencies that is run completely is listed level by level |
| LevelScheduling.UnreadyIsRunIff | app/agent/executor_node.py:371-401 | a subtask that is not ready (a dependency not completed, or its own id completed) is run if and only if it is the current one and at most one subtask is ready |
| LevelScheduling.SerialPlansRunAll | app/agent/executor_node.py:371-380 | without a depends_on key the subtasks run one by one, completely, whatever fails |
| LevelScheduling.SchedulesCorrectlyIffLevelOrdered | app/agent/executor_node.py:371-458 | for every plan, ids, earlier results and outcomes: complete, and each subtask after its dependencies succeeded, if and only if there is no depends_on key or the plan is listed level by level with all dependencies completed on lower levels |
| LevelScheduling.LevelOrderOfFreshIds | app/agent/executor_node.py:371-458 | with distinct ids that no earlier result uses, and when nothing fails, level order is the order by dependency level |
| LevelScheduling.ReusedIdIsSkipped | app/agent/executor_node.py:379-401 | with a reused id, dependency levels are not enough: the input on which a subtask is never run, whatever succeeds |
| LevelScheduling.FailureSkipsDependent | app/agent/executor_node.py:379-401 | nor with a failed subtask: five in dependency order of which the first fails, and the one that depends on it is never run |
| Workflow.SynthesizeResults | app/agent/reflection_node.py:146-171 | the report is the heading followed by one section per result, in order, and never empty |
| WorkflowTermination.StepKeepsInv | app/agent/workflow.py:87-119 | what every node step keeps: replans equal the iteration count and stay within the limit, executor runs done and owed stay within the plans' load |
| WorkflowTermination.WorkIsBounded | app/agent/workflow.py:144-183 | at most one planning, at most limit replans, and executor runs at most the sum of max(1, plan length) plus the failed (re)plannings |
| WorkflowTermination.LastReplanGetsOneExecutorRun | app/agent/workflow.py:161-166 | after the last allowed replan at most one executor step is taken |
| WorkflowTermination.LastPlanIsFinishedIff | app/agent/workflow.py:161-166 | at the limit with work left the run ends after that step, and the plan is finished if and only if the step ran its last subtask |
| WorkflowTermination.LastPlanIsCompleteIff | app/agent/executor_node.py:371-401 | a first step runs a whole plan if and only if it has one subtask, or dependencies and every subtask ready |
| WorkflowTermination.RetryBranchIsDead | app/agent/planner_node.py:50-68 | the branch that reuses an existing plan is never taken in a service run |
| WorkflowTermination.Terminates | app/agent/workflow.py:87-119 | whatever is answered, forever, the run ends: stage, replans left and work left in the plan descend lexicographically |
| WorkflowTermination.EveryRunEnds | app/agent/workflow.py:87-183 | every run started by the service ends after finitely many nodes |
| WorkflowOutcome.ReflectionResult | app/agent/reflection_node.py:56-144 | reflection withholds the result exactly while subtasks are left or a replan is wanted, and wants one only below the limit with the plan done |
| ReflectionLaws.VerdictDecides | app/agent/reflection_node.py:91-122 | with all subtasks executed and a replan left, the next node is the replanner if and only if the verdict is unsatisfied; otherwise the run ends with the report |
| ReflectionLaws.ReflectionRoutes | app/agent/workflow.py:144-183 | for every state and answer, when a reflection leads to the replanner, back to the executor, or to the end |
| ReflectionLaws.ReflectionRecorded | app/agent/reflection_node.py:56-144 | the recorded reflection is satisfied if and only if the verdict was, degraded if and only if there was none, and missing while subtasks are left |
| ReflectionLaws.ReplansFollowUnsatisfied | app/agent/workflow.py:87-183 | in every run the replanner is next if and only if the node before was a reflection below the limit, with all subtasks executed, answered with an unsatisfied verdict |
| ReflectionLaws.SatisfiedEndsTheRun | app/agent/reflection_node.py:91-144 | any other answer then ends the run with the report, whatever comes |
| ReflectionLaws.SupervisorRoutes | app/agent/workflow.py:129-142 | the sub-agents are next if and only if several were chosen and assigned |
| ReflectionLaws.PlannerInstalls | app/agent/planner_node.py:50-118 | the answer becomes the plan, executed from its first subtask |
| ReflectionLaws.ReplannerInstalls | app/agent/planner_node.py:122-178 | a new plan starts over and keeps the results; a failed replan keeps the plan and leaves its error as result; either counts |
| ReflectionLaws.VersionCountsPlans | app/agent/planner_node.py:122-178 | in every run the plan version is the number of plans made |
| ReflectionLaws.RecordFitsRun | app/services/agent_service.py:471-541 | in every run the persisted status tells which node comes next, and mode, reflection and replan count are those of the state |
| WorkflowOutcome.StepKeepsOutcomeInv | app/agent/workflow.py:144-183 | which events can carry a result text, kept by every node step |
| WorkflowOutcome.ResultMissingIff | app/agent/workflow.py:161-183 | a completed run has no final result if and only if it ended by reflection at the limit with subtasks left in the current plan |
| WorkflowOutcome.ClosesFailedIff | app/services/agent_service.py:386-436 | the result used for closing is missing or empty if and only if, in addition, no event left a stale text, or the review of a multi-agent run is empty; a result in the state is always the one used |
| WorkflowOutcome.FirstReplanIsReached | app/agent/workflow.py:87-119 | an empty plan and an unsatisfied reflection lead from the start of any run to the first replan |
| WorkflowOutcome.StaleTextIsClosedAsCompleted | app/services/agent_service.py:386-436 | with a limit of two, ten answers from the start of any run end it without a result and with work left, and close the task with the text of the failed replan |
| ExecutorRuns.RoundsLieAhead | app/agent/executor_node.py:185-257 | later executor steps work on a later plan, or further on in the same one |
| ExecutorRuns.NoPositionRunsTwice | app/agent/executor_node.py:159-257 | under one plan version no position is run twice, in any run |
| ExecutorRuns.EveryBatchIsSafe | app/agent/executor_node.py:371-458 | every executor step of every run is safe in the sense of BatchIsSafe |
| ExecutorRuns.ExecutorStep | app/agent/executor_node.py:403-463 | whatever succeeds in it, one executor step and the reflection after it advance index and completed ids by exactly one scheduling step, and go on while subtasks are left |
| ExecutorRuns.WorkflowFollowsSchedule | app/agent/workflow.py:95-119 | below the replan limit, whatever succeeds or fails, the workflow takes exactly the steps of the schedule and reaches the end of the plan |
| ExecutorRuns.WorkflowIsCorrectIffLevelOrdered | app/agent/executor_node.py:371-458 | below the replan limit, for every plan, earlier results and outcomes: the executor runs every subtask if and only if there is no depends_on key or the plan is listed level by level, each after its dependencies succeeded if and only if these complete on lower levels too, and one level per executor step |
| ExecutorRuns.LastPlanIsRunIff | app/agent/workflow.py:161-166 | at the limit a plan is run completely if and only if it has one subtask, or dependencies and every subtask ready |
| ExecutorRuns.RetrySkipsReusedId | app/agent/executor_node.py:193-198 | from the start of a retry from an index with one completed result: a new plan that reuses its id never runs that subtask, whatever succeeds |
| ResultLaws.ExecutorAnswers | app/agent/executor_node.py:200-257 | one executor step appends one result per position run, in order, with its id, description and the answer given; failures as errors, or as texts in a batch |
| ResultLaws.EveryResultIsAnAnswer | app/agent/executor_node.py:200-257 | every result of a run beyond those it started with is the answer to a position run in some executor step |
| ResultLaws.PersistedSubtaskHoldsAnswer | app/services/task_service.py:289-317 | without depends_on and with distinct ids, each persisted subtask below the current index holds the answer it was given when the run was at that index |
| ResultLaws.PersistedSubtaskIsNew | app/services/task_service.py:255-287 | and from the index on it is named and described as in the plan, and pending |
| ResultLaws.ReportShowsEveryResult | app/agent/reflection_node.py:146-171 | the report names the goal, and for every result number, description, status, and the text or error it has |
| TaskServices.TaskService.UpdateTaskStatus | app/services/task_service.py:168-203 | only the status of the one task changes; a missing task is left missing |
| TaskServices.TaskService.CloseTask | app/services/task_service.py:168-203 | status, and final result or error, of the one task |
| TaskServices.TaskService.CloseByEnding | app/services/agent_service.py:404-468 | interrupt, end of graph and exception each leave the record that the life-cycle machine gives |
| TaskServices.TaskService.SyncPlan | app/services/task_service.py:255-287 | the subtasks become the plan's, all pending; an empty plan dictionary changes nothing |
| TaskServices.TaskService.SyncTaskResults | app/services/task_service.py:289-317 | each result lands on the last subtask of its id, in order; results without a subtask are dropped |
| TaskServices.TaskService.SyncReflection | app/services/task_service.py:319-338 | reflection and iteration count change only when given |
| TaskServices.TaskService.SaveApprovalRequest | app/services/task_service.py:366-375 | the request becomes pending and the newest entry of the history |
| TaskServices.TaskService.ResolveApproval | app/services/task_service.py:377-412 | only the pending undecided request of that id is decided; history entry and pending slot change together |
| TaskServices.TaskService.GetPendingApprovals | app/services/task_service.py:414-423 | the undecided entries of the history, in order |
| TaskServices.TaskService.ResetTaskForRetry | app/services/task_service.py:427-454 | results, errors and reflection are cleared, subtasks from the index on become pending |
| TaskServices.TaskService.StatusReport | app/services/task_service.py:456-483 | progress is the share of completed subtasks; the current step is the first pending subtask of an executing task |
| TaskServices.CompletedCountIsExact | app/services/task_service.py:456-483 | the count behind the progress is the number of completed subtasks, full if and only if all are |
| TaskServices.TaskService.HandleNodeEvent | app/services/agent_service.py:471-541 | the record after an event is the event's fold step, for every node |
| WriteBack.WritingTwice | app/services/task_service.py:289-317 | writing results batch by batch equals writing their concatenation once |
| WriteBack.PersistedFollowsState | app/services/agent_service.py:471-548 | after every event of every run, for every plan but an empty dictionary, the persisted subtasks are the state's plan with all results of that plan written once |
| WriteBack.PersistedAgreesIff | app/services/task_service.py:255-287 | with an empty plan dictionary too: they agree with the state if and only if its plan is not an empty dictionary, or the plan written last (or the task as found) has no subtasks |
| WriteBack.AlignedResultsLand | app/services/task_service.py:289-317 | results of the first subtasks of a plan with distinct ids land on exactly these, the others stay as they were |
| WriteBack.PersistedSerialView | app/services/agent_service.py:471-548 | without depends_on and with distinct ids: below the current index completed or failed as the result says, from it on pending |
| WriteBack.CurrentStepIsIndex | app/services/task_service.py:471-483 | so the reported current step is the state's current index |
| TaskControl.TaskControlService.RequestPause | app/services/task_control.py:37-41 | a pause request replaces a cancel request |
| TaskControl.TaskControlService.RequestCancel | app/services/task_control.py:43-47 | a cancel request replaces a pause request |
| Engines.InMemoryTaskQueue.Enqueue | app/queue/memory_queue.py:22-26 | appends, or refuses and changes nothing when full |
| Engines.InMemoryTaskQueue.Dequeue | app/queue/memory_queue.py:28-32 | takes the oldest message |
| Engines.Engine.RunTemplateTask | app/api/v1/templates.py:123-176 | the handler is the machine's template step; the single-flight invariant is kept if and only if the queue was full |
| Engines.Engine.ExecuteTask | app/api/v1/agent.py:35-88 | the handler is the machine's step, with every refusal; the single-flight invariant is kept |
| Engines.Engine.ResumeTask | app/api/v1/tasks.py:172-220 | the handler is the machine's step, with every refusal; the single-flight invariant is kept |
| Engines.Engine.RetryTask | app/api/v1/tasks.py:271-331 | the handler is the machine's step; the reset stays when the queue is full; the single-flight invariant is kept |
| Engines.Engine.PauseTask | app/api/v1/tasks.py:126-169 | the handler is the machine's step, with every refusal; the single-flight invariant is kept |
| Engines.Engine.CancelTask | app/api/v1/tasks.py:223-268 | the handler is the machine's step: a waiting task's request is rejected, its status kept; the single-flight invariant is kept |
| Engines.Engine.DecideApproval | app/api/v1/tasks.py:410-480 | the handler is the machine's step, with every refusal and the full-queue case; the single-flight invariant is kept |
| Engines.Engine.ProcessOne | app/worker.py:56-72 | a worker takes the oldest message and starts one run for it; the single-flight invariant is kept |
| Engines.Engine.BeginRun | app/services/agent_service.py:212-245 | entering a run sets the status; a retry from an index clears the control flags; a resume of a missing task ends at once; the single-flight invariant is kept |
| Engines.Engine.OnNodeEvent | app/services/agent_service.py:543-548 | the event is written first, then cancel before pause is honoured; the single-flight invariant is kept |
| Engines.Engine.OnStreamEnd | app/services/agent_service.py:404-468 | interrupt, end of graph and exception close the run as the machine says; the invariant is kept if and only if an approval request is new and undecided |
| Engines.Engine.CloseStopped | app/services/agent_service.py:409-423 | a stopped run writes the requested status and disappears; the single-flight invariant is kept |
| Engines.Engine.LoseRun | app/worker.py:74-100 | a run lost before its guarded part breaks the single-flight invariant |
| Engines.Engine.PerformAll | app/worker.py:56-100 | after any interleaving of requests and worker moves the objects are in the state the machine reaches, with the invariant if every step was allowed |
| StatusLaws.StatusTable | app/services/agent_service.py:212-541 | in every state, the status a step leaves is that of the table of transitions, and otherwise the old one |
| StatusLaws.CrashFails | app/services/agent_service.py:448-468 | a run that raises leaves a failed task with its error and the final result it had |
| StatusLaws.FinishCloses | app/services/agent_service.py:425-436 | a graph that ends leaves a completed task if and only if it has a text that is not empty, a failed one otherwise, with that result and the error it had |
| StatusLaws.InterruptWaits | app/services/agent_service.py:550-590 | an interrupt leaves a waiting task whose pending request is the last of the history |
| StatusLaws.CompletedOnlyWithText | app/services/agent_service.py:425-436 | a task becomes completed only by the end of its own graph with a text that is not empty, which is its final result |
| StatusLaws.TextsAreKeptIff | app/api/v1/tasks.py:271-331 | that every completed task has a text is kept by every step but the retry of a completed task that finds the queue full |
| StatusLaws.StoppedOnlyOnRequest | app/services/agent_service.py:409-423 | in every interleaving a task is paused or cancelled only if such a request was made for it |
| StatusLaws.MessageTable | app/worker.py:56-72 | which message an accepted request enqueues, what a worker takes, and that no other step touches the queue |
| StatusLaws.RefusalTable | app/api/v1/tasks.py:126-480 | which refusal a request meets, if and only if in which case |
| StatusLaws.RetryResets | app/services/task_service.py:427-454 | result, error and reflection are cleared; from the index on subtasks are pending without result and error, those before are untouched |
| SingleFlight.ResolveDecidesOne | app/services/task_service.py:377-412 | a decision turns the one undecided entry into a decided one and touches no other |
| SingleFlight.StepKeepsInvIff | app/api/v1/tasks.py:125-325 | a request or worker move keeps the invariant (one message or run outstanding exactly for active tasks, undecided entries only as the pending request of a waiting task) if and only if it is no template auto-run that reaches the queue, no lost run, and no approval request that is decided or reuses an id |
| SingleFlight.RunKeepsInvIff | app/worker.py:56-100 | a whole run keeps the invariant throughout if and only if all its steps are such |
| SingleFlight.SingleFlightHolds | app/worker.py:56-100 | in every such interleaving an active task has exactly one message or run outstanding, any other none |
| SingleFlight.PendingIsTheOnlyUndecided | app/services/task_service.py:366-412 | in every such interleaving the pending request is the only undecided entry of the history |
| Approvals.StepGrowsHistories | app/services/task_service.py:366-412 | histories only grow, keep their ids and never change a decided entry |
| Approvals.DecidesEntry | app/api/v1/tasks.py:428-472 | a decision turns one undecided entry of that id into the decision made: approved or rejected as answered, with the note, and arguments only if approved; a cancellation rejects with its own note; no other entry changes |
| Approvals.DecidedAtMostOnce | app/api/v1/tasks.py:410-480 | once decided, a request is never decided again in any continuation |
| Approvals.ResumeOnlyByDecision | app/api/v1/tasks.py:428-472 | a resume message is enqueued only as part of a decision, with that decision |
| Approvals.ResumeAgreesWithHistory | app/api/v1/tasks.py:433-472 | in every run the resume message is approved if and only if the history entry of its request is, now and for ever; with its note, and with its arguments exactly when it is approved and they are not empty |
| Approvals.ResumedAtMostOnce | app/api/v1/tasks.py:428-472 | in every run at most one resume message is enqueued for a request |
| StuckTasks.FrozenForever | app/models/task.py:29-38 | a task that is not restartable, has nothing outstanding and nothing to decide keeps its record in every continuation |
| StuckTasks.NeverMovesIff | app/api/v1/tasks.py:172-480 | in every state, a task's record never changes again if and only if it is such a task |
| StuckTasks.CancelWhileAwaitingFreezes | app/api/v1/tasks.py:250-258 | cancelling a waiting task leaves it waiting for ever |
| StuckTasks.DecisionWithFullQueueFreezes | app/api/v1/tasks.py:428-480 | a decision recorded while the queue is full leaves the task waiting for ever |
| StuckTasks.LostRunFreezes | app/worker.py:74-100 | a run lost before its guarded part leaves the task active for ever |
| StuckTasks.AwaitingIsStuckIff | app/api/v1/tasks.py:410-480 | in every state, a waiting task waits for ever if and only if nothing is outstanding and no request can be decided; while single flight holds, if and only if it has no pending request |
| StuckTasks.TemplateRunBreaksSingleFlight | app/api/v1/templates.py:162-174 | after a template run an execute request is accepted and two messages are outstanding |
| ControlRequests.RequestStandsIff | app/api/v1/tasks.py:126-268 | while single flight holds, an accepted request is in force if and only if the task is active or awaiting approval, not about to enter a retry from an index, and not stopping already |
| ControlRequests.EntryForgetsIff | app/services/agent_service.py:240-243 | entering a run forgets a request if and only if it is a retry from an index |
| ControlRequests.NodeEventHonours | app/services/agent_service.py:543-548 | the next node event of the task honours the standing request |
| ControlRequests.HonouredCloses | app/services/agent_service.py:409-423 | a run that has seen the request stays until it closes with the requested status |
| ControlRequests.RequestTakesEffect | app/services/agent_service.py:543-548 | from a request in force on, in every continuation without the opposite one, at most one more node event is handled until the task is at rest, also across an approval, and after one the task can only come to rest with the requested status |
| ControlRequests.RequestHoldsIff | app/services/agent_service.py:240-243 | while single flight holds, an accepted request on a task that is not at rest allows at most one more node event in every continuation if and only if no retry from an index lies ahead |
| RequestEffects.TakesEffectIff | app/api/v1/tasks.py:126-268 | in every state, an accepted request can ever take effect if and only if a run closes with it already, or there is a streaming run, a run or message yet to be entered that is no retry from an index, or a request left to be decided |
| RequestEffects.TakesEffectByStatusIff | app/api/v1/tasks.py:126-268 | while single flight holds, that is if and only if the task is active with no retry from an index ahead and not closing for the other request, or it is a pause of a task with a pending approval |
| RequestEffects.CancelWithoutWorkDoesNothing | app/api/v1/tasks.py:223-268 | an accepted cancel of a pending, paused or awaiting task with no run or message, and no request left to decide, never cancels it |
| RequestEffects.CancelAfterTemplateRun | app/api/v1/templates.py:162-174 | after a template auto-run in any state, the accepted cancel of the still pending task can cancel it |
| Budget.TaskBudget.Check | app/llm/budget.py:95-115 | passes if and only if calls, tokens and cost are each below their limit or unlimited |
| Budget.TaskBudget.Record | app/llm/budget.py:117-133 | counters move even when the limit is found exceeded |
| Budget.CostIsClosedForm | app/llm/budget.py:117-133 | calls are counted exactly; the cost is the price of the token totals plus that of the negative counts they ignore |
| Budget.CostIsClosedFormIff | app/llm/budget.py:117-133 | with prices that are not negative, the cost is the price of the token totals if and only if no count of a priced kind is negative, and lower otherwise |
| Budget.PricesArePerMillion | app/llm/budget.py:117-133 | a million tokens cost the price |
| Budget.CallOvershoot | app/llm/budget.py:203-220 | with at most k calls in flight, calls made and in flight stay at most max_calls - 1 + k in every interleaving |
| Budget.TokenOvershoot | app/llm/budget.py:235-261 | and tokens, with c for each call in flight, at most max_tokens - 1 + k * c, or (max_calls - 1) * c + k * c when that is less |
| Budget.SequentialCallsAreExact | app/llm/budget.py:235-261 | one call at a time never exceeds max_calls |
| Budget.CallBoundIsReached | app/llm/budget.py:235-261 | max_calls - 1 + k calls are reached from the empty counter with at most k in flight, whatever the other limits |
| Budget.TokenBoundIsReached | app/llm/budget.py:235-261 | and so is the token bound, with at most k calls in flight of at most c tokens each, when the cost limit leaves room |
| Budget.CostOvershoot | app/llm/budget.py:235-261 | with calls of bounded cost, money spent and in flight stays below max_cost plus k times that cost |
| Budget.SegmentsOvershoot | app/services/agent_service.py:654-660 | over n segments, each with a budget of its own, the call bound holds n times |
| Budget.SegmentsTokenOvershoot | app/services/agent_service.py:654-660 | and so does the token bound |
| Budget.TaskKeepsCallLimitIff | app/services/agent_service.py:654-660 | all runs of n segments with at most k calls in flight stay within max_calls if and only if n * (max_calls - 1 + k) does |
| Budget.TaskKeepsTokenLimitIff | app/services/agent_service.py:654-660 | and, with at most c tokens a call, within max_tokens if and only if n times the most tokens of one segment does |
| Tracing.TraceRecorder.StartRun | app/tracing/recorder.py:193-220 | the trimming loop leaves the ring of the most recent starts |
| Tracing.TraceRecorder.AddNodeSpan | app/tracing/recorder.py:260-296 | one span is appended to the run, nothing when it is not held |
| Tracing.TraceRecorder.RecordRunUsage | app/tracing/recorder.py:241-256 | the run's usage is overwritten |
| Tracing.TraceRecorder.ListTraces | app/tracing/recorder.py:352-355 | the last limit + offset runs in order, failing exactly when one of them is not held |
| Tracing.StartOfNewRun | app/tracing/recorder.py:206-212 | starting a run that is not held keeps order and map in step and drops only the oldest |
| Tracing.StartEmptiesOneTrace | app/tracing/recorder.py:193-220 | starting a run, held before or not, empties its trace and leaves every other trace that it keeps as it was |
| Tracing.StartKeepsFormIff | app/tracing/recorder.py:206-212 | order and map stay in step if and only if the run was not held |
| Tracing.RingHoldsLastStarts | app/services/agent_service.py:231-237 | with such starts only, the order is the last max_runs starts since the last clear |
| Tracing.ListingFindsEveryRun | app/tracing/recorder.py:352-355 | so listing never meets a missing run |
| Tracing.ListingIsPageIff | app/tracing/recorder.py:352-355 | the listing is the page asked for if and only if the offset is 0 or there is nothing to list |
| AgentServices.RecordCalls | app/llm/budget.py:203-220 | calls are recorded one after the other, exceeded limits are not seen |
| AgentServices.AgentService.HandleTurn | app/services/agent_service.py:356-388 | one turn writes the span and the event, looks at the control flags, and keeps the text when there is no request |
| AgentServices.AgentService.FollowStream | app/services/agent_service.py:338-391 | the loop, with requests arriving at the control service meanwhile, is the fold of the turns up to the first that finds one |
| AgentServices.AgentService.RunSegment | app/services/agent_service.py:315-468 | a whole run: task record, spans and usage as they are left, for every ending, also when the task is missing or its trace no longer held |
| SegmentRuns.SegmentIsExec | app/services/agent_service.py:338-468 | the record so left is the one the life-cycle machine reaches by the requests, node events and closing step of that run |
| AgentServices.SegmentFollowsEvents | app/services/agent_service.py:380-391 | the record is the fold of the events; without a stop the text is the last one an event carried |
| AgentServices.UnstoppedRunCloses | app/services/agent_service.py:425-436 | an unstopped workflow run is closed with its closing result |
| AgentServices.TaskFailsIff | app/services/agent_service.py:425-436 | a completed run that no request stopped leaves its task failed if and only if the limit was reached with subtasks left and no event left a stale text, or its review is empty |
| AgentServices.SpansTelescope | app/services/agent_service.py:357-373 | the node spans add up to the usage at the last node event, with its cost rounded |
| AgentServices.SpanOfEachNode | app/services/agent_service.py:357-373 | there is one span for each handled node event, in order, of its node and with the calls recorded before it |
| AgentServices.SegmentAddsToTrace | app/services/agent_service.py:357-401 | whatever the trace held: a run adds its own calls and tokens to the spans and, unless it raises, overwrites the total by its own |
| AgentServices.SpansWithinTotalIff | app/services/agent_service.py:357-468 | the spans of a new run stay within the total it leaves if and only if it did not raise or nothing was recorded before its node events; they reach it in calls if and only if nothing is recorded afterwards, or at all when it raised |
| AgentServices.CrashLosesTotal | app/services/agent_service.py:448-468 | the input: one node with one call, then an exception, leaves one call in the spans and no total |
| AgentServices.ResumeForgetsFirstSegment | app/tracing/recorder.py:252-256 | after a second segment, for all endings of both, the spans match the total if and only if the segment whose total is lost or missing made as many calls as the other recorded after its last node |
| ToolCalls.PolicyCheck | app/agent/executor_node.py:95-131 | a reason is given if and only if the tool is not listed, not permitted to the role, or has a side effect that, without a gate, the hook did not pass; white list before role before hook |
| ToolCalls.Guard | app/agent/executor_node.py:549-689 | runs if and only if policy, parameters and gate all let it; suspends the run if and only if the gate is reached and suspends; otherwise refused, with the missing parameters when they are the reason |
| ToolCalls.RunToolCallsLoop | app/agent/executor_node.py:523-725 | messages, results and the tools' log after the loop, up to the first suspension |
| ToolCalls.RunPositionsExact | app/agent/executor_node.py:544-690 | the calls run are exactly those all guards let pass, in order |
| ToolCalls.OneMessagePerCall | app/agent/executor_node.py:544-721 | exactly one message per call, same ids and order, with the refusal or the tool's answer |
| ToolCalls.ResultsAreTheInvokedCalls | app/agent/executor_node.py:691-721 | the i-th result and invocation are those of the i-th call that runs, failures included |
| ToolCalls.TranscriptShowsAnswers | app/agent/executor_node.py:688-721 | for the i-th call that runs, with the arguments its guards settled on: the message and the result are the text of a tool that succeeds, and the error of one that raises |
| ToolCalls.PolicyRefusalText | app/agent/executor_node.py:95-131 | what a call that the policy does not let pass is answered |
| ToolCalls.GateRefusalText | app/agent/executor_node.py:610-687 | what a call that the gate does not let pass is answered |
| ToolCalls.RunsIff | app/agent/executor_node.py:549-689 | a call runs if and only if white list, role, parameters and gate or hook all let it |
| ToolCalls.ExceptionsRefuse | app/agent/executor_node.py:610-637 | an exception of hook or gate refuses the call |
| ToolCalls.ReportedFailureCountsAsSuccess | app/agent/executor_node.py:691-721 | in the whole transcript a result counts as a success if and only if its tool did not raise, while the message of a reported failure reads as a raised one |
| ToolCalls.RunsWithApprovedArgs | app/agent/executor_node.py:688-689 | a non-empty dictionary from the approver replaces the arguments |
| ToolCalls.RefusedCallsDoNotCount | app/agent/executor_node.py:553-608 | refused calls leave no trace among the invocations |
| CheckedCalls.IncompleteCallsNeverRun | app/agent/executor_node.py:577-608 | with the parameter check in place every call that reaches a tool was complete, and an incomplete one is answered with what is missing |
| CheckedCalls.IncompleteCallShowsLabels | app/agent/executor_node.py:580-607 | that answer shows the labels of the check, one for each missing name |
| CheckedCalls.CallKnows | app/agent/executor_node.py:581-586 | a call knows what was extracted before, from its query and from the conversation, and its own named arguments except the free text |
| CheckedCalls.ApprovedArgumentsAreNotChecked | app/agent/executor_node.py:688-692 | an approver's dictionary is used as it is, complete or not |
| ToolRetry.ToolRun.Try | app/tools/executor.py:246-260 | one attempt, not executed when found cancelled |
| ToolRetry.ToolRun.ExecuteWithPolicy | app/tools/executor.py:236-278 | the number of retries, the output, the executions and exactly 1000 * (2^r - 1) ms of backoff |
| ToolRetry.ToolRun.InvokeWithRetry | app/agent/executor_node.py:786-816 | the same for unregistered tools, retried whether idempotent or not |
| ToolRetry.BackoffBound | app/tools/executor.py:244-278 | backoff is at most 1000 * (2^max_retries - 1) ms, and a tool that is not idempotent is never retried |
| ToolRetry.RetriedOnlyTransient | app/tools/executor.py:244-278 | a further attempt is made only after one that was not cancelled and raised a transient error, of an idempotent tool; the last was none, or the allowance was used up |
| ToolRetry.MoreRetriesSameOutcome | app/tools/executor.py:244-278 | a larger allowance changes nothing once an attempt was not worth retrying |
| Memory.FilterIsConjunction | app/memory/vector_store.py:155-167 | the translated filter means the conjunction of all equalities |
| Memory.InScopeIff | app/memory/long_term.py:54-60 | a record is in scope exactly for the same user of the same tenant |
| Memory.VectorLongTermMemory.Save | app/memory/long_term.py:62-102 | replaces whatever the record id held |
| Memory.VectorLongTermMemory.Get | app/memory/long_term.py:104-131 | the document under the id if it is in scope and not empty |
| Memory.VectorLongTermMemory.Delete | app/memory/long_term.py:133-142 | removes the record id, whoever wrote it |
| Memory.GetIsLastOnId | app/memory/long_term.py:62-142 | a read answers the last operation on the id if it was for that triple, otherwise nothing |
| Memory.GetNeverLeaks | app/memory/long_term.py:104-131 | whatever collides, a read gives nothing or what a map keyed by the triple gives |
| Memory.GetAgreesIff | app/memory/long_term.py:104-131 | it agrees with that map if and only if there is nothing to find or the last operation on the id was for the triple |
| Memory.CleanIdsAreInjective | app/memory/long_term.py:50-52 | without colons in tenant and user the id determines the triple |
| Memory.CleanScopesRefinePlainMap | app/memory/long_term.py:50-142 | with such scopes the memory is the map, over all sequences of saves and deletes |
| Memory.ScopeIsSafeIff | app/memory/long_term.py:50-52 | a scope shares no id with a colon-free one if and only if it is colon-free itself |
| Memory.CollisionHides | app/memory/long_term.py:62-142 | an operation on another triple of the same id makes the saved text unreadable |
| Templates.PlaceholdersRoundTrip | app/models/template.py:45-55 | substituting each variable by its own placeholder gives the text back |
| Templates.DependsOnNamesOnly | app/models/template.py:45-55 | the result depends on the inputs of the text's variables only |
| Templates.EveryNameMatters | app/models/template.py:36-43 | and on each of them |
| Templates.ValuesAreNotRescanned | app/models/template.py:45-55 | a placeholder anywhere is replaced by its value verbatim, and what is around it renders as if alone |
| Templates.PlaceholderRendersInput | app/models/template.py:45-58 | a placeholder alone is rendered to its input, stripped; a missing one to nothing |
| Templates.RenderingTwiceDiffers | app/models/template.py:45-55 | braces around a placeholder become a placeholder in the result |
| Templates.RenderingTwiceAgreesIff | app/models/template.py:45-58 | rendering what was rendered, strip included, changes nothing if and only if no opening brace of the text is completed to a placeholder by the inserted values, for values without an opening brace |
| Templates.Variables | app/models/template.py:36-43 | the distinct names of goal and context, without duplicates |
| Templates.FirstOccurrencesInOrder | app/models/template.py:36-43 | in the order of their first occurrence |
| Templates.Render | app/models/template.py:45-58 | goal and context rendered and stripped; no context exactly when there is no template or only white space comes out |
| Templates.OnlyListedInputsMatter | app/models/template.py:36-58 | inputs that variables() does not list make no difference to what is rendered |
| Ranking.FreshnessFallsWithAge | app/tools/search_freshness.py:79-94 | freshness never rises with age; an undated source is fresher than exactly those older than 30 days |
| Ranking.FreshnessByAge | app/tools/search_freshness.py:79-94 | which freshness which age has |
| Ranking.RelevanceIsMonotoneIff | app/tools/search_freshness.py:187-190 | a higher score never counts for less, except one above 1 against one above 0 and at most 1 |
| Ranking.RelevanceIsScore | app/tools/search_freshness.py:187-190 | a score between 0 and 1 is the relevance, any other is 0, a missing one a half |
| Ranking.ProductAtTheEnds | app/tools/search_freshness.py:229-238 | what the best and the worst freshness and quality take off the relevance, and the preference for official sources adds |
| Ranking.ProductIsProportional | app/tools/search_freshness.py:229-238 | in between, freshness and quality count in proportion |
| Ranking.ScoredSaysWhatItIs | app/tools/search_freshness.py:203-265 | date, type and official flag of a scored source, and its scores rounded |
| Ranking.ScoreAndRank | app/tools/search_freshness.py:203-270 | the sorted scores, ranked 1 to n |
| Ranking.SortedIsStable | app/tools/search_freshness.py:267-269 | the sort is a permutation, descending by key, and keeps the order of equal keys |
| Ranking.SortedByScoreThenFreshness | app/tools/search_freshness.py:267-269 | by falling score, and at equal scores by falling freshness |
| Ranking.DominanceIff | app/tools/search_freshness.py:229-238 | when a source at least as good in every dimension does not score less |
| Ranking.DominanceSurvivesRounding | app/tools/search_freshness.py:229-267 | with positive relevance the dominating source never has the smaller sort key, rounding included |
| Ranking.DominatingRanksFirst | app/tools/search_freshness.py:267-270 | so it is not ranked behind, unless the keys are equal |
| Ranking.EvidenceCutoff | app/tools/search_freshness.py:273-281 | the newest date of a source that is not of low quality, if any |
| Ranking.CountsIff | app/tools/search_freshness.py:273-281 | and such a source is one of known date whose quality is above 0.25 |
| Requirements.MergeRequirements | app/agent/requirements.py:174-183 | the loop computes the overlay of all sources |
| Requirements.MergedIsLastValid | app/agent/requirements.py:174-183 | each key has its last valid value, stripped |
| Requirements.KnownIffSomeSourceSays | app/agent/requirements.py:174-183 | a key is known after merging if and only if some source gives it a value that is neither empty nor one of the words for nothing |
| Requirements.KnownFromLastSource | app/agent/requirements.py:174-183 | and its value is that of the last such source, stripped |
| Requirements.MergingMergedParts | app/agent/requirements.py:174-183 | merging merged parts equals merging all their sources at once |
| Requirements.CheckToolRequirements | app/agent/requirements.py:231-307 | allowed if and only if every required parameter is known; missing names once each, aligned with their labels |
| Requirements.FirstOfEachNameExact | app/agent/requirements.py:293-301 | removing repetitions loses no name and leaves no duplicate |
| Requirements.MissingExactly | app/agent/requirements.py:255-291 | a name is reported missing if and only if it is not known and the tool declares it or a slot that applies asks for it |
| Requirements.LabelOfMissing | app/agent/requirements.py:268-301 | a declared parameter has the caption of the last slot of its name, or else its own name, as label; any other name that of the first slot that asks for it |
| Requirements.RegisteredSlotsAskForPlace | app/agent/requirements.py:279-291 | with the registered slots, a call is complete if and only if its declared parameters are known and a place-dependent web search knows its location |
| Requirements.MoreExtractedNeverBlocks | app/agent/requirements.py:255-266 | more extracted requirements never block an allowed call |

## Left out

- LLM content, prompts and JSON parsing: answers are arbitrary values; a node that raises leaves the state alone.
- LangGraph internals: checkpoint storage, node replay after an interrupt and the recursion limit. A resumed run is the same run continued.
- Redis, PostgreSQL, Chroma and pgvector: an abstract queue and abstract maps; races between their calls are not modelled.
- The order in which the similarity search returns memories.
- Multi-agent branch: sub-agents' own results and the review text; only status and mode are modelled.
- Object identity of the pending request and its history entry: values are used, which differ only if ids repeat.
- Task fields without control flow: owner, tenant, plan object and version, dependencies, tools used, timestamps, agent results.
- A subtask without a description or with depends_on null, which make the source raise, and a subtasks entry that is null.
- A reflection answer whose fields fail validation counts as an answer that could not be parsed.
- Tracing.TraceRecorder.AddNodeSpan: latency and start time, the run's closing status, and the tool and agent events of a trace.
- ToolCalls.RunToolCallsLoop: the model call that turns the transcript into a text.
- ToolRetry.ToolRun.ExecuteWithPolicy: which exceptions count as retryable is part of the input.
- Requirements.CheckToolRequirements: the extraction by regular expressions and the hints for places are arbitrary functions.
- Templates.Variables: the classes of word and space characters are arbitrary, except that braces are not word characters where that matters.
- Ranking.ScoreAndRank: scores are real numbers, rounding is any monotone function, and the quality of an address is given.
- Budget.TaskBudget.Record: floating-point rounding of the cost.
- Engines.Engine.LoseRun: an exception between the status write of a run and its guarded part, which loses the run as well; a run is lost only before its first write.
- Failures of the repository or the checkpoint store while a run is closed or an approval request is stored; permission lists of tools; authentication; the frontend.

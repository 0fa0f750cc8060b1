# Styr: verified models of its coordination code

Styr runs agentic CLIs on a server: interactive sessions, unattended runs, loops of runs and pipelines of runs. This
project models the parts of it that coordinate work over time and proves what they promise. Each part is written twice:
once as the source writes it (classes over mutable tables, loops, methods that update in place) and once as functions on
values; the methods are proved to compute the functions, and the properties are proved about the functions, over every
input, run or interleaving.

* **Pipelines** (`definitions`, `step_rows`, `run_state`, `advance_proofs`, `invariants`, `history`, `progress`,
  `pipeline_*`, `unnamed_steps`, `stalls`, `stall_histories`, `executor`, `needs_graph`, `topo`, `validate`,
  `validated_runs`). A pipeline run is a table of step-run rows that is only inserted into and updated; a row's position
  is its identity. The executor's methods all hold one lock, so each is one atomic event. The run engine is an
  adversary: it finishes runs when it likes, and its finish messages may be late, lost or repeated. What templates, list
  expressions and the run engine answer is an input of each call (`World`). A run is identified by the step run it was
  started for and the call that started it.
* **Sessions** (`process_table`, `process_protocol`, `process_theorems`, `approvals`, `approval_races`). The table of
  live processes is modelled at the granularity of its lock, semaphore operations and process events, and starters,
  pumps, closers and exiting processes are interleaved in any order; approvals at the granularity of single database
  statements.
* **Runs** (`until_done_loops`, `loop_theorems`). Closing a run, moving its loop on, stopping and sweeping; `advance`
  and `Stop` are atomic.
* **Triggers** (`trigger_gate`). The delivery log, its history queries and the gate over them; calls are sequential.
* **Stats** (`gantt`). Three passes over events against a pointwise definition of what was going on at an instant.
* **Git** (`unified_diff`). The stateful diff reader against a printer, in the format of "Diff -u or -U Output Format"
  of the `diff` utility in POSIX.1-2017, Shell & Utilities.
* `machine` holds 64-bit integers, `wrappers` the option type.

Instants and durations are integers (nanoseconds where a constant matters).

Where the code and its comments disagree, the model follows the code:

* `RetryFailed` describes skipped and cancelled steps as never having run; a cancelled step may have, and its row is
  reused. The late finish of the old run, won or lost, then lands on the new start.
  `PipelineStale.LateMessageHitsTheRetry` shows it, `PipelineStale.FaithfulExactly` says exactly when a message is
  faithful and `PipelineStale.GuardDecides` names the comparison that would decide it.
* `Validate` promises that needs refer to earlier steps, but skips the needs of a step without an id. Such a step may
  then never be started, or be missed: it becomes ready after its turn in the last pass. If it is plain its row waits
  and the run stays live with nothing running; if it is a list it has no row, and the run is recorded as a success
  without it, a hollow one (`ValidatedRuns.HollowSuccess`). `ValidatedRuns.AcceptedMissesExactly` says exactly which
  accepted definitions can get stuck so and which can end in such a success (`Stalls.MayStall`, `Stalls.MayForget`);
  `ValidatedRuns.AcceptedRunsAreSound` that all is well otherwise. `ValidatedRuns.AcceptedSucceedsExactly` says which
  can be recorded as a success at all, and `ValidatedRuns.AcceptedCompletesExactly` which can be one with every step
  succeeded.
* A loop's row is meant to record the iteration reached; after a failed send it is one less.
  `LoopTheorems.IterationCountsRuns` says exactly when it is right.
* `release` drops an unbalanced release silently; `ProcessTheorems.ReleaseFindsAToken` shows that this never happens.

`dafny verify dfyconfig.toml` checks the whole project.

## Model

| member | source | states |
|---|---|---|
| Executors.CurrentAttempts | internal/pipelines/advance.go:24-47 | The rows returned are the newest attempt of every slot (highest attempt, the later row on a tie), each slot once, in order of first appearance. |
| RunState.CurrentIsNewest | internal/pipelines/advance.go:24-47 | A row is among the current attempts exactly when it is the newest of its slot, and each is listed once. |
| Executors.NodeStateOf | internal/pipelines/advance.go:60-79 | The scan over the current attempts finds failed if any newest attempt ended badly, else busy if any is unfinished, else succeeded if there is one, else absent. |
| Executors.NeedsMet | internal/pipelines/advance.go:156-165 | True exactly when every need, fan-out items included, has succeeded. |
| Executors.Executor.constructor | internal/pipelines/executor.go:417-434 | A new run holds one pending step run per plain step and has been advanced once. |
| Executors.Executor.ExpandNode | internal/pipelines/advance.go:460-517 | Expansion appends exactly the rows the node gets: one pending row, one failed marker, one empty-list marker, or one row per item in item order. |
| Executors.Executor.StartStep | internal/pipelines/advance.go:320-381 | Starting one pending row leaves it running under a new run, or failed with the refusal; no other row changes. |
| Executors.Executor.StartPendingSteps | internal/pipelines/advance.go:141-150 | The loop over the stale list of current attempts starts every pending newest attempt of the node and nothing else. |
| Executors.Executor.StopSteps | internal/pipelines/advance.go:191-211 | Every unfinished newest attempt ends in the given state; all other rows are untouched. |
| Executors.Executor.SettleRun | internal/pipelines/advance.go:167-189 | Failed with everything stopped, still live, or success, as the current attempts decide. |
| Executors.Executor.AdvanceLocked | internal/pipelines/advance.go:98-154 | The imperative pass, with its re-reads after each expansion and start, computes the specified one-pass advance. |
| Executors.Executor.FindStep | internal/pipelines/advance.go:622-630 | The first step of the definition with the id, or none. |
| Executors.Executor.CompleteStep | internal/pipelines/advance.go:579-620 | A finish message records a success, or a failure with a fresh attempt inside the budget, then advances; a terminal step run is left alone. |
| Executors.Executor.Cancel | internal/pipelines/executor.go:484-503 | Refused on a finished run; otherwise everything unfinished is cancelled and the run ends cancelled. |
| Executors.Executor.RetryFailed | internal/pipelines/executor.go:509-556 | Refused on a live run or with nothing to retry; otherwise failed slots get a next attempt, skipped and cancelled rows go back to pending on their own row, and the run is reopened and advanced. |
| Executors.Executor.ReopenSteps | internal/pipelines/executor.go:520-541 | The loop over the current attempts reopens exactly the failed, skipped and cancelled ones and counts them. |
| Executors.Executor.ReconcileRuns | internal/pipelines/executor.go:655-672 | Every row of the snapshot that is running on a finished run is completed, in order, on the state the earlier ones left. |
| Executors.Executor.Tick | internal/pipelines/executor.go:620-653 | Within the timeout a live run is reconciled; past it everything is cancelled and the run is timed out. |
| AdvanceProofs.NoStall | internal/pipelines/advance.go:98-189 | From any table of a well-ordered definition: if the run is still live afterwards, a step run is running, nothing has failed and every step whose needs succeeded has been started. |
| AdvanceProofs.BlockedOnRunning | internal/pipelines/def.go:285-297 | Why a single pass suffices: walking back through needs from a node that has not succeeded always ends at a running step run, because needs point backwards. |
| AdvanceProofs.SuccessIsGenuine | internal/pipelines/advance.go:128-189 | Success is recorded only when every step of the definition has step runs and the newest attempt of every slot succeeded. |
| AdvanceProofs.PassPassed | internal/pipelines/advance.go:128-151 | After one pass every step whose needs have succeeded is expanded and has no pending newest attempt, through any chain of empty fan-outs. |
| AdvanceProofs.AdvanceIsFixpoint | internal/pipelines/advance.go:98-154 | A second advance with no outside event changes nothing, whatever templates and runs would answer then. |
| AdvanceProofs.AdvanceKeepsDone | internal/pipelines/advance.go:128-189 | An advance never touches a row of a node that had succeeded. |
| Invariants.AdvanceInv | internal/pipelines/advance.go:98-189 | From any consistent live table the advance ends in the full invariant: consistent rows and runs, dependency safety, and a run that is waiting on something or quiet. |
| History.MessageFindsRunning | internal/pipelines/advance.go:583-604 | A finish message with something left to record always finds a live run and a running newest attempt, even after a retry reset the row. |
| History.StartInv | internal/pipelines/executor.go:417-434 | The state after Start satisfies the invariant. |
| History.HistoryInv | internal/pipelines/executor.go:484-672 | Every sequence of finished runs, delivered, dropped or repeated messages, cancels, sweeps and retries keeps the invariant, and every node that succeeded keeps its rows. |
| PipelineTheorems.DependencySafety | internal/pipelines/advance.go:156-165 | In every history a step run that is running, succeeded or carries a run id has all its needs succeeded. |
| PipelineTheorems.SucceededForever | internal/pipelines/executor.go:505-541 | A node that has succeeded keeps exactly its rows through every further event, retries included. |
| PipelineTheorems.LiveOrQuiet | internal/pipelines/advance.go:167-189 | In every history a live run has a running step run and nothing failed; a finished one has no pending or running step run in any attempt; a successful one has every node succeeded. |
| PipelineTheorems.HistoryForward | internal/pipelines/advance.go:583-620 | Without a retry, rows only move forward: a terminal row is final, a run id never changes, rows and runs are never lost. |
| PipelineTheorems.ReplayIsIgnored | internal/pipelines/advance.go:583-594 | Without a retry in between, repeating a handled finish message changes nothing, now or after any further events. |
| PipelineTheorems.SweepCatchesLostMessages | internal/pipelines/executor.go:625-672 | One sweep ends every step run that was running on a finished run, delivered message or not. |
| PipelineTheorems.OneRunPerStepRun | internal/pipelines/advance.go:323-381 | Without a retry each step run has at most one run, the one it carries. |
| PipelineBounds.AttemptsAreBounded | internal/pipelines/advance.go:600-619 | The attempts of each slot are 1..n in order, all but the newest failed, and n is at most retries + 1 + the number of operator retries. |
| PipelineBounds.RowsAreBounded | internal/pipelines/advance.go:481-485 | A run nobody retries has at most 20 * 25 * 4 step runs: slots and attempts lie in distinct cells of that grid. |
| PipelineBounds.WorkIsBounded | internal/pipelines/def.go:214-253 | A run nobody retries starts at most 2000 runs. |
| PipelineBounds.CompletionsAreBounded | internal/pipelines/advance.go:583-620 | Messages and sweeps together record at most 2000 results: each ends a row for good. |
| PipelineReports.ReportsLineUp | internal/pipelines/advance.go:409-418 | For a succeeded fan-out node the report list has one entry per item and entry i is the newest attempt at item i, on that item. |
| PipelineReports.FanOutReports | internal/pipelines/advance.go:505-514 | The same from the call that expanded the node through any further history, whatever order items finished or were retried in. |
| PipelineReports.MarkerIsNeverExpanded | internal/pipelines/executor.go:526-532 | A node whose list was empty, too long or not a list never gets a second slot: a retry of the failed marker does not render the list again. |
| PipelineReports.MarkerDecides | internal/pipelines/advance.go:473-500 | The call that expands a node from an empty list makes it succeed on its one row, without a run; from more than 25 items or no list it makes it fail on its one row with the reason, fails the pipeline run, and no step that needs the node has a run. |
| PipelineRetries.LostRunExactly | internal/pipelines/advance.go:606-619 | A lost run inside the step's budget gets its slot the next attempt on the same item, and the run goes on when that attempt starts; with the budget spent, or the attempt refused, the pipeline run has failed. |
| PipelineRetries.RetryReopensExactly | internal/pipelines/executor.go:525-541 | After an operator's retry the old rows are as before except that newest skipped and cancelled ones are pending again; the added rows are the next attempts of exactly the newest failed ones, one per slot. |
| PipelineEndings.RetryRevives | internal/pipelines/executor.go:509-556 | A retry changes nothing on a live run or with nothing to retry; otherwise, when every run starts and every list can be used, the run is live with nothing failed and every slot that had ended badly is pending or running under a new run: the failed ones on a next attempt, the others on their own row. |
| PipelineEndings.TickExactly | internal/pipelines/executor.go:620-672 | At the definition's limit, or two hours without one, a live run ends timed out with every unfinished newest attempt cancelled and nothing else changed. Before it, it does not; a step whose run is going is left alone unless another result fails the run, and with no result waiting nothing changes. |
| PipelineEndings.CancelExactly | internal/pipelines/executor.go:484-503 | A live run ends cancelled with every unfinished newest attempt cancelled and nothing else changed; a finished one is left alone. |
| PipelineEndings.FailureExactly | internal/pipelines/advance.go:167-211 | A call fails the run exactly when some newest attempt has ended badly; running attempts are then cancelled, and pending ones skipped, or cancelled or failed with the refusal when the call had tried to start them. |
| PipelineStale.FaithfulExactly | internal/pipelines/advance.go:583-619 | A finish message leaves every recorded result, success or failure, with the step run's own run if and only if the run it names ended exactly as the run the step run carries did. |
| PipelineStale.GuardDecides | internal/pipelines/advance.go:583-594 | The guard the code leaves out: a finished run's message is faithful when it names the run the step run carries, and while that run is going it is faithful only then. |
| PipelineStale.LateMessageHitsTheRetry | internal/pipelines/executor.go:533-538 | A concrete history, for any result: the late message of a cancelled run ends the retried step, as success or failure, with the old run's result while the new run is going. |
| PipelineStale.GuardedResultsAreOwn | internal/pipelines/executor.go:657-671 | With that guard on every message all recorded results are own results in every history, operator retries included; sweeps need no guard. |
| PipelineStale.ResultsAreOwn | internal/pipelines/advance.go:583-619 | Without a retry every recorded success or failure is the result of the step run's own run. |
| Topo.TopoSort | internal/pipelines/def.go:315-374 | The counting sort, iterating maps in any order, puts every id in the level it is ready at and leaves exactly the rest in cyclic, both in order of first occurrence. |
| Topo.FirstIndexes | internal/pipelines/def.go:316-324 | Every non-empty id is mapped to the index of its first occurrence. |
| Topo.CountNeeds | internal/pipelines/def.go:326-342 | indegree counts the known needs of each first occurrence with repetition, dependents lists who needs whom as often. |
| Topo.ProcessLevel | internal/pipelines/def.go:354-364 | Serving one level drops each dependent's count by its served needs and queues exactly those that reach zero, once. |
| NeedsGraph.LevelIsDepth | internal/pipelines/def.go:309-314 | An id is in level k exactly when its longest chain of needs has k edges. |
| NeedsGraph.LeftoverIsCyclic | internal/pipelines/def.go:367-371 | The ids in no level are exactly those that reach a cycle by following needs. |
| NeedsGraph.SortedUnique | internal/pipelines/def.go:352-372 | Ordering a set of ids by first occurrence has one answer, so map order cannot show in the result. |
| Validation.Validate | internal/pipelines/def.go:211-307 | The findings are exactly the deserved ones: each rule is reported if and only if the definition breaks it. |
| Validation.CheckFields | internal/pipelines/def.go:234-277 | The findings about one step's own fields are exactly the deserved ones. |
| Validation.CheckNeeds | internal/pipelines/def.go:279-298 | The findings about the needs of a first occurrence are exactly the deserved ones. |
| Validation.AcceptedExactly | internal/pipelines/def.go:203-210 | A definition has no findings if and only if it is within the limits, its fields are in order, its named ids are unique and every need of a named step is an earlier step; the cycle rule then has nothing left to find. |
| Validation.BackwardIsAcyclic | internal/pipelines/def.go:285-297 | Needs that all point backwards reach no cycle. |
| Validation.LevelsAreDepths | internal/pipelines/def.go:376-383 | Order puts each id of any definition in the level of its longest chain of needs. |
| Validation.NeedsInEarlierLevels | internal/pipelines/def.go:376-383 | Every need of an id in a level is in an earlier level. |
| Validation.AcceptedOrderCoversAll | internal/pipelines/def.go:376-383 | Order of an accepted definition lists every named step once: in one level, and once there. |
| ValidatedRuns.AcceptedRunsAreSound | internal/pipelines/def.go:211-307 | In every history of an accepted definition a live run has a step running unless the definition may stall, and a recorded success leaves out no step unless it is an unnamed list the definition may forget. With at most one unnamed step, needing earlier steps only, an unretried run starts at most 2000 runs. |
| Stalls.StallsOnlyIf | internal/pipelines/advance.go:128-189 | The same over every history for all definitions whose named steps need earlier named steps, whatever their unnamed steps need. |
| Stalls.LastPass | internal/pipelines/advance.go:128-151 | A pass that leaves nothing running and unnamed steps waiting or unexpanded made each unnamed step that could have started them miss a list that had no rows when the pass began and comes later in the file. |
| StallHistories.MissesExactly | internal/pipelines/advance.go:128-189 | For those definitions some history ends live with nothing running and nothing to record if and only if a plain unnamed step can be missed, and some history ends as a success without one of its steps if and only if only unnamed lists can. |
| ValidatedRuns.AcceptedMissesExactly | internal/pipelines/def.go:279-298 | Both equivalences for every accepted definition; the conditions read nothing but the definition. |
| ValidatedRuns.OrderlyMissesNothing | internal/pipelines/def.go:279-298 | With at most one unnamed step, all of whose needs come earlier in the file, an accepted definition meets neither condition. |
| UnnamedSteps.UnansweredNeverRuns | internal/pipelines/advance.go:156-165 | When no step without an id needs named steps only, no history ever has a run, a running row or a success without a step id. |
| UnnamedSteps.BlockedNeverSucceeds | internal/pipelines/executor.go:417-434 | And when one of them is plain, no history is recorded as a success. |
| PipelineLiveness.WinAll | internal/pipelines/advance.go:98-189 | From the start, with every run winning, messages one by one lead to a state in which nothing runs but the nodes held back and nothing ready is left unstarted, whatever the order of steps in the file. |
| PipelineLiveness.SucceedsExactly | internal/pipelines/advance.go:128-189 | The run of a definition whose named steps need earlier named steps can be recorded as a success in some history if and only if it is not blocked. |
| PipelineLiveness.CompletesExactly | internal/pipelines/advance.go:128-189 | It can be recorded as a success with every step succeeded if and only if no step lacks an id or one that does needs named steps only. |
| ValidatedRuns.AcceptedSucceedsExactly | internal/pipelines/def.go:279-298 | Some history of an accepted definition ends with the recorded status success if and only if no step without an id is plain or one of them needs named steps only. The status alone: see AcceptedCompletesExactly. |
| ValidatedRuns.AcceptedCompletesExactly | internal/pipelines/def.go:279-298 | Some history of an accepted definition ends as a success in which every step has succeeded if and only if every step has an id or one without needs named steps only. |
| ValidatedRuns.HollowSuccess | internal/pipelines/advance.go:128-189 | A concrete definition between the two: accepted, with one unnamed list step, whose run is recorded as a success from the start without a single step run. |
| ValidatedRuns.AcceptedGetsStuck | internal/pipelines/def.go:279-298 | An accepted definition that cannot be recorded as a success has a history that ends with nothing running, which only a cancellation, a retry or the timeout can move. |
| ValidatedRuns.UnnamedStepStalls | internal/pipelines/def.go:282-284 | A concrete one: an accepted definition with one unnamed step whose run waits from the start and cannot succeed. |
| ValidatedRuns.LaterListGetsStuck | internal/pipelines/advance.go:128-151 | A concrete one that can succeed and can get stuck: an accepted definition whose unnamed step needs a later list, and the list is empty. |
| ProcessTable.Capacity | internal/sessions/scheduler.go:27-32 | The semaphore has MaxOpen slots, and one when MaxOpen is smaller. |
| ProcessTable.Service.constructor | internal/sessions/service.go:130-152 | A new service tracks nothing and holds no token. |
| ProcessTable.Service.RegisterProcess | internal/sessions/service.go:768-779 | Refused when the session has a live process; otherwise tracked, with any closing mark cleared. |
| ProcessTable.Service.StartProcess | internal/sessions/service.go:659-722 | The start without its wait for a slot: with a free slot it succeeds exactly with a launched process and no live one, and every failure gives the slot back; with none it gives up, an interactive start having marked the longest idle open unattended session, if there is one. The wait is `Acquire` and `GiveUp` in `ProcessProtocol`. |
| ProcessTable.Service.Send | internal/sessions/service.go:323-364 | Delivers to a live process or finds a start in progress and changes nothing, or starts a process; its claim is given back in every case. The wait for a start in progress is `Awaiting` and `Poll` in `ProcessProtocol`. |
| ProcessTable.Service.HandleExit | internal/sessions/runner.go:161-173 | Closed when closing was asked for or the exit was clean, failed otherwise; the process is untracked and its slot free. |
| ProcessTable.Service.EvictOldestIdle | internal/sessions/scheduler.go:68-116 | Adds the least recently active open unattended session to those closing, or changes nothing exactly when there is none. |
| ProcessTable.Service.MarkAllClosing | internal/sessions/service.go:451-459 | Marks and returns exactly the tracked processes, whatever the map order. |
| ProcessTable.OldestIdleUnattended | internal/sessions/scheduler.go:78-99 | The session chosen for eviction is open, unattended and least recently active among those; none is chosen exactly when there is none. |
| ProcessProtocol.NextKeeps | internal/sessions/service.go:659-722 | Every step of a starter, a pump, a closer or an exiting process keeps the invariant of the protocol. |
| ProcessProtocol.RunInv | internal/sessions/service.go:323-396 | Every interleaving keeps it. |
| ProcessTheorems.SlotsBalance | internal/sessions/scheduler.go:13-66 | In every interleaving tokens held are tracked processes plus starters that hold a slot without one plus pumps between unregister and release; tracked processes never exceed the capacity. |
| ProcessTheorems.ReleaseFindsAToken | internal/sessions/scheduler.go:60-66 | A release always finds a token, so the silent default branch is never taken. |
| ProcessTheorems.OnlyItsPumpRemoves | internal/sessions/runner.go:161-173 | A tracked process leaves the table only by its own pump, after it exited; every other step keeps it. |
| ProcessTheorems.NamesOneProcess | internal/sessions/service.go:761-787 | From registration until its pump removes it, a session names one process, through any steps. |
| ProcessTheorems.NoProcessIsForgotten | internal/sessions/service.go:702-709 | A launched process that has not exited is tracked with its one pump, or held by the start that launched it, or a refused duplicate told to close; no two sessions share one. |
| ProcessTheorems.ClosingIsAboutTheTracked | internal/sessions/service.go:768-787 | A closing mark always belongs to the process tracked now. |
| ProcessTheorems.ClosingWasAsked | internal/sessions/runner.go:164-170 | Over every interleaving, from its registration until its pump removes it a process is marked as closing exactly when its session, or all of them, were marked in between: only then does a failing exit count as closed. |
| ProcessTheorems.SendStarts | internal/sessions/service.go:323-364 | With nobody in between a Send for a session nobody serves ends, with a slot free, with its process tracked, its pump reading, one slot taken and its claim given back. |
| ProcessTheorems.DuplicateIsClosed | internal/sessions/service.go:702-709 | With nobody in between one whose session has a process by then ends with its own process closed and the slot given back. |
| ProcessTheorems.StartFails | internal/sessions/service.go:684-700 | A start that gets no slot or whose launch fails leaves the table as it was. |
| ProcessTheorems.CloseRuns | internal/sessions/service.go:413-430 | Closing a session whose process is tracked marks it and tells that process, and changes nothing else. |
| ProcessTheorems.ExitRuns | internal/sessions/runner.go:161-173 | With nobody in between a tracked process that exits is untracked, its mark cleared and its slot free. |
| ProcessTheorems.OneStartPerSession | internal/sessions/service.go:315-351 | At most one Send is starting a process for a session; while one is, another Send leaves everything as it is and waits, or delivers to the process that is tracked by then. |
| ProcessTheorems.WaiterLeavesNoTrace | internal/sessions/service.go:367-396 | Over every interleaving, until it leaves, a Send that waits for another start never claims, takes a slot or launches: the system is the one in which it takes no step at all. |
| ProcessTheorems.PollTells | internal/sessions/service.go:372-387 | In every interleaving a waiter is told ready exactly when a process is tracked for its session, and then that process, which has the one pump of the session; it is told that the start failed exactly when none is tracked and nobody holds the claim; otherwise it goes on waiting. |
| ProcessTheorems.WaiterIsServed | internal/sessions/service.go:346-353 | Whoever polls while the claiming start is under way is not told that it failed, and whoever polls between registration and removal is given the process, whatever happens in between. |
| ProcessTheorems.NothingLeaks | internal/sessions/service.go:684-722 | When all starts and pumps are done every slot is free and nothing is tracked, marked or claimed. |
| Approvals.Table.constructor | internal/db/approvals.go:18 | A new table is empty. |
| Approvals.Table.Create | internal/db/approvals.go:23-38 | Inserts the row, or fails and changes nothing when the id is taken. |
| Approvals.Table.Decide | internal/db/approvals.go:137-159 | The guarded update changes a pending row only, and tells a lost race from a bad id. |
| Approvals.Table.ExpireBefore | internal/db/approvals.go:174-186 | Expires exactly the pending rows older than the cutoff and returns how many. |
| ApprovalRaces.NextKeeps | internal/sessions/approvals.go:26-86 | Each statement of a human decision, the sweep, a permission request or the bulk expiry keeps the invariant of the race. |
| ApprovalRaces.OneAnswerAsStored | internal/sessions/approvals.go:14-25 | Over every interleaving a request gets at most one answer; an answer is allow exactly when the stored state is allowed; a direct denial has no row. |
| ApprovalRaces.LeavesPendingOnce | internal/db/approvals.go:137-144 | Once out of pending, a row never changes again. |
| ApprovalRaces.OneDeciderWins | internal/sessions/scheduler.go:145-163 | Two deciders never both win one approval, and the winner's verdict is the stored one. |
| ApprovalRaces.StoredAsMeant | internal/sessions/approvals.go:47-71 | Over every interleaving a row is allowed only if somebody clicked allow on it, denied only if somebody clicked deny, expired only by a sweep that took it up or a bulk expiry it was too old for; a process is told allow only about a request somebody allowed. |
| ApprovalRaces.DeciderDoesAsAsked | internal/sessions/approvals.go:47-71 | Whatever happens before and after, a decider that entered by a click and won has stored just that verdict, and tells the process it finds just that about this request; one that entered by the sweep has stored expired and tells it no. |
| ApprovalRaces.ClickIsAnswered | internal/sessions/approvals.go:47-71 | With nobody in between a click on a pending approval is stored and told to the process found. |
| ApprovalRaces.RequestIsAnswered | internal/sessions/runner.go:115-140 | From a new request to its answer with nobody in between: its row is stored as pending, then as what was clicked, and the process found is told just that about this request. |
| ApprovalRaces.GivenUpIsSilent | internal/sessions/approvals.go:54-72 | A decider that wins and then gives up leaves its verdict stored, and over every continuation nobody answers the request. |
| ApprovalRaces.BulkExpiryIsSilent | internal/db/approvals.go:174-186 | The bulk expiry expires exactly the pending rows that are too old, and over every continuation nobody answers one of those. |
| UntilDoneLoops.Budget | internal/runs/loops.go:100-103 | The budget is the template's, or 5 when that is below one. |
| UntilDoneLoops.Engine.StartLoop | internal/runs/loops.go:89-124 | A running loop at iteration 1 with its first run. |
| UntilDoneLoops.Engine.Finish | internal/runs/loop.go:256-277 | Closes a run this process has not closed, and moves its loop on; says whether it was this call. |
| UntilDoneLoops.Engine.Advance | internal/runs/loops.go:126-156 | Ends the loop on a failure, a report that says done, or a spent budget; otherwise starts the next iteration; nothing for a loop that is not running. |
| UntilDoneLoops.Engine.EndLoop | internal/runs/loops.go:158-169 | The final write, from the loop row as read before. |
| UntilDoneLoops.Engine.NextIteration | internal/runs/loops.go:171-228 | Row and iteration are written before the send; a failed send closes the new run, which ends the loop on the way. |
| UntilDoneLoops.Engine.Stop | internal/runs/loops.go:331-358 | Refused unless the loop is running. |
| UntilDoneLoops.Engine.HandleReport | internal/runs/loop.go:98-131 | A report reaches the newest run of the session while that is running. |
| UntilDoneLoops.Engine.Tick | internal/runs/loop.go:230-253 | Closes as timed out exactly the stale runs of the snapshot. |
| LoopTheorems.BudgetHolds | internal/runs/loops.go:126-169 | Over every history runs are numbered 1..k with k within the budget, all but run k succeeded, a running loop has run k running, and an exhausted one spent its budget on successes. |
| LoopTheorems.EndsExactly | internal/runs/loops.go:142-228 | What one ending of the run in flight makes of its loop: which state, and exactly which runs there are afterwards, the failed send included. |
| LoopTheorems.EndedForGood | internal/runs/loops.go:139-141 | A loop that has left running never gets another run, and its row never changes. |
| LoopTheorems.StopIsFinal | internal/runs/loops.go:331-358 | A stop takes a running loop to stopped, touches no run, and whatever follows the loop stays so without another run; any other loop is left alone. |
| LoopTheorems.ReportCloses | internal/runs/loop.go:98-131 | A report closes the newest run with the reported outcome when that is running, and is dropped otherwise. |
| LoopTheorems.ClosedOnce | internal/runs/loop.go:40-50 | A run's first outcome is its last, through reports, duplicates, sweeps and restarts. |
| LoopTheorems.SweepClosesTheStale | internal/runs/loop.go:230-253 | After a sweep no run started before the cutoff is running. |
| LoopTheorems.SweepTimesOut | internal/runs/loop.go:230-253 | A sweep times the run in flight out exactly when it started before the cutoff, which fails a running loop; nothing else is touched. |
| LoopTheorems.IterationCountsRuns | internal/runs/loops.go:158-163 | The loop row counts the runs if and only if no next iteration ever failed to be sent. |
| LoopTheorems.FailedSendWritesBack | internal/runs/loops.go:150-154 | A concrete loop whose failed send writes the iteration number back down. |
| TriggerGate.Service.CountAcceptedSince | internal/db/deliveries.go:98-111 | Counts the accepted rows received at or after the instant. |
| TriggerGate.Service.LastAcceptedByKey | internal/db/deliveries.go:113-128 | A newest accepted row with the key, or none exactly when there is none. |
| TriggerGate.Service.Gate | internal/triggers/deliver.go:247-289 | The decision over the log: resolved rule, force, cooldown, dedupe, storm cap, in that order. |
| TriggerGate.Service.Process | internal/triggers/deliver.go:150-213 | Every call appends exactly one row, the specified one, and changes no other. |
| TriggerGate.Service.FailDelivery | internal/triggers/deliver.go:235-245 | Only the status of the one row changes. |
| TriggerGate.LastIsNewest | internal/db/deliveries.go:113-122 | What the newest accepted row means: a maximum over all accepted rows with the key. |
| TriggerGate.GatePassesExactly | internal/triggers/deliver.go:247-289 | A delivery passes if and only if the resolved rule allows it and, unless forced, every accepted row with its key is far enough away and the storm cap is not reached. |
| TriggerGate.GateRefusesExactly | internal/triggers/deliver.go:247-289 | Each refusal holds exactly when its own reason does and no earlier one: resolved, then too soon after some accepted delivery with the key, then a repeat of one, then the storm cap. |
| TriggerGate.RowAt | internal/triggers/deliver.go:150-155 | Rows are never revised: row i is decided by the rows before it. |
| TriggerGate.LogExactly | internal/triggers/deliver.go:150-245 | Over every history row i is rejected exactly when nobody could read delivery i, failed without a key, accepted exactly when the gate lets it pass over the rows before it and a run starts, failed when it passes without one, and the gate's reason otherwise. |
| TriggerGate.CountIsCardinality | internal/db/deliveries.go:98-111 | What the storm cap compares is the number of accepted rows received at or after the instant. |
| TriggerGate.AcceptedAreApart | internal/triggers/deliver.go:260-272 | Two accepted deliveries with one key, the later unforced, are at least the cooldown and 24 hours apart, and for Grafana there are no two; no assumption about the clock is needed. |
| TriggerGate.StormCapHolds | internal/triggers/deliver.go:279-287 | Over every history every closed hour holds at most the storm cap of unforced accepted deliveries, forced ones or not in between. |
| Gantt.BusySegments | internal/stats/gantt.go:189-236 | The scan with its open segment computes the specified segments. |
| Gantt.ClipSegments | internal/stats/gantt.go:238-256 | The specified clipping, dropping what becomes empty. |
| Gantt.FillIdle | internal/stats/gantt.go:258-275 | The specified interleaving with gaps of at least five seconds. |
| Gantt.DeriveSegments | internal/stats/gantt.go:177-187 | The three passes composed. |
| Gantt.TimelineIsPointwise | internal/stats/gantt.go:183-187 | For non-decreasing event times an instant of the window is in a running or waiting segment exactly when folding the events up to it leaves that kind open, and in an idle one only when it leaves none. |
| Gantt.TimelineIsOrdered | internal/stats/gantt.go:238-275 | Segments are ordered, disjoint, non-empty and inside the window. |
| Gantt.TimelineGapsAreShort | internal/stats/gantt.go:258-275 | Every stretch the segments leave uncovered is shorter than five seconds. |
| Gantt.TimelineBreaksAtEvents | internal/stats/gantt.go:195-230 | No busy segment goes on across a user event, a permission request, a result or an exit, and where one follows another of its kind at once a user event or a permission request came in. |
| Gantt.TimelineIdleIsLong | internal/stats/gantt.go:258-275 | No idle segment is shorter than five seconds. |
| UnifiedDiff.ParseUnifiedDiff | internal/gitops/diff.go:128-179 | The line-by-line loop with its counters computes the specified fold. |
| UnifiedDiff.HeaderExactly | internal/gitops/diff.go:55 | A line opens a hunk if and only if it is @@ -range +range @@ with anything after it, each range a number or two with a comma, and the digits read are the ones in it. |
| UnifiedDiff.HeaderNumbers | internal/gitops/diff.go:159-165 | The hunk has the numbers written in its header, a count of 1 where none is written, and 0 or 1 for a number too large for a machine integer. |
| UnifiedDiff.HeaderBack | internal/gitops/diff.go:55 | A printed header, with a count of 1 printed or left out and any section text after it, reads back as the same four numbers. |
| UnifiedDiff.OthersMakeNoDifference | internal/gitops/diff.go:137-176 | Lines that are no status line, no header and not in a hunk's body can be dropped from the output anywhere without changing what is parsed. |
| UnifiedDiff.ParsedIsNumbered | internal/gitops/diff.go:154-176 | Whatever the input, both sides of every hunk are numbered consecutively from their starts, in 64-bit arithmetic, and added or deleted lines carry 0 on the missing side. |
| UnifiedDiff.NumbersMatchCounts | internal/gitops/diff.go:20-40 | When a hunk's counts match its body, each side carries exactly start .. start + count - 1, each once, in order. |
| UnifiedDiff.RoundTrip | internal/gitops/diff.go:131-179 | Any output whose informative lines are a file's printed status lines, headers and bodies, with any mode, binary names, section texts and counts of 1 printed or not, parses to that diff. |
| UnifiedDiff.PrintedBack | internal/gitops/diff.go:131-179 | In particular the printed lines joined. |
| UnifiedDiff.ParsedHunksSurvive | internal/gitops/diff.go:131-179 | Hunks parsed from any input survive being printed and parsed again, whatever the section texts. |
| UnifiedDiff.UntrackedFileDiff | internal/gitops/diff.go:84-112 | Binary exactly with a NUL among the first 8192 bytes, truncated exactly beyond 2 MiB; otherwise one hunk of added lines, well numbered, whose joined text is the content shown. |
| UnifiedDiff.SplitLinesBack | internal/gitops/diff.go:114-126 | No byte is lost and none added: the lines joined, with a newline at the end exactly when the data end in one, are the data. |

## Left out

Assumptions the theorems carry in their hypotheses or their model:

- Repository writes succeed and the definition of a run does not change while it lives, so the branches that only log and
  the "definition no longer parses" branch (internal/pipelines/advance.go:111-115) are not part of this model.
- Ids are unique and needs name earlier steps where the pipeline theorems ask for a well-ordered definition; validation
  ensures it but for steps without an id, see above.
- A finish message follows the end of its run, and a call starts runs no earlier call started (`LegalHistory`).
- One pipeline run, one loop and one trigger per object: rows of others are disjoint, since every query filters by id.
- A process delivers one exit event. A second one would release a slot twice.
- A request id is used once in a session, over all of its processes. The process an answer is sent to is whichever is
  tracked at that moment.
- `gate` and the insertion of the accepted row are one action, as sequential calls make them; a trigger keeps its settings.
- Event times do not decrease where the Gantt theorems ask for it.

Not modelled:

- Costs, tokens, timestamps of rows, worktree paths, titles, notifications, bus messages and log lines.
- Interrupting and closing the session behind a step or a stopped loop; sessions react through finish messages only.
- YAML, template and JSON handling: rendering, decoding of lists, items and reports, and `loopDone` are inputs.
- Visibility, ownership, authentication and the size limit of inbound payloads.
- The wording of the reason recorded for a list that is too long: one constant, without the number of items.
- Wording and line numbers of validation findings, and their order; `Validate` is stated as the exact set of findings.
- `sort.Slice` in the levelled sort is replaced by picking first occurrences in definition order; `NeedsGraph.SortedUnique`
  shows that sorting has one answer.
- Runs that finish while a sweep is under way: a sweep sees one state of the run engine.
- Session lifecycle states against process liveness: `Close` and `startProcess` write states outside the lock, so no exact
  agreement holds.
- The clocks of `acquire`, `waitForStartingProcess` and `closeLiveProcess`: the modelled steps are their single polls, and
  a timeout is a step that gives up at any time.
- What becomes of a text handed to a process that exits at that moment.
- Reading the stored transcript when a run starts (internal/runs/loop.go:164-187): it ends in the same at-most-once close.
- The variables cache of loops beyond whether a loop's entry exists.
- Snoozing approvals, schedules, HTTP handlers, the CLI, backups, cryptography and the web interface.
- Git subprocesses and the choice between the git and the untracked path of a file's diff.
- ValidatedRuns.AcceptedRunsAreSound: the bound of 2000 runs is stated for definitions with at most one unnamed step, whose
  needs come earlier in the file; several steps without an id share one node, and the counting by slots is not repeated
  for them.
- UnifiedDiff.RoundTrip: a truncated diff prints like a complete one, so it is stated for diffs not marked truncated.
- TriggerGate.AcceptedAreApart: the cooldown is the 64-bit product the code computes; beyond 292 years it wraps.

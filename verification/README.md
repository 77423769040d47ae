# Endless Task: verified model

A Dafny model of the parts of Endless Task whose correctness spans many steps: background child runs and
the way their results travel back to the parent conversation, the file kernel that never resolves a path
twice, the search kernel with its wire format, the context planner, and recurring schedules.

How the pieces fit together:

- `Semaphores`, `Delegation` and the modules named after it model child runs as a transition system. A
  step is the code between two suspension points, so a run is any interleaving. `Delegation` holds the
  state and the steps; `DelegationInvariants`, `DelegationSteps` and `DelegationRuns` prove what every step
  keeps; `DelegationTheorems` states what that means, `DelegationWaiting` what waiting at the gates is like,
  `DelegationSpawns` which children are taken and when they start, `DelegationEndings` how they end,
  `DelegationAnswers` and `DelegationCancels` what queries and cancel calls answer, `DelegationRecency` what the
  cache remembers of past use, and `DelegationUnanswered` is one run step by step; `DelegationRuntime` is the
  imperative code, a class whose methods are proved to perform exactly these steps.
- `ChildWakeup` and the modules named after it do the same for the wakeup service: slots and waiting, the
  books of delivery and what they mean, lost wakeups, the throttle, what each call does, and the class with its
  loops.
  `DeliveryKey` is the text its idempotency key is made of.
- `ChildContext` and `ChildInjection` cover the block that lists children to their parent, and repeated
  rounds of showing and stamping; `ChildContextSays` is the block letter by letter.
- `FileSystem` is an inode graph with the calls made on it and a host that may rewrite the graph before
  every call. `FilePaths` is which paths are read as which segments, `FileTree` about the paths in the graph and
  trees of directories. `FileKernel` walks it and proves containment, `FileKernelTree` that directories stay a
  tree, `FileKernelQuiet` exact effects when nobody interferes and `FileKernelErrors` what an error tells;
  `FileKernelRuntime` has the loops.
- `LineSplitter`, `EscapeScan`, `CappedSearch`, `TreeSearch`, `Decimals` and `WireFormat` are the search
  kernel, the row printer and the Python parser.
- `Texts` is text as Python trims it, and the check that stored texts go through.
- `ContextPlanner` stands alone; `TaskSchedule` rests on `Calendar`.

`dafny verify dfyconfig.toml` checks everything.

Findings, each stated by a lemma:

- The number of window-less conversations ahead of a waiting one need not fall when a window ends: a
  conversation that came back while its own window was sending may take the slot again.
  `ChildWakeupSlots.ComebackIsARun` is a run from the start that gets there, `AheadMayStay` its last state.
  `CompletionAdvances` gives the exact condition, and the measure that does fall by one each time.
- `query` cannot answer for a child that was cancelled without an answer of its kernel, whose kernel call
  crashed or gave an answer that was refused, or that a closed supervisor did not take: its row has no summary,
  and an outcome refuses an empty one. A child that its kernel reports as cancelled has one.
  `DelegationTheorems.QueryAnswersExactly` says exactly when a row can be answered for,
  `DelegationEndings.NoSummaryExactly` and `UnanswerableExactly` which endings leave one that cannot, and
  `DelegationUnanswered.UnanswerableIsReached` is a run that ends with such a child.
- `mkdir_beneath` can fail and leave directories behind, if a name that the system cannot hold comes after a
  missing one (`FileKernelQuiet.MkdirLeavesBehind`); `MkdirIsExact` says exactly when.
- The `truncated` flag, documented as telling that a cap dropped hits, may be up although nothing was dropped
  (`CappedSearch.FlagOverReports`, `TreeSearch.TreeFlagOverReports`). `NothingLostExactly` and
  `NoGroupLostExactly` say exactly when something is lost, `FlagExactly` and `TreeFlagExactly` exactly when the
  flag is up for nothing; a lost hit always raises it.
- A search result survives the wire if and only if no path holds U+001F (`WireFormat.RoundTripExactly`,
  `TreeRoundTripExactly`).
- `_TIME_PATTERN` lets one trailing line feed pass, because `$` matches in front of it, and digits of other
  scripts, because `\d` does (`TaskSchedule.OtherTimesAreRead`). `TimesExactly` says which texts are accepted
  and `ReadCanonicalExactly` which of them are no canonical HH:MM.

## Model

| member | source | states |
|---|---|---|
| Semaphores.SemaphoreKept | apps/api/src/endless_task/delegation/coordinator.py:622-641 | permits plus holders stay equal to the capacity, and nobody waits while a permit is free, through acquiring, releasing, withdrawing from the queue and giving back |
| Semaphores.WaitStep | apps/api/src/endless_task/delegation/coordinator.py:622-641 | an operation on the semaphore puts nobody in front of a waiter, gives a permit only to those in front, and each permit that changes hands brings the waiter forward |
| DelegationSteps.StepInv | apps/api/src/endless_task/delegation/coordinator.py:552-814 | every step of every kind - spawn, queueing, kernel answer, cancellation, cache lookup and eviction, shutdown - keeps the whole invariant of handler, coordinators, tasks and store |
| DelegationSteps.RunInv | apps/api/src/endless_task/delegation/coordinator.py:552-814 | the invariant holds in every state of every interleaving |
| DelegationRuns.RunKept | apps/api/src/endless_task/delegation/child_run_store.py:78-113 | between any two states of a run no row, task, owner, start mark, terminal state, log entry or finished cancel call is lost or changed |
| DelegationTheorems.OneOwner | apps/api/src/endless_task/delegation/runtime_handler.py:692-720 | two unsettled children of one parent run are owned by one coordinator, however often the coordinator of that run was evicted and rebuilt |
| DelegationTheorems.PermitsConserved | apps/api/src/endless_task/delegation/coordinator.py:622-657 | in every reachable state permits plus holders equal the capacity at both gates of every coordinator |
| DelegationTheorems.WithinLimits | apps/api/src/endless_task/delegation/scheduler.py:47-72 | in every reachable state each parent run has at most `concurrent` started and unsettled children, at most `admitted` admitted ones and at most `queued` unsettled rows |
| DelegationTheorems.ControlNeverLost | apps/api/src/endless_task/delegation/runtime_handler.py:639-663 | for every unsettled row reserved in this process the cache maps its parent run to the very coordinator that reserved it, which holds the task handle and passes the ownership check |
| DelegationTheorems.OwnerForEver | apps/api/src/endless_task/delegation/coordinator.py:528-550 | the coordinator that reserved a child stays its owner in every later state |
| DelegationTheorems.DropIdlePolicy | apps/api/src/endless_task/delegation/runtime_handler.py:722-745 | eviction drops idle entries only, the ones in front first, and stops when enough are gone or only busy ones are left |
| DelegationRecency.CacheInUseOrder | apps/api/src/endless_task/delegation/runtime_handler.py:639-663 | over every run of events the cache is ordered by when each parent run was last spawned for, called on or routed to |
| DelegationRecency.EvictsLeastRecentlyUsed | apps/api/src/endless_task/delegation/runtime_handler.py:722-745 | an entry that eviction drops is idle and was last used before every idle entry that it keeps |
| DelegationTheorems.CacheBounded | apps/api/src/endless_task/delegation/runtime_handler.py:692-745 | after a coordinator is inserted the cache holds at most 32 entries, or every other entry is busy; and nothing is evicted that leaves fewer than 32 |
| DelegationTheorems.SettledForEver | apps/api/src/endless_task/delegation/coordinator.py:683-708 | a terminal row never changes again, and a start mark is written once |
| DelegationTheorems.KernelAtMostOnce | apps/api/src/endless_task/delegation/coordinator.py:596-611 | over a whole run the kernel is called at most once for each (parent run, tool call) |
| DelegationTheorems.NeverStartedMeansCancelled | apps/api/src/endless_task/delegation/coordinator.py:643-657 | a child settled without having started was cancelled |
| DelegationTheorems.WriteNeverRefused | apps/api/src/endless_task/delegation/coordinator.py:816-831 | while a child's task is alive its row is still running, so the terminal write of a kernel answer is never refused |
| DelegationTheorems.NoDeadlock | apps/api/src/endless_task/delegation/coordinator.py:643-657 | while any child is unfinished some child of the same coordinator can be resumed or is in the kernel |
| DelegationWaiting.NobodyPasses | apps/api/src/endless_task/delegation/coordinator.py:622-657 | over any run, while a child waits at a gate nobody who queued later is ahead of it or let in, and permits change hands at most as often as children ahead leave |
| DelegationWaiting.WaitsExactly | apps/api/src/endless_task/delegation/coordinator.py:643-657 | a child that is not cancelled stands in the queue of a gate if and only if its task sleeps there without a permit |
| DelegationTheorems.OwnStepsBounded | apps/api/src/endless_task/delegation/coordinator.py:643-657 | a child takes at most four steps of its own in any run |
| DelegationTheorems.DoneMeansSettled | apps/api/src/endless_task/delegation/coordinator.py:643-708 | a child whose task is done has a terminal row, or the task was cancelled before its first step and the kernel never saw the child |
| DelegationTheorems.ShutdownSettles | apps/api/src/endless_task/delegation/coordinator.py:493-521 | once the supervisor is closed and drained and the coordinators were finalized every reserved row is terminal, also for tasks cancelled before their first step |
| DelegationTheorems.CancelTellsTruth | apps/api/src/endless_task/delegation/coordinator.py:959-1040 | in every race with completion: success after the kernel disowned the run means CANCELLED, not-active means terminal, and no success leaves a queued child unsettled, then and for ever |
| DelegationCancels.StoryOf | apps/api/src/endless_task/delegation/coordinator.py:959-1040 | over any run of events every cancel call has its story: no child of this conversation, or settled already, or the kernel was asked and replied, and after a disowning reply a task was cancelled and awaited or the row looked at |
| DelegationCancels.CancelOkExactly | apps/api/src/endless_task/delegation/coordinator.py:986-1032 | a call succeeds if and only if the kernel accepted, or disowned the run and the task cancelled instead has left the row cancelled |
| DelegationCancels.NotActiveExactly | apps/api/src/endless_task/delegation/coordinator.py:961-1040 | it finds the child not active if and only if it was settled at the call, or at a disowning reply without a task left, or was settled otherwise by the task that was cancelled |
| DelegationCancels.UnknownExactly | apps/api/src/endless_task/delegation/coordinator.py:972-991 | it knows no such child if and only if its conversation had none when it was made |
| DelegationCancels.KernelErrorExactly | apps/api/src/endless_task/delegation/coordinator.py:993-1040 | it reports the kernel error if and only if that was another error than disowning, or the disowned child was neither settled nor had a task left |
| DelegationTheorems.RetainsLastCompleted | apps/api/src/endless_task/delegation/coordinator.py:838-863 | memory retains exactly the last records completed, at most 32 |
| DelegationTheorems.RowReadsBack | apps/api/src/endless_task/delegation/coordinator.py:1271-1301 | a row written from an outcome is rebuilt with the same status, summary, usage and first diagnostic |
| DelegationTheorems.QueryShowsRecord | apps/api/src/endless_task/delegation/coordinator.py:915-957 | for every child that ever had a record, `query` shows its outcome, from memory or from the row, through every coordinator that passes the ownership check, such as one built for a later turn |
| DelegationTheorems.QueryStable | apps/api/src/endless_task/delegation/coordinator.py:936-957 | through all of them that answer is the same in every later state, before and after reclamation |
| DelegationTheorems.QueryAnswersExactly | apps/api/src/endless_task/delegation/coordinator.py:936-957 | through any coordinator that passes the ownership check `query` on a settled row fails to build an outcome if and only if its summary is missing, blank or too long, or its diagnostic has such a part; it answers otherwise |
| DelegationAnswers.QueryExactly | apps/api/src/endless_task/delegation/coordinator.py:915-957 | for every run, coordinator and id `query` knows no such child if and only if its conversation has none - conversations decide if both are known, and else the parent runs -, finds it running if and only if its row is, and else answers by the row, whether it is in memory or not |
| DelegationAnswers.OthersAreUnknown | apps/api/src/endless_task/delegation/coordinator.py:915-957 | a child of another conversation is unknown, whatever is in memory |
| DelegationAnswers.RowAnswers | apps/api/src/endless_task/delegation/coordinator.py:1271-1301 | a settled row can be answered for if and only if it has a summary of 1 to 20,000 characters without its outer white space and, if it has a code or a message, these have 1 to 256 and 1 to 2,048 |
| DelegationAnswers.RowSays | apps/api/src/endless_task/delegation/coordinator.py:1271-1301 | what an answer says: the state, an interrupted child counting as failed, the summary trimmed, the usage, and a diagnostic if there is a code or a message, with the other one filled in |
| DelegationTheorems.RepresentableIffRecorded | apps/api/src/endless_task/delegation/coordinator.py:816-836 | a settled child with a task can be answered for if and only if a record was stored for it; without one its row has no summary at all |
| DelegationEndings.EndsOnce | apps/api/src/endless_task/delegation/coordinator.py:643-814 | a settled child of this process settled at exactly one step, by one of these endings: refused by a closed supervisor, cancelled without reaching the kernel, or the kernel call ended; its row is what that ending left - state, summary, code, message and usage - and otherwise as it was, with its start time |
| DelegationEndings.NoSummaryExactly | apps/api/src/endless_task/delegation/coordinator.py:764-836 | its row has no summary if and only if it was refused by a closed supervisor, cancelled without reaching the kernel, or its kernel call crashed, was cancelled from outside or gave an answer that was refused |
| DelegationEndings.UnanswerableExactly | apps/api/src/endless_task/delegation/coordinator.py:1280-1301 | that is exactly when `query` cannot answer for it, through any coordinator that passes the ownership check |
| DelegationEndings.LeftRepresentable | apps/api/src/endless_task/delegation/result_projection.py:114-173 | what an ending leaves can be answered for exactly if it has a summary; an outcome that the kernel reports as cancelled has one, and its row is cancelled |
| Texts.StripChecks | apps/api/src/endless_task/agent_platform/protocol.py:58-67 | a text that passed the check is trimmed, not empty and within its limit, and only such a text comes out unchanged; nothing is left exactly of blank text |
| Texts.StripIsTrim | apps/api/src/endless_task/agent_platform/protocol.py:61 | what is stripped is white space before and after what is left |
| Texts.SpacesExactly | apps/api/src/endless_task/agent_platform/protocol.py:61 | the characters that Python takes for white space, by number |
| DelegationUnanswered.WorldsAreARun | apps/api/src/endless_task/delegation/coordinator.py:552-657 | a run in which a second child queues, is cancelled and leaves |
| DelegationUnanswered.UnanswerableIsReached | apps/api/src/endless_task/delegation/coordinator.py:1280-1301 | at its end the row is settled as cancelled, cancel has reported success, and a query cannot build an outcome |
| DelegationTheorems.WakeupOncePerRecord | apps/api/src/endless_task/delegation/coordinator.py:816-836 | a wakeup is scheduled once for each child with a stored record and for no other |
| DelegationTheorems.NoGrandchildren | apps/api/src/endless_task/delegation/runtime_handler.py:622-637 | every row reserved in this process has as its parent a run that is no child run itself; a second run in the conversation of a child is such a run |
| DelegationSpawns.KeyFreedExactly | apps/api/src/endless_task/delegation/coordinator.py:764-814 | a spawn key in memory is given up in one case only: the kernel has answered the child of that key, and the answer is refused |
| DelegationSpawns.SpawnExactly | apps/api/src/endless_task/delegation/coordinator.py:430-592 | for every spawn call in every run: the child is taken if and only if the parent is no child run, the key was never used and fewer than the cap are unsettled; then exactly its row is added, of the conversation of the coordinator, not started, with its task, or failed at once if the supervisor is closed |
| DelegationSpawns.Resolved | apps/api/src/endless_task/delegation/runtime_handler.py:692-720 | a spawn resolves to the coordinator in the cache, or else to a new one of the conversation of the caller |
| DelegationSpawns.StartedExactly | apps/api/src/endless_task/delegation/coordinator.py:710-771 | a row says that the child started at a time if and only if it was handed to the kernel in a step at that time |
| DelegationSpawns.NothingStartsAfterClose | apps/api/src/endless_task/runtime/background_tasks.py:73-79 | once the supervisor has closed every task that is not done stays cancelled and no child is handed to the kernel any more |
| DelegationRuntime.DelegationProcess.constructor | apps/api/src/endless_task/delegation/runtime_handler.py:104-150 | a new process has no coordinator, task or cache entry, over the rows it finds |
| DelegationRuntime.DelegationProcess.TouchEntry | apps/api/src/endless_task/delegation/runtime_handler.py:653-663 | moves the entry of a parent run to the end of the ordered cache and nothing else |
| DelegationRuntime.DelegationProcess.EvictIdleCoordinators | apps/api/src/endless_task/delegation/runtime_handler.py:722-745 | the loop over a snapshot of the cache computes the eviction that `DropIdlePolicy` is about |
| DelegationRuntime.DelegationProcess.CoordinatorFor | apps/api/src/endless_task/delegation/runtime_handler.py:692-720 | looks up, touches, evicts and builds; the returned coordinator is in the cache under that parent run |
| DelegationRuntime.DelegationProcess.ReserveChildRun | apps/api/src/endless_task/delegation/child_run_store.py:78-93 | inserts the row, or refuses a used spawn key and changes nothing |
| DelegationRuntime.DelegationProcess.StartChild | apps/api/src/endless_task/delegation/coordinator.py:430-476 | the four refusals leave the state alone; a closed supervisor leaves a failed row and no task; otherwise exactly one running, unstarted row and its task are added |
| DelegationRuntime.DelegationProcess.SpawnChild | apps/api/src/endless_task/delegation/runtime_handler.py:212-296 | coordinator lookup and reservation in one step keep the invariant |
| DelegationRuntime.DelegationProcess.ReclaimTerminalRecords | apps/api/src/endless_task/delegation/coordinator.py:838-863 | the loop keeps exactly the last 32 records, in order |
| DelegationRuntime.DelegationProcess.KernelReturned | apps/api/src/endless_task/delegation/coordinator.py:764-814 | whatever the kernel did - answered, raised, answered for another run, crashed, was cancelled - the row is settled, both permits go back and the invariant holds |
| DelegationRuntime.DelegationProcess.RecordAnswer | apps/api/src/endless_task/delegation/coordinator.py:764-836 | which of the five endings remembers a record, schedules a wakeup, and which state, code and message the row gets |
| DelegationRuntime.DelegationProcess.RememberAndStore | apps/api/src/endless_task/delegation/coordinator.py:816-836 | record, row, wakeup and reclamation after an accepted answer |
| DelegationRuntime.DelegationProcess.FinalizeCancelledChildren | apps/api/src/endless_task/delegation/coordinator.py:493-521 | marks the tracked rows of this parent run that never settled and forgets the handles |
| DelegationRuntime.DelegationProcess.CloseSupervisorTasks | apps/api/src/endless_task/runtime/background_tasks.py:73-79 | the loop cancels every task that is not done, and takes no more |
| DelegationRuntime.DelegationProcess.MarkTracked | apps/api/src/endless_task/delegation/coordinator.py:510-521 | the loop over tracked handles marks exactly those rows and no other |
| DelegationRuntime.DelegationProcess.RunReserved | apps/api/src/endless_task/delegation/coordinator.py:643-657 | one stretch of a task: cancelled exit with permits given back, or past the gates as far as permits allow; keeps the invariant |
| DelegationRuntime.DelegationProcess.CallKernel | apps/api/src/endless_task/delegation/coordinator.py:710-771 | the start mark, then the kernel call |
| DelegationRuntime.DelegationProcess.Cancel | apps/api/src/endless_task/delegation/coordinator.py:959-985 | decides between an immediate refusal and asking the kernel; it asks only for a known unsettled row |
| DelegationRuntime.DelegationProcess.CancelAnsweredByKernel | apps/api/src/endless_task/delegation/coordinator.py:986-1040 | accepted, disowned or failed: only a disowned run whose task still waits is cancelled and waited for; else the row decides |
| DelegationRuntime.DelegationProcess.CancelledTaskEnded | apps/api/src/endless_task/delegation/coordinator.py:1000-1040 | after the task is done the row decides: success only with a CANCELLED row |
| ChildWakeupSlots.StepSlots | apps/api/src/endless_task/delegation/wakeup.py:280-323 | every step keeps: pending conversations distinct, one registered window per conversation, no more windows than slots, and a pending conversation has a window or all slots are taken |
| ChildWakeupSlots.OneWindowPerConversation | apps/api/src/endless_task/delegation/wakeup.py:280-310 | in every reachable state no conversation has two live windows |
| ChildWakeupSlots.SlotsNeverExceeded | apps/api/src/endless_task/delegation/wakeup.py:280-323 | live windows never exceed the cap; while the service is open nobody pending is left without a window unless every slot is taken |
| ChildWakeupSlots.CompletionAdvances | apps/api/src/endless_task/delegation/wakeup.py:312-323 | when a window ends, the distance of a waiting conversation falls by exactly one; the count of window-less conversations ahead falls if and only if the conversation whose window ended is not itself pending ahead |
| ChildWakeupSlots.WaitingNeverSlips | apps/api/src/endless_task/delegation/wakeup.py:228-323 | no step moves a waiting conversation back; only window completions move it, by one each |
| ChildWakeupSlots.WaitIsBounded | apps/api/src/endless_task/delegation/wakeup.py:280-323 | while a conversation waits, no more windows end than conversations were pending ahead of it |
| ChildWakeupSlots.ComebackIsARun | apps/api/src/endless_task/delegation/wakeup.py:228-323 | a run from the initial state: a conversation is scheduled again while its own window is sending, another one after it, and the send fails |
| ChildWakeupSlots.AheadMayStay | apps/api/src/endless_task/delegation/wakeup.py:312-323 | at the end of that run a completion leaves the plain count of window-less conversations ahead unchanged |
| ChildWakeupLedger.UnreportedExact | apps/api/src/endless_task/delegation/child_run_store.py:140-144 | the queue of a conversation is exactly its unreported rows, each once |
| ChildWakeupDelivery.HandedBackAtMostOnce | apps/api/src/endless_task/delegation/wakeup.py:363-423 | over any run a child in the batches of two successful sends was not stamped after the first |
| ChildWakeupDelivery.ReportedExactlyByDelivery | apps/api/src/endless_task/delegation/wakeup.py:456-483 | a row that was not reported from the start is reported if and only if a successful send of its conversation held it and its stamp was written |
| ChildWakeupDelivery.LeavesQueueOnlyByDelivery | apps/api/src/endless_task/delegation/wakeup.py:363-423 | one step takes a child out of its queue only by such a send; a failed read, a missing or archived conversation and a failed send leave it there |
| ChildWakeupDelivery.StaysInQueue | apps/api/src/endless_task/delegation/wakeup.py:363-423 | over any run, shutdown included, a queued child is in every later query until a send hands it back |
| ChildWakeupPromises.NoWakeupLost | apps/api/src/endless_task/delegation/wakeup.py:228-246 | while not shut down, every scheduled child is still pending - with a window or all slots taken - or its conversation was queried after it was scheduled |
| ChildWakeupPromises.RearmCovers | apps/api/src/endless_task/delegation/wakeup.py:248-278 | after the start-up pass every conversation with an unreported row is pending and has a window, or all slots are taken |
| ChildWakeupCalls.ScheduleExactly | apps/api/src/endless_task/delegation/wakeup.py:228-246 | a call is ignored exactly if the service is disabled or shut down or an id is empty; else this child becomes pending and nothing else, and a window that merges from now on is started exactly if the conversation has none, a slot is free and tasks are accepted |
| ChildWakeupCalls.RearmExactly | apps/api/src/endless_task/delegation/wakeup.py:248-278 | the start-up pass makes pending exactly what was so before and every child the store has not handed back |
| ChildWakeupCalls.ConversationsExactly | apps/api/src/endless_task/delegation/wakeup.py:248-278 | the conversations it counts are those of such children |
| ChildWakeupCalls.QueueInOrder | apps/api/src/endless_task/delegation/child_run_store.py:140-144 | the queue keeps the order in which the children settled |
| ChildWakeupPromises.DeliveriesSpaced | apps/api/src/endless_task/delegation/wakeup.py:425-444 | two deliveries of one conversation are at least the throttle apart, in every interleaving |
| ChildWakeupPromises.DeliveryRate | apps/api/src/endless_task/delegation/wakeup.py:425-444 | an interval of length L holds at most floor(L / throttle) + 1 deliveries of one conversation |
| ChildWakeupThrottle.PostponedExactly | apps/api/src/endless_task/delegation/wakeup.py:425-444 | a window has to wait if and only if some delivery of its conversation lies less than one throttle back |
| ChildWakeupThrottle.ThrottleOnlyPostpones | apps/api/src/endless_task/delegation/wakeup.py:363-444 | over any run a waiting window keeps its wake time, and what is queued or pending for its conversation stays and is only added to, until the batch is taken at the wake time or a shutdown cancels the window; it never waits again |
| ChildWakeupThrottle.PostponedIsQueried | apps/api/src/endless_task/delegation/wakeup.py:363-410 | from the wake time on, exactly one throttle after the last delivery, the window can go on and queries its conversation; if it is deliverable the one batch is all that is owed then, with all that was queued when the wait began |
| DeliveryKey.SameKeyExactly | apps/api/src/endless_task/delegation/wakeup.py:107-127 | two batches have the same key text if and only if they hold the same children, in whatever order |
| DeliveryKey.CommaSpoilsKey | apps/api/src/endless_task/delegation/wakeup.py:107-127 | ids with a comma in them would break that |
| ChildWakeupRuntime.ChildWakeupService.constructor | apps/api/src/endless_task/delegation/wakeup.py:154-226 | a new service satisfies the initial state of the transition system |
| ChildWakeupRuntime.ChildWakeupService.Schedule | apps/api/src/endless_task/delegation/wakeup.py:228-246 | records the child and ensures a window, or ignores the call |
| ChildWakeupRuntime.ChildWakeupService.EnsureWindow | apps/api/src/endless_task/delegation/wakeup.py:280-289 | starts a window only if open, not in flight and below the cap |
| ChildWakeupRuntime.ChildWakeupService.StartWindow | apps/api/src/endless_task/delegation/wakeup.py:291-310 | registers the new task, or changes nothing when the supervisor refuses it |
| ChildWakeupRuntime.ChildWakeupService.RearmUnreported | apps/api/src/endless_task/delegation/wakeup.py:248-278 | the loop schedules every unreported row in store order and counts the conversations |
| ChildWakeupRuntime.ChildWakeupService.OnWindowDone | apps/api/src/endless_task/delegation/wakeup.py:312-323 | frees the slot, then ensures a window for each conversation of a snapshot of the pending dictionary |
| ChildWakeupRuntime.ChildWakeupService.AwaitThrottleBoundary | apps/api/src/endless_task/delegation/wakeup.py:425-444 | sleeps exactly when the last delivery is nearer than the throttle, until the boundary |
| ChildWakeupRuntime.ChildWakeupService.TakeWindowBatch | apps/api/src/endless_task/delegation/wakeup.py:363-410 | pops the pending entry before the query; the batch is the queue at that moment, and is sent only if deliverable |
| ChildWakeupRuntime.ChildWakeupService.SendCameBack | apps/api/src/endless_task/delegation/wakeup.py:398-423 | only a success sets the throttle mark and stamps |
| ChildWakeupRuntime.ChildWakeupService.MarkReported | apps/api/src/endless_task/delegation/wakeup.py:456-469 | stamps exactly the rows of the batch whose stamp is accepted and returns the others |
| ChildWakeupRuntime.ChildWakeupService.MarkWithRetry | apps/api/src/endless_task/delegation/wakeup.py:471-483 | gives up only after two refused attempts |
| ChildWakeupRuntime.ChildWakeupService.BeginShutdown | apps/api/src/endless_task/delegation/wakeup.py:345-355 | in a reachable state marks the service as shut down, and the loop over the registered tasks cancels every live window and no other |
| ChildWakeupRuntime.ShutdownIsSteps | apps/api/src/endless_task/delegation/wakeup.py:345-355 | that stretch is the beginning of the shutdown and one cancellation for each live window, as steps |
| ChildWakeupRuntime.ChildWakeupService.EndShutdown | apps/api/src/endless_task/delegation/wakeup.py:356-359 | forgets windows and pending entries and changes nothing else |
| ChildContext.TruncatedText | apps/api/src/endless_task/delegation/child_context.py:150-163 | a shown text holds no line boundary and at most one character more than its limit |
| ChildContextSays.WordsAreAll | apps/api/src/endless_task/delegation/child_context.py:150-163 | every text is its words with gaps of white space, so no word is lost |
| ChildContextSays.TextSays | apps/api/src/endless_task/delegation/child_context.py:150-163 | within the limit a text keeps all its words with one blank between them; a longer one is cut at the limit and ends in an ellipsis |
| ChildContextSays.LabelSays | apps/api/src/endless_task/delegation/child_context.py:41-46 | each state has its label, and no other state has it |
| ChildContextSays.ElapsedSays | apps/api/src/endless_task/delegation/child_context.py:166-180 | the time since the start in whole hours and minutes, or minutes and seconds below an hour, never negative, unknown if either time is |
| ChildContextSays.DetailSays | apps/api/src/endless_task/delegation/child_context.py:137-147 | a running child is described by its task, a settled one by its summary or else its message, or not at all if nothing is left of it |
| ChildContextSays.EntrySays | apps/api/src/endless_task/delegation/child_context.py:120-125 | the line of a child: id, label and description, divided by bars |
| ChildContextSays.BlockSays | apps/api/src/endless_task/delegation/child_context.py:102-116 | the lines of the block, letter by letter |
| ChildContext.BlockReadsBack | apps/api/src/endless_task/delegation/child_context.py:102-125 | split into lines as Python does, the block is its opening, the count of all eligible rows, one line per row shown, the exact number hidden if any, and its closing |
| ChildInjection.RenderDelegatedChildrenBlock | apps/api/src/endless_task/delegation/child_context.py:49-85 | the block is that of the longest prefix of eligible rows within both caps, none if not even one row fits, and the ids to stamp are those of its terminal rows |
| ChildInjection.ShownIsLongest | apps/api/src/endless_task/delegation/child_context.py:64-84 | shrinking from the row cap finds a longest prefix within both caps |
| ChildInjection.LongestIsUnique | apps/api/src/endless_task/delegation/child_context.py:64-84 | there is only one such prefix |
| ChildInjection.DefaultBlock | apps/api/src/endless_task/delegation/child_context.py:31-59 | with the default caps a block names at most 20 children in at most 4000 characters and 24 lines |
| ChildInjection.EligibleExact | apps/api/src/endless_task/delegation/child_context.py:88-99 | eligible are exactly the non-terminal rows and the terminal rows not injected yet |
| ChildInjection.TerminalIdsExact | apps/api/src/endless_task/delegation/child_context.py:78-82 | the ids to stamp are exactly those of terminal rows among the rows shown |
| ChildInjection.EligibleInOrder | apps/api/src/endless_task/delegation/child_context.py:88-99 | the eligible rows come in the order of the rows |
| ChildInjection.ShownAtMostOnce | apps/api/src/endless_task/api/wiring.py:1445-1458 | over any run of spawns, endings, reports and parent runs a terminal child that was shown and stamped is never shown again |
| ChildInjection.RunningNeverStamped | apps/api/src/endless_task/delegation/child_context.py:88-99 | in every reachable state a running child is unstamped, so it stays eligible and its end will be |
| ChildInjection.StampsExactly | apps/api/src/endless_task/api/wiring.py:1453-1457 | a parent run stamps a row exactly if it shows it, terminal, and the stamp is written; rows pushed out by the caps keep their chance |
| FileSystem.OpenatSafe | apps/api/crates/endless-kernel-fs/src/lib.rs:124-145 | opening one plain segment from an inside directory gives an inside handle and changes nothing outside, whatever others did just before |
| FileSystem.MkdiratSafe | apps/api/crates/endless-kernel-fs/src/lib.rs:250-257 | making a directory changes nothing outside |
| FileSystem.UnlinkatSafe | apps/api/crates/endless-kernel-fs/src/lib.rs:226-227 | unlinking an entry changes nothing outside |
| FileSystem.RenameatSafe | apps/api/crates/endless-kernel-fs/src/lib.rs:327-330 | renaming between inside directories changes nothing outside, also when it moves a symbolic link or a directory |
| FileSystem.WriteHandleSafe | apps/api/crates/endless-kernel-fs/src/lib.rs:213-218 | writing through an inside handle changes nothing outside |
| FileKernel.SegmentsAreComponents | apps/api/crates/endless-kernel-fs/src/lib.rs:83-108 | accepted segments are never empty, ".", ".." or hold a separator of either kind |
| FileKernel.SplitSegments | apps/api/crates/endless-kernel-fs/src/lib.rs:83-108 | the loop accepts exactly the relative paths without ".." that have a segment, and returns their segments |
| FilePaths.PathIsRead | apps/api/crates/endless-kernel-fs/src/lib.rs:83-108 | for every path, written as pieces with separators between them: it is refused if and only if it is empty or starts with a separator, has a piece "..", or has only empty and "." pieces; and else its segments are its other pieces, in their order |
| FilePaths.EveryPath | apps/api/crates/endless-kernel-fs/src/lib.rs:93 | every string is such a path |
| FilePaths.NamesReadBack | apps/api/crates/endless-kernel-fs/src/lib.rs:83-108 | joining names with separators of either kind and splitting gives them back, whatever they start with |
| FilePaths.FillersVanish | apps/api/crates/endless-kernel-fs/src/lib.rs:93-96 | empty and "." pieces behind another piece change nothing |
| FileKernel.WalkStaysInside | apps/api/crates/endless-kernel-fs/src/lib.rs:124-146 | a walk from an inside handle stays inside, whatever is rewritten between any two calls |
| FileKernel.OpenStaysInside | apps/api/crates/endless-kernel-fs/src/lib.rs:116-147 | every handle `open_beneath` gives is inside, for every path, mode and interference |
| FileKernel.ParentStaysInside | apps/api/crates/endless-kernel-fs/src/lib.rs:195-206 | every handle `open_parent` gives is inside |
| FileKernel.ReadStaysInside | apps/api/crates/endless-kernel-fs/src/lib.rs:150-169 | reading changes nothing outside and reads through an inside handle |
| FileKernel.WriteStaysInside | apps/api/crates/endless-kernel-fs/src/lib.rs:211-220 | writing leaves everything outside unchanged |
| FileKernel.RemoveStaysInside | apps/api/crates/endless-kernel-fs/src/lib.rs:223-229 | removing leaves everything outside unchanged |
| FileKernel.MkdirStaysInside | apps/api/crates/endless-kernel-fs/src/lib.rs:236-265 | making a directory chain leaves everything outside unchanged |
| FileKernel.RenameStaysInside | apps/api/crates/endless-kernel-fs/src/lib.rs:324-332 | renaming leaves everything outside unchanged |
| FileKernel.KernelStaysInside | apps/api/crates/endless-kernel-fs/src/lib.rs:116-332 | so does any sequence of requests under any interference that links no outside inode but symbolic links into an inside directory |
| FileKernel.OutsideSurvives | apps/api/crates/endless-kernel-fs/src/lib.rs:116-332 | an outside inode that nobody else touches is after all requests as it was in the initial file system |
| FileKernelQuiet.OpenIsNamed | apps/api/crates/endless-kernel-fs/src/lib.rs:116-147 | with no interference the handle is exactly the inode the segments name; a name the system cannot hold, a symbolic link in any place, a wrong kind at the end or a special file that does not agree gives none |
| FileKernelQuiet.ReadIsNamed | apps/api/crates/endless-kernel-fs/src/lib.rs:150-169 | with no interference reading succeeds exactly on a regular file within the limit, and gives its bytes |
| FileKernelErrors.ErrorKinds | apps/api/crates/endless-kernel-fs/src/lib.rs:68-78 | each kind of error stands for one cause, and the rest are all `Io` |
| FileKernelErrors.OpenErrorTells | apps/api/crates/endless-kernel-fs/src/lib.rs:116-147 | with no interference an error names the first segment that could not be opened and is the one for what stands there: nothing, a symbolic link, no directory, a directory |
| FileKernelErrors.ReadErrorTells | apps/api/crates/endless-kernel-fs/src/lib.rs:150-169 | what is opened but is no regular file is refused as a path, and a file over the limit with its size |
| FileKernelQuiet.WriteIsExact | apps/api/crates/endless-kernel-fs/src/lib.rs:211-220 | after a successful write the path names one file that holds the data, and nothing else has changed but the entry of a new file |
| FileKernelQuiet.WriteSucceedsExactly | apps/api/crates/endless-kernel-fs/src/lib.rs:211-220 | writing succeeds if and only if the system can hold the names, the path leads to a directory and names nothing there, a regular file, or a special file that agrees; a refusal changes nothing |
| FileKernelQuiet.WriteThenRead | apps/api/crates/endless-kernel-fs/src/lib.rs:150-220 | what is written is what is read back |
| FileKernelQuiet.RemoveIsExact | apps/api/crates/endless-kernel-fs/src/lib.rs:223-229 | removing succeeds exactly when the path names something that is no directory, and takes away that entry only |
| FileKernelQuiet.RenameIsExact | apps/api/crates/endless-kernel-fs/src/lib.rs:324-332 | a successful rename moves that one entry; onto itself it changes nothing |
| FileKernelQuiet.RenameSucceedsExactly | apps/api/crates/endless-kernel-fs/src/lib.rs:324-332 | renaming succeeds if and only if the system can hold the names, both paths lead to directories, the first names something, that may replace what the second names - nothing, itself, an empty directory by a directory, or no directory by none - and no directory moves to where it lies below itself; a refusal changes nothing |
| FileKernelQuiet.RenameInTreeExactly | apps/api/crates/endless-kernel-fs/src/lib.rs:324-332 | in a tree the last condition is that the second path does not go through the directory that is moved |
| FileKernelQuiet.IntoItselfIsRefused | apps/api/crates/endless-kernel-fs/src/lib.rs:324-332 | moving the directory "a" to "a/b" is refused and nothing moves |
| FileKernelQuiet.MkdirIsExact | apps/api/crates/endless-kernel-fs/src/lib.rs:236-265 | it succeeds if and only if the system can hold the names and every part of the path that names something names a directory; then a directory is at the path; either way only new entries were added, and a failure leaves some behind if and only if a name that cannot be held comes after one that was missing |
| FileKernelQuiet.MkdirLeavesBehind | apps/api/crates/endless-kernel-fs/src/lib.rs:236-265 | that happens: of two missing names, the second one such as the system cannot hold, the first is made and the call fails |
| FileTree.BelowExactly | apps/api/crates/endless-kernel-fs/src/lib.rs:324-332 | what lies below a directory is exactly what paths from it name |
| FileTree.MovedTree | apps/api/crates/endless-kernel-fs/src/lib.rs:324-332 | a move that is not into itself keeps directories a tree |
| FileTree.ThroughExactly | apps/api/crates/endless-kernel-fs/src/lib.rs:324-332 | in a tree the target directory lies below the moved one if and only if the path to it goes through that one |
| FileKernelTree.KernelKeepsTree | apps/api/crates/endless-kernel-fs/src/lib.rs:116-332 | over any sequence of requests, under any interference that keeps directories a tree, they stay one: no cycle, no directory in two places, no entry that leads nowhere |
| FileKernelRuntime.Kernel.OpenBeneath | apps/api/crates/endless-kernel-fs/src/lib.rs:116-147 | the loop over segments with one current handle is the walk |
| FileKernelRuntime.Kernel.OpenParent | apps/api/crates/endless-kernel-fs/src/lib.rs:195-206 | the same walk without the last segment |
| FileKernelRuntime.Kernel.ReadBeneath | apps/api/crates/endless-kernel-fs/src/lib.rs:150-169 | open, ask for kind and size, read: three calls others can come between |
| FileKernelRuntime.Kernel.WriteBeneath | apps/api/crates/endless-kernel-fs/src/lib.rs:211-220 | open with create and truncate, then write through the handle |
| FileKernelRuntime.Kernel.RemoveBeneath | apps/api/crates/endless-kernel-fs/src/lib.rs:223-229 | parent handle, then unlink |
| FileKernelRuntime.Kernel.MkdirBeneath | apps/api/crates/endless-kernel-fs/src/lib.rs:236-265 | the loop enters, or makes and enters, each segment |
| FileKernelRuntime.Kernel.RenameBeneath | apps/api/crates/endless-kernel-fs/src/lib.rs:324-332 | both parents are opened, then the entry is moved |
| LineSplitter.LinesAreSplit | apps/api/crates/endless-kernel-search/src/lib.rs:129-179 | for every text the lines with their terminators rebuild it, no line holds a boundary, CR LF is one terminator and there is no empty last line |
| LineSplitter.SplitIsUnique | apps/api/crates/endless-kernel-search/src/lib.rs:145-179 | a text has no other such split |
| LineSplitter.TerminatorsExactly | apps/api/crates/endless-kernel-search/src/lib.rs:129-144 | the eleven texts that end a line |
| LineSplitter.SplitLines | apps/api/crates/endless-kernel-search/src/lib.rs:146-179 | the one-pass loop computes these lines |
| EscapeScan.TokensSpellPattern | apps/api/crates/endless-kernel-search/src/lib.rs:90-113 | the reference tokenizer reads every character of a pattern exactly once |
| EscapeScan.FirstFromMeaning | apps/api/crates/endless-kernel-search/src/lib.rs:90-113 | the position found is the offset of the first token that is a backslash with a digit 1 to 9, and none is found exactly when there is no such token |
| EscapeScan.OneRun | apps/api/crates/endless-kernel-search/src/lib.rs:94-109 | counting a run of backslashes agrees with the tokenizer: it fires exactly when the run is odd and a digit follows |
| EscapeScan.AcceptedExactly | apps/api/crates/endless-kernel-search/src/lib.rs:70-114 | a pattern passes if and only if it holds no literal of the table and no back-reference token |
| EscapeScan.NamedExactly | apps/api/crates/endless-kernel-search/src/lib.rs:70-114 | which construct is named: the first of six literals that stands in the pattern, or else a backslash that is not itself escaped with a digit from one to nine behind it |
| EscapeScan.ScanBackReferences | apps/api/crates/endless-kernel-search/src/lib.rs:90-113 | the scanner reports the first back-reference token; its needle is an odd run of backslashes and the digit |
| EscapeScan.ClassifyUnsupported | apps/api/crates/endless-kernel-search/src/lib.rs:80-114 | the table comes first, in its order, then the scan |
| CappedSearch.LineHitsExact | apps/api/crates/endless-kernel-search/src/lib.rs:341-361 | the hits of a file are exactly its matching lines with their numbers, in order, none twice |
| CappedSearch.SkippedExactly | apps/api/crates/endless-kernel-search/src/lib.rs:303-327 | a file is skipped if and only if its size or bytes cannot be had, it is larger than the limit, one of its first 8192 bytes is zero, or it is not UTF-8 |
| CappedSearch.AnswerExactly | apps/api/crates/endless-kernel-search/src/lib.rs:299-361 | the answer is that of the files one after the other, and a file answers with each line that matches, its number and its path |
| CappedSearch.NothingDropped | apps/api/crates/endless-kernel-search/src/lib.rs:341-361 | if no file reaches its cap before its last line the per-file cap drops nothing |
| CappedSearch.SearchLines | apps/api/crates/endless-kernel-search/src/lib.rs:341-361 | the inner loop: the hits kept, when the search stops and when the per-file cap is reported |
| CappedSearch.SearchDir | apps/api/crates/endless-kernel-search/src/lib.rs:289-370 | the hits are the first max(1, cap) of the per-file-capped answer; the flag is up exactly if that many were found or a file reaches its cap before its last line; the counts are those of the files visited, just as many as fill the cap; with the flag down the result is the uncapped one and all files are counted |
| CappedSearch.NothingLostExactly | apps/api/crates/endless-kernel-search/src/lib.rs:341-361 | the caps lose nothing if and only if no file has more hits than the per-file cap and all hits together are no more than max(1, `max_results`) |
| CappedSearch.FlagExactly | apps/api/crates/endless-kernel-search/src/lib.rs:341-368 | a lost hit always raises the flag; the flag is up for nothing exactly if nothing is lost and the hits are exactly as many as that cap, or some file has exactly as many as the per-file cap and none of them in its last line |
| CappedSearch.FlagOverReports | apps/api/crates/endless-kernel-search/src/lib.rs:343-346 | the search of a file with one hit in the first of two lines and a per-file cap of one returns the whole answer with the flag up |
| TreeSearch.NoGroupCut | apps/api/crates/endless-kernel-search/src/lib.rs:523-532 | without an overfull file the groups are those of the uncapped search |
| TreeSearch.GroupsExactly | apps/api/crates/endless-kernel-search/src/lib.rs:492-542 | the full answer has one group for each file with hits, in the order of the files, with all of them |
| TreeSearch.NoGroupLostExactly | apps/api/crates/endless-kernel-search/src/lib.rs:492-532 | the grouped search loses nothing if and only if no file has more matches than the per-file cap and no more than `max_files_with_hits` files have one |
| TreeSearch.TreeFlagExactly | apps/api/crates/endless-kernel-search/src/lib.rs:492-541 | anything lost raises the flag; the flag is up for nothing exactly if nothing is lost and some file reaches its cap before its last line, or the last candidate has no match and those before it already fill the file cap |
| TreeSearch.TreeFlagOverReports | apps/api/crates/endless-kernel-search/src/lib.rs:523-526 | the same one file gives the whole grouped answer with the flag up |
| TreeSearch.MatchLines | apps/api/crates/endless-kernel-search/src/lib.rs:523-532 | the inner loop of the grouped search |
| TreeSearch.SearchTree | apps/api/crates/endless-kernel-search/src/lib.rs:492-542 | the groups are the first `max_files_with_hits` of all groups; the flag is up exactly if a file is overfull or candidates are left when enough files were found; with the flag down the result is the uncapped one |
| TreeSearch.SameAnswer | apps/api/crates/endless-kernel-search/src/lib.rs:289-542 | both searches find the same hits in the same order |
| WireFormat.PrintSearch | apps/api/crates/endless-native/src/lib.rs:77-92 | the printer loop emits the meta row, then one row per hit |
| WireFormat.RowsSpelled | apps/api/crates/endless-native/src/lib.rs:77-92 | the rows spelled out |
| WireFormat.HitReadsExactly | apps/api/src/endless_task/_native/search.py:62-66 | a hit row is read if and only if it has three parts, the second one a number, and then it says these |
| Decimals.NumeralExactly | apps/api/crates/endless-native/src/lib.rs:79-90 | numbers are printed without leading zeros, digit by digit |
| WireFormat.ParseSearch | apps/api/src/endless_task/_native/search.py:62-72 | the parser loop, with every place where Python raises |
| WireFormat.RoundTripExactly | apps/api/crates/endless-native/src/lib.rs:77-92 | parsing the printed rows gives back hits, line numbers, counts and flag if and only if no path holds U+001F; line texts are free |
| WireFormat.PrintTree | apps/api/crates/endless-native/src/lib.rs:124-137 | the nested printer loops emit each file row followed by its match rows |
| WireFormat.TreeRowsSpelled | apps/api/crates/endless-native/src/lib.rs:124-137 | the rows of a grouped result spelled out |
| WireFormat.ParseTree | apps/api/src/endless_task/_native/search.py:116-124 | the grouping parser loop |
| WireFormat.TreeRoundTripExactly | apps/api/src/endless_task/_native/search.py:116-124 | grouped files come back with their order, matches, count and flag if and only if no path holds U+001F |
| ContextPlanner.RankedIsStable | apps/api/src/endless_task/context_engine/planner.py:168-171 | ranking permutes the optional segments into rank order and keeps the order within each rank |
| ContextPlanner.StableSortIsUnique | apps/api/src/endless_task/context_engine/planner.py:171 | there is only one such order |
| ContextPlanner.GreedyIsGreatest | apps/api/src/endless_task/context_engine/planner.py:191-203 | the greedy choice fits and comes before every feasible choice in the order that prefers picking |
| ContextPlanner.GreatestExactly | apps/api/src/endless_task/context_engine/planner.py:191-203 | a choice is the lexicographically greatest feasible one if and only if the loop makes it |
| ContextPlanner.NothingElseFits | apps/api/src/endless_task/context_engine/planner.py:191-203 | adding any omitted segment would exceed the budget |
| ContextPlanner.LosesOnlyIfLarger | apps/api/src/endless_task/context_engine/planner.py:191-203 | a segment loses to one ranked after it only if it is strictly larger |
| ContextPlanner.NoRoomNoChoice | apps/api/src/endless_task/context_engine/planner.py:176-203 | with mandatory tokens over budget no optional segment is chosen, not even an empty one |
| ContextPlanner.PlanAccounts | apps/api/src/endless_task/context_engine/planner.py:154-213 | every mandatory segment is included; included and omitted together are the raw candidates; the total stays within the budget unless the mandatory segments alone exceed it, and then nothing else is included |
| ContextPlanner.PlanByKinds | apps/api/src/endless_task/context_engine/planner.py:133-213 | a plan by kinds, priorities and numbers: every raw system segment and message of the current user is included, in front; behind them optional ones only, by falling priority and within it in the order of kinds; unless the first alone are too many, tokens, reserved output and safety margin stay within the window; and the totals, flag and diagnostic |
| ContextPlanner.PeersByKind | apps/api/src/endless_task/context_engine/planner.py:168-171 | the segments that keep their order are those of one priority and kind |
| ContextPlanner.SumsAndOmissions | apps/api/src/endless_task/context_engine/planner.py:191-203 | tokens are summed one by one, and what is left out is marked with its reason and otherwise as it was |
| ContextPlanner.FillBudget | apps/api/src/endless_task/context_engine/planner.py:191-203 | the loop with a shrinking remainder makes the greedy choice and marks what it leaves |
| ContextPlanner.PlanContextSegments | apps/api/src/endless_task/context_engine/planner.py:133-213 | the plan, its total, its flag and its diagnostic |
| Calendar.OrdinalKeepsOrder | apps/api/src/endless_task/domain/task_schedule.py:147-183 | counting days keeps the order of dates, both ways |
| Calendar.NextDayIsOneLater | apps/api/src/endless_task/domain/task_schedule.py:163-171 | the next day is one day later over month ends, December and leap days |
| Calendar.YearsInClosedForm | apps/api/src/endless_task/domain/task_schedule.py:163-171 | the recursive day count is the usual closed form of the Gregorian calendar |
| Calendar.OrdinalInClosedForm | apps/api/src/endless_task/domain/task_schedule.py:163-171 | the day number of every date in closed form |
| Calendar.Thursday | apps/api/src/endless_task/domain/task_schedule.py:169 | the first of January 1970 was a Thursday |
| Calendar.WeekdaysMoveOn | apps/api/src/endless_task/domain/task_schedule.py:169 | between two dates the weekday moves on by the days between them, so the next day has the next weekday |
| TaskSchedule.ParseTaskSchedule | apps/api/src/endless_task/domain/task_schedule.py:68-124 | what is read is a valid schedule: weekday 1 to 7 or day 1 to 28, and only the field of its own kind |
| TaskSchedule.TimesExactly | apps/api/src/endless_task/domain/task_schedule.py:33 | a text is read as a time if and only if it is HH:MM in decimal digits with hour below 24 and minute below 60 - of any script in the last place and after a leading 0 or 1, else ASCII - with or without one line feed after it |
| TaskSchedule.CanonicalExactly | apps/api/src/endless_task/domain/task_schedule.py:33 | an accepted time is in its canonical form if and only if no line feed follows it and its digits are ASCII |
| TaskSchedule.CanonicalIsRead | apps/api/src/endless_task/domain/task_schedule.py:33 | the canonical form of every minute of the day is accepted and names that minute |
| TaskSchedule.ReadCanonicalExactly | apps/api/src/endless_task/domain/task_schedule.py:101-103 | a payload read with a time that is no canonical HH:MM is exactly one with a line feed after it or with a digit of another script |
| TaskSchedule.OtherTimesAreRead | apps/api/src/endless_task/domain/task_schedule.py:101-103 | both kinds do get through: "08:00" with a line feed, and "08:0" with a digit five of another script |
| TaskSchedule.ScheduleRoundTrip | apps/api/src/endless_task/domain/task_schedule.py:39-124 | serializing and reading gives the schedule back if and only if it is valid |
| TaskSchedule.ReadsExactly | apps/api/src/endless_task/domain/task_schedule.py:68-124 | reading accepts exactly the serialized forms of valid schedules |
| TaskSchedule.SerializedFields | apps/api/src/endless_task/domain/task_schedule.py:39-45 | every field of the serialized form under its name |
| TaskSchedule.ErrorsExactly | apps/api/src/endless_task/domain/task_schedule.py:78-122 | which complaint is made: the first that applies, of a one-off, an unknown kind, a foreign field, a bad time, and a bad weekday or day |
| TaskSchedule.NextOccurrenceAfter | apps/api/src/endless_task/domain/task_schedule.py:153-155 | only a datetime without an offset is refused |
| TaskSchedule.NextIsLeast | apps/api/src/endless_task/domain/task_schedule.py:147-183 | the answer is an occurrence strictly after the given instant, and no occurrence lies between, for all three kinds |
| TaskSchedule.WeeklyExactly | apps/api/src/endless_task/domain/task_schedule.py:167-172 | a weekly schedule occurs exactly on the days a whole number of weeks from a known Monday plus `weekday - 1` days, at its time |
| TaskSchedule.WeeklyAnswerIsThatDay | apps/api/src/endless_task/domain/task_schedule.py:167-172 | so the answer is such a day, at most a week away |
| TaskSchedule.NextIsUnique | apps/api/src/endless_task/domain/task_schedule.py:147-183 | there is only one such instant |
| TaskSchedule.NthOccurs | apps/api/src/endless_task/domain/task_schedule.py:147-183 | every iterated answer is a later occurrence |
| TaskSchedule.AnswersIncrease | apps/api/src/endless_task/domain/task_schedule.py:147-183 | iterated answers come in strictly increasing order |
| TaskSchedule.IterationListsAll | apps/api/src/endless_task/domain/task_schedule.py:147-183 | every later occurrence is one of the iterated answers, so none is skipped |

## Left out

- DelegationTheorems.WithinLimits: covers children started in the background; the blocking path (`spawn`, `execute_prepared`, `run_batch`), which nothing in the application calls, is not modelled.
- DelegationTheorems.SettledForEver: assumes that store writes succeed; a failing write, which the code logs or raises, is not modelled.
- DelegationTheorems.KernelAtMostOnce: the id derived by SHA-256 is taken as an injective function of the spawn key.
- DelegationTheorems.QueryShowsRecord: only the configuration with a store, which is the one production wires.
- DelegationTheorems.NoGrandchildren: of the checks in `prepare_spawn` only the depth cap is modelled; capabilities, profiles and output schemas are not.
- DelegationTheorems.ShutdownSettles: the supervisor's own draining is a premise.
- ChildWakeupPromises.DeliveryRate: the clock is real-valued and never goes back, and a sleep lasts at least as long as asked; rounding of floats is not modelled.
- ChildWakeupDelivery.HandedBackAtMostOnce: `reported_at` is written by this service only, as in the code; a stamp the store refuses twice counts as failed, an exception after a successful write is not distinguished.
- ChildWakeupRuntime.ChildWakeupService.Schedule: ids arrive without surrounding white space; the code strips them.
- ChildContext.BlockReadsBack: child ids hold no line boundary, as derived ids do; timestamps arrive parsed.
- FileKernel.OpenStaysInside: the root path itself is trusted to lead to the root, which the code follows by path.
- FileKernelRuntime.Kernel.WriteBeneath: the write after opening is one call, not a series of partial writes.
- FileKernelQuiet.OpenIsNamed: permissions, quotas and full disks are failures of the host like any other, which a host without failures does not have; opening a pipe that blocks for ever is not modelled.
- CappedSearch.SearchDir: starts from the ordered list of candidates; walking directories, whose order is the operating system's, is not modelled, and UTF-8 decoding and the regex are given.
- LineSplitter.SplitLines: works on characters; the byte offsets of the Rust loop are not modelled.
- WireFormat.ParseSearch: how Python reads numbers that are not plain numerals is left open, so the results hold for every such reading.
- TaskSchedule.NextIsLeast: one fixed offset, as `astimezone()` yields; no daylight saving, no year 9999.
- TaskSchedule.ParseTaskSchedule: the table of Unicode decimal digits is a parameter, so the results hold for every version of it; JSON decoding is given.
- Steering, listing and per-conversation cancellation of children; child workspaces; `list_beneath`; `drain`, which only tests use.
- DeliveryKey.SameKeyExactly: about the text that is digested; that a digest cut to 16 digits keeps texts apart is not claimed.
- Texts of wakeup messages and notifications, logging.
- `finalize_cancelled_children` reads the rows it marks in one listing; a failing listing is not modelled.
- Context fingerprints and token estimates; reminders that happen once.

# Galaris: verified model of the hard core

This project models, in Dafny, the parts of Galaris whose correctness is hard to see from
reading one function, and proves what they are for:

- **Dependency cycles** (`DependencyGraph`, `TarjanInvariant`, `SccSearch`, `Components`,
  `ArchitectureGate`, `ModuleLiterals`). The recursive Tarjan search over `indices`, `lowlinks`,
  `stack` and `on_stack` is a class with the same mutable fields. Its report is proved to be
  exactly the maximal mutually reachable sets of at least two domain modules, and the
  architecture gate is proved to pass exactly when every closed walk is accepted.
- **Runtime supervisor** (`SupervisedComponent`, `SupervisedSteps`, `RuntimeSupervisor`,
  `SupervisorPhases`, `SupervisorTiming`, `SupervisorProgress`, `SupervisorRaces`,
  `ComponentState`). Each stretch of code between two awaits is one step; the completion of a
  callback, its completion callback, the resumption of the coroutine that waits for it, timeouts
  and cancellations are separate steps. One owner calls `start` and `stop`, as the application
  lifespan does.
- **SSH account registry** (`AccountRegistry`, `Executor`): intent saved first, then ordered
  effects, with a crash possible between any two of them; what each request leaves in the key
  files, homes and accounts.
- **Stream accumulator** (`AgentUsage`, `AgentTrace`, `AgentStream`, `TerminalText`, `AgentResult`):
  totals kept incrementally while deltas and snapshots merge, fragments that join in order, and
  the final rewrite of the trace.
- **Memory snapshot migration** (`MemorySnapshot`, `MemoryMigration`): the normalization on which
  the migration's own check relies.
- **Session client** (`SessionProtocol`, `RequestRetry`, `SessionProgress`, `SessionClient`) and
  **real-time server** (`RealtimeRooms`, `RealtimeServer`, `RealtimeDelivery`): all interleavings
  of tabs, and of connections; nothing stored late, and nothing left undelivered.
- **Context capsule** (`ContextCapsule`, `CapsuleSelection`, `CapsuleContext`): merging, ranking
  and greedy selection.
- **Manager update** (`ReleaseVersion`, `ManagerUpdate`): replacement of the distributed files
  with rollback, whichever operation fails.

`Wrappers` holds optional values. `Ordering` and `PythonText` hold what Python's `sorted`,
`str.strip` and `str.endswith` do.
State that the source changes in place is a class here. Each of its methods is proved equal to a
transition function, and the theorems about whole runs are about those functions. What a
transition does is in turn said of the fields, without the function, by the lemmas named
`...Meaning` and by those of the modules `...Progress`, `AgentStream` and `RealtimeDelivery`.

`dafny verify dfyconfig.toml` checks the whole project.

## Where the code does not do what one might expect

- `_lifecycle` clears `pending` after its await without looking at what it holds, and a start
  that ends after shutdown overwrites it. When the component was launched again before such a
  report, the slot of a callback in flight is lost. `SupervisorRaces.RaceWithoutPromptness` is a
  run from the start in which two callbacks of one component are then in flight, and
  `SupervisorRaces.ForgottenWithoutPromptness` one after which a component that may be live is no
  longer marked and configure accepts to discard it. The lifecycle theorems are about prompt
  runs, in which no callback is launched while a late cleanup has still to learn that its stop is
  done, and a start that reports after a shutdown is still the last callback launched (or finds
  nothing of the component in flight or awaited, and the component
  marked). `RuntimeSupervisor.StepKeepsInv` shows that this is exactly what keeps the invariant.
  From every world of the invariant, a launch that is not prompt can come to two callbacks in
  flight (`SupervisorRaces.UnsettledRaces`), and so can a report that is not prompt while a later
  callback is in flight (`SupervisorRaces.StaleReportRaces`). Backoff, restart times and the
  failure count need no such condition.
- `_module_literals` cuts cycles by path. No name and no unconditional occurrence is lost
  (`ModuleLiterals.NamesExact`, `ModuleLiterals.UnconditionalExact`), but a conditional occurrence
  can be (`ModuleLiterals.FlagLostOnCycle`). `ModuleLiterals.NoneLostIffHarmless` gives the exact
  condition on the table: none is lost from any node if and only if, for every name that has a
  cycle through a star, each literal reachable from it also ends a starred walk from that name
  that follows no name twice.
- A delta adds its usage to the totals and not to the block it joins, and a message without
  visible content is counted and then dropped. Usage counters are therefore at least, and cost
  and time exactly, what the retained and dropped messages add up to.

## Model

| member | source | states |
|---|---|---|
| `Components.StronglyConnectedComponents` | back/scripts/project_context.py:480-528 | for every edge list the result is exactly the maximal sets of at least two mutually reachable domain modules, pairwise disjoint, each sorted, the list sorted |
| `Components.BuildGraph` | back/scripts/project_context.py:481-489 | nodes and adjacency hold exactly the links between domain modules |
| `DependencyGraph.DomainMeaning` | back/scripts/project_context.py:471-477 | domain modules are exactly the names that begin with app or bridge and a dot or slash |
| `Components.ReachIsClosure` | back/scripts/project_context.py:480-528 | reachability by walks contains the links, is transitive, and leaves no set that no link leaves |
| `Components.SortedListing` | back/scripts/project_context.py:522-528 | the final sort lists the same components, in the order of lists of strings |
| `Components.ComponentsUnique` | back/scripts/project_context.py:480-528 | only one listing meets the specification, whatever order the edges come in |
| `SccSearch.Search.constructor` | back/scripts/project_context.py:491-496 | the search starts with empty tables and satisfies its invariant |
| `SccSearch.Search.Visit` | back/scripts/project_context.py:498-523 | a visit terminates, keeps the stack and low-link invariant and all earlier numbers, numbers the module, and either closes its component or leaves it on the stack with a way to an older entry; what it leaves on the stack links to no entry below its low-link |
| `SccSearch.Search.EnterModule` | back/scripts/project_context.py:498-504 | the module gets the next number and is pushed; the invariant holds with it as a running visit |
| `SccSearch.Search.Explore` | back/scripts/project_context.py:506-511 | after the loop every successor has been followed and the low-link is justified by a reachable stack entry |
| `SccSearch.Search.Follow` | back/scripts/project_context.py:506-511 | one successor is visited or inspected; the running visit has seen it and what was numbered stays |
| `SccSearch.Search.LowerLink` | back/scripts/project_context.py:509-511 | the low-link of the module becomes the smaller of the two numbers; nothing else changes |
| `SccSearch.Search.Targets` | back/scripts/project_context.py:506-506 | successors are taken once each, in sorted order |
| `SccSearch.Search.PopDown` | back/scripts/project_context.py:515-521 | the pop loop removes exactly the stack entries from the module upwards, each once |
| `SccSearch.Search.CloseComponent` | back/scripts/project_context.py:513-523 | the popped segment leaves the stack, is reported when it has two members or more, and the listing stays exact |
| `SccSearch.SearchDone` | back/scripts/project_context.py:525-528 | with no visit running and all modules numbered the stack is empty and every component is listed |
| `SccSearch.Search.Run` | back/scripts/project_context.py:525-528 | every node is numbered, the stack is empty, and the components of all nodes are listed |
| `SccSearch.SortedElements` | back/scripts/project_context.py:506-525 | sorting a set gives its elements, each once, in order |
| `Ordering.StringMeaning` | back/scripts/project_context.py:506-525 | strings are in order when one is a prefix of the other or has the lesser character where they first differ |
| `TarjanInvariant.Enter` | back/scripts/project_context.py:500-504 | entering a module keeps the invariant on reachability between stack entries and running visits |
| `TarjanInvariant.Leave` | back/scripts/project_context.py:513-514 | a finished module that reaches an older stack entry may stay on the stack |
| `TarjanInvariant.SegmentIsComponent` | back/scripts/project_context.py:513-521 | when the low-link equals the number, the stack from the module upwards is exactly its strongly connected component |
| `TarjanInvariant.Close` | back/scripts/project_context.py:515-521 | taking that component off the stack keeps the invariant |
| `TarjanInvariant.NothingOpen` | back/scripts/project_context.py:525-527 | with no visit running the stack is empty |
| `ArchitectureGate.CycleErrors` | back/scripts/architecture_contracts.py:327-333 | no error if and only if every closed walk through two or more domain modules stays inside one accepted component; each error is a component that is not accepted; each offending walk is covered by an error |
| `ArchitectureGate.AcceptedIffCyclesAccepted` | back/scripts/architecture_contracts.py:327-333 | all components accepted if and only if all closed walks accepted |
| `ArchitectureGate.Tour` | back/scripts/project_context.py:480-528 | one closed walk visits all members of a component |
| `ArchitectureGate.CycleInComponent` | back/scripts/project_context.py:480-528 | every closed walk through two modules lies in one reported component |
| `ArchitectureGate.DependencyCycles` | back/scripts/project_context.py:531-565 | `direct_cycles` is exactly the ordered pairs with links both ways, and each pair lies together in exactly one reported component |
| `ModuleLiterals.Literals` | back/scripts/project_context.py:212-247 | terminates on every tree and every cyclic table; only module names are returned |
| `ModuleLiterals.ModuleNameMeaning` | back/scripts/project_context.py:212-247 | a module name is core, app or bridge, a dot, and one or more word characters |
| `ModuleLiterals.LiteralsExact` | back/scripts/project_context.py:212-247 | an occurrence is reported if and only if it ends a walk that follows no name twice, conditional if and only if the walk passes a star |
| `ModuleLiterals.Shorten` | back/scripts/project_context.py:223-229 | every walk can be shortened to one that follows no name twice; it gains no star, and keeps one unless a name on the walk has a cycle through a star |
| `ModuleLiterals.NamesExact` | back/scripts/project_context.py:212-247 | the names returned are exactly the module literals reachable through children and assigned names any number of times |
| `ModuleLiterals.UnconditionalExact` | back/scripts/project_context.py:212-247 | on every table an unconditional occurrence is reported if and only if some walk passes no star |
| `ModuleLiterals.ConditionalFound` | back/scripts/project_context.py:212-247 | a conditional occurrence is reported if some walk passes a star and no name on that walk has a cycle through a star |
| `ModuleLiterals.ConditionalExact` | back/scripts/project_context.py:212-247 | when no cycle of the table passes a star, a conditional occurrence is reported if and only if some walk passes a star |
| `ModuleLiterals.NoneLostIffHarmless` | back/scripts/project_context.py:212-247 | no conditional occurrence is lost from any node if and only if each literal reachable from a name with a cycle through a star also ends a starred walk from that name that follows no name twice |
| `ModuleLiterals.FlagLostOnCycle` | back/scripts/project_context.py:212-247 | on `A = [*A, "core.x"]` the conditional occurrence is not reported |
| `RuntimeSupervisor.StepKeepsInv` | back/core/runtime.py:130-412 | a step keeps the invariant of all components and of start and stop if and only if it is prompt |
| `RuntimeSupervisor.RunKeepsInv` | back/core/runtime.py:130-412 | every prompt run keeps it |
| `SupervisorPhases.StepKeepsSteady` | back/core/runtime.py:130-412 | every step, prompt or not, keeps who waits for what in which phase and what the stable time means |
| `SupervisorPhases.AlwaysSteady` | back/core/runtime.py:130-412 | so does every run from the start |
| `RuntimeSupervisor.LifecycleSafety` | back/core/runtime.py:272-412 | in every prompt run a component has at most one callback in flight, and between two launches of its start some stop completed successfully |
| `RuntimeSupervisor.SeparatedByStop` | back/core/runtime.py:324-348 | the history predicate means that a successful stop lies between any two starts |
| `RuntimeSupervisor.LiveMeaning` | back/core/runtime.py:376-405 | a component counts as live if and only if some start has no successful stop after it |
| `RuntimeSupervisor.NeverForgotten` | back/core/runtime.py:136-202 | in every prompt run: once stop has returned, a component that may be live is marked for cleanup, and configure refuses to drop the registered states |
| `SupervisorTiming.BaseDelayMonotone` | back/core/runtime.py:350-361 | the unjittered delay does not shrink with the number of failures and lies between the initial and the maximal delay |
| `SupervisorTiming.DelayWindow` | back/core/runtime.py:350-361 | the delay computed from the failure count is between zero and the maximum for every jitter function, and at least four fifths of the base delay for the default one |
| `SupervisorTiming.RetryWindow` | back/core/runtime.py:350-361 | a scheduled retry lies in `[now, now + restart_max_delay]` for every jitter function, and with the default jitter at least four fifths of the base delay of the new failure count ahead |
| `SupervisorTiming.RunRetryOk` | back/core/runtime.py:277-361 | in every run with a forward clock each retry time stays within the maximal delay of the clock |
| `SupervisorTiming.NoEarlyRestart` | back/core/runtime.py:277-316 | in every run with a forward clock, while the clock is below the scheduled time and nobody sees the component running, starts, stops or cleans it up, no callback of it is launched and the time stays |
| `SupervisorTiming.OnlyMaintainRestarts` | back/core/runtime.py:289-301 | only the monitor begins a restart, not after a stop was called, only of a component that it does not see running and whose time has come; a time scheduled earlier is not moved |
| `SupervisorTiming.FailureCounted` | back/core/runtime.py:290-361 | a step that counts a failure counts one and schedules the retry by the new count |
| `SupervisorTiming.BackoffKept` | back/core/runtime.py:277-361 | in every run, prompt or not: after the k-th failure in a row no callback of the component is launched for four fifths of `min(initial * 2^min(k-1, 20), max)`, while nobody sees it running, starts, stops or cleans it up |
| `SupervisorTiming.FailuresResetOnlyWhenStable` | back/core/runtime.py:277-316 | in every run, prompt or not: the failure count goes down only to zero, and only when every observation since one at least `stable_after` ago saw the component running |
| `SupervisorTiming.BaseDelayDoubles` | back/core/runtime.py:352-356 | the unjittered delay of the first failure is the initial one, and of each further failure twice the last, up to the maximal delay and 20 doublings |
| `SupervisorProgress.LostIsRestarted` | back/core/runtime.py:289-316 | a component that the monitor sees lost and due: its stop is launched, and when that has returned exactly one start is in flight, held by the slot and awaited, with one more restart counted |
| `SupervisorProgress.MarkedIsStarted` | back/core/runtime.py:324-331 | a marked component that start turns to: its stop is launched, and when that has returned its start is in flight |
| `SupervisorProgress.StartedIsRunning` | back/core/runtime.py:339-342 | when the awaited start returns and the service answers, the component is unmarked, nothing of it is in flight, it is stable from then on and no restart is due |
| `SupervisorProgress.CleanedStarts` | back/core/runtime.py:314-329 | for every resumption after a cleaning stop that returned, exactly one task is added, a running start, held by the slot and awaited |
| `SupervisorProgress.StartedMeaning` | back/core/runtime.py:339-348 | a start that returned makes the component stable if it is seen running, and counts a failure otherwise |
| `SupervisorProgress.FailedMeaning` | back/core/runtime.py:395-403 | a callback that failed or was cancelled leaves the component marked; outside a shutdown a failure is counted and a retry scheduled within the maximal delay |
| `SupervisorProgress.ShutDownMeaning` | back/core/runtime.py:188-198 | a stop that returned in a shutdown unmarks the component and leaves nothing scheduled |
| `SupervisorProgress.TimedOutMeaning` | back/core/runtime.py:390-394 | a callback that is out of time stays in flight and in the slot, its component is marked, and outside a shutdown a retry is scheduled |
| `SupervisorProgress.CancelledMeaning` | back/core/runtime.py:386-389 | a cancelled wait leaves the callback in the slot and the component marked |
| `SupervisorProgress.DueRestarts` | back/core/runtime.py:289-301 | the converse of `OnlyMaintainRestarts`: a pass over a lost component whose time has come, with no stop called, launches its stop |
| `SupervisorProgress.LostIsScheduled` | back/core/runtime.py:289-298 | a component just seen lost counts one failure and is scheduled within the maximal delay; before that time nothing is launched |
| `SupervisorProgress.RunningIsSteady` | back/core/runtime.py:277-287 | a component seen running keeps or begins its stable time, has no restart due, and its failures are forgotten exactly when that time is long enough |
| `SupervisorProgress.PendingIsLeft` | back/core/runtime.py:273-276 | a pass leaves a component with something in flight alone |
| `SupervisorProgress.StartTurns` | back/core/runtime.py:324-331 | start launches the start of an idle component, the stop first if it is marked, and counts a failure when something is in flight |
| `SupervisorProgress.StopTurns` | back/core/runtime.py:188-198 | stop launches the stop of an idle component; a late cleanup that waits is cancelled |
| `SupervisorProgress.NoneSkipped` | back/core/runtime.py:166-198 | a start or stop that comes to its end has turned to every component that was ahead of it |
| `SupervisorProgress.AllAhead` | back/core/runtime.py:162-188 | ahead of a start are all components in order, ahead of a stop all of them in reverse |
| `SupervisorProgress.PhasesEnd` | back/core/runtime.py:168-201 | start ends with the monitor running and stop with the supervisor down, each with nothing ahead |
| `SupervisorProgress.LateStartIsStopped` | back/core/runtime.py:376-412 | a start that ends after shutdown schedules a cleanup, which can begin and then launches a stop |
| `SupervisorProgress.LateReportMeaning` | back/core/runtime.py:395-412 | after the late cleanup the component is unmarked if and only if its stop returned |
| `SupervisorProgress.LateTimeOutMeaning` | back/core/runtime.py:390-394 | a late cleanup that is out of time keeps its stop in the slot, and the mark |
| `SupervisorProgress.CalledBackMeaning` | back/core/runtime.py:376-383 | a completion callback launches nothing, and changes the slot only for a start after shutdown |
| `SupervisorProgress.CancelledCleanup` | back/core/runtime.py:365-412 | a late cleanup that was cancelled before it began launches nothing and the mark stays |
| `SupervisorProgress.OthersUntouched` | back/core/runtime.py:130-412 | a step changes no component but the one it is about |
| `SupervisorProgress.ConfigureAccepted` | back/core/runtime.py:137-145 | configuring is accepted if and only if the supervisor is down, nothing is marked or in flight, and the names differ |
| `SupervisorProgress.ConfigureMeaning` | back/core/runtime.py:147-150 | each given component is registered in its place, with nothing launched, scheduled, marked or counted |
| `SupervisorRaces.PromptnessExact` | back/core/runtime.py:376-412 | a launch keeps its callback owned through all outstanding reports if and only if no late cleanup waits for a callback that is done, and the reports arrive while started or every start that is done has reported |
| `SupervisorRaces.UnsettledRaces` | back/core/runtime.py:395-412 | from every world of the invariant, a launch on a component whose late cleanup has still to learn that its stop is done can be followed by a run after which two callbacks of the component are in flight |
| `SupervisorRaces.StaleReportRaces` | back/core/runtime.py:376-381 | from every world, a start that reports after shutdown while a later callback is in flight can be followed by a second callback in flight |
| `SupervisorRaces.RaceWithoutPromptness` | back/core/runtime.py:395-412 | a concrete run that is not prompt has two callbacks of one component in flight |
| `SupervisorRaces.ForgottenWithoutPromptness` | back/core/runtime.py:376-412 | a concrete run that is not prompt ends with stop returned, no stop successful since the last start, and configure accepting to discard the component |
| `SupervisedSteps.LaunchInv` | back/core/runtime.py:363-383 | launching a callback on an idle component keeps its invariant if and only if no late cleanup waits for a callback that is done |
| `SupervisedSteps.ResumeInv` | back/core/runtime.py:331-348 | resuming after the await, with whatever the caller does next, keeps it |
| `SupervisedSteps.MaintainInv` | back/core/runtime.py:272-322 | one monitor pass keeps it, with the record of observations behind `stable_since`, if and only if it launches nothing or no late cleanup waits for a callback that is done |
| `SupervisedSteps.CallBackAnyInv` | back/core/runtime.py:376-383 | a completion callback keeps it if and only if it comes while started, or its start is the last callback launched, or nothing is in flight or awaited and the component is marked; it never changes whether the component is live |
| `ComponentState.State.ScheduleRetry` | back/core/runtime.py:350-361 | counts a failure, computes exponent, base delay and jittered delay, and schedules the retry in `[now, now + restart_max_delay]`; the invariant stays |
| `ComponentState.State.PendingInFlight` | back/core/runtime.py:365-365 | the slot alone tells whether any callback of the component is in flight or a late cleanup is scheduled |
| `ComponentState.InFlightMeaning` | back/core/runtime.py:365-374 | in every state of the invariant the slot knows of every callback in flight |
| `ComponentState.State.Lifecycle` | back/core/runtime.py:363-384 | launches exactly when nothing of the component is in flight; otherwise the pending task is cancelled and the call fails |
| `ComponentState.State.IsRunning` | back/core/runtime.py:414-431 | true if and only if the component answers and nothing of it is in flight or left to clean up |
| `ComponentState.State.TryStart` | back/core/runtime.py:324-348 | a start is launched only when the component cannot be live; the invariant stays if and only if the launch, if any, was prompt |
| `ComponentState.State.Maintain` | back/core/runtime.py:272-301 | a restart begins only when its time has come and no stop was called; the invariant stays if and only if the launch, if any, was prompt |
| `ComponentState.State.RecordSteady` | back/core/runtime.py:278-287 | a component seen running keeps its stable time, and the failure count is reset after `stable_after` |
| `ComponentState.State.RecoverLost` | back/core/runtime.py:289-301 | a component seen not running is scheduled once and restarted when due, unless a stop was called |
| `ComponentState.State.ShutDown` | back/core/runtime.py:188-198 | one component of a stop; the invariant stays if and only if the launch, if any, was prompt, and a component that is not awaited is quiet |
| `ComponentState.State.Resume` | back/core/runtime.py:395-405 | keeps the invariant whatever the caller goes on with, and after a shutdown the component is quiet; what it launches is said by `CleanedStarts`, what it records by `StartedMeaning` and `FailedMeaning` |
| `ComponentState.State.FinishStart` | back/core/runtime.py:339-348 | a start that returned counts as stable only when the component is seen running |
| `ComponentState.State.TimeOut` | back/core/runtime.py:390-394 | a timed-out callback stays owned and the component is marked for cleanup |
| `ComponentState.State.CancelWait` | back/core/runtime.py:386-389 | a cancelled wait leaves the callback owned and marks the component for cleanup |
| `ComponentState.State.Finished` | back/core/runtime.py:376-383 | a start that ends after shutdown schedules its own cleanup; the invariant stays if and only if the report is prompt |
| `ComponentState.State.RunLateCleanup` | back/core/runtime.py:407-410 | the late cleanup launches a stop, unless it was cancelled first |
| `ComponentState.State.ResumeLateCleanup` | back/core/runtime.py:395-412 | the late cleanup clears the slot and records whether the stop succeeded |
| `ComponentState.State.TimeOutLateCleanup` | back/core/runtime.py:390-394 | a late cleanup whose stop does not end in time leaves the component marked |
| `AccountRegistry.StepKeepsInv` | ssh-executor/executord.py:103-233 | requests, single effects, failures and crashes keep the registry invariant and never change a UID |
| `AccountRegistry.RunKeepsInv` | ssh-executor/executord.py:103-233 | so does every run with any number of crashes and restarts |
| `AccountRegistry.UidsForever` | ssh-executor/executord.py:166-197 | from the first boot on UIDs are pairwise distinct, below `next_uid`, and fixed per code |
| `AccountRegistry.UserEffectsFix` | ssh-executor/executord.py:104-139 | the effects of one user complete its rows exactly, whatever part of them was there |
| `AccountRegistry.HomeFix` | ssh-executor/executord.py:128-131 | made, owned and closed in three effects, the home ends up private and owned by its user, whoever owned it before |
| `AccountRegistry.ReconcileLoop` | ssh-executor/executord.py:154-163 | reconciliation in any order makes the tables the registry's projection |
| `AccountRegistry.ReconcileRepairs` | ssh-executor/executord.py:154-163 | it does so from every state that a run with crashes can reach |
| `AccountRegistry.ReconcileIdempotent` | ssh-executor/executord.py:154-163 | a second reconciliation, in any order, changes nothing |
| `AccountRegistry.RequestCompletes` | ssh-executor/executord.py:166-233 | a completed request leaves the rows of its user as the new registry says, also after a half-done attempt |
| `AccountRegistry.RequestServes` | ssh-executor/executord.py:166-233 | after a completed request the registry says what was asked, the key file of an enabled user is its key and a line end and that of a disabled one empty, shell and lock follow likewise, and no other user is touched; rotation leaves group, account and home |
| `AccountRegistry.ReconcileServes` | ssh-executor/executord.py:154-163 | after a completed reconciliation group, account, home, shell, lock and key file of every registered user agree with the registry in that sense, and there are no others |
| `AccountRegistry.IntentMeaning` | ssh-executor/executord.py:173-192 | an accepted request changes exactly the entry of its code: an enabled entry of the agent with its key, the enabled flag, or the key; the UID stays, and a new code gets the next one |
| `AccountRegistry.RefusedMeaning` | ssh-executor/executord.py:168-180 | which requests are refused: invalid code or key, a code of another agent, an account or group that nobody registered, an unknown agent |
| `Executor.Daemon.EnsureAccount` | ssh-executor/executord.py:115-139 | group, account, home, shell and lock, effect by effect in that order |
| `Executor.Daemon.AddEntries` | ssh-executor/executord.py:116-127 | group and account are added only where neither exists nor belongs to the system |
| `Executor.Daemon.OpenHome` | ssh-executor/executord.py:128-131 | the home exists, belongs to its user and is private |
| `Executor.Daemon.SetLogin` | ssh-executor/executord.py:132-139 | shell and password lock follow the enabled flag |
| `Executor.Daemon.WriteAuthorizedKey` | ssh-executor/executord.py:104-112 | the key file of an enabled user is its key and a line end, that of a disabled one is empty; nothing else changes |
| `Executor.Daemon.ReconcileAll` | ssh-executor/executord.py:154-163 | the tables become the registry's projection; every registered user has its key file, shell and lock as the registry says |
| `Executor.Daemon.RegisterUser` | ssh-executor/executord.py:167-192 | no UID is lost or changed; a known code keeps its UID and is refused to another agent, a new code gets the next UID; no other entry changes |
| `Executor.Daemon.EnsureUserRequest` | ssh-executor/executord.py:166-197 | refused exactly when the intent is, without any change; otherwise the agent is registered and enabled with this key, and its tables agree with the registry |
| `Executor.Daemon.EntryByAgent` | ssh-executor/executord.py:200-205 | finds an entry of the agent if and only if there is one |
| `Executor.Daemon.SetEnabledRequest` | ssh-executor/executord.py:209-218 | unknown agents change nothing; otherwise the entry has the flag that was asked for, and key file, shell and lock follow it |
| `Executor.Daemon.RotateKeyRequest` | ssh-executor/executord.py:222-233 | refused only for an unknown agent or an invalid key; otherwise the entry has the new key, and so has the key file if the user is enabled |
| `AgentUsage.MergedCommutative` | back/app/agent/contracts.py:437-461 | merging does not depend on the order, quality markers included |
| `AgentUsage.MergedAssociative` | back/app/agent/contracts.py:437-461 | nor on the grouping |
| `AgentUsage.MergedIdentity` | back/app/agent/contracts.py:437-472 | the empty usage is neutral |
| `AgentUsage.MeasuredMerge` | back/app/agent/contracts.py:463-472 | a merge has measurements if and only if one of the two has |
| `AgentUsage.TotalAppend` | back/app/agent/contracts.py:437-461 | folding groups separately gives the same total |
| `AgentUsage.TotalPermutation` | back/app/agent/contracts.py:437-461 | folding any permutation gives the same total |
| `AgentUsage.MergedCounters` | back/app/agent/contracts.py:449-457 | each counter and the cost are the sums of the two |
| `AgentUsage.MergedQuality` | back/app/agent/contracts.py:440-447 | a total is no more certain than any measured part; a part that measured nothing and claims nothing does not count |
| `AgentUsage.MeasuredMeaning` | back/app/agent/contracts.py:462-472 | something was measured if and only if some counter is not zero |
| `AgentTrace.FindStream` | back/app/agent/contracts.py:564-568 | the first block with the message's stream identifier, or the end when there is none |
| `AgentTrace.AddBalanced` | back/app/agent/contracts.py:560-630 | one message keeps cost and time equal to the sums over retained and dropped messages, and every usage counter at least the sum over retained blocks |
| `AgentTrace.Accounting` | back/app/agent/contracts.py:560-630 | so does every sequence of messages |
| `AgentTrace.ClampIdle` | back/app/agent/contracts.py:588-594 | the `max(0, …)` clamp never changes a counter |
| `AgentTrace.AddSameInk` | back/app/agent/contracts.py:596-630 | one message keeps the non-white characters of `result` and of the text blocks equal as multisets |
| `AgentTrace.AnswerShowsText` | back/app/agent/contracts.py:596-630 | so does every sequence of messages |
| `AgentStream.FragmentsConcatenate` | back/app/agent/contracts.py:560-630 | text fragments of a new stream, or without identifier and with something to show, become one block whose content is their concatenation in order of arrival, and `result` continues with the same text; the block succeeded if and only if all fragments did |
| `AgentStream.DeltaMeaning` | back/app/agent/contracts.py:600-630 | a fragment or first message: its content goes behind that of the one block it continues, with cost, time, success and completion, or it becomes a new last block, or it has nothing to show and leaves the blocks; every other block stays; `result`, totals and `tools_used` grow by what it brings |
| `AgentStream.SnapshotMeaning` | back/app/agent/contracts.py:582-598 | a snapshot becomes its block, all others stay, cost, time and each counter change by the difference to the old block, text is joined anew, and a renamed tool is renamed in `tools_used` |
| `AgentStream.RefusedMeaning` | back/app/agent/contracts.py:569-580 | a message is refused if and only if the first block of its stream has another type, or another tool without being the same call |
| `AgentStream.VisibleMeaning` | back/app/agent/contracts.py:609-615 | what is not a continuation opens a block if and only if a character of it is not white, or it is a tool call with arguments or with stream and call identifiers |
| `AgentStream.TextInOrder` | back/app/agent/contracts.py:597-597 | the text of a trace is the text of its parts in order |
| `TerminalText.OneFinalAnswer` | back/app/agent/contracts.py:643-704 | for a non-blank final text exactly one text block remains, and it and `result` equal the final text |
| `TerminalText.RebuildKeeps` | back/app/agent/contracts.py:659-701 | block by block and in order: other blocks stay, blank text goes, visible text becomes a thinking step with the same text or, in the last block that ends with the answer and nowhere else, the answer behind a thinking step with what preceded it |
| `TerminalText.BlankAnswer` | back/app/agent/contracts.py:653-656 | a blank final answer empties `result` and removes the text blocks; the others stay in order, and the totals too |
| `TerminalText.AnswerPlace` | back/app/agent/contracts.py:701-704 | the answer is added as a new last block if and only if no text block ended with it; the totals stay |
| `TerminalText.ReconcileIdempotent` | back/app/agent/contracts.py:643-704 | a second call changes nothing |
| `TerminalText.DetachBalanced` | back/app/agent/contracts.py:632-641 | detaching trailing text keeps the totals balanced and leaves no text at the end |
| `TerminalText.DetachMeaning` | back/app/agent/contracts.py:632-641 | detaching removes exactly the text blocks at the end, with their time and cost, and leaves the rest of the trace |
| `AgentResult.Result.FindExisting` | back/app/agent/contracts.py:564-568 | the loop finds the block that a message continues |
| `AgentResult.Result.JoinText` | back/app/agent/contracts.py:597-597 | the loop joins the content of the text blocks |
| `AgentResult.Result.CountMessage` | back/app/agent/contracts.py:600-607 | totals, answer and tools take the message in before its block is placed |
| `AgentResult.Result.AddMessage` | back/app/agent/contracts.py:560-630 | a change of type or tool is refused without any change; otherwise the fields change as `DeltaMeaning` and `SnapshotMeaning` say |
| `AgentResult.Result.ReplaceWithSnapshot` | back/app/agent/contracts.py:582-598 | a snapshot replaces its block and adjusts the totals |
| `AgentResult.Result.DetachTrailingText` | back/app/agent/contracts.py:632-641 | removes the trailing text blocks and returns exactly their time and cost |
| `AgentResult.Result.RebuildBlocks` | back/app/agent/contracts.py:659-701 | the reversed walk builds the rebuilt trace and says whether the final text was found |
| `AgentResult.Result.ReconcileTerminalText` | back/app/agent/contracts.py:643-704 | the trace becomes the reconciled one |
| `MemorySnapshot.NormalizeIdempotent` | back/dbadmin_composition.py:36-84 | normalization, which terminates also when it re-enters JSON decoded from a string, is idempotent in every mode |
| `MemorySnapshot.NormalizeOnlyDeletes` | back/dbadmin_composition.py:36-84 | it only deletes contract-owned fields, labels and `required` names |
| `MemorySnapshot.NormalizeKind` | back/dbadmin_composition.py:36-84 | it keeps the kind of every value |
| `MemoryMigration.FixpointIffClean` | back/dbadmin_composition.py:36-84 | it leaves a value alone if and only if the value holds nothing to delete |
| `MemoryMigration.NormalizedIsClean` | back/dbadmin_composition.py:36-84 | its result holds nothing to delete |
| `MemoryMigration.FieldsKept` | back/dbadmin_composition.py:44-48 | a field goes if and only if it is contract-owned in its place or the type label of a memory record; one with nothing to delete inside stays as it is |
| `MemoryMigration.ColumnIdempotent` | back/dbadmin_composition.py:124-130 | the normalization of a column is idempotent |
| `MemoryMigration.ColumnMeaning` | back/dbadmin_composition.py:124-130 | the result of each column holds nothing that this column is to be freed of, a value is left alone if and only if it held nothing of that, and metadata otherwise keeps its fields |
| `MemoryMigration.Column.NormalizeRows` | back/dbadmin_composition.py:133-153 | the handler normalizes exactly the selected rows, which then hold nothing that the column is to be freed of, and so establishes the check's condition |
| `MemoryMigration.Column.IsNormalized` | back/dbadmin_composition.py:156-171 | the check answers whether some selected row would still change |
| `SessionProtocol.StepKeepsInv` | front/core/api.ts:36-216 | every step of every tab keeps the invariant on generations, queues, the lock and the refresh in flight |
| `SessionProtocol.RunKeepsInv` | front/core/api.ts:36-216 | so does every interleaving |
| `SessionProtocol.LockedOneAtATime` | front/core/api.ts:46-53 | locked operations of all tabs run one at a time, those of a tab in order, and two unfinished refreshes of a tab belong to different generations |
| `SessionProtocol.NoLateRefresh` | front/core/api.ts:181-216 | whatever stores a token after a logout was requested after that logout |
| `SessionProtocol.LogoutIsFinal` | front/core/api.ts:76-91 | after a logout the token stays absent in every run, in any tab and any order, in which no later request is answered with a token and none is saved outright, whatever else is requested, begun or answered |
| `SessionProtocol.NewBrowserInv` | front/core/api.ts:36-44 | a new browser satisfies the invariant |
| `SessionProgress.RefreshRenews` | front/core/api.ts:181-216 | a refresh that an idle tab asks for and that the server answers stores the new token, in the same generation, and frees the lock |
| `SessionProgress.RefreshAnswerStored` | front/core/api.ts:205-213 | a token that answers a refresh of the current generation is stored, the generation stays, the operation ends |
| `SessionProgress.LoginAnswerStored` | front/core/api.ts:76-84 | a token that answers a login of the current generation is stored, in a new generation |
| `SessionProgress.OtherAnswerIgnored` | front/core/api.ts:205-213 | a refusal, or an answer of an earlier generation, leaves token and generation; the operation ends |
| `SessionProgress.BeginMeaning` | front/core/api.ts:187-191 | an operation whose turn has come sends its request unless its generation is over or another tab has renewed the token; a logout always does |
| `SessionProgress.AskMeaning` | front/core/api.ts:181-186 | a refresh in flight is joined; otherwise one is queued last in its tab, for the current generation |
| `SessionProgress.SessionStepsMeaning` | front/core/api.ts:40-91 | login, logout, saving and clearing begin a new generation, forget the refresh in flight, and set or remove the token; login and logout queue their call |
| `RequestRetry.RetriedOnceInItsGeneration` | front/core/api.ts:235-290 | a request goes out at most twice, both times in one generation, and its answer is delivered only in that generation |
| `RequestRetry.EventKeepsInv` | front/core/api.ts:235-290 | every event of a request or of the session keeps the combined invariant |
| `SessionProgress.RequestMeaning` | front/core/api.ts:235-290 | in its generation a request goes out, its answer is delivered, a first refusal makes it wait for a refresh and a second rejects it; after the generation it is rejected |
| `SessionProgress.RefusedThenDelivered` | front/core/api.ts:266-285 | while the generation stays, a request that was refused once is sent again after the refresh, and its answer is delivered |
| `SessionProgress.RefusedRefresh` | front/core/api.ts:278-283 | a refusal of the refresh itself ends the session, if it is still the same; any other failure of it leaves the session; the request is rejected |
| `SessionClient.Browser.InvalidateSessionRequests` | front/core/api.ts:40-43 | a new generation begins and the tab forgets its refresh in flight |
| `SessionClient.Browser.SaveAccessToken` | front/core/api.ts:76-84 | a new generation begins with the token |
| `SessionClient.Browser.ClearStoredSession` | front/core/api.ts:86-91 | a new generation begins without a token |
| `SessionClient.Browser.WithSessionLock` | front/core/api.ts:46-53 | the operation is queued behind the tab's earlier ones |
| `SessionClient.Browser.RefreshAccessToken` | front/core/api.ts:181-216 | callers join the unfinished refresh of the tab, otherwise one is queued |
| `SessionClient.Browser.BeginOperation` | front/core/api.ts:186-191 | an outdated operation ends, a refresh that another tab has done ends, any other one sends its request |
| `SessionClient.Browser.EndOperation` | front/core/api.ts:205-213 | the answer is stored only in the generation of the request |
| `SessionClient.Browser.FinishOperation` | front/core/api.ts:46-53 | an operation that ends, well or not, frees the lock and lets the next one of its tab run |
| `SessionClient.Browser.Outgoing` | front/core/api.ts:235-250 | a request of an earlier generation is not sent |
| `RealtimeRooms.StepKeepsInv` | back/core/websocket.py:231-596 | every step of every handler keeps the invariant on connections, display requests and emissions |
| `RealtimeRooms.RunKeepsInv` | back/core/websocket.py:231-596 | so does every interleaving |
| `RealtimeRooms.CheckOneInv` | back/core/websocket.py:303-328 | one pass of the authorization loop, with its caches and the disconnection of an invalid session, keeps the invariant whatever happens between the passes |
| `RealtimeRooms.DisplayedIsLatest` | back/core/websocket.py:569-596 | a displayed room is the connection's latest request, was authorized for who is connected, and the connection is alive |
| `RealtimeRooms.DeliverySafety` | back/core/websocket.py:284-348 | an event goes only to a connection that is alive, subscribed and, where required, displaying or joined at that moment, and whose session and permission were looked up for that event and found in order |
| `RealtimeRooms.ApprovedMeaning` | back/core/websocket.py:300-328 | the approved connections are exactly the selected ones whose own check succeeds |
| `RealtimeDelivery.EntitledIsServed` | back/core/websocket.py:284-348 | in every interleaving whose lookups follow one set of rules: when an emission is through, each connection that wanted the event when it began, and whose session is valid and permitted, was sent it or did not want it any more at its turn |
| `RealtimeDelivery.EntitledIsApproved` | back/core/websocket.py:284-328 | when all are checked, approved are exactly the connections that wanted the event when the emission began and whose session is valid and permitted |
| `RealtimeDelivery.ConcernsTheSelected` | back/core/websocket.py:284-303 | throughout a run an emission concerns exactly the connections selected when it began |
| `RealtimeDelivery.BeginMeaning` | back/core/websocket.py:284-302 | a new emission has its event, its rooms and the selected connections; nothing is looked up, approved or served, and nothing else changes |
| `RealtimeDelivery.AllServed` | back/core/websocket.py:284-348 | in every run, when an emission is through, each approved connection was sent the event, or at its turn was gone, not subscribed or not in the room |
| `RealtimeDelivery.EachServedOnce` | back/core/websocket.py:300-336 | in every run, those that had their turn followed by those still to be served are the approved connections, in order and each once |
| `RealtimeDelivery.ServeMeaning` | back/core/websocket.py:336-348 | a turn sends the event to the next recipient if and only if it wants it then, and takes it off the list |
| `RealtimeDelivery.SelectMeaning` | back/core/websocket.py:284-290 | an event concerns exactly the live connections that subscribed to it or declared nothing, and that display or joined its room where it asks for one |
| `RealtimeDelivery.LatestIsShown` | back/core/websocket.py:569-596 | a live connection that asks for a room and is not disturbed displays it after a positive verdict, whatever else happens in between |
| `RealtimeDelivery.VerdictShows` | back/core/websocket.py:580-596 | a positive verdict on the latest request of a connection shows the room and ends the request |
| `RealtimeDelivery.NoVerdictNoRoom` | back/core/websocket.py:580-596 | a negative verdict, or one that is superseded, shows nothing |
| `RealtimeDelivery.AskMeaning` | back/core/websocket.py:572-580 | asking hides what was displayed and becomes the latest request of the connection; nothing of others changes |
| `RealtimeDelivery.HideMeaning` | back/core/websocket.py:572-576 | hiding leaves no display and no request, and nothing else changes |
| `RealtimeDelivery.ConnectMeaning` | back/core/websocket.py:490-495 | a connection has its identity and exactly the events it declared, if any, and displays nothing |
| `RealtimeDelivery.DisconnectMeaning` | back/core/websocket.py:506-517 | nothing about a connection that is gone is left, and nothing of others changes |
| `RealtimeDelivery.SubscribeMeaning` | back/core/websocket.py:384-392 | the new set of events replaces the old one, and nothing else changes |
| `RealtimeServer.TokensDecide` | back/core/websocket.py:303-309 | in every run the connections of one token that an emission concerns have the same identity, so that one session check per token is enough |
| `RealtimeServer.CheckedAlone` | back/core/websocket.py:303-328 | with the caches a connection is approved if and only if its own check succeeds |
| `RealtimeServer.CachedIsUncached` | back/core/websocket.py:300-328 | in every interleaving, also inside the authorization loop, lookups answered by one set of rules approve exactly the connections whose own check succeeds, and those with an invalid session are gone |
| `RealtimeServer.Server.HandleConnect` | back/core/websocket.py:490-495 | a connection starts with its identity and declared events and displays nothing; a new socket id keeps the invariant |
| `RealtimeServer.Server.HandleDisconnect` | back/core/websocket.py:506-517 | keeps the invariant; everything about the connection is forgotten |
| `RealtimeServer.Server.HideDisplayed` | back/core/websocket.py:573-574 | the connection displays nothing and no request is under way |
| `RealtimeServer.Server.BeginRoomDisplay` | back/core/websocket.py:572-580 | a request replaces what was displayed or asked for before |
| `RealtimeServer.Server.EndRoomDisplay` | back/core/websocket.py:580-596 | keeps the invariant; the room is shown only for a positive verdict on the latest request of a connection that is alive |
| `RealtimeServer.Server.HandleEventSubscriptions` | back/core/websocket.py:384-392 | only a live connection can subscribe, and the new set replaces the old one |
| `RealtimeServer.Server.SelectIdentities` | back/core/websocket.py:284-290 | exactly the connections that want the event are selected |
| `RealtimeServer.Server.BeginEmission` | back/core/websocket.py:270-292 | keeps the invariant; the emission starts with the selected connections and empty caches |
| `RealtimeServer.Server.LookUp` | back/core/websocket.py:303-328 | the caches answer where they can; the connection is approved and put on the list of recipients if and only if its session and permission were found in order |
| `RealtimeServer.Server.CheckRecipient` | back/core/websocket.py:303-328 | keeps the invariant; a connection with an invalid session is dropped |
| `RealtimeServer.Server.AuthorizeRecipients` | back/core/websocket.py:300-328 | when nothing comes between its passes, the whole cached loop approves exactly the connections whose own check succeeds, and these are the recipients, in order |
| `RealtimeServer.Server.MaySend` | back/core/websocket.py:336-343 | the last look before sending is the full test of whether the event is wanted |
| `RealtimeServer.Server.SendToNext` | back/core/websocket.py:336-348 | keeps the invariant; only a recipient that wants the event now and was found entitled gets it |
| `ContextCapsule.MergedGroup` | back/app/agent/context.py:104-136 | a group merged one after the other carries its largest revision, latest time, largest base score and all provenance, and shows one of its members |
| `ContextCapsule.MergeOrderIrrelevant` | back/app/agent/context.py:104-136 | these attributes do not depend on the order of the duplicates |
| `ContextCapsule.MergedIdentity` | back/app/agent/context.py:96-101 | a merged candidate keeps the identity of its group |
| `ContextCapsule.CollectOk` | back/app/agent/context.py:172-182 | the dictionary holds, for each identity, its whole group merged; conversations do not take part |
| `ContextCapsule.MergeMeaning` | back/app/agent/context.py:104-136 | a merge shows the candidate with the better score, the current one when they are equal, and prefers its metadata; provenance is the current one and then what is new, each once |
| `ContextCapsule.IdentityMeaning` | back/app/agent/context.py:96-101 | two resources are the same if and only if their references are, up to surrounding white space; other candidates go by key |
| `CapsuleSelection.RankOrderTotal` | back/app/agent/context.py:183-196 | the sort key ranks every two candidates and is transitive |
| `CapsuleSelection.RankedMeaning` | back/app/agent/context.py:172-196 | the ranking is sorted, repeats no identity, and holds exactly the merged groups |
| `CapsuleSelection.RankedByScore` | back/app/agent/context.py:183-196 | along the ranking the score never rises, with equal scores the time never does, and with equal times the keys are in order |
| `CapsuleSelection.RankedStable` | back/app/agent/context.py:183-196 | candidates that agree in all three keep their order of arrival |
| `CapsuleSelection.SelectGreedy` | back/app/agent/context.py:207-219 | a candidate is kept if and only if, at its turn, its kind was not full and its block fitted after what was kept before |
| `CapsuleSelection.GreedyUnique` | back/app/agent/context.py:207-219 | only one subsequence of the ranking is greedy in this sense: the selected one |
| `CapsuleSelection.SelectBounds` | back/app/agent/context.py:207-219 | the selection stays within the budget and within the limit of each kind |
| `CapsuleContext.ComposeSelects` | back/app/agent/context.py:162-226 | the entries are a greedy subsequence of the ranking, and `truncated` holds if and only if something was omitted |
| `CapsuleContext.ComposeBounds` | back/app/agent/context.py:162-226 | the rendered text has at most 16,000 characters, identities are distinct, kinds keep their limits, and each entry is its whole group merged |
| `CapsuleContext.NothingLost` | back/app/agent/context.py:162-226 | a capsule that is not truncated shows every identity that was offered |
| `CapsuleContext.TextMeaning` | back/app/agent/context.py:197-220 | the text is header, blocks in order with a blank line between, and footer: each block stands where the blocks before it end |
| `CapsuleContext.KindRoom` | back/app/agent/context.py:207-216 | at most 5 tasks, 10 resources, 50 memories and no conversation, in at most 16,000 characters |
| `CapsuleContext.CollectBest` | back/app/agent/context.py:172-182 | the loop builds the dictionary of merged groups |
| `CapsuleContext.Consider` | back/app/agent/context.py:208-219 | one pass of the loop keeps selection, blocks, counters, size and `truncated` in step with the greedy selection |
| `CapsuleContext.SelectRanked` | back/app/agent/context.py:202-219 | the loop with its counters makes the greedy selection |
| `CapsuleContext.ComposeCapsule` | back/app/agent/context.py:162-226 | the composed capsule, or none exactly when there is no contact |
| `CapsuleContext.CollectFresh` | back/app/agent/context.py:262-290 | the candidates of all providers that did not fail, when history is included |
| `CapsuleContext.BuildCapsule` | back/app/agent/context.py:248-318 | which capsule a run gets, with and without a frozen one |
| `CapsuleContext.FrozenEntries` | back/app/agent/context.py:300-312 | from a frozen capsule, an entry of a refreshed kind shows a candidate that a provider contributed to this run, and an entry of another kind one of the frozen entries |
| `CapsuleContext.RunCapsuleMeaning` | back/app/agent/context.py:248-318 | a run has a capsule if and only if it includes history and has a contact; it is the frozen one when that belongs to the contact and nothing is refreshed, and a fresh one when there is none for the contact |
| `CapsuleContext.OfferedMeaning` | back/app/agent/context.py:300-312 | from a frozen capsule are offered its entries of kinds that nobody refreshes and what providers contributed of the others |
| `CapsuleContext.NoStaleEntry` | back/app/agent/context.py:262-318 | no run shows an entry of a refreshed kind that no provider contributed to it, whichever providers failed |
| `ReleaseVersion.VersionIffSpelled` | harness_manager/update.py:41-44 | exactly the strings of three parts of one to six digits are versions |
| `ReleaseVersion.VersionSpelled` | harness_manager/update.py:41-44 | the value is the tuple of the three numbers |
| `ReleaseVersion.VersionOrder` | harness_manager/update.py:41-44 | the order of versions is total; `OlderMeaning` says which of two comes first |
| `ReleaseVersion.OlderMeaning` | harness_manager/update.py:41-44 | a version is older if and only if the first number in which the two differ is smaller |
| `ReleaseVersion.DecimalFront` | harness_manager/update.py:44-44 | the leading digit of a part counts for the highest power of ten |
| `ManagerUpdate.DecideMeaning` | harness_manager/update.py:237-242 | an update goes ahead if and only if the release is newer, and is a no-op if and only if the versions are equal |
| `ManagerUpdate.DecideByNumbers` | harness_manager/update.py:237-242 | with three numbers installed and three offered, the update goes ahead if and only if the first that differs is greater in the offer, and is a no-op if and only if none differs |
| `ManagerUpdate.NeverDowngraded` | harness_manager/update.py:237-246 | over any number of updates whose rollback, if any, succeeded, the installed numbers never go back: at the first number that differs the later one is greater |
| `ManagerUpdate.RestoredIsOriginal` | harness_manager/update.py:207-211 | putting saved names back and removing the others gives the original directory |
| `ManagerUpdate.Host.ReplaceFile` | harness_manager/update.py:171-182 | the target is replaced whole or not at all, and a temporary stays behind only when its removal failed |
| `ManagerUpdate.Host.ReplaceFiles` | harness_manager/update.py:169-182 | whatever fails, the names before some point hold their staged content and the rest what they held |
| `ManagerUpdate.Host.SaveFiles` | harness_manager/update.py:189-196 | succeeds if and only if all names are absent or regular and no copy failed, and then holds exactly their contents |
| `ManagerUpdate.Host.RestoreFiles` | harness_manager/update.py:207-211 | when no step fails every name is as the backup says; other names are never touched |
| `ManagerUpdate.Host.RollForward` | harness_manager/update.py:199-203 | succeeds if and only if no step fails, and then every distributed file is the staged one, installed, and the service runs again with the new version |
| `ManagerUpdate.Host.RollBack` | harness_manager/update.py:205-215 | succeeds if and only if no step fails, and then every distributed file is as saved, installed, and the service runs again with the old version |
| `ManagerUpdate.Host.Apply` | harness_manager/update.py:185-219 | all distributed files are the staged ones, or the directory is as it was, or the backup holds everything that was there; no other name is touched; a temporary stays behind only if its removal failed, and none after a success; the update succeeds if and only if nothing fails; the service is stopped before the files change and runs again with the version that is then installed |
| `ManagerUpdate.Host.Prepare` | harness_manager/update.py:188-197 | succeeds if and only if all names are absent or regular and no step fails; the files are untouched |
| `ManagerUpdate.Host.Install` | harness_manager/update.py:243-246 | an archive that does not match its manifest changes nothing |
| `ManagerUpdate.Host.Update` | harness_manager/update.py:236-248 | files change only for a consistent release whose numbers are greater than those installed; after success each distributed file is the one of the release and the service ran again with its version; after a failed rollback the backup holds each file that was there; no other file is touched |
| `ManagerUpdate.Host.Judge` | harness_manager/update.py:236-242 | without a download or a readable installed version nothing goes ahead; otherwise the comparison of versions decides |
| `ManagerUpdate.Host.Run` | harness_manager/update.py:135-146 | a service command is skipped when the manager was not running, and otherwise is done or fails |
| `ManagerUpdate.Host.Restart` | harness_manager/update.py:200-203 | installation, then start, then the announced version, the last two only if the manager was running |

## Left out

- Docker, systemd, SSH, HTTP, SQL and subprocess calls: each is a step that may succeed or fail. `make install` and the service commands are taken not to change distributed files.
- JSON text: parsing and printing are an arbitrary codec for which printing and parsing again gives the value back.
- The score of a context candidate, its rendering and HTML escaping: parameters of the capsule model. The score is one function of the candidate, so that the clock does not advance during one composition.
- `AgentContextCandidate.metadata`: stated for one merge, not for a group of duplicates.
- The other parts of the run context (system instructions, history, messaging, separate memory and continuity groups): concatenation only.
- Tool names are taken as normalized before they reach `add_message`; the alias table is a lookup.
- SSH public keys are taken without surrounding white space. Whether an `agent_id` occurs under two codes is not restricted, as in the code.
- Loss of the registry file itself: saving it is one atomic effect, as the code's write-and-rename makes it.
- Concurrent calls of `start` and `stop`: one owner, as in `back/main.py:246-251`.
- RuntimeSupervisor.LifecycleSafety: stated for prompt runs as described above, because the unconditional statement is false of the code, as SupervisorRaces.RaceWithoutPromptness shows.
- RuntimeSupervisor.NeverForgotten: stated for the same runs, because the unconditional statement is false of the code, as SupervisorRaces.ForgottenWithoutPromptness shows.
- "Every late start is stopped": a start that ends while a stop is busy with other components is only marked for cleanup.
- Readiness reports and probes of the supervisor: read-only.
- Browsers without `navigator.locks`: the lock across tabs is taken to exist. Generation identifiers are taken to be fresh.
- Request cancellation, error messages and redirects of the session client.
- Reuse of a socket id. One pass of the authorization loop is one step: its two lookups read nothing that other handlers change.
- SocketIO room bookkeeping and the refusal of unclassified event subjects in `emit`.
- `_without_execution_preparation` and the messenger and Hermes migrations: not idempotent on strings, or SQL only.
- The selection of rows by the migration: an arbitrary test on the row number and the value. Tables and columns are taken one at a time.
- Fan-in and fan-out counts of `dependency_metrics`, import extraction, fan-out budgets and private-import checks: set algebra.
- Download, signature, checksum and archive checks of the manager update beyond the list of files and the announced version; file modes and time stamps; a process that is killed in the middle.
- Floating-point rounding, wall-clock jumps, recursion limits, logging and locales.
- `front/pwa`, `front/core/websocket.ts`, `code-executor`, the manager's own server, qualification and release scripts, agent CRUD and authorization services.

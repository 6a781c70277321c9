# PullPilot: verified model

PullPilot updates Docker containers: it soaks new images, replaces containers in a
transaction with rollback, and can be poked into an early check through a webhook
relay. This project models the parts of it that have to survive failures, crashes
and interleavings, and proves what they guarantee. `dafny verify dfyconfig.toml`
checks everything.

There are two state machines and the bookkeeping between them.

**The update transaction** (`Docker`, `Networking`, `HealthGate`, `Transaction`,
`TransactionOutcome`, `TransactionSafety`, `Recovery`, `ReconcilePass`, `CycleRecovery`,
`RepeatedPasses`). The host is a map from container ids to containers with unique names.
Every call either takes effect or is refused without effect; which of the two is up to
the host, so the methods choose freely and report the choices as ghost "fates", over
which the theorems quantify. A process that dies before a call is a run in which that
call and all later ones of the update are refused, because a refused call changes
nothing; hence a statement about all fates covers every crash point as well as every
failure pattern. Names are `Base(stem)` or `Old(name)`, at any depth, where stems do not
themselves end in `_pp_old`; `Docker.ParseRender` and `Docker.RenderParse` show that
this is the same as working on strings with the suffix.

**Deciding what to update** (`Bookkeeping`, `StateRuns`, `Sorting`, `Planning`,
`PlanBuilding`, `PlanRuns`, `Cycles`, `Blacklist`, `StayingCurrent`, `CycleMarks`,
`Daemon`). The state object has its maps and the content of its file; a save may fail,
and a restart reads the file. The theorems are about logs of events (evaluations,
attempts, announcements, restarts). `Daemon.Daemon.Run` is the whole cycle: it ties what
is applied to the host to what the log says, attempt by attempt, so that the theorems
about logs reach the host (`Daemon.AppliedWasSoaked`, `Daemon.RejectedIsNotApplied`).

**The poke relay and the debounce** (`Base64Url`, `Rfc4648`, `Relay`, `RelaySafety`,
`RelayDelivery`, `RelayCap`, `RelayTiming`, `Reaper`, `Debounce`, `EndToEnd`), and the
registry's challenge parser (`Challenge`, `ChallengeReading`, `ChallengeParts`,
`ChallengeRoundTrip`). Relay handlers are cut at their awaits on KV and crypto, where
other handlers may run; awaits on the object's own storage do not yield. The suspended
remainder of a handler is part of the state. Times are milliseconds of one clock that
never goes back, and a closed socket leaves the set at once. The signature check is a
verdict that comes with its answer; the theorems need only which challenge it was asked
about.

Code that changes state step by step is written as classes and methods, each proved to
compute a specification function; the theorems are about these functions.

## Where the code does less than one might expect

The model follows the code. For each of these there is a lemma that shows it happening
and one that says when it does not.

- The original's README (line 58) says that a digest must remain current while it
  soaks. The code keeps the first time it saw the digest, so a tag that leaves and
  returns resumes its clock. `StayingCurrent.ReturnResumesClock` puts the two ages side
  by side: the update is planned by the age of the old clock, and the digest has been
  current for as long as it has been back (`StayingCurrent.RemainedCurrentIff`; a run in
  `StayingCurrent.ReturningTagResumesClock`). Without returns the README is right
  (`StayingCurrent.CurrentUnlessReturned`), and `PlanRuns.SoakSafety` always holds.
- The README (lines 252-256) says that a bad digest is never retried. Within a cycle it
  is, exactly if another container is due for it and comes later
  (`Cycles.RetriedIffAnotherIsDue`, `Blacklist.SameCycleStillTries`). Later cycles never
  do as long as the rejection is remembered (`Blacklist.BlacklistedNeverRetried`); it is
  forgotten exactly if the process restarts before any save succeeds
  (`Blacklist.BlacklistedIff`, `Blacklist.LostRejectionIsRetried`).
- The README (lines 255-260) says that only a genuine failure blacklists. In the code
  every gate error other than a cancellation or deadline does, an inspect call that
  fails included (`TransactionSafety.InspectErrorBlacklists`);
  `TransactionSafety.BlacklistedIffCondemned` is the exact condition.
- Reconcile looks at names only. It discards the original exactly when a replacement
  exists (`Recovery.DiscardedIffReplacementExists`), even one that failed its gate
  (`Recovery.FailedReplacementCanWin`), and it never looks at a container stopped under
  its own name (`Recovery.StoppedBeforeRenameStaysStopped`).
  `Recovery.UpIffFreeOrRunning` says exactly when the service is up again.
- Reconcile does not force a remove, so it cannot remove a running leftover, and it
  starts what it renames. Updates leave only hosts that one pass heals
  (`CycleRecovery.CycleRecovery`), but deeper leftovers can wedge
  (`RepeatedPasses.GapNeverHeals`); `RepeatedPasses.HealsIff` says exactly when.
- The pull is by tag: the deployed digest is the planned one exactly when the tag did
  not move (`TransactionSafety.UpdateReplaces`).
- The relay's cap of 4 listeners does not hold when checks overlap: 11 are reached
  (`RelayCap.ElevenListeners`) and never exceeded (`RelaySafety.RunInv`).
  `RelayCap.RoomyRunsKeepFour` and `RelayCap.CapHoldsIff` say when 4 does hold.
- The alarm handler yields before it reschedules, which can leave a socket that opens
  meanwhile in the handshake well past 60 s (`Reaper.YieldingAlarmForgetsSocket`). It
  does so exactly when some alarm under way had found no other socket in the handshake
  (`Reaper.ReapedIff`).
- The challenge reader knows no escapes. `ChallengeRoundTrip.ChallengeRoundTrip` says
  exactly which values it reads back.
- The debounce has no bound on its delay (`Debounce.SteadyPokesPostpone`); what it does
  is exactly `Debounce.DebounceIsPerBurst`.

## Model

| member | source | states |
|---|---|---|
| Docker.ParseRender | internal/engine/engine.go:525 | Appending `_pp_old` and cutting it are inverse on names, at any nesting depth; a spelling ends in the suffix exactly when the name is `Old`. |
| Docker.RenderParse | internal/engine/engine.go:647-650 | Every string is the spelling of exactly one parsed name, so working with `Base`/`Old` loses nothing against strings. |
| Common.LeqIsLexicographic | internal/engine/engine.go:766 | The order of network and container names is dictionary order: a prefix first, otherwise the first difference decides. |
| Networking.BuildNetworking | internal/engine/engine.go:757-775 | Whatever order the map is ranged in, the result is the split of the networks: the least name at create time, the others afterwards. |
| Networking.SplitUnique | internal/engine/engine.go:757-775 | The split is determined by the networks alone. |
| Networking.SplitLosesNothing | internal/engine/engine.go:757-790 | The two halves share no network and together carry exactly the projected endpoints; one network goes to create unless there is none. |
| Networking.PrimaryComesFirst | internal/engine/engine.go:766-770 | The network attached at create time is the first of all in dictionary order. |
| HealthGate.Run | internal/engine/engine.go:670-722 | The polling loop stops at the first poll that ends it, with that poll's verdict, which is `Judge` of the timeline, after at most timeout / 2 s + 2 polls (one for a negative timeout), whatever the latencies. |
| HealthGate.FirstDecisiveWins | internal/engine/engine.go:693-715 | Without cancellation the verdict is that of the first decisive observation, and the timeout rule's if none is decisive before the deadline passes. |
| HealthGate.VerdictMeans | internal/engine/engine.go:693-715 | A gate fails exactly if the first poll that ends it shows a non-cancelled call error, no state, an unhealthy, dead or restarting container, or one still not healthy past the deadline; it passes exactly if that poll shows a healthy one, or past the deadline one without a health check that is up and was not restarted. |
| HealthGate.DeadlineNeverCuts | internal/engine/engine.go:513-522 | If the steps before the gate and one inspect take less than 118 s, the operation deadline never interrupts the gate. |
| HealthGate.FloorNeverCuts | internal/engine/engine.go:517-520 | The five minutes an operation gets at least leave a short gate more room than the 118 s: up to 298 s less its own timeout. |
| HealthGate.DeadlineBoundIsSharp | internal/engine/engine.go:513-522 | At exactly 118 s there is a run in which the deadline does interrupt a gate that is still waiting. |
| Transaction.Engine.DoRollback | internal/engine/engine.go:610-628 | The call-by-call rollback leaves the world, and emits the notice, of the specification function for the host's answers. |
| Transaction.Engine.AttachAll | internal/engine/engine.go:566-571 | Attaching in map order, stopping at the first refusal, for some enumeration of the extra networks. |
| Transaction.Engine.DoApply | internal/engine/engine.go:492-607 | The call-by-call update ends in exactly the world, error, marks and notices of `Apply` for the host's answers, with the gate judged on exactly the timeline it was given. |
| Transaction.Engine.Replace | internal/engine/engine.go:543-606 | The same for everything after the rename, including which failures blacklist and which call the rollback; the verdict is the polling loop's on the given timeline. |
| Transaction.Engine.ReconcileOrphans | internal/engine/engine.go:633-666 | The pass over a listing, with the stale set of names present, leaves the world of `Reconcile`. |
| Transaction.Engine.HealEntry | internal/engine/engine.go:645-664 | One listing entry: superseded containers are removed, other leftovers renamed back and, only then, started. |
| TransactionOutcome.ApplyAfterRename | internal/engine/engine.go:496-541 | An update either reaches the recreate with the old container parked and its name free, or changes nothing except that a failed rename leaves the container stopped. |
| TransactionOutcome.ConnectAllOutcome | internal/engine/engine.go:563-571 | Attaching touches one container only, succeeds exactly when no network is refused, and then gives a result that does not depend on the order. |
| TransactionOutcome.RollbackOutcome | internal/engine/engine.go:610-628 | Rollback puts the old container back exactly when the replacement is gone and the rename accepted; otherwise, and only then, it asks for help and the name stays lost. |
| TransactionOutcome.RecreateOutcome | internal/engine/engine.go:543-606 | After the rename an update is replaced, undone or stuck, each with its exact world and the exact condition on the host's answers. |
| TransactionSafety.UpdateOutcome | internal/engine/engine.go:492-628 | Every uninterrupted or interrupted update, under every failure pattern, ends in one of five exactly described worlds. |
| TransactionSafety.ErrorTells | internal/engine/engine.go:500-577 | Each error is returned exactly when its own step is the first to fail. |
| TransactionSafety.AttachErrorNamesFirst | internal/engine/engine.go:566-570 | A failed attachment names the first network, in map order, that was refused. |
| TransactionSafety.NoticeIffNameLost | internal/engine/engine.go:615-620 | ACTION NEEDED is emitted exactly when a failed update left the service without its name. |
| TransactionSafety.NoticesTell | internal/engine/engine.go:586-619 | The notices of an update, exactly: success, a gate that did not pass, and a lost name are each reported once, and nothing else. |
| TransactionSafety.RollbackRestoresWorld | internal/engine/engine.go:556-592 | A failure after the rename whose rollback calls succeed restores exactly the containers of before. |
| TransactionSafety.UpdateReplaces | internal/engine/engine.go:543-606 | Success puts a new container of the same image reference under the name, on exactly the old container's networks and with its configuration on each; its digest is the planned one exactly when the tag did not move. |
| TransactionSafety.OthersUntouched | internal/engine/engine.go:492-628 | No update, however it ends, changes any other container. |
| TransactionSafety.AttachOrderIrrelevant | internal/engine/engine.go:563-571 | Two orders of attaching the extra networks give the same verdict and, on success or clean rollback, the same world. |
| TransactionSafety.RemovedOnlyAfterHealthyGate | internal/engine/engine.go:573-596 | Within an update the old container disappears only if the replacement holds the name and, when it was to run, some poll of the gate cleared it. |
| TransactionSafety.OnlyFailedGateBlacklists | internal/engine/engine.go:579-597 | For any plan, even one that no longer describes its container, marks follow the outcome: bad for a failed gate only, applied for success only. |
| TransactionSafety.GateDecides | internal/engine/engine.go:579-591 | The gate's verdict decides the update once the gate is reached, and only then. |
| TransactionSafety.BlacklistedIffCondemned | internal/engine/engine.go:579-585 | A digest is marked bad if and only if the update reached the gate and a poll condemned the replacement. |
| TransactionSafety.InspectErrorBlacklists | internal/engine/engine.go:682-685 | For any plan, a run in which one inspect call fails of its own accord, before a healthy container, blacklists the digest. |
| TransactionSafety.ApplyKeepsWf | internal/engine/engine.go:492-607 | Names stay unique and ids are never reused, for any plan, even one that no longer describes its container. |
| Recovery.ShallowestSurvives | internal/engine/engine.go:633-666 | Reconcile never removes a listed container whose original was not listed, in any list order and under any refusals. |
| Recovery.ShallowestExists | internal/engine/engine.go:638-651 | Every listed family has such a container. |
| Recovery.ReconcileKeepsFamilies | internal/engine/engine.go:633-666 | So reconcile keeps every name family, at any depth of `_pp_old`. |
| Recovery.ApplyKeepsFamilies | internal/engine/engine.go:492-628 | So does every update, however it fails or dies. |
| Recovery.PlansStayFaithful | internal/engine/engine.go:213-223 | Plans made before the first update of a cycle still describe their containers when their turn comes. |
| Recovery.NoServiceLost | internal/engine/engine.go:492-666 | Over every run of cycles, with any call failing and a crash at any point, a family that has a container keeps one. |
| Recovery.CrashRecovery | internal/engine/engine.go:539-666 | After a death anywhere past the rename, one reconcile pass over any listing restores exactly the original names without leftovers, held by the replacement if it still exists; a second pass changes nothing. |
| Recovery.DiscardedIffReplacementExists | internal/engine/engine.go:651-654 | Recovery discards the original exactly when the replacement still exists, gate or no gate. |
| Recovery.FailedReplacementCanWin | internal/engine/engine.go:651-654 | "The old container goes only after a healthy gate" is false across crashes: for any running plan, answers of the host under which a condemned replacement supersedes the original, over every listing. |
| Recovery.StoppedBeforeRenameStaysStopped | internal/engine/engine.go:534-541 | A failed rename, or a death between stop and rename, is not healed: the container stays stopped under its own name. |
| Recovery.UpIffFreeOrRunning | internal/engine/engine.go:644-664 | After recovery the service runs exactly when the update left its name free or with a running holder. |
| ReconcilePass.ReconcileExactly | internal/engine/engine.go:633-666 | The exact result of a pass for any host, any listing and any answers, call by call. |
| ReconcilePass.OnlyRenamedAreStarted | internal/engine/engine.go:651-664 | Whatever the host answers, a container that keeps its name through a pass is unchanged, one that is renamed gets its own name back with only its liveness changed, and one that is removed was stopped and had its name taken. |
| CycleRecovery.ReconcileManyLeftovers | internal/engine/engine.go:633-666 | One pass whose calls succeed, over any listing of any host, renames and starts exactly the leftovers whose name is free, removes exactly the others that are stopped, and leaves everything else. |
| RepeatedPasses.HealsIff | internal/engine/engine.go:633-666 | Repeated passes reach a host without leftovers if and only if every container with another of its service above it is stopped and has the next name taken. |
| RepeatedPasses.GapNeverHeals | internal/engine/engine.go:651-661 | A host that never heals: with `n` and `n_pp_old_pp_old` but no `n_pp_old`, the leftover is renamed, started, and then never removable from beside `n`. |
| CycleRecovery.CycleRecovery | internal/engine/engine.go:492-666 | After any updates of a cycle, each failed or died anywhere, one pass brings back exactly the original names; a second changes nothing; a service is up exactly when its name was left free or with a running holder. |
| Bookkeeping.State.Save | internal/state/state.go:83-93 | A save replaces the whole file or leaves it as it was. |
| Bookkeeping.State.DoSeenAt | internal/state/state.go:97-107 | Answers and records the first observation; saves only when it is new. |
| Bookkeeping.State.DoPeekSeen | internal/state/state.go:111-116 | Reads the clock without recording. |
| Bookkeeping.State.DoMarkBad | internal/state/state.go:119-124 | Blacklists in memory, and on disk if the save succeeds. |
| Bookkeeping.State.DoFirstNotify | internal/state/state.go:71-81 | True exactly for a pair not yet announced; saves only then. |
| Bookkeeping.State.DoMarkApplied | internal/state/state.go:135-145 | Deleting while ranging, in any order, removes exactly the stale clocks. |
| Bookkeeping.KeyInjective | internal/state/state.go:74 | A flat key names one container and one digest when container names have no slash. |
| Bookkeeping.StaleIsOwn | internal/state/state.go:139-142 | Pruning hits exactly the same container's other digests, never a name that shares a prefix. |
| Bookkeeping.SlashBreaksPruning | internal/state/state.go:139-142 | With a slash in a name pruning does hit another container: a concrete pair of names. |
| StateRuns.FlatRefinesLedger | internal/state/state.go:71-145 | Over every run, with failed saves and restarts, the flat maps behave as a map per container, in memory and on disk. |
| StateRuns.LedgerKeepsEarliest | internal/state/state.go:97-145 | With successful saves the clock of a pair exists exactly if it was observed since its last prune, and then holds the first such time. |
| StateRuns.SeenAtKeepsEarliest | internal/state/state.go:97-107 | `SeenAt` answers with the first observation since the last prune, restarts included, and with now if there is none. |
| StateRuns.ClocksAreHonest | internal/state/state.go:33-107 | Every clock in memory or on disk was started by a real observation, also with failed saves and restarts. |
| StateRuns.BlacklistForever | internal/state/state.go:119-131 | A blacklisting that reached the disk survives every later operation and restart. |
| StateRuns.LastAppliedIsLatest | internal/state/state.go:135-145 | With successful saves the digest recorded as applied is that of the container's last update. |
| StateRuns.OnlyMarkedIsBad | internal/state/state.go:119-131 | Nothing is blacklisted that was not marked bad. |
| StateRuns.AnnouncedOnce | internal/state/state.go:71-81 | With successful saves each container and digest is announced at most once over any run with restarts. |
| StateRuns.NotifiedIff | internal/state/state.go:71-81 | With successful saves a pair counts as announced exactly if it has been, over any run with restarts. |
| Sorting.SortIsStable | internal/engine/engine.go:169-174 | Sorting permutes, and keeps plans of equal order and name in the order found. |
| Sorting.SortedUnique | internal/engine/engine.go:168-174 | There is only one sorted arrangement when keys tell the elements apart. |
| Planning.Discover | internal/engine/engine.go:312-366 | Exactly the containers in scope, not opted out and inspectable are managed; none at all when the project is unknown. |
| Planning.Evaluate | internal/engine/engine.go:379-450 | The branch-by-branch evaluation decides as specified, touches the state only when recording, and only through the soak clock. |
| Planning.UpdateIff | internal/engine/engine.go:379-450 | An update is proposed exactly for a tagged, known, changed, foreign, not blacklisted, not monitor-only image whose soak has elapsed. |
| Planning.OtherActionsIff | internal/engine/engine.go:382-428 | Exactly when a container is up to date, only monitored, skipped, or held to its soak; the daemon's own container is monitored even for a blacklisted digest, and a blacklisted digest is skipped even where updates are only monitored. |
| Planning.SoakDecides | internal/engine/engine.go:430-449 | What separates soaking from updating: the container's own soak, or else the configured one, against the age of its clock, or no age at all without one. |
| Planning.PlanReports | internal/engine/engine.go:380-448 | The digests a plan reports and, for each reason, exactly when it is given. |
| Planning.SoakLeftIsExact | internal/engine/engine.go:443-449 | The remaining soak shown is exact: with all else unchanged the update is due once it has passed, and no sooner. |
| PlanBuilding.BuildPlan | internal/engine/engine.go:159-176 | One evaluation per target, each sound on the state it found, in plan order; without recording the state is unchanged. |
| PlanBuilding.SortedIsInPlanOrder | internal/engine/engine.go:168-174 | Plans go by their `order` label and, within it, by name in dictionary order. |
| PlanBuilding.PlayIsAfter | internal/engine/engine.go:219-253 | What cycles do to the state is a run of state operations. |
| PlanBuilding.RecordingIsInvisible | internal/engine/engine.go:430-449 | Recording clocks during a pass changes no later decision of that pass. |
| PlanBuilding.FrozenClock | internal/engine/engine.go:159-176 | With clock and registry fixed, the outcome of a recording pass is a function of the state it started from. |
| PlanBuilding.StatusIsFaithful | internal/engine/engine.go:178-192 | A read-only pass shows the plans a recording pass would make and changes nothing. |
| PlanBuilding.PlanIsDeterministic | internal/engine/engine.go:168-175 | The plan is the same for every discovery order when names are unique. |
| PlanBuilding.RecordedClocks | internal/engine/engine.go:436-442 | A recording pass starts exactly the clocks of pairs that reach the soak gate for the first time, at now. |
| PlanBuilding.RecordingIsDeterministic | internal/engine/engine.go:436-442 | The recorded state does not depend on the discovery order either. |
| PlanBuilding.TwoPassesAgree | internal/engine/engine.go:159-192 | Two passes from the same state give the same plans, whatever the listing orders and whether or not they record; two recording passes leave the same book. |
| PlanRuns.ClockHasObservation | internal/state/state.go:33-107 | Every clock an evaluation can consult goes back to a recording evaluation that saw the digest upstream. |
| PlanRuns.SoakSafety | internal/engine/engine.go:430-449 | Whenever an update is planned, the digest was really observed as that container's upstream at least the effective soak earlier, over all runs with restarts and failed saves. |
| StayingCurrent.RemainedCurrentIff | internal/engine/engine.go:430-449 | A digest stayed current through its soak if and only if the earliest observation since it was last missed is at least the soak old. |
| StayingCurrent.CurrentIffFirstIsAged | internal/engine/engine.go:430-449 | With a clock that does not go back, that is the age of the first observation since the last miss. |
| StayingCurrent.CurrentUnlessReturned | README.md:58-60 | If the tag never comes back to a digest it has left, every planned update's digest was the answer of every evaluation since an observation at least the effective soak earlier. |
| StayingCurrent.ReturnResumesClock | internal/state/state.go:100-106 | In any history in which a tag left a digest after its clock started and came back, the clock being kept: the update is planned exactly if the old clock is old enough, and the digest stayed current exactly if it has been back long enough. |
| StayingCurrent.AwayIsNotCurrent | internal/engine/engine.go:430-449 | A digest that was away within the soak window has not been current. |
| StayingCurrent.ReturningTagResumesClock | internal/state/state.go:100-106 | A run in which a tag leaves and returns and is rolled out on its old clock without having been current. |
| Blacklist.BlacklistedIff | internal/state/state.go:33-131 | A digest is blacklisted, in memory or on disk, if and only if some gate rejected it and that rejection was kept; over every log with failed saves and restarts. |
| Blacklist.BlacklistedNeverRetried | internal/engine/engine.go:421-424 | No later cycle tries a rejected digest on any container as long as the rejection is kept: in the same process always, and after restarts if any save succeeded between the rejection and the first of them. |
| Blacklist.PlannedMeansForgotten | internal/engine/engine.go:421-424 | An update is planned to a rejected digest only if the process was restarted since and no save succeeded before that. |
| Blacklist.LostRejectionIsRetried | internal/state/state.go:119-124 | The remaining case: a history in which no save succeeds, the process restarts, and the next cycle tries the rejected digest again. |
| Cycles.EveryUpdateIsTried | internal/engine/engine.go:219-230 | A cycle tries exactly the planned updates, whatever happens to their digests in the meantime. |
| Cycles.EveryOtherIsAnnounced | internal/engine/engine.go:231-248 | And it announces exactly the soaking and the monitored ones. |
| Cycles.PlansAllDue | internal/engine/engine.go:379-450 | Once a cycle plans an update to a digest, it plans one for exactly the containers that meet that condition. |
| Cycles.RetriedIffAnotherIsDue | internal/engine/engine.go:213-230 | A complete cycle tries a digest again after rejecting it if and only if another container comes later in plan order whose image is tagged, known, not already at the digest and offered it, not the daemon's own, not only monitored, and soaked; the blacklist makes no difference. |
| Cycles.ChronicleWellFormed | internal/engine/engine.go:195-258 | In every history of cycles, cut short only by crashes, each attempt belongs to an update planned in its own cycle. |
| Blacklist.SameCycleStillTries | internal/engine/engine.go:213-223 | A complete cycle, for any two containers and any digest, in which the digest is rejected and blacklisted on the first and still tried on the second. |
| Daemon.InspectedIsFaithful | internal/engine/engine.go:335-347 | What inspecting yields is a plan that describes its container: name, image, liveness and networks. |
| CycleMarks.MarkedIffCondemned | internal/engine/engine.go:579-586 | The updates of a cycle blacklist exactly the digests that some poll condemned at a gate they reached. |
| Daemon.EndTells | internal/engine/engine.go:579-597 | What the log says of an attempt is what the transaction marked: a rejection exactly with a bad mark, an application exactly with an applied one. |
| Daemon.AnnouncedTheFirstTime | internal/engine/engine.go:236-248 | With successful saves a soaking or monitored update is announced, as the one or the other, exactly the first time its container and digest come up, over any history. |
| Daemon.Daemon.TryUpdate | internal/engine/engine.go:222-230 | Trying a plan runs the transaction with the given gate; afterwards the state carries exactly its marks, so that for a faithful plan the blacklist gains the digest exactly if the update reached the gate and a poll condemned it. |
| Daemon.Daemon.ActOnPlans | internal/engine/engine.go:219-253 | Exactly one act per plan that calls for one, in plan order: an attempt per update, an announcement per soaking or monitored one; the attempts are, in order, the updates applied. |
| Daemon.Daemon.Run | internal/engine/engine.go:195-258 | Every real cycle is a cycle of the runs in Recovery and one more cycle of the history; it evaluates exactly the inspected containers in scope and not opted out; its attempts are, one for one and in order, the updates applied to the host; the blacklist gains exactly what was condemned, and the daemon sends exactly the messages of its acts. |
| Daemon.Daemon.Restart | internal/state/state.go:33-67 | A new process knows what the file holds and continues the same history. |
| Daemon.AppliedWasSoaked | internal/engine/engine.go:430-449 | Every update that any cycle of a history applies to the host is to a digest really observed upstream of that container at least its effective soak before the evaluation that planned it. |
| Daemon.RejectedIsNotApplied | internal/engine/engine.go:421-424 | No cycle of a history applies to the host a digest that an earlier cycle rejected, as long as the rejection is kept. |
| Base64Url.B64UrlEncode | worker/src/relay.ts:90-94 | Builds the binary string byte by byte and returns the unpadded encoding. |
| Base64Url.B64UrlDecode | worker/src/relay.ts:97-104 | Fails exactly where `atob` throws; otherwise fills the buffer with the decoded bytes. |
| Base64Url.RepaddingRestores | worker/src/relay.ts:90-100 | The encoding has no padding, `+` or `/`, its length is never 1 mod 4, and re-padding restores exactly what was stripped. |
| Rfc4648.EncodingFollowsStandard | worker/src/relay.ts:90-94 | For every byte sequence the encoding has one character of the standard's table for every six bits, and nothing else (section 5 of RFC 4648). |
| Base64Url.RoundTrip | worker/src/relay.ts:90-104 | Decoding the encoding of any byte sequence gives it back. |
| Base64Url.PaddedRoundTrip | worker/src/relay.ts:96-104 | Padded input decodes as well. |
| Base64Url.EncodingInjective | worker/src/relay.ts:90-94 | Distinct byte sequences have distinct encodings. |
| Base64Url.BadLengthFails | worker/src/relay.ts:96-104 | Input of length 1 mod 4 without white space never decodes. |
| Challenge.SplitParams | internal/registry/registry.go:195-215 | The loop computes the quote-aware split. |
| Challenge.ParseChallenge | internal/registry/registry.go:168-192 | The loop over the parts yields the parsed parameters, or nothing for another scheme or an empty realm. |
| Challenge.SplitIsInvertible | internal/registry/registry.go:195-215 | Joining the parts with commas gives the input back apart from one dropped trailing unquoted comma. |
| Challenge.PartsAreCommaFree | internal/registry/registry.go:195-215 | No part contains a comma outside quotes. |
| ChallengeParts.PartIsRead | internal/registry/registry.go:174-186 | A part without an equal sign says nothing; otherwise its key counts in any case and with any white space around it, and unknown keys say nothing. |
| ChallengeParts.ValueIsRead | internal/registry/registry.go:178 | Unquoted values are read as they are, quoted ones without their quotes, with white space around them dropped. |
| ChallengeParts.LastOneCounts | internal/registry/registry.go:173-187 | Of several parts for one key the last counts. |
| ChallengeParts.IsChallengeIff | internal/registry/registry.go:168-191 | A header is a challenge exactly if its scheme is Bearer, in any case, and a nonempty realm is left at the end. |
| ChallengeReading.ReadParam | internal/registry/registry.go:173-186 | A rendered parameter gives its value back exactly if the value has no quote at either end and no comma the reader finds outside quotes; otherwise a shorter one. |
| ChallengeRoundTrip.RealmIsSound | internal/registry/registry.go:173-186 | No later part of a challenge can repair its first parameter: if the whole is read back, the realm is sound by itself. |
| ChallengeRoundTrip.ChallengeRoundTrip | internal/registry/registry.go:167-215 | Any rendered Bearer challenge parses back to the same three values if and only if the realm is not empty, no value has a quote at either end or a comma the reader finds outside quotes, and the quotes inside realm and service come in pairs. |
| ChallengeRoundTrip.QuotesAreNotEscaped | internal/registry/registry.go:178 | Families of challenges that fail: a realm in quotes of its own, a realm that closes its quotes before a comma; with a pair of quotes inside it is read back. |
| Relay.WebhookRelay.HandleUpgrade | worker/src/relay.ts:168-219 | The handler's step on cap, attachment and alarm. |
| Relay.WebhookRelay.HandleAuthBegin | worker/src/relay.ts:246-282 | The checks of authentication up to the KV lookup. |
| Relay.WebhookRelay.HandleAuthEnd | worker/src/relay.ts:288-325 | What follows the signature check, on whatever state it finds by then. |
| Relay.WebhookRelay.FlushPending | worker/src/relay.ts:444-460 | Sends the stored poke to every listener and clears it, or does nothing. |
| Relay.WebhookRelay.HandlePokeBegin | worker/src/relay.ts:358-391 | The fixed-window guard. |
| Relay.WebhookRelay.HandlePokeEnd | worker/src/relay.ts:393-420 | Stores, coalesces or delivers. |
| Relay.WebhookRelay.ScanSockets | worker/src/relay.ts:491-509 | The alarm's scan closes exactly the overdue sockets and reports what is left. |
| Relay.WebhookRelay.AlarmFires | worker/src/relay.ts:487-514 | The alarm up to its KV refresh, or to the end if there is none. |
| Relay.WebhookRelay.AlarmResumes | worker/src/relay.ts:516-524 | Rescheduling after the KV refresh. |
| RelaySafety.StepCapped | worker/src/relay.ts:176-202 | Every step of every handler keeps the caps of 8 and 11. |
| RelaySafety.AuthedOnlyByCheck | worker/src/relay.ts:320-323 | Listeners never revert, and a socket becomes one only by a successful check over its own challenge. |
| RelaySafety.SignedOverOwnBytes | worker/src/relay.ts:194-323 | However the run goes, a socket that becomes a listener had a signature verified over exactly the random bytes drawn for it. |
| RelaySafety.ClearedOnlyByDelivery | worker/src/relay.ts:397-419 | The stored poke is cleared only with a delivery to a listener; an accepted poke is stored, sent or coalesced. |
| RelaySafety.RunInv | worker/src/relay.ts:246-460 | Over every interleaving: at most 8 sockets in the handshake, at most 11 listeners, all authentic, and no stored poke stranded while a listener is there. |
| RelaySafety.EveryRunFromStart | worker/src/relay.ts:246-460 | The same bounds and guarantees for every run from the start. |
| RelaySafety.ChecksBeginInTime | worker/src/relay.ts:253-279 | Over every run a signature check begins exactly for an unauthed socket of a known webhook, with room for a listener, within the 30 s of its challenge; any other attempt closes the socket. |
| RelaySafety.AsleepAdmitsNobody | worker/src/relay.ts:262-266 | After hibernation nobody becomes a listener until the next request arrives, because the webhook id is forgotten. |
| RelaySafety.DeliveriesSpaced | worker/src/relay.ts:393-419 | Direct deliveries are stamped at least 5 s apart, also when slow handlers finish late. |
| RelaySafety.FlushCoalesces | worker/src/relay.ts:456-459 | After a flush no direct delivery is stamped within 5 s either. |
| RelayDelivery.FateOfPoke | worker/src/relay.ts:393-419 | A poke with nobody listening is stored, however recent the last delivery; with listeners it goes to all of them, unless one was delivered within 5 s. |
| RelayDelivery.DeliveryReachesAll | worker/src/relay.ts:422-438 | Whatever is sent goes to every listener there is. |
| RelayDelivery.StoredUntilDelivered | worker/src/relay.ts:404-460 | Over every run a stored poke stays stored until it is delivered to all listeners of the moment. |
| RelayDelivery.UnheardPokeIsKept | worker/src/relay.ts:404-408 | So a poke that finds nobody is never dropped, over any run that follows. |
| RelayDelivery.ListenerIsServed | worker/src/relay.ts:320-326 | With a poke stored, a listener that stays is sent one by the next flush at the latest, in every run. |
| RelayDelivery.CheckDecides | worker/src/relay.ts:315-326 | A verified socket that is still there becomes a listener and brings a flush, one that fails is closed, and no other socket is touched. |
| RelayDelivery.KnownSinceRequest | worker/src/relay.ts:151-161 | Any request, also a refused one, tells the object its webhook, and it knows until it hibernates. |
| RelayDelivery.PassesUnlessBusy | worker/src/relay.ts:372-388 | In every run from the start a poke passes the guard if fewer than 100 have passed in the last 5 s. |
| RelayCap.RoomyRunsKeepFour | worker/src/relay.ts:268-322 | The relay as it is, with yielding checks, never has more than 4 listeners in any run in which a check begins only while listeners and candidates together leave room. |
| RelayCap.OneAtATimeKeepsFour | worker/src/relay.ts:268-322 | In particular in any run in which checks do not overlap. |
| RelayCap.CapHoldsIff | worker/src/relay.ts:268-322 | From any reachable state the cap of 4 survives whatever the checks under way bring if and only if listeners and candidates together are at most 4. |
| RelayCap.CapHoldsFromStart | worker/src/relay.ts:268-322 | The same equivalence after any run from the start. |
| RelayCap.RaceBeatsCap | worker/src/relay.ts:268-322 | From any state with room for one listener, any number of waiting sockets pass the check together and become listeners. |
| RelayCap.ElevenListeners | worker/src/relay.ts:268-322 | A run from the start that ends with exactly 11 listeners. |
| RelayTiming.GuardSpends | worker/src/relay.ts:374-388 | Every poke that passes inside an interval is paid for by a budget over windows. |
| RelayTiming.RateBound | worker/src/relay.ts:372-388 | In any interval of the given span at most 100 * (span / 5001 + 2) pokes pass; at most 200 in any 5 s. |
| Reaper.ReaperBound | worker/src/relay.ts:479-525 | For the relay as it is: in any run on time in which no socket is admitted under an alarm that will not look again, a socket still open 60 s after it opened has authenticated. |
| Reaper.ReapedOnTime | worker/src/relay.ts:479-525 | A socket that was watched when it opened is closed or authed within 60 s in every run on time, whatever other sockets do. |
| Reaper.ReapedIff | worker/src/relay.ts:512-524 | An admitted socket is closed or authed within 60 s in every run on time if and only if every alarm under way when it opens has found another socket in the handshake. |
| Reaper.ReapedIffFromStart | worker/src/relay.ts:512-524 | The same after any run on time from the start. |
| Reaper.ReapedFromStart | worker/src/relay.ts:479-525 | The bound over every such run from the start. |
| Reaper.ClosedForAReason | worker/src/relay.ts:246-342 | A socket leaves only because the client closes it, its own handshake fails, or the alarm finds it unauthed and more than 30 s old; a listener only by its client or a second failing check of its own. |
| Reaper.AlarmWaitsIff | worker/src/relay.ts:511-524 | The alarm handler waits for KV exactly if there is a listener and the webhook is known; otherwise it sets the next alarm at once: in 30 s for a socket in the handshake, else in a week for a listener, else none. |
| Reaper.YieldingAlarmForgetsSocket | worker/src/relay.ts:512-524 | A concrete way to lose a socket: from any state with a due alarm and only listeners, a run that leaves a socket unauthed more than 60 s after it opened with no alarm due. |
| Debounce.Client.DoSchedule | internal/webhook/webhook.go:290-301 | Replaces the pending timer. |
| Debounce.Client.StopPending | internal/webhook/webhook.go:304-310 | Cancels the pending timer. |
| Debounce.Client.Receive | internal/webhook/webhook.go:255-264 | The receive loop feeds every poke frame, and only these, to the debounce. |
| Debounce.DebounceIsPerBurst | internal/webhook/webhook.go:255-301 | For any frames, the triggers are exactly one per maximal burst of pokes, 10 s after its last. |
| Debounce.TriggersAreBurstEnds | internal/webhook/webhook.go:290-301 | A trigger belongs to the end of a burst, and every end of a burst has one. |
| Debounce.TriggersSpaced | internal/webhook/webhook.go:290-301 | Triggers are at least 10 s apart. |
| Debounce.StopLosesLastBurst | internal/webhook/webhook.go:304-310 | Stopping loses at most the trigger of the last burst. |
| Debounce.SteadyPokesPostpone | internal/webhook/webhook.go:290-301 | No bound on the delay: steady pokes less than 10 s apart postpone the trigger for as long as they last. |
| EndToEnd.NoPokeSwallowed | worker/src/relay.ts:393-460 | After any run of relay and daemon, every accepted poke is stored, on the wire, followed by a later trigger, or covered by a timer due more than 5 s after it. |
| EndToEnd.QuietMeansTriggered | internal/webhook/webhook.go:255-301 | Once nothing is stored, on the wire or armed, every accepted poke has been followed by a trigger. |

## Left out

- Docker, registry, HTTP and WebSocket transport, token exchange and credentials: only the success or failure of a call and the digest it returns are kept.
- Ed25519 itself and the lookup of the public key: a verdict per check.
- KV expiry, the weekly refresh of the KV record, and the provisioning limiter.
- Delivery and wording of notifications, logging, table rendering: only which notice is sent for which container and digest is kept.
- Parsing of image references, labels, configuration and cron expressions; matching of repository digests; finding the daemon's own container and project. Parsed values are inputs.
- Reconnect backoff, heartbeat and the handshake of the daemon's connection.
- Clearing of the hostname, stop timeouts, removal of anonymous volumes, and cleanup of old images on recreate: they do not touch names, networks or liveness.
- The dry-run branch of a cycle, which is a read-only planning pass (`PlanBuilding.StatusIsFaithful` covers these).
- Containers with several names, containers that Docker restarts by itself, and other programs that change the host during a cycle.
- A corrupt state file, and saves that write something other than the whole book.
- Letters outside ASCII and invalid UTF-8 in challenges; the order in which `Discover` returns its targets beyond what determinism needs.
- Daemon.Daemon.TryUpdate: books a rejection after the rollback, where the code does so before it; nothing reads the state in between, and a crash in between is covered as a save that failed or succeeded.
- EndToEnd.NoPokeSwallowed: needs a clock of at least 5 s past its origin (an absent stamp reads as 0), frames that are not lost, and a daemon process that stays up.
- Reaper.ReaperBound: says nothing about alarms that fire late, which the platform may do.
- StateRuns.AnnouncedOnce: needs saves that succeed; a lost save repeats the announcement after a restart.

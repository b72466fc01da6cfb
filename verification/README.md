# Verified model of the gateway's protocols

foci is a gateway that runs agents and connects their sessions to chats. This project models the parts of it
whose guarantees span several functions, in Dafny, and proves those guarantees. `dafny verify dfyconfig.toml`
checks all of it.

Code that races is modelled as a step system: a state, an action for each indivisible thing that one party can do
(a critical section, one arm of a `select`, one file operation), and a run as any sequence of enabled actions. The
theorems are about every run. Beside each step system stands the class or the loop that the source has: a method that
is one critical section is tied to the part of the state it updates, and a whole call (the wake's goroutine, a script
load, a round of the watch) is proved to be a run of the step system, in the first two with the other parties acting
before any of its steps. What the code cannot decide for itself (what a connection does, whether a build succeeds,
what the clock reads) is a parameter, so a theorem covers every answer.

- **Scheduled wakes** (`WakeProtocol`, `WakeGuarantees`, `WakeEnds`, `WakeScheduler`, `WakeGoroutine`,
  `WakeRestarts`): the timer goroutine, a cancel, the wait for the owner, the inbox, a stop and the reminder store race
  for one map entry; and one row is armed by several starts of its agent.
- **The live agent registry** (`AgentRegistry`, `AgentLifecycle`, `AgentRenames`): the map, the order and the
  reservations; hot-add and live rename with every failure exit; the path-compressed record of renames, against a
  lineage of agents with identities.
- **Prompt routing** (`PromptTargets`, `PromptDelivery`): the walk up a parent relation that may be cyclic, and the
  offer loop, for any behaviour of the chats.
- **The shadow ledger** (`ShadowTotals`, `ShadowPrefixes`, `ShadowMatch`, `ShadowChecks`): running token totals on the
  heap, the choice of the interval compared, the median residual and the dollar flag.
- **The one-shot script claim** (`ScriptClaim`, `ScriptLoader`): peek, rename, re-read, link and remove on one path,
  against writers and other turns.
- **Streams** (`ByteStreams`, `RestoreMtime`, `ResponseLine`): a chunked split of `git log` output, and a bounded
  line reader.
- **Lifecycle bookkeeping** (`CallerWatch`, `CallerPoll`, `MemoryClosers`, `MemoryProtocol`, `MemoryGuarantees`,
  `MemoryAdds`, `MemorySystem`): the notices to the sender of a message, and who closes which store.

## What the code does not do

Where a promise of the documentation is not what the code does, the model follows the code. For each of these there is
a run or an input that shows it, and a lemma that says exactly when it happens.

- A cancelled wake's row survives exactly when its timer found no session, or its goroutine took the stop arm, or the
  database refused the delete (`CancelledRowSurvivesExactly`, `CancelledRowSurvivesNoSession`,
  `CancelledRowSurvivesStop`). A restart arms such a wake again.
- A stop of the agent keeps no wake from being queued that still has its entry, until its goroutine takes the stop arm:
  not one in its select, nor one past it (`QueuedAfterStopExactly`, `StopDoesNotReachWake`). So a row that the next
  start arms again can be queued twice, exactly when an earlier start has queued it or is still on (`TwiceExactly`,
  `QueuedTwice`).
- The record of renames follows the agents' lineage over a run exactly when no rename meets another agent that counts as
  having the old id (`RecordFollowsLineage`, `RecordOfCommands`, `ReusedIdMisleads`). A rename and its reverse restore
  what an id resolves to exactly unless it already led to the borrowed id (`RenameBackRestores`).
- A rename of the first agent hands the default place to another exactly when it has stopped the agent and can start
  neither id (`DefaultLostExactly`, `DefaultLostRun`); resumed, it comes back last (`FailedRenameLosesDefault`). The
  recovery's answer that the old agent runs on is never given (`OldNeverRunsOn`).
- An approval can reach a connection that refuses approvals: the loop checks one resolution of the connection and the
  send resolves it again (`ApprovalReachesRefuserOnlyByRace`, `ApprovalRace`).
- With one or two processes, one broken process does widen the residual, from three on none does
  (`OneBrokenWidensFewer`, `OneBrokenCannotWiden`).
- With overlapping turns, a script claimed by mistake can be kept from its return by an older one
  (`OlderBlocksExactly`, `OlderBlocksNewer`). A claimed script is lost exactly when it cannot be read back, does not
  parse, or is aimed elsewhere and its link does not work or finds a file at the path (`EndsExactly`, `ClaimedAndLost`,
  `ClaimedAndBlocked`).
- A file gets the time of its last commit, whatever else is pending, exactly when no listed name is empty, begins with
  the mark of a stamp, or holds a line feed (`CommitTimesExactly`, `StreamTimesExactly`, `LineFeedInNameMisleads`).
- The approximate size of a rejected response, announced as "more than", is not always exceeded
  (`MoreThanExactly`, `NotAlwaysMore`).
- A caller whose message was answered can still be told that it was not, exactly as long as the polling loop has not
  left (`StallNoticeStillDue`): by a round a whole stall period after the reply, or one that read the activity before
  the reply, and no other (`StallAfterReply`, `StallNoticeAfterReply`, `StallNoticeOverReply`).
- An index that an add in flight registers after cleanup has taken the closers is not closed by it (`LateExactly`,
  `CleanupOvertakesAdd`). An add that returns an error leaves its stores open and registered exactly if it was its index
  that failed, though its comment says that on error nothing is (`AddLeavesExactly`, `FailedAddRun`).
- A prompt that no chat shows stays unsettled exactly when the call that would deny or fail it errs (`SettledOnce`).

## Model

| member | source | states |
|---|---|---|
| `WakeProtocol.RunKeepsInv` | cmd/foci-gw/agents_notify.go:664-801 | Every interleaving of timer, cancel, owner wait, inbox, stop and store steps keeps, for every wake, the invariant that ties the entry, its takers, the fired mark, the row and the point its goroutine has reached |
| `WakeProtocol.StepKeepsInv` | cmd/foci-gw/agents_notify.go:708-798 | One step of any party keeps that invariant |
| `WakeGuarantees.ClaimIsExclusive` | cmd/foci-gw/agents_notify.go:675-706 | Over every run at most one of a cancel, the firing and a stop takes the entry, once, and the entry is gone exactly when one has; the wake is queued and its turn begun at most once |
| `WakeGuarantees.CancelledNeverFires` | cmd/foci-gw/agents_notify.go:708-798 | After a cancel has taken the entry, at whatever point of the goroutine, no continuation queues the wake, begins its turn or marks it fired, and no second cancel succeeds |
| `WakeGuarantees.FiredIsNotCancellable` | cmd/foci-gw/agents_notify.go:692-706 | After the firing's claim every later cancel finds nothing and changes nothing |
| `WakeGuarantees.OverlayCoversTheGap` | cmd/foci-gw/agents_notify.go:692-706 | The fired mark is there exactly from the firing's claim until the wake is settled, with the session it fires in; an unsettled wake with neither entry nor mark was taken by a cancel |
| `WakeGuarantees.RowGoneOnlyWhenDue` | cmd/foci-gw/agents_notify.go:644-653 | A row is gone only after its turn ran to an end other than a shutdown refusal, or a cancel won, or a claimed wake had no session |
| `WakeGuarantees.SettledIsAccounted` | cmd/foci-gw/agents_notify.go:708-785 | Every settled wake ended in one accounted way with its overlay clear; its row is there exactly if it was not dismissed or the delete failed, so after a refusal, a shutdown, a stop, and a lost claim without a session |
| `WakeGuarantees.CancelledRowSurvivesExactly` | cmd/foci-gw/agents_notify.go:708-785 | The row of a cancelled and settled wake is still there exactly when its timer found no session, or its goroutine took the stop arm, or the delete failed |
| `WakeGuarantees.CancelledRowSurvivesNoSession` | cmd/foci-gw/agents_notify.go:724-732 | A run in which a cancel returned true and the row stays pending, through the branch without a session |
| `WakeGuarantees.CancelledRowSurvivesStop` | cmd/foci-gw/agents_notify.go:775-781 | A run in which a cancel returned true and the row stays pending, through the stop arm |
| `WakeGuarantees.QueuedAfterStopExactly` | cmd/foci-gw/agents_notify.go:715-782 | A wake not yet queued can still be, the agent stopped or not, exactly while it is claimed for firing, or has its entry and its goroutine has not taken the stop arm |
| `WakeGuarantees.StopDoesNotReachWake` | cmd/foci-gw/agents_notify.go:715-782 | Runs with the agent stopped and the wake in its select, or waiting for its owner, from which it can be queued |
| `WakeScheduler.ReminderStore.Dismiss` | internal/memory/remind.go:284-295 | Drops the mark, and the row unless the database fails |
| `WakeScheduler.Scheduler.TakeEntry` | cmd/foci-gw/agents_notify.go:684-690 | Removes the entry and hands its context to the one caller that found it: the protocol's take |
| `WakeScheduler.Scheduler.ClaimForFire` | cmd/foci-gw/agents_notify.go:697-706 | Takes the entry and marks the wake fired in one section, or changes nothing: the protocol's claim |
| `WakeScheduler.Scheduler.ScheduleWake` | cmd/foci-gw/agents_notify.go:708-714 | A scheduled wake begins in the protocol's initial state |
| `WakeScheduler.Scheduler.CancelWake` | cmd/foci-gw/agents_notify.go:791-798 | True exactly when it found the entry; then the entry is gone and the context done |
| `WakeScheduler.Scheduler.StopWake` | cmd/foci-gw/agents_notify.go:775-781 | The stop arm's step |
| `WakeScheduler.Scheduler.TurnDone` | cmd/foci-gw/agents_notify.go:644-653 | The mark goes; the row goes unless the turn was refused for a shutdown or the database fails |
| `WakeGoroutine.Goroutine.Run` | cmd/foci-gw/agents_notify.go:715-783 | The whole goroutine with the hooks of its injection, with cancels and a stop before any of its steps, also between the two halves of a dismissal, is a run of the protocol whose events carry the answers given, and its wake ends as those answers and what the others do decide |
| `WakeGoroutine.Goroutine.Select` | cmd/foci-gw/agents_notify.go:716-781 | The select takes the arm that is wanted if that is ready, else the timer's |
| `WakeGoroutine.Goroutine.FireTimer` | cmd/foci-gw/agents_notify.go:717-733 | The timer arm, with and without a session, as a run that carries the answers, and the wake as it leaves it |
| `WakeGoroutine.Goroutine.ClaimAndDeliver` | cmd/foci-gw/agents_notify.go:748-771 | The claim, and the hand-over or the dismissal, as a run that carries the answers |
| `WakeGoroutine.Goroutine.Work` | cmd/foci-gw/agents_notify.go:644-653 | The accepted injection runs or is refused, and its hooks settle the wake |
| `WakeGoroutine.UndisturbedExactly` | cmd/foci-gw/agents_notify.go:715-783 | A fresh wake that nobody disturbs ends exactly as its answers say: dismissed without a session; refused, with its row, when the inbox does not take or run it; left for the restart by a shutdown; else run once, its row gone exactly if the database takes the delete |
| `WakeGoroutine.CancelledUndisturbed` | cmd/foci-gw/agents_notify.go:715-783 | A wake whose cancel has returned fires in no branch; which branch it takes decides whether its row goes |
| `WakeEnds.EndsAsTold` | cmd/foci-gw/agents_notify.go:644-653 | Over every run the end of a settled wake is told by its events: the result of its turn, a refusal by the inbox, or the cancel it saw, each exactly |
| `WakeEnds.FiresWhereOwned` | cmd/foci-gw/agents_notify.go:803-815 | Over every run a wake fires in the owner of the session it was resolved to, or in that session when it has none, and is marked with it |
| `WakeEnds.StopsOnlyWhenStopped` | cmd/foci-gw/agents_notify.go:775-781 | Over every run a goroutine is in the stop arm only after a stop of the agent |
| `WakeRestarts.StartsAgainExactly` | cmd/foci-gw/agents_notify.go:821-846 | A start arms the row afresh exactly when the last start has stopped and the row is still pending, and leaves the earlier wakes alone |
| `WakeRestarts.OncePerStart` | cmd/foci-gw/agents_notify.go:821-846 | Over any number of starts of the agent that arm one row again, each start queues it at most once |
| `WakeRestarts.QueuedExactly` | cmd/foci-gw/agents_notify.go:708-846 | The starts so far can queue one row exactly as often as there are starts that have queued it or still have their entry, or their claim, and have not taken the stop arm: all of those can in one run, and no run has another do so |
| `WakeRestarts.TwiceExactly` | cmd/foci-gw/agents_notify.go:775-782 | A row armed again can be queued twice exactly when an earlier start has queued it or is still on |
| `WakeRestarts.QueuedTwice` | cmd/foci-gw/agents_notify.go:738-782 | A run to such a state: the agent restarts while the first goroutine waits for the owner |
| `AgentRegistry.CommitAtKeepsWf` | cmd/foci-gw/agent_registry.go:174-187 | A commit keeps the order listing exactly the registered ids, without repeats, disjoint from the reserved ones |
| `AgentRegistry.RemoveKeepsWf` | cmd/foci-gw/agent_registry.go:159-170 | So does a removal |
| `AgentRegistry.RemoveThenInsert` | cmd/foci-gw/agent_registry.go:159-187 | Removing a slot and inserting there replaces that element and no other |
| `AgentRegistry.ReservationHolds` | cmd/foci-gw/agent_registry.go:121-139 | A reserved id cannot be reserved again until released, which undoes the reservation; other ids are as free as before |
| `AgentRegistry.CommitEndsReservation` | cmd/foci-gw/agent_registry.go:144-187 | A commit ends the reservation of its id also when it fails, and registers nothing then |
| `AgentRegistry.Registry.Default` | cmd/foci-gw/agent_registry.go:53-60 | The first registered agent, none exactly when there is no agent |
| `AgentRegistry.Registry.All` | cmd/foci-gw/agent_registry.go:70-78 | Exactly the registered agents, in registration order |
| `AgentRegistry.Registry.ReserveId` | cmd/foci-gw/agent_registry.go:121-131 | Reserves an id that is neither registered nor reserved, else changes nothing |
| `AgentRegistry.Registry.Commit` | cmd/foci-gw/agent_registry.go:144-154 | Publishes at the end unless the id is registered; the reservation ends either way |
| `AgentRegistry.Registry.CommitInSlot` | cmd/foci-gw/agent_registry.go:174-187 | Publishes in the slot, or at the end for a slot outside the order |
| `AgentRegistry.Registry.RemoveId` | cmd/foci-gw/agent_registry.go:159-170 | Takes out the agent and tells its place in the order |
| `AgentRenames.RenameRecord.Add` | cmd/foci-gw/agent_rename_live.go:77-90 | The repointing loop, in any order of the map, gives the compressed record |
| `AgentRenames.ResolveIsIdempotent` | cmd/foci-gw/agent_rename_live.go:102-109 | One look-up is enough when no value is a key, and only then if no id leads to itself |
| `AgentRenames.AddKeepsNoChains` | cmd/foci-gw/agent_rename_live.go:77-90 | Recording a rename keeps values from being keys exactly when it is to another id |
| `AgentRenames.ForgetKeepsNoChains` | cmd/foci-gw/agent_rename_live.go:95-99 | So does forgetting |
| `AgentRenames.RenameBackRestores` | cmd/foci-gw/agent_rename_live.go:71-109 | A rename and its reverse leave an id resolving as before, exactly unless it already led to the borrowed id |
| `AgentRenames.ForgetRefines` | cmd/foci-gw/agent_lifecycle.go:373-384 | A start keeps the record's promise; the id's last bearer moves at the forget, before the start can fail |
| `AgentRenames.AddRefines` | cmd/foci-gw/agent_rename_live.go:71-109 | A rename keeps the promise, that an id resolves to the present id of the agent that last bore it, exactly when no other agent counts as having the old id |
| `AgentRenames.RecordFollowsLineage` | cmd/foci-gw/agent_rename_live.go:71-109 | Over every run of starts and renames, the record resolves each id to the present id of the agent that last bore it, all along, exactly when no rename meets another agent that counts as having the old id |
| `AgentRenames.RecordHasNoChains` | cmd/foci-gw/agent_rename_live.go:71-109 | Over every run no value of the record is a key, so one look-up is enough |
| `AgentRenames.ReusedIdMisleads` | cmd/foci-gw/agent_rename_live.go:77-90 | A run with an id used again after which an old id resolves to an agent that never bore it |
| `AgentLifecycle.HotAddIsAtomic` | cmd/foci-gw/agent_lifecycle.go:360-410 | Every exit of a start leaves the reservations as they were; a failure leaves the registry as it was; a success publishes the instance just built, in its slot, and nothing else; success exactly under the stated conditions; the rename record moves exactly when the id was free |
| `AgentLifecycle.StartErrorExactly` | cmd/foci-gw/agent_lifecycle.go:372-410 | Each error of a start exactly when its check is the first that fails |
| `AgentLifecycle.PlacedExactly` | cmd/foci-gw/agent_registry.go:174-187 | A started agent is in its slot, with the others in order around it, or last for a slot outside the order |
| `AgentLifecycle.HotAddKeepsDefault` | cmd/foci-gw/agent_lifecycle.go:360-366 | A hot-add at the end leaves the earlier order, and with it the default, alone |
| `AgentLifecycle.RenameOfRunningAgent` | cmd/foci-gw/agent_rename_live.go:156-224 | After the rename of a running agent the order is the old one, or has the new id in the old slot (exactly on success), or lacks the slot; all others keep instance and place; no reservation is left |
| `AgentLifecycle.RenameAnswersExactly` | cmd/foci-gw/agent_rename_live.go:156-224 | Which answer a rename gives, exactly, from the plan, the disk, the config read after it and the starts |
| `AgentLifecycle.RenamePublishesBuilt` | cmd/foci-gw/agent_rename_live.go:198-224 | The instance a rename publishes, under the new id or the old, is the one that start has just built |
| `AgentLifecycle.RenameKeepsDefault` | cmd/foci-gw/agent_rename_live.go:156-204 | A successful rename of the first agent makes the new id the default |
| `AgentLifecycle.RenameResumed` | cmd/foci-gw/agent_rename_live.go:156-224 | A rename resumed while the old agent does not run can only append |
| `AgentLifecycle.OldNeverRunsOn` | cmd/foci-gw/agent_rename_live.go:209-224 | The recovery never finds the old agent still running |
| `AgentLifecycle.RenameRecords` | cmd/foci-gw/agent_rename_live.go:188-198 | Once the disk part is done the record is the new pair less what stood under the new id, even if the new id does not start |
| `AgentLifecycle.FailedRenameRecords` | cmd/foci-gw/agent_rename_live.go:188-224 | A rename that fails on disk records nothing; a recovery forgets only what stood under the old id |
| `AgentLifecycle.FailedRenameLosesDefault` | cmd/foci-gw/agent_rename_live.go:156-204 | A first agent whose new id did not start comes back at the end when the rename is resumed |
| `AgentLifecycle.DefaultLostExactly` | cmd/foci-gw/agent_rename_live.go:156-224 | The rename of the first agent, with others running, hands the default place to another exactly when it has stopped the agent and can start neither id |
| `AgentLifecycle.DefaultLostRun` | cmd/foci-gw/agent_rename_live.go:188-198 | A process in which that happens |
| `AgentLifecycle.PerformKeepsWf` | cmd/foci-gw/agent_lifecycle.go:360-418 | Any start or rename, with any answers from outside, keeps the registry consistent and leaves no id reserved |
| `AgentLifecycle.After` | cmd/foci-gw/agent_lifecycle.go:360-418 | So in every reachable state the registry is consistent and nothing is reserved |
| `AgentLifecycle.RecordOfCommands` | cmd/foci-gw/agent_rename_live.go:156-224 | Over every list of starts and renames the record is that of the starts and disk renames they performed, and it follows the lineage all along exactly when no rename that the disk takes is of an id that another agent counts as having |
| `AgentLifecycle.LiveAgentStarter.StartAgent` | cmd/foci-gw/agent_lifecycle.go:360-366 | Refused once closed; else the start at the end of the order |
| `AgentLifecycle.LiveAgentStarter.StartInSlot` | cmd/foci-gw/agent_lifecycle.go:372-410 | The published flag and the deferred release come to the specified start on every path |
| `AgentLifecycle.LiveAgentStarter.RenameAgent` | cmd/foci-gw/agent_rename_live.go:156-204 | The rename, step by step, comes to the specified rename on every path |
| `AgentLifecycle.LiveAgentStarter.RecoverFailedRename` | cmd/foci-gw/agent_rename_live.go:209-224 | The recovery comes to the specified recovery |
| `PromptTargets.WalkIsShort` | cmd/foci-gw/agents_delegated.go:857-896 | The walk is no longer than the recorded sessions and one more, on cyclic relations too |
| `PromptTargets.Walk` | cmd/foci-gw/agents_delegated.go:857-896 | The walk exists: it follows parents until one is missing, the root or a repeat |
| `PromptTargets.WalkIsUnique` | cmd/foci-gw/agents_delegated.go:857-896 | There is only one such walk |
| `PromptTargets.WalkGoesAllTheWay` | cmd/foci-gw/agents_delegated.go:874-890 | It ends only where no parent is recorded, or an empty one, the root or a session already met |
| `PromptTargets.KeysExactly` | cmd/foci-gw/agents_delegated.go:857-874 | Which sessions are cross-agent spawns, which are branches, and that the ancestors are the rest of the walk to the root of the key |
| `PromptTargets.TargetsExact` | cmd/foci-gw/agents_delegated.go:839-896 | The targets are without repeats, begin with the asking session, and are exactly it, its live proper ancestors met, the root and the agent's own default; a cross-agent spawn has only itself |
| `PromptTargets.TargetsInOrder` | cmd/foci-gw/agents_delegated.go:839-896 | The chain first, then the root, then the default |
| `PromptTargets.LiveOfKeepsOrder` | cmd/foci-gw/agents_delegated.go:857-896 | The live ancestors keep the order of the chain |
| `PromptTargets.Climb` | cmd/foci-gw/agents_delegated.go:874-890 | The loop with its seen set ends on every relation and collects the live part of the walk |
| `PromptTargets.PromptTargetsOf` | cmd/foci-gw/agents_delegated.go:857-896 | The whole function gives the specified targets |
| `PromptTargets.AskChatsExact` | cmd/foci-gw/ask_setup.go:132-144 | A spawn's chats are those of its owner, in order; a dead owner is dropped exactly when there is another chat, so they are never none |
| `PromptTargets.RoutesExactly` | cmd/foci-gw/ask_setup.go:104-144 | A spawn has its owner's chats for prompts and asks alike; any other session its own targets for a prompt, and only its own chat for an ask |
| `PromptTargets.GatesExactly` | cmd/foci-gw/ask_setup.go:81-87 | Each gate closes exactly when its first chat is known to be closed, the prompt's for a spawn, the ask's for a first chat other than the session's |
| `PromptTargets.SpawnRoutesAgree` | cmd/foci-gw/ask_setup.go:104-111 | Ask and prompt of a spawn take the same chats; any other session's ask takes the prompt's first |
| `PromptTargets.GatesAgree` | cmd/foci-gw/ask_setup.go:81-87 | The ask's gate, which tells a spawn by its first chat, decides as the prompt's does, except for a spawn whose first chat were its own session's and closed |
| `PromptTargets.GatesAreOne` | cmd/foci-gw/ask_setup.go:81-87 | So the gates are one for every session that its owner's walk does not come back to |
| `PromptDelivery.SettledOnce` | cmd/foci-gw/agents_delegated.go:660-837 | Whatever the chats do, a prompt is settled once and last: one cancel listener in the chat that shows it, or a notice and one denial, or one failure that names every chat, or one refusal for a closed owner; it stays unsettled exactly when no chat shows it and that call errs |
| `PromptDelivery.OutcomeIsTheFirst` | cmd/foci-gw/agents_delegated.go:703-785 | It is shown in the first chat that can, denied at the first that refuses, whichever comes first, and fails exactly when none does either |
| `PromptDelivery.QuestionsExactly` | cmd/foci-gw/agents_delegated.go:708-785 | A question is never denied: it is shown in the first chat whose connection is there twice and takes it, and fails exactly when there is none |
| `PromptDelivery.ApprovalsExactly` | cmd/foci-gw/agents_delegated.go:708-785 | An approval stops at the first chat whose connection refuses approvals or that can show it: denied there, or shown |
| `PromptDelivery.GateClosedExactly` | cmd/foci-gw/agents_delegated.go:703-707 | With the gate closed, and only then, nothing is offered and the prompt is answered unattended |
| `PromptDelivery.OfferedExactly` | cmd/foci-gw/agents_delegated.go:708-770 | The chats offered a prompt are all up to the one that ends the offer, and that one unless it refuses |
| `PromptDelivery.SentExactly` | cmd/foci-gw/agents_delegated.go:717-761 | Each chat offered gets the attachment if its connection is there, and then the prompt, on the connection resolved again |
| `PromptDelivery.NothingAfterTheStop` | cmd/foci-gw/agents_delegated.go:710-770 | Nothing is sent to a chat seen to refuse, nor to any chat after one that refused or showed it |
| `PromptDelivery.ApprovalReachesRefuserOnlyByRace` | cmd/foci-gw/agents_delegated.go:719-761 | An approval is sent to a refusing connection exactly when a chat's connection was replaced by one between the check and the send |
| `PromptDelivery.ApprovalRace` | cmd/foci-gw/agents_delegated.go:719-761 | A chat with which that happens |
| `PromptDelivery.SendTo` | cmd/foci-gw/agents_delegated.go:719-761 | One chat's attempt: a failed attachment is not fatal |
| `PromptDelivery.Offer` | cmd/foci-gw/agents_delegated.go:708-808 | The loop has the effects and the outcome specified, in order |
| `PromptDelivery.PostBackendPrompt` | cmd/foci-gw/agents_delegated.go:660-808 | With the gate before it |
| `PromptDelivery.PresentAsk` | cmd/foci-gw/ask_setup.go:33-79 | An ask is refused exactly when the gate closes; else the first chat to take it shows it, or every chat was tried |
| `ShadowTotals.SumOfMoreWindows` | cmd/foci-gw/ledger_shadow.go:461-491 | The reference sum is additive over windows |
| `ShadowTotals.SumByField` | cmd/foci-gw/ledger_shadow_checks.go:31-44 | Every number of the reference sum is the sum of that number over the calls: counts, cost, unknown-TTL tokens, calls, booked and 5m prices; and what rests on the TTL guess is the sum of what does in each call |
| `ShadowPrefixes.Counts.AddTokens` | cmd/foci-gw/ledger_shadow.go:482-484 | Adds the counts of one call at every class, in any order |
| `ShadowPrefixes.CloneTokens` | cmd/foci-gw/ledger_shadow.go:475-477 | The clone has the same counts in new maps, none of them shared |
| `ShadowPrefixes.AddCall` | cmd/foci-gw/ledger_shadow.go:478-487 | Adds one call to counts, cost and unknown-TTL writes, changing only the total's own maps |
| `ShadowPrefixes.NextTotal` | cmd/foci-gw/ledger_shadow.go:473-488 | The next entry adds its window's calls and changes no earlier entry |
| `ShadowPrefixes.GroupByWindow` | cmd/foci-gw/ledger_shadow.go:465-470 | Each window's calls in their order, and no call outside a window |
| `ShadowPrefixes.CallPrefixes` | cmd/foci-gw/ledger_shadow.go:461-491 | Entry i holds, at every class of every model, exactly the sum of the calls of the i lowest windows, with cost and unknown-TTL writes; no two entries share a map |
| `ShadowMatch.SameTokensExact` | cmd/foci-gw/ledger_shadow.go:511-525 | Two sets of counts compare equal exactly when they agree at every class of every model |
| `ShadowMatch.ReportDelta` | cmd/foci-gw/ledger_shadow.go:493-509 | The difference from the baseline at every class and in cost; an omitted model has not moved |
| `ShadowMatch.ModelAddsItsOwn` | cmd/foci-gw/ledger_shadow.go:493-509 | A model adds its counts and cost less the baseline's, and the whole of both when the baseline lacks it |
| `ShadowMatch.MatchReport` | cmd/foci-gw/ledger_shadow.go:326-338 | The longest matching prefix of a report, none exactly when no prefix matches |
| `ShadowMatch.FindInterval` | cmd/foci-gw/ledger_shadow.go:323-349 | The latest report that matches any prefix with its longest match; unmatched exactly when no pair matches, and then every call's price |
| `ShadowMatch.CompareProcess` | cmd/foci-gw/ledger_shadow.go:315-349 | The restored totals are the baseline; a process with nothing else is skipped |
| `ShadowMatch.UnmatchedCost` | cmd/foci-gw/ledger_shadow.go:341-348 | The total of all calls, windowed or not |
| `ShadowMatch.PrefixesGrow` | cmd/foci-gw/ledger_shadow.go:461-491 | With no negative count the entries grow at every class of every model |
| `ShadowMatch.MatchIsUnique` | cmd/foci-gw/ledger_shadow.go:306-352 | With every window counting something, at most one prefix matches a report |
| `ShadowChecks.Residual` | cmd/foci-gw/ledger_shadow_checks.go:95-111 | The median of the qualifying processes' relative errors, and how many they are |
| `ShadowChecks.ErrorsExactly` | cmd/foci-gw/ledger_shadow_checks.go:95-103 | The errors it is taken over are those of the processes without unknown-TTL writes whose live cost is not noise: the difference over that cost |
| `ShadowChecks.LibrarySortIsThisOne` | cmd/foci-gw/ledger_shadow_checks.go:105-106 | Any sorted permutation is the one used here |
| `ShadowChecks.MedianBreakdown` | cmd/foci-gw/ledger_shadow_checks.go:90-111 | The residual is at most b whenever more than half of the errors are, and only when at least half are |
| `ShadowChecks.OneBrokenCannotWiden` | cmd/foci-gw/ledger_shadow_checks.go:90-111 | From three processes on, one broken process cannot lift the residual over a bound that the others keep |
| `ShadowChecks.OneBrokenWidensFewer` | cmd/foci-gw/ledger_shadow_checks.go:90-111 | With one or two it can lift it over any bound |
| `ShadowChecks.FlaggedExactly` | cmd/foci-gw/ledger_shadow_checks.go:113-145 | A process is flagged exactly when the two costs differ by more than the bound |
| `ShadowChecks.FlagSaysExactly` | cmd/foci-gw/ledger_shadow_checks.go:119-145 | An unexplained flag names the span of prices, from all writes at 5m to all as booked, and how far CC's cost lies outside it; without such writes it names none |
| `ShadowChecks.UnexplainedExactly` | cmd/foci-gw/ledger_shadow_checks.go:113-145 | As unexplained exactly when no price its unknown TTLs allow is within the bound of CC's cost |
| `ShadowChecks.ImpliedShare` | cmd/foci-gw/ledger_shadow_checks.go:139-142 | The implied share never divides by zero, is positive and at most 1 plus the bound over the exposure, at most 1 inside the span, and does account for CC's cost; for exposure of either sign |
| `ScriptClaim.RunKeepsInv` | cmd/cc-stub/main.go:1546-1602 | Every run of loads and writes keeps each version in one place, and what others may put back in order |
| `ScriptClaim.ContainsExactly` | cmd/cc-stub/main.go:1613-1615 | A script is for a message exactly when the message holds its aim somewhere, or it has none |
| `ScriptClaim.AppliedOnce` | cmd/cc-stub/main.go:1535-1602 | A turn applies exactly the version it renamed, which parses and is aimed at its message; no other turn applies it, and it is not at the path |
| `ScriptClaim.NotAimedNotTouched` | cmd/cc-stub/main.go:1557-1568 | A turn that finds a script not aimed at it, or none, is through, with the path as it was |
| `ScriptClaim.VersionsAreConserved` | cmd/cc-stub/main.go:1529-1602 | Every version written is at the path, overwritten by a write, or owned by exactly one turn |
| `ScriptClaim.ClaimerSparesLater` | cmd/cc-stub/main.go:1574-1592 | Nothing written after a claim ever becomes the claimer's, and after its claim no step of it changes a path that holds a file |
| `ScriptClaim.MistakenGoesBack` | cmd/cc-stub/main.go:1582-1592 | A parseable version claimed by mistake goes back whole if the path is free and the link works; else what is at the path stays, and is newer or was held by another turn at the claim |
| `ScriptClaim.EndsExactly` | cmd/cc-stub/main.go:1574-1595 | Over every run a claimed version is applied exactly when it is read back and aimed at the message; put back exactly when it is aimed elsewhere and its link is not refused; and lost exactly when it is not read back, or does not parse, or its link did not work or found a file at the path |
| `ScriptClaim.OlderBlocksExactly` | cmd/cc-stub/main.go:1582-1592 | After a claim, an older version can come to block the return exactly when the claim was a mistake and another turn holds an older version claimed by mistake |
| `ScriptClaim.OlderBlocksNewer` | cmd/cc-stub/main.go:1582-1592 | A reachable state where it can |
| `ScriptClaim.ClaimedAndLost` | cmd/cc-stub/main.go:1576-1594 | Runs in which a script that replaced the one peeked at is lost |
| `ScriptClaim.ClaimedAndBlocked` | cmd/cc-stub/main.go:1582-1592 | A run in which a script written in the meantime keeps the claimed one from its return |
| `ScriptLoader.ScriptDir.Load` | cmd/cc-stub/main.go:1546-1602 | The whole call, with any steps of writers and other turns before any of its file operations, is a run of the step system in which its operations work or fail as given, to the state that these and the others decide; it gives a script exactly when its turn applied one: the bytes it claimed. With nobody else, a script that parses and is aimed at the message is taken and given, unless it cannot be read back; any other stays |
| `ScriptLoader.ScriptDir.Claim` | cmd/cc-stub/main.go:1556-1573 | Up to the rename: alone, it takes exactly a script that is for the message |
| `ScriptLoader.ScriptDir.Consume` | cmd/cc-stub/main.go:1574-1601 | From the re-read on: what was claimed is given exactly if it is read back and for the message |
| `ScriptLoader.ScriptDir.Link` | cmd/cc-stub/main.go:1587 | The link puts the claimed version at a free path, and never replaces one |
| `ByteStreams.SplitIsExact` | scripts/restore-mtime.py:92-96 | Splitting undoes joining, and no part holds a separator |
| `ByteStreams.SplitGrows` | scripts/restore-mtime.py:92-94 | A text that grows keeps its complete parts and goes on from its tail |
| `RestoreMtime.Restore` | scripts/restore-mtime.py:84-109 | However the stream is cut into chunks, the utime calls, in order, are those of one pass over its complete records; stopping when nothing is pending loses at most an exception |
| `RestoreMtime.TakeRecord` | scripts/restore-mtime.py:96-109 | The token loop of one record |
| `RestoreMtime.NothingMore` | scripts/restore-mtime.py:80-91 | Once nothing is pending, the rest of the stream would change no result |
| `RestoreMtime.TouchesExactly` | scripts/restore-mtime.py:80-109 | A pass touches every pending path that a record names, once, with the time of the first such record, and leaves the rest pending |
| `RestoreMtime.CountsExactly` | scripts/restore-mtime.py:104-107 | The count reported is that of the utime calls that worked |
| `RestoreMtime.RaisesExactly` | scripts/restore-mtime.py:99-101 | A pass raises exactly on a stamp that int() does not take |
| `RestoreMtime.TouchesOnlyPending` | scripts/restore-mtime.py:76-109 | No path outside the pending ones is touched, exception or not |
| `RestoreMtime.RestoresCommitTimes` | scripts/restore-mtime.py:2-21 | For any layout of the records whose non-empty lines are a log, newest commit first, each pending file gets the time of the last commit that changed it, and the others none |
| `RestoreMtime.CommitTimesExactly` | scripts/restore-mtime.py:2-21 | With one line a record, every pending file gets its last commit's time, for every set of pending files, exactly when no listed name is empty, begins with the mark of a stamp, or holds a line feed |
| `RestoreMtime.StreamTimesExactly` | scripts/restore-mtime.py:84-109 | The same for the whole NUL-terminated stream, however its records are laid out |
| `RestoreMtime.WrittenLists` | scripts/restore-mtime.py:92-98 | One line a record is such a layout |
| `RestoreMtime.LineFeedInNameMisleads` | scripts/restore-mtime.py:95-109 | A name with a line feed gives a commit's time to a file the commit did not change |
| `ResponseLine.ReadResponseLine` | cmd/foci-call/main.go:66-99 | For every stream the loop ends, its answer is that of the whole data, and the buffer never exceeds 16 MiB and 64 KiB |
| `ResponseLine.LineRoundTrip` | cmd/foci-call/main.go:72-78 | A line sent within the cap is read back, whatever follows, with or without a carriage return |
| `ResponseLine.AcceptedIsALine` | cmd/foci-call/main.go:72-95 | An accepted line is within 1 MiB, and is the bytes before the first line feed less at most one carriage return, or the whole tail |
| `ResponseLine.SizesAreHonest` | cmd/foci-call/main.go:40-46 | An exact size is true and over the cap; an approximate one is over 16 MiB and at most a carriage return over the truth |
| `ResponseLine.NoLineExactly` | cmd/foci-call/main.go:66-99 | When there is no line: an approximate size exactly when 16 MiB and 64 KiB hold no line feed, a closed connection exactly when not a byte came, a broken one exactly when it failed before a line feed |
| `ResponseLine.MoreThanExactly` | cmd/foci-call/main.go:48-53 | An approximate size is less than the text's length, as its message says, exactly when more than a line's end follows the bytes measured |
| `ResponseLine.NotAlwaysMore` | cmd/foci-call/main.go:48-53 | Inputs whose text has just that size, or one byte less |
| `ResponseLine.OnlyTooLargeIsRejected` | cmd/foci-call/main.go:55-65 | A response that arrives is accepted exactly when it is within the cap |
| `CallerWatch.RunKeepsInv` | cmd/foci-gw/agents_unavailable.go:65-197 | Every interleaving of polls, turn and clock keeps the quiet time at the latest sign of life, and the notices accounted |
| `CallerWatch.AtMostThreeNotices` | cmd/foci-gw/agents_unavailable.go:96-197 | At most one notice of each of three kinds |
| `CallerWatch.ThreeNotices` | cmd/foci-gw/agents_unavailable.go:96-197 | A run that sends all three |
| `CallerWatch.ToldAtSend` | cmd/foci-gw/agents_unavailable.go:110-122 | A caller told at the send gets no held notice |
| `CallerWatch.NoHeldNoticeAfterStart` | cmd/foci-gw/agents_unavailable.go:110-122 | None once the loop has seen the turn start |
| `CallerWatch.HeldExactly` | cmd/foci-gw/agents_unavailable.go:110-122 | Whatever goes on in between, a held notice is sent exactly by a read that finds the caller not held, and that read comes about exactly by a look, in a round that found the target unavailable, at an unstarted turn of a caller not told |
| `CallerWatch.QuietSinceIsMonotone` | cmd/foci-gw/agents_unavailable.go:100-132 | The quiet time only moves forward, and never past the clock |
| `CallerWatch.StallExactly` | cmd/foci-gw/agents_unavailable.go:123-135 | The stall notice is sent exactly when for a whole stall period no poll of the run has seen the target unavailable or newly active; it ends the loop |
| `CallerWatch.RunTells` | cmd/foci-gw/agents_unavailable.go:96-197 | Over every run the watch has seen what happened: its context is done exactly after a stop, the turn has started, replied and been finished exactly after it did, and a live loop has left exactly after it saw one of the two ends or sent the stall notice |
| `CallerWatch.NothingToReadNoStall` | cmd/foci-gw/agents_unavailable.go:123-128 | A running turn with no activity to read never stalls, and the round leaves the quiet time |
| `CallerWatch.LeavesExactly` | cmd/foci-gw/agents_unavailable.go:101-136 | The loop leaves exactly when it sees its context done or the watch finished, or sends the stall notice |
| `CallerWatch.OnlyComparingStalls` | cmd/foci-gw/agents_unavailable.go:123-135 | No other step sends one |
| `CallerWatch.SuccessAddsNone` | cmd/foci-gw/agents_unavailable.go:177-182 | A turn that succeeds with a reply adds no notice |
| `CallerWatch.StallAfterReply` | cmd/foci-gw/agents_unavailable.go:101-135 | In every run, a stall notice after the reply means that a whole stall period has passed since its last event, or that the round read the activity before that; with nothing newer to see and read after it, it is sent exactly then |
| `CallerWatch.StallNoticeStillDue` | cmd/foci-gw/agents_unavailable.go:101-108 | A stall notice not yet sent can still be, the message answered or not, exactly as long as the loop has not left |
| `CallerWatch.EndNoticeExactly` | cmd/foci-gw/agents_unavailable.go:167-197 | The end is told exactly for a refusal that no hold keeps, a rate limit, a failure, or a missing reply of an unavailable target; the watch is finished before |
| `CallerWatch.StallNoticeAfterReply` | cmd/foci-gw/agents_unavailable.go:101-108 | A run in which the tick is taken though the watch is finished, a stall period after the reply |
| `CallerWatch.StallNoticeOverReply` | cmd/foci-gw/agents_unavailable.go:123-135 | A run in which the reply comes between a round's read and its comparison |
| `CallerPoll.Poller.Round` | cmd/foci-gw/agents_unavailable.go:96-137 | A round of the loop on its own fields is a run of the step system and sends what that counts; what it sends and whether it goes on, from what it reads |
| `CallerPoll.Poller.TellHeld` | cmd/foci-gw/agents_unavailable.go:110-122 | The unavailable branch |
| `CallerPoll.Poller.CheckStall` | cmd/foci-gw/agents_unavailable.go:123-135 | The stall branch |
| `MemoryClosers.MoveConserves` | cmd/foci-gw/memory_init.go:137-148 | Handing a list over keeps every closer in one place |
| `MemoryClosers.MoveAllConserves` | cmd/foci-gw/memory_init.go:113-118 | So does handing over all of them |
| `MemoryClosers.CloseConserves` | cmd/foci-gw/memory_init.go:126-130 | So does closing the last of a list, and nothing is closed twice |
| `MemoryProtocol.RunKeepsInv` | cmd/foci-gw/memory_init.go:108-490 | Every run of adds, removes and cleanups keeps the closers conserved, in hands only while a call is at work, and, after cleanup has taken them, registered only if late |
| `MemoryGuarantees.ClosedAtMostOnce` | cmd/foci-gw/memory_init.go:108-148 | Every store or index ever opened is in exactly one list, once, or closed; none is closed twice |
| `MemoryGuarantees.AllClosedAtRest` | cmd/foci-gw/memory_init.go:107-123 | At rest after cleanup everything is closed, once, except indices registered after cleanup took the closers |
| `MemoryGuarantees.CleanupClosesAll` | cmd/foci-gw/memory_init.go:107-123 | With no add in flight at that point, everything is closed exactly once |
| `MemoryGuarantees.LateExactly` | cmd/foci-gw/memory_init.go:237-246 | An index can be registered late exactly when an admitted add has yet to register its own |
| `MemoryGuarantees.CleanupOvertakesAdd` | cmd/foci-gw/memory_init.go:107-123 | A run in which cleanup takes the closers with such an add in flight |
| `MemoryGuarantees.NeverAdmitted` | cmd/foci-gw/memory_init.go:429-441 | An add not admitted when the system is closed never is |
| `MemoryGuarantees.RegistersNothing` | cmd/foci-gw/memory_init.go:429-441 | No step of such an add registers anything |
| `MemoryGuarantees.WaitGroupIsSafe` | cmd/foci-gw/memory_init.go:108-113 | The wait group is never incremented once closed, and is empty once cleanup has waited |
| `MemoryGuarantees.SuccessfulAdd` | cmd/foci-gw/memory_init.go:429-478 | The run of an add that nothing interrupts: it registers its agent, its stores and then its index, starts one backfill, and keeps nothing in its hands |
| `MemoryGuarantees.FailedAddLeavesStoresOpen` | cmd/foci-gw/memory_init.go:460-467 | The run of an add whose index fails, that nothing interrupts: its stores stay registered and open, appended to those of earlier tries |
| `MemoryGuarantees.RegisteredByAdmission` | cmd/foci-gw/memory_init.go:429-467 | Of all steps of an add only its admission, and the registration of its index, change what is registered |
| `MemoryGuarantees.RemovalExactly` | cmd/foci-gw/memory_init.go:137-148 | A removal takes the agent, so that it can be added again, and all that is registered for it, and nothing of anybody else's |
| `MemoryGuarantees.PublishRegisters` | cmd/foci-gw/memory_init.go:333-343 | An add with its index registers its agent, also one removed in the meantime |
| `MemoryAdds.AddLeavesExactly` | cmd/foci-gw/memory_init.go:420-490 | Over every run with anything else going on but a take of that agent's closers: when an add has ended, each of its stores is registered and open exactly if it came to building its index, else closed; so after an error exactly if it was the index that failed |
| `MemoryAdds.AdmitsWithAllStores` | cmd/foci-gw/memory_init.go:153-193 | Over every run an add that comes to its admission has all four stores open |
| `MemoryAdds.LeavesRegisteredExactly` | cmd/foci-gw/memory_init.go:107-148 | Of all steps of all calls, exactly a removal of the agent and cleanup take what it has registered |
| `MemoryAdds.RegisteredStays` | cmd/foci-gw/memory_init.go:107-148 | Over every run nothing but a removal of the agent or cleanup takes what it has registered |
| `MemoryAdds.IndexStays` | cmd/foci-gw/memory_init.go:237-246 | An index in an add's hands is registered by its next step and stays so |
| `MemoryGuarantees.FailedAddRun` | cmd/foci-gw/memory_init.go:460-467 | A run in which a failed add leaves four open stores behind |
| `MemorySystem.System.Admit` | cmd/foci-gw/memory_init.go:434-451 | The section that registers an agent's stores: all of them, or none when closed or already there |
| `MemorySystem.System.StartBackend` | cmd/foci-gw/memory_init.go:238-246 | Registers one index for its owner, after what is there |
| `MemorySystem.System.TakeAgent` | cmd/foci-gw/memory_init.go:137-145 | Takes one agent's closers and no other's |
| `MemorySystem.System.Shut` | cmd/foci-gw/memory_init.go:109-111 | The first section of cleanup |
| `MemorySystem.System.TakeAll` | cmd/foci-gw/memory_init.go:113-118 | Takes every registered closer, shared and per agent |
| `MemorySystem.System.CloseAll` | cmd/foci-gw/memory_init.go:126-130 | Closes each of a list once, from the last opened to the first |

## Left out

- That a stop closes the reminder store and the inbox of the stopped start: a delete that then fails, and an injection that is then refused, are among the answers the model allows. A row id is scheduled once in a start.
- The times at which restored wakes fire, and the text of a wake's message.
- The agent build, its teardown and the config loading: each is an answer (success, failure, ids found) given to the step that needs it.
- The disk rename (`internal/agentrename`): it succeeds or fails, and the config read after it may hold either id. That a new id differs from the old one is its check (`internal/agentrename/rename.go:179`).
- Plan and checkRename beyond the one answer that the rename waits for, and the approval flow of the rename command.
- Session key parsing, and which agent a key names: parameters of the prompt model.
- Buttons, prompt texts, expiry and the later edits of a shown prompt: a prompt's life after its listener is registered.
- The batched ask presenter, and the restore and reveal hooks: table look-ups of the first chat.
- Floating point: dollars are reals, so rounding, infinities and NaN are not modelled; the bound's noise term is kept.
- The library's sort is represented by an insertion sort; LibrarySortIsThisOne says that this loses nothing.
- 64-bit wrap-around of token counts.
- SQL, report printing, and the remainder and class-method sections of the shadow report.
- The non-atomic write of a script file (truncate, then write): a write puts a whole version at the path. A reader of a half-written file sees bytes that do not parse, and leaves or loses the file as one that does not.
- The private names of claimed scripts are taken to differ, as process id and nanosecond time are meant to make them; a removal of one that fails leaves a file nobody reads.
- The rest of cc-stub: NDJSON, crash modes and tool execution.
- The tracked and dirty listings, the stamp file and the directory times of restore-mtime.py. A time that int() takes but utime cannot represent raises at the utime call; that is not modelled.
- The connection's read end is reported by a read of its own, as network connections do; a reader that returned data and EOF together could end a full buffer's worth earlier.
- The inbox: an accepted injection runs at most once or is refused, and a turn ends once.
- Goroutine scheduling and real time: safety only; the watch's clock is a number that does not decrease, and activity is never later than its reading nor earlier than an event of the watched turn. A turn that replies has emitted an event.
- Memory search, conversation routing, todo wiring and the sweep and watch threads of an index.
- The order in which cleanup closes the agents' lists: any order is allowed, each list in reverse.
- The wait group is the set of adds whose backfill runs; each add starts at most one.

# Models of the channel-review daemon and its neighbours

This project models the parts of the repository where the hard reasoning is, and
proves what they are for. `dafny verify dfyconfig.toml` checks all of it.

## What is modelled

**The review job engine** (`Channels`, `ChannelHistory`, `Reactions`, `EngineModel`,
`EngineInvariant`, `EngineRuns`, `EngineTheorems`, `EngineOutcomes`, `EngineFinishes`,
`EngineShutdown`, `EngineObject`). A daemon admits chat messages as review jobs, removes duplicates by
pull request, queues the jobs on a bounded channel, runs them on N workers and mirrors
their progress as reactions. The engine is a state machine whose step is one stretch of code between
two awaits, so that a run is any interleaving of message handlers, workers, the
upgrade flow, chat calls that settle one by one, `stop` and maintenance. A task is
a process with a place in the code; `EngineInvariant` ties places, queue, keys in
flight, statuses, marks, shown reactions, controllers and the outstanding count.
Maintenance may drop any entry of the handled map at any time, and a handler may come
again for a message whose job still goes on; the invariant holds then too, and gives up
only what it says of that message. `EngineFinishes` counts submissions and finishes over
whole runs, `EngineOutcomes` says what a message ends with. `EngineObject` is the same engine as an object whose methods update its
fields; its state is always one that a run comes into, and its `Stop` drains it.
`ChannelHistory` has the channel as an object over the history of all calls made on it.

**The daemon around it** (`Daemon`, `Recovery`, `StateStore`). Several chats feed the
engine, one event at a time each; the row in the database survives a crash at any
point; a restart repairs the row and the relay replays what came after the
recorded id. `Recovery` is what the restart repairs, `StateStore` the revision-checked
store, any number of which may be open on one row.

**Reviews and upgrades** (`StackedReview`, `Schedules`, `DepsFlows`,
`UpgradeJobs`). The review of a pull request and of those stacked on it, under one
deadline a target and with at most one change of runner; the window arithmetic; the upgrade of dependencies once
a window, with late jobs and crashes, and how it sits on the engine.

**Text and bytes** (`Text`, `Entities`, `Css`, `CssCalls`, `Attributes`, `Links`,
`WrittenTags`, `Html`, `Markup`, `HtmlScanner`, `HtmlTables`, `Zip`, `Plan`). The scanners
that clean prototype markup, what they make of a document as it is written, and what a
second scan of their output sees; the ZIP writer against a
reader that follows sections 4.3.7, 4.3.12 and 4.3.16 of PKWARE's APPNOTE.TXT;
the timing and action tokens of a plan line.

**Pages** (`KeyedList`, `Tours`). The keyed-list reconciliation, in place on a
container of elements; the pages a tour draft and its script are on.

A loop of the source is a method with a loop, proved against a function of its
input; the theorems are about that function. An object of the source is a class,
each method proved to give the next value of its abstract state.

## What the proofs found

- The channel is first-in first-out exactly when its capacity is not zero.
- `pruneHandled` (state.ts:450-457) drops entries by age, those of queued and running jobs
  too. When the message then comes again, `handle` (engine.ts:861-872) takes a key, and its
  move to pending is forbidden: it throws, the key stays in flight without a job, and the
  key's pull request is refused as a duplicate from then on. It happens exactly when the
  message is already marked (`EngineTheorems.ForbiddenIff`); `EngineTheorems.AKeyIsLost` and
  `Daemon.AnEventIsLost` are runs that do it. Every claim about a message holds as long as
  no handler is called for it while its entry is dropped and its job goes on, and breaks by
  such a call (`EngineTheorems.SafeToHandleIff`). Distinct keys, the bound of 64, the room
  to send, the drain and the count of finishes hold in any case.
- An event on which `handle` throws is not recorded, but the next one records a later id,
  so it is never replayed (`Daemon.LostIsSkipped`, `Daemon.SkippedForGood`). Up to the
  recorded id only a message without a sender, or one whose entry was dropped at some
  time, can be passed over so; every other event was completed.
- With two stores on one row memory and row may differ though no save failed; they agree,
  and the next save succeeds, exactly when no other store has saved since.
- A dependency window is recorded before the engine is asked. Refused by a full or
  stopped engine it is lost, unless an older job of the repository is still live and the
  window is due after it ends (`DepsFlows.StillAcceptedIff`).
- A review task that starts after `stop` keeps its key in flight, and a repository
  task frees it; neither matters, since nothing is admitted any more.
- The sanitizer looks for the closing tag of a dropped element in the lower-case text and
  uses its position in the text itself. A dotted capital I in front, whose small form is
  longer, moves it (`Markup.DottedCapitalsMove`); without such a letter, or without such an
  element, a document comes out as `Markup.DocumentSanitized` has it.
- The ZIP account of a file is true exactly when its length fits four bytes.
- A keyed list keeps children without a key, and all but the last of those that
  share one, behind its items.
- `draftToScript` after `scriptToDraft` is the identity exactly on normalized
  scripts, and drafts only ever give those.

## Assumptions

- No save of the engine's store fails, and no second store overtakes it, in the
  claims about the engine and the daemon. A failed chat call is a step of its own
  and ends only the claim about shown reactions.
- The reaction ids do not change while a job runs. Posting a text does not throw.
- The relay replays in order every event after the id it is asked to resume from;
  events that report a gap do not occur. An event id is a position in its stream.
- `serve` ends its pumps before it stops the engine, as its `finally` has it.
- The key of a pull request never begins with `deps:` (it is `protocol//host/path` or the
  address as given, state.ts:133-141), in `UpgradeJobs`.
- Days have 24 hours, and the configuration is the same over a run of the upgrade
  flow, across restarts too.
- The clock, the abort signal, the runners, the probes and the verdict reads of a
  review are values the model is given (`Surroundings`), as are the chat calls'
  results, compression, checksum and the cleaner of a style attribute.

## Model

| member | source | states |
|---|---|---|
| `ChannelHistory.FifoAndConservation` | pkg/common/src/channel.ts:8-64 | for every run of `send`, `receive` and `close` calls on a channel with room for at least one value: the i-th `receive` that gets a value gets the value of the i-th `send`, and that `send` resolved; delivered values followed by the buffer are exactly the values of the resolved sends in order; the waiting senders are exactly the unsettled sends; nothing waits once closed and nothing is rejected before |
| `ChannelHistory.FifoExactlyWhenUsable` | pkg/common/src/channel.ts:7-8 | every run is first-in first-out if and only if the capacity is not zero |
| `ChannelHistory.ZeroCapacityOvertakes` | pkg/common/src/channel.ts:26-47 | with capacity 0 a later `send` that meets a waiting receiver overtakes the one that waits for room |
| `ChannelHistory.RunKeepsAccount` | pkg/common/src/channel.ts:8-64 | every run keeps the account: a prefix of the receives is delivered, a prefix of the sends resolved, no receiver waits beside a value or a sender, no sender waits beside free room, the buffer never exceeds the capacity |
| `ChannelHistory.Channel.constructor` | pkg/common/src/channel.ts:8-14 | a new channel has an empty history and agrees with it |
| `ChannelHistory.Channel.Refill` | pkg/common/src/channel.ts:16-23 | the loop lets in exactly the oldest waiting senders that fit, in order, and names the sends it resolves |
| `ChannelHistory.Channel.Send` | pkg/common/src/channel.ts:26-38 | the fields after the call are those of the history with this `send` in it, the promise settles as the history says, and the value is handed over exactly when the channel is open with a receiver waiting, to the oldest one |
| `ChannelHistory.Channel.Receive` | pkg/common/src/channel.ts:39-47 | likewise for `receive`; the sends it resolves are exactly the ones the history resolves |
| `ChannelHistory.Channel.Close` | pkg/common/src/channel.ts:48-55 | likewise for `close`: waiting receivers end, waiting senders are rejected, no other promise changes; a second close changes nothing |
| `Reactions.TransitionShows` | pkg/channel-review/src/reactions.ts:18-38 | an allowed transition gives calls that turn the one reaction of the old state into exactly the one of the new state, also when two states share an id |
| `Reactions.TableIs` | pkg/channel-review/src/reactions.ts:18-26 | a message begins as pending or with a failure, can fail until it has a verdict, and stays at a verdict or a failure |
| `EngineInvariant.LocalStepKeeps` | pkg/channel-review/src/engine.ts:156-236 | a step of one task that carries its key, status, mark, reactions, seat and controller along keeps the whole invariant; after a second handler call over a dropped entry the claims about that one message are given up, and no other |
| `EngineInvariant.SpawnStepKeeps` | pkg/channel-review/src/engine.ts:848-875 | starting a task with a free key for a message the store does not hold keeps the invariant, also when the store has dropped it under a live task |
| `EngineInvariant.StoreStepKeeps` | pkg/channel-review/src/engine.ts:856-861 | a change of the handled map after which each entry there is of a live task says where that task stands keeps the invariant; entries may go |
| `EngineInvariant.HandleKeeps` | pkg/channel-review/src/engine.ts:819-875 | every way `handle` can begin keeps the invariant, a forbidden first move included: ignored, help or `$emoji`, error, duplicate key, full queue, admission |
| `EngineInvariant.RoomToSend` | pkg/channel-review/src/engine.ts:185-205 | a task about to be sent finds room: the buffered tasks are fewer than the keys in flight, so no `send` of the engine ever waits |
| `EngineRuns.StepKeeps` | pkg/channel-review/src/engine.ts:156-236 | every enabled step of the engine, in any interleaving, keeps the invariant; maintenance may drop any entries at any time, those of queued and running jobs included |
| `EngineRuns.FreshInv` | pkg/channel-review/src/engine.ts:176-213 | a fresh engine over any stored statuses meets the invariant |
| `EngineRuns.RunKeeps` | pkg/channel-review/src/engine.ts:156-236 | every run from a state that meets the invariant ends in one, whatever maintenance drops |
| `EngineTheorems.QueueAndKeys` | pkg/channel-review/src/engine.ts:156-213 | in every reachable state, whatever maintenance drops: the keys in flight are exactly those of the jobs not past their `finally` and of the handlers whose move threw, pairwise different, at most 64; the buffer is no longer than that set, no sender waits, and at most `concurrency` tasks run |
| `EngineTheorems.KeysExactIff` | pkg/channel-review/src/engine.ts:870-872 | they are exactly the keys of the jobs if and only if no handler threw after it had taken its key |
| `EngineTheorems.ExactUnlessCalled` | pkg/channel-review/src/engine.ts:819-875 | over every run they are, if no handler is called for a message while its entry is dropped and its job still goes on |
| `EngineTheorems.DoubledIff` | pkg/channel-review/src/engine.ts:824-827 | a message counts as called for twice if and only if the run has a handler call for it, the engine not stopped, at a moment when its entry was dropped and a task still spoke for it |
| `EngineTheorems.SoundUnlessCalled` | pkg/channel-review/src/engine.ts:819-875 | over every run, unless such a call came for a message: no move of it threw, no key was lost over it, one task at most speaks for it, and what the store still holds of it is where that task stands |
| `EngineTheorems.SafeToHandleIff` | pkg/channel-review/src/engine.ts:824-875 | every handler call for a message that may come next keeps that, if and only if its entry is not dropped under a live task |
| `EngineTheorems.ForbiddenIff` | pkg/channel-review/src/engine.ts:861-872 | when a message asks for a job and there is room and a free key: its first move throws, and its key stays in flight without a job, if and only if the message is already marked, and then its entry was dropped under a live job |
| `EngineTheorems.RefusalForbiddenIff` | pkg/channel-review/src/engine.ts:848-853 | when a message is refused: its move throws if and only if its mark is a verdict or a failure already |
| `EngineTheorems.DroppedThenThrown` | pkg/channel-review/src/state.ts:450-457 | the input: any queued review job, its entry dropped by age, its message again with a free key; the second `handle` throws behind `inFlight.add` |
| `EngineTheorems.AKeyIsLost` | pkg/channel-review/src/state.ts:450-457 | it is reachable: a run of a fresh engine with one worker and two messages that ends so |
| `EngineTheorems.StatusStep` | pkg/channel-review/src/engine.ts:584-623 | one step moves the status a message stands at (its entry, or while that is dropped where its task is) only along pending, running, done or failed, or forgets it when its entry is dropped and no unsettled task speaks for it; the end of a job leaves it failed after a failure and done after a verdict, its start leaves it running; for a message no handler was called for while its entry was dropped |
| `EngineTheorems.LifecycleUnlessCalled` | pkg/channel-review/src/engine.ts:584-623 | the same at every step of every run of a fresh engine in which no such call came for the message |
| `EngineTheorems.TerminalStays` | pkg/channel-review/src/engine.ts:584-623 | over any further run a done message stays done and a failed one failed, while its own entry is kept, whatever other entries are dropped |
| `EngineOutcomes.JobIsAnswered` | pkg/channel-review/src/engine.ts:819-875 | what `handle` answers a message that asks for a job: a known one, or any after `stop`, changes nothing; one whose key is in flight is done, full queue or not; one refused by 64 keys in flight has failed; any other waits, its key taken |
| `EngineOutcomes.OthersAreAnswered` | pkg/channel-review/src/engine.ts:828-854 | an error is stored as failed and begins a refusal without a key; help and `$emoji` are stored as done and begin nothing |
| `EngineOutcomes.ConcludeStores` | pkg/channel-review/src/engine.ts:258-261 | a job that ends with a failure is stored as failed, one that ends with a verdict as done |
| `EngineOutcomes.EntrySaysWhere` | pkg/channel-review/src/engine.ts:584-623 | in every reachable state the entry of a message that a task speaks for is pending until its job starts, running until its outcome, failed or done by that outcome, and failed for a refusal |
| `EngineOutcomes.ShownOnTheWay` | pkg/channel-review/src/engine.ts:223-236 | between moves a clean message shows the pending reaction while its job waits, and the one of a running job while it runs |
| `EngineOutcomes.CallsShow` | pkg/channel-review/src/engine.ts:229-235 | a chat call that fails shows nothing, one that succeeds puts its reaction or takes it away, on its own message only |
| `EngineOutcomes.OutcomeShown` | pkg/channel-review/src/engine.ts:346-388 | over every run, once a job has made its last move: over any further run that keeps its entry the message is stored as failed if and only if that move was to failure, as done if and only if it was to a verdict, and shows exactly the one reaction of it |
| `EngineOutcomes.RefusalShown` | pkg/channel-review/src/engine.ts:848-868 | the same for a refused message: failed, with the failure reaction |
| `EngineTheorems.MovesAreAllowedAndShown` | pkg/channel-review/src/engine.ts:223-236 | in any interleaving no `move` of a message asks for a forbidden transition unless a handler was called for it while its entry was dropped, and when a move ends its message carries exactly the one reaction of its new state, if no chat call failed and the message carried none of ours at first |
| `EngineTheorems.WorkersStay` | pkg/channel-review/src/engine.ts:207-213 | no step adds or removes a worker |
| `EngineTheorems.NoRunBeginsAfterStop` | pkg/channel-review/src/engine.ts:319 | after `stop` no task can begin a runner execution |
| `EngineTheorems.QueuedTasksDoNothingAfterStop` | pkg/channel-review/src/engine.ts:584-585 | after `stop` a task taken from the queue returns without touching a status, a mark or a reaction |
| `EngineTheorems.GoneForGood` | pkg/channel-review/src/engine.ts:185-205 | a task that has finished, and a handler that threw, is never changed by any step again |
| `EngineFinishes.FinishesOnce` | pkg/channel-review/src/engine.ts:185-205 | over every run of a fresh engine: a task is submitted at most once and finishes at most as often; it has finished exactly if it is gone; `outstanding` is the number of submissions less the number of finishes, and never negative |
| `EngineFinishes.RunCounts` | pkg/channel-review/src/engine.ts:185-205 | from any state that meets the invariant, submissions and finishes of one task in a run are told by where it stood and where it stands |
| `EngineFinishes.RunOwes` | pkg/channel-review/src/engine.ts:185-205 | over any run `outstanding` changes by its submissions less its finishes |
| `EngineShutdown.StepLowersRank` | pkg/channel-review/src/engine.ts:949-955 | after `stop` each step the engine takes by itself lowers a rank |
| `EngineShutdown.CallsAfterStopStartNothing` | pkg/channel-review/src/engine.ts:824-948 | after `stop`, calls from outside change nothing but that maintenance may drop handled entries |
| `EngineShutdown.DrainsWithin` | pkg/channel-review/src/engine.ts:949-955 | a run after `stop` holds at most as many steps of the engine itself as the rank where it began |
| `EngineShutdown.NotDoneCanGoOn` | pkg/channel-review/src/engine.ts:185-213 | after `stop`, while a task is not over or a worker has not left, the engine has a step to take |
| `EngineShutdown.ProcessCanGoOn` | pkg/channel-review/src/engine.ts:156-236 | a task that is neither over nor queued can always take its next step |
| `EngineShutdown.StopDrains` | pkg/channel-review/src/engine.ts:949-955 | a run after `stop` that cannot go on has `outstanding` at 0, every task over and every worker gone |
| `EngineShutdown.EveryTaskFinishes` | pkg/channel-review/src/engine.ts:185-205 | so in a whole run that `stop` has drained every task submitted, before it or after, has finished exactly once |
| `EngineObject.Engine.constructor` | pkg/channel-review/src/engine.ts:176-213 | the new engine is the fresh state over the stored statuses, and valid: its state is one that a run of the engine comes into |
| `EngineObject.Engine.HandleJob` | pkg/channel-review/src/engine.ts:819-875 | the first stretch of `handle` for a message that asks for a job, on the whole state; the engine stays valid, and the entry, the move, the key and the task of the message agree unless it was called for while its entry was dropped |
| `EngineObject.Engine.HandleError` | pkg/channel-review/src/engine.ts:848-854 | likewise for a message that is an error |
| `EngineObject.Engine.HandleReply` | pkg/channel-review/src/engine.ts:828-847 | likewise for help and `$emoji` messages |
| `EngineObject.Engine.EnqueueRepo` | pkg/channel-review/src/engine.ts:943-948 | takes the job if not stopped, with fewer than 64 keys in flight and its key free, and says so; the engine stays valid and no send waits |
| `EngineObject.Engine.Stop` | pkg/channel-review/src/engine.ts:949-955 | closes the engine and lets it go on until there is nothing to do: the loop ends, with `outstanding` at 0, every task over and every worker gone |
| `EngineObject.Engine.Close` | pkg/channel-review/src/engine.ts:949-952 | the part of `stop` before its await: every controller aborted, the channel closed, waiting receivers ended |
| `EngineObject.Engine.Perform` | pkg/channel-review/src/engine.ts:156-236 | any step the engine takes by itself, done in place; the engine stays valid, no send waits, `outstanding` is not negative, no run begins once stopped, and the end of a job stores failed for a failure and done for a verdict |
| `EngineObject.Engine.ValidMeans` | pkg/channel-review/src/engine.ts:156-213 | what a caller of a valid engine may rely on: no send waits, at most 64 keys, no more queued tasks than keys, nothing finished that was not submitted, and no move thrown but for a message called for while its entry was dropped |
| `EngineObject.Engine.FindStep` | pkg/channel-review/src/engine.ts:207-213 | after `stop`: a step that can be taken, and none only when every task is over and every worker gone |
| `EngineObject.Engine.Prune` | pkg/channel-review/src/engine.ts:882-885 | the expired entries go, whatever jobs they belong to |
| `Daemon.ExactlyOnce` | pkg/channel-review/src/daemon/serve.ts:342-425 | over any run with crashes at any point, restarts, in-order replay and maintenance that drops what it will: a message whose entry was never dropped is admitted at most once; every event at or before the persisted id had its call completed in some run unless it is a message without a sender or asks for a message that was dropped; no message without a sender is ever completed; and every message asked for up to that id is in the store or was dropped from it |
| `Daemon.DeliveryStores` | pkg/channel-review/src/daemon/serve.ts:342-352 | what a delivered message leaves in the store, by what it asks for: an error failed with a refusal begun, a reply done, a job pending, done as a duplicate or failed by the full queue; nothing for one without a sender |
| `Daemon.HandledIsRecorded` | pkg/channel-review/src/state.ts:389-406 | a handled event is recorded in the row, at once or by the timer, and a crash behind that does not lose it |
| `Daemon.ResubscribeReads` | pkg/channel-review/src/daemon/serve.ts:396-425 | a chat subscribed to anew is read from behind the last id in memory, and nothing else changes |
| `Daemon.RestartRepairs` | pkg/channel-review/src/engine.ts:892-942 | a restart comes up with the ids of the row, fails what was pending or running and keeps the rest but for what has expired |
| `Daemon.MoveKeeps` | pkg/channel-review/src/daemon/serve.ts:342-425 | every move of the daemon (delivery, completion, timer save, resubscription, engine step, crash, crash inside recovery, restart) keeps the invariant that ties streams, cursors, row and engine |
| `Daemon.MovesKeep` | pkg/channel-review/src/daemon/serve.ts:342-425 | so does every run of moves |
| `Daemon.LosesIff` | pkg/channel-review/src/daemon/serve.ts:342-371 | when the next event asks for a job with a free key and room: `handle` throws on it if and only if the message is already marked; then its entry had been dropped, and its key stays in flight without a job |
| `Daemon.LostIsSkipped` | pkg/channel-review/src/daemon/serve.ts:350-371 | and then one more event, delivered and completed, records a later id over it |
| `Daemon.SkippedForGood` | pkg/channel-review/src/daemon/serve.ts:342-425 | an event that was not completed and lies behind the recorded id is never completed in any further run, restarts included |
| `Daemon.AnEventIsLost` | pkg/channel-review/src/daemon/serve.ts:342-425 | it is reachable: in a chat with a message, the same message for another pull request, and one more event, a run from the start loses the second event |
| `Recovery.RecoveredIsSettled` | pkg/channel-review/src/engine.ts:892-942 | from every stored state `recover` leaves no handled entry pending or running, no issue `fixing`, no deps run `running`, nothing running or current; it keeps exactly the unexpired entries, and every entry, issue and run that was settled is the same |
| `Recovery.RecoveryRepairs` | pkg/channel-review/src/engine.ts:892-942 | what it leaves of the statuses is the repair that the restart of the daemon model makes |
| `Recovery.RecoveredTwice` | pkg/channel-review/src/engine.ts:892-942 | a second recovery at the same time changes nothing |
| `Recovery.InterruptedFail` | pkg/channel-review/src/engine.ts:927-941 | a message that was pending or running is kept up to 24 hours, and has then failed now, in its own chat or the default one |
| `Recovery.WorkFails` | pkg/channel-review/src/engine.ts:911-925 | a `fixing` issue fails with its first sighting and without its pull request; a `running` deps run fails in its window |
| `Recovery.KilledIff` | pkg/channel-review/src/engine.ts:894-908 | a process is killed if and only if the store has it as running, or as current beside them, with a pid and start that still are its own, and it is younger than the longest timeout |
| `Recovery.Recoverer.constructor` | pkg/channel-review/src/engine.ts:892-895 | recovery begins with the stored state, no mark and nothing killed |
| `Recovery.Recoverer.Recover` | pkg/channel-review/src/engine.ts:892-942 | the object ends with the recovered state, has killed exactly the killable orphans, and has moved each interrupted kept message exactly once, by an allowed transition to failure from the state its status names, in its own chat |
| `Recovery.Recoverer.KillOrphans` | pkg/channel-review/src/engine.ts:894-908 | exactly the orphans with a recorded process that is alive, ours and within the longest timeout are killed, the current one included once |
| `Recovery.Recoverer.FailFixes` | pkg/channel-review/src/engine.ts:911-918 | exactly the `fixing` issues fail, keeping their first sighting and losing their pull request |
| `Recovery.Recoverer.FailUpgrades` | pkg/channel-review/src/engine.ts:919-925 | exactly the `running` deps runs fail, keeping their window |
| `Recovery.Recoverer.FailMessage` | pkg/channel-review/src/engine.ts:935-941 | one interrupted message fails in its chat or the default one, and its mark is gone |
| `Recovery.Recoverer.FailInterrupted` | pkg/channel-review/src/engine.ts:927-941 | every pending or running message fails once, every other entry is kept |
| `Recovery.KillThese` | pkg/channel-review/src/engine.ts:897-908 | the loop kills exactly the killable ones |
| `StateStore.SaveActsOnWhatWasSeen` | pkg/channel-review/src/state.ts:372-385 | a save that succeeds writes over exactly the state its store last read or wrote; one that fails leaves the row alone |
| `StateStore.EventIsTaken` | pkg/channel-review/src/state.ts:389-406 | an event id is in the memory at once; it is in the row at once if and only if no save waits, the interval since the last one is over and the store is open and not overtaken; while time is left the row is untouched and a save waits |
| `StateStore.UpdateIsWritten` | pkg/channel-review/src/state.ts:419-485 | any other setter of an open store that is not overtaken makes the changed state the next state of the row |
| `StateStore.TimerWrites` | pkg/channel-review/src/state.ts:396-405 | when the timer runs out, such a store writes what it holds |
| `StateStore.MemoryIsFolded` | pkg/channel-review/src/state.ts:350-485 | over any calls of any stores, the memory of a store is what its own changes, in order, made of the state it began with |
| `StateStore.RowIsFolded` | pkg/channel-review/src/state.ts:387-485 | for a store alone on its row, once nothing is pending, and after `flush` and the closing `close`, the row is what all its changes, in order, made of the state it began with |
| `StateStore.CallKeepsHonest` | pkg/channel-review/src/state.ts:387-485 | one call of any of the open stores leaves the row alone or adds one state to its history, over exactly the state that store knew |
| `StateStore.LinearHistory` | pkg/channel-review/src/state.ts:350-418 | over any calls of any number of stores on one row: what was in its history stays, and every state that came to it was written by a call of a store that had itself last read or written the state right before it |
| `StateStore.CurrentIff` | pkg/channel-review/src/state.ts:376-382 | over any calls, the revision of a store is that of the row if and only if no other store has saved since it last read or wrote |
| `StateStore.SaveSucceedsIff` | pkg/channel-review/src/state.ts:372-385 | after any calls, the next save of a store succeeds if and only if it is not closed and no other store has saved since it last read or wrote |
| `StateStore.MemoryIsRowIff` | pkg/channel-review/src/state.ts:350-418 | after any calls, a store without a failed save and without a pending event holds the state and the revision of the row if and only if no other store has saved since it last read or wrote |
| `StateStore.AloneStays` | pkg/channel-review/src/state.ts:350-418 | a store that is alone on its row always has the newest revision, and none of its saves fails before it is closed |
| `StateStore.AloneAgrees` | pkg/channel-review/src/state.ts:387-418 | for a store alone on its row, memory and row agree after every call that leaves no event pending, and always after `flush` and the closing `close` |
| `StateStore.SecondStoreOvertakes` | pkg/channel-review/src/state.ts:376-382 | with two stores memory and row can differ though no save failed |
| `StateStore.Row.constructor` | pkg/channel-review/src/state.ts:341-346 | a new row has revision 0 and one state |
| `StateStore.Row.CompareAndSwap` | pkg/channel-review/src/state.ts:376-382 | the row gains a state exactly when the expected revision is the current one |
| `StateStore.Store.constructor` | pkg/channel-review/src/state.ts:357-370 | a store reads state and revision of the row as they are |
| `StateStore.Store.Save` | pkg/channel-review/src/state.ts:372-385 | the row changes only by compare-and-swap on the revision of this store; a failure is reported and the timer is gone either way |
| `StateStore.Store.Update` | pkg/channel-review/src/state.ts:419-485 | a setter changes the memory and saves: the row gains exactly the changed state, or nothing if the save fails |
| `StateStore.Store.SetLastEventId` | pkg/channel-review/src/state.ts:389-406 | the memory takes the event id whatever happens; it is saved at once only if no save waits and the interval is over, and then the row gains exactly the changed state; else it is left to the one timer |
| `StateStore.Store.Flush` | pkg/channel-review/src/state.ts:407-409 | a pending event is saved, nothing else |
| `StateStore.Store.Close` | pkg/channel-review/src/state.ts:410-418 | the last pending event is saved, then the store is closed for good |
| `StackedReview.OneDeadline` | pkg/channel-review/src/engine.ts:397-402 | every run of one target is given exactly the time left to one deadline fixed when the target began |
| `StackedReview.ErrorIs` | pkg/channel-review/src/engine.ts:346-388 | the code of an attempt: none exactly if it was in time, not aborted, not timed out, with status 0 and no code, or a usage limit behind a posted review; else late, aborted, timed out, thrown, the runner's own code, or 203 |
| `StackedReview.VerdictIff` | pkg/channel-review/src/engine.ts:460-467 | a target is judged with a verdict if and only if its last attempt went well and that verdict was read |
| `StackedReview.UnreadIs` | pkg/channel-review/src/engine.ts:460-467 | with no verdict read the outcome is 301, the code of the refusal, or 203 |
| `StackedReview.SwitchIff` | pkg/channel-review/src/engine.ts:425-456 | the runner is changed if and only if the first one met its limit in time without a posted review, nothing was aborted, and the fallback was ready with time left; then it runs with the time left and its default model |
| `StackedReview.LimitIs` | pkg/channel-review/src/engine.ts:425-456 | a usage limit that changes nothing gives 205, 204 or 207 |
| `StackedReview.StackBound` | pkg/channel-review/src/engine.ts:390-457 | n targets cost at most n + 1 runs and one change of runner, and at most n without a change |
| `StackedReview.SwitchedForGood` | pkg/channel-review/src/engine.ts:425-456 | once another runner is in use, every later target uses it, once |
| `StackedReview.LastSelection` | pkg/channel-review/src/engine.ts:451-452 | a stack ends with the selection it began with, or with the fallback and its default model |
| `StackedReview.SelfFallbackRunsTwice` | pkg/channel-review/src/config.ts:272-274 | the rule of the configuration matters: with the first runner as its own fallback a target can run twice without a change |
| `StackedReview.HeldIff` | pkg/channel-review/src/engine.ts:277-292 | after the rows of a stack a pull request is held back if and only if the last row that decides it asked for changes, or none decides it and it was held back before |
| `StackedReview.AggregateIsWorst` | pkg/channel-review/src/summary.ts:36-43 | the aggregate is at least as severe as every row, is that of some row or approval, and is allowed after `inProgress` |
| `StackedReview.AggregateMeans` | pkg/channel-review/src/summary.ts:22-43 | the summary is a failure if and only if a row failed, else changes if one asks for them, else a comment if one is a comment, else an approval |
| `StackedReview.ReviewJob.constructor` | pkg/channel-review/src/engine.ts:584-595 | a job begins with the selection of its message and no run |
| `StackedReview.ReviewJob.Try` | pkg/channel-review/src/engine.ts:400-423 | one attempt runs only before the deadline and without an abort, with the time left; what it leaves is the error of the run, a usage limit met after the review was posted counting as none |
| `StackedReview.ReviewJob.Review` | pkg/channel-review/src/engine.ts:390-467 | one target leaves the round its surroundings call for: runs, selection and outcome |
| `StackedReview.ReviewJob.SettleBlocked` | pkg/channel-review/src/engine.ts:277-292 | the target is held back after requested changes and released by any other verdict or CR-302 |
| `StackedReview.ReviewJob.ReviewTarget` | pkg/channel-review/src/engine.ts:513-527 | one turn of the loop: an aborted job reviews nothing more; else the round is linked to the ones before and settles what is held back |
| `StackedReview.ReviewJob.ReviewStack` | pkg/channel-review/src/engine.ts:496-535 | the loop over the targets: linked rounds in target order, at most n + 1 runs, rows exactly when no abort came, and what was held back is that of the finished rows |
| `Schedules.WindowShape` | pkg/channel-review/src/automation/schedule.ts:18-40 | a window begins on its day, lasts more than nothing and at most 24 hours |
| `Schedules.WindowClock` | pkg/channel-review/src/automation/schedule.ts:18-40 | a window begins on its day when the clock shows the start, and ends when it next shows the end |
| `Schedules.DueOnItsDay` | pkg/channel-review/src/automation/schedule.ts:22-40 | what is due holds the instant, and for a weekly schedule began on its day of the week |
| `Schedules.DueIfInWindow` | pkg/channel-review/src/automation/schedule.ts:22-40 | in the window of a chosen day, that window is due |
| `Schedules.Apart` | pkg/channel-review/src/automation/schedule.ts:18-40 | windows of different days never overlap and keep the order of their days |
| `Schedules.DueWindowIsTheOne` | pkg/channel-review/src/automation/schedule.ts:18-40 | `dueWindow` is the one window of the endless daily or weekly family that holds the instant, and nothing if and only if none does |
| `Schedules.DueWindowAdvances` | pkg/channel-review/src/automation/schedule.ts:18-40 | as time goes on the due window never goes back, and one start names one window |
| `Schedules.AllDayIsAlwaysDue` | pkg/channel-review/src/automation/schedule.ts:22-37 | a daily schedule is due at every instant if and only if its window begins and ends at the same time of day |
| `DepsFlows.StepKeepsFloor` | pkg/channel-review/src/automation/deps-flow.ts:38-146 | once a window of a repository is recorded, running or passed, no step, not even a late job that rewrites its own earlier window, lets an engine job for it or an earlier one through |
| `DepsFlows.AsksIff` | pkg/channel-review/src/automation/deps-flow.ts:120-146 | a tick asks about a repository if and only if a window of it is due that is not the recorded one; an aborted tick ends |
| `DepsFlows.TurnRecords` | pkg/channel-review/src/automation/deps-flow.ts:120-146 | a failed listing records nothing, an open pull request a skip, else a run is recorded whether or not the engine takes the job, which it does with room and no job of the repository |
| `DepsFlows.JobsRecord` | pkg/channel-review/src/automation/deps-flow.ts:45-104 | a job records under its own window; after a crash and recovery no job is live and what was running has failed in its window |
| `DepsFlows.FloorStands` | pkg/channel-review/src/automation/deps-flow.ts:38-146 | the same over any run |
| `DepsFlows.RunKeepsInv` | pkg/channel-review/src/automation/deps-flow.ts:38-146 | every accepted job is such a floor at every time of every run |
| `DepsFlows.AtMostOncePerWindow` | pkg/channel-review/src/automation/deps-flow.ts:120-146 | over any run with a monotone clock, late jobs, crashes, recoveries and restarts, a repository and window start are accepted at most once, and the windows of a repository only go forward |
| `DepsFlows.RefusedIsLost` | pkg/channel-review/src/automation/deps-flow.ts:53-117 | a window recorded while no job of the repository is live, but not accepted, is never accepted later: the record comes before the engine is asked |
| `DepsFlows.NextTickAccepts` | pkg/channel-review/src/automation/deps-flow.ts:120-146 | a due window that is not the recorded one, of any repository on any list, is accepted by some next tick |
| `DepsFlows.LateJobGivesItBack` | pkg/channel-review/src/automation/deps-flow.ts:45-104 | with a job of an earlier window still live, a recorded window that is or will be due can still be accepted, for any repository on any list: that job records its own window again and the next tick asks once more |
| `DepsFlows.StillAcceptedIff` | pkg/channel-review/src/automation/deps-flow.ts:45-117 | between ticks a recorded window can still be accepted in some further run if and only if its repository is on the list, a job of an earlier window of it is live, and the window is or will be due |
| `UpgradeJobs.UpgradeIsEnqueue` | pkg/channel-review/src/automation/deps-flow.ts:97-104 | a window is accepted exactly when the engine takes the repository job, and the live jobs of the flow stay the repository keys in flight |
| `UpgradeJobs.EngineStepIsFlows` | pkg/channel-review/src/engine.ts:636-651 | any other step of the engine leaves the live jobs of the flow as they are or ends one of them |
| `UpgradeJobs.CrashLinks` | pkg/channel-review/src/engine.ts:176-213 | after a crash neither side has a job |
| `DepsFlows.DepsFlow.constructor` | pkg/channel-review/src/automation/deps-flow.ts:31-36 | the flow begins with the recorded runs and no job |
| `DepsFlows.DepsFlow.LookAt` | pkg/channel-review/src/automation/deps-flow.ts:122-127 | one turn of `tick` up to its await is its step: over, aborted, nothing due, already recorded, or asking about the due window |
| `DepsFlows.DepsFlow.Listed` | pkg/channel-review/src/automation/deps-flow.ts:130-144 | the rest of the turn is its step: no listing, a skip, or `upgrade` |
| `DepsFlows.DepsFlow.Upgrade` | pkg/channel-review/src/automation/deps-flow.ts:53-117 | the run is recorded as running whether or not the engine takes the job |
| `DepsFlows.DepsFlow.RecordRun` | pkg/channel-review/src/automation/deps-flow.ts:45 | only the run of this repository changes |
| `DepsFlows.DepsFlow.JobRecords` | pkg/channel-review/src/automation/deps-flow.ts:76-103 | a job records under the window it was made for |
| `DepsFlows.DepsFlow.JobEnds` | pkg/channel-review/src/engine.ts:647-651 | the key of the job is free again |
| `Zip.RoundTrip` | scripts/pack-narration-assets.ts:35-85 | a reader that checks the end-of-central-directory record and follows central headers to local headers, refusing two headers that disagree on version, flags, method, time or date, finds every entry in order with name, manner of storing, attributes, checksum, packed bytes and length modulo 2^32, while the records end before 4 GiB |
| `Zip.ExactWhenLengthsFit` | scripts/pack-narration-assets.ts:35-85 | what it finds is the true account of the entries if and only if every length fits four bytes |
| `Zip.ContentsComeBack` | scripts/pack-narration-assets.ts:35-85 | a reader that inflates for method 8, copies for method 0, and refuses any other, a name not flagged as UTF-8, and a wrong checksum or length, takes out each entry as it was put in if and only if its length fits four bytes; all are dated the first of January 1980 |
| `Zip.LocalPlaced` | scripts/pack-narration-assets.ts:55-70 | each recorded offset is the true position of the local header, with the packed bytes right behind it |
| `Zip.CentralPlaced` | scripts/pack-narration-assets.ts:57-72 | the k-th central header stands where the ones before it end, and names that offset |
| `Zip.EndFound` | scripts/pack-narration-assets.ts:72-84 | the last 22 bytes agree with the file: one disk, both counts the number of entries, the true start and length of the directory, no comment |
| `Zip.LocalHeaderTells` | scripts/pack-narration-assets.ts:43-55 | the fields of the local header, method and flags included, read at the positions of APPNOTE section 4.3.7, are those of the entry |
| `Zip.CentralHeaderTells` | scripts/pack-narration-assets.ts:57-69 | the same for the central header, section 4.3.12, with the offset |
| `Zip.NamesFitIff` | scripts/pack-narration-assets.ts:23-27 | the running check of the names is the check of each of them |
| `Zip.Le16Reads` | scripts/pack-narration-assets.ts:23-27 | two bytes read back give the value modulo 2^16 |
| `Zip.Le32Reads` | scripts/pack-narration-assets.ts:28-32 | four bytes read back give the value modulo 2^32, as `>>> 0` has it |
| `Zip.Encode` | scripts/pack-narration-assets.ts:23-32 | a field is written, or throws if two bytes cannot hold it |
| `Zip.Join` | scripts/pack-narration-assets.ts:55-69 | fields are written in order, or nothing if one throws |
| `Zip.Headers` | scripts/pack-narration-assets.ts:43-69 | both headers of an entry, or an error if its name is too long |
| `Zip.EndRecord` | scripts/pack-narration-assets.ts:76-83 | the end record, or an error for 65536 entries or more |
| `Zip.ZipEntries` | scripts/pack-narration-assets.ts:35-85 | the writer gives the archive the theorems read, and throws if and only if a name or the number of entries does not fit two bytes |
| `KeyedList.PatchKeyedList` | pkg/pages/src/dom-keyed-list.ts:8-34 | the children become one element an item in item order, each showing its item under its key: the very element its key led to, else a new one; every other keyed child is gone, untouched elements are unchanged, and what no key leads to stays behind, in order |
| `KeyedList.StrayIff` | pkg/pages/src/dom-keyed-list.ts:13-17 | a child stays behind if and only if it has no key or a later child has the same |
| `KeyedList.NoStraysIff` | pkg/pages/src/dom-keyed-list.ts:13-34 | nothing stays behind if and only if every child has a key and no two share one |
| `KeyedList.TurnKeeps` | pkg/pages/src/dom-keyed-list.ts:20-31 | one turn of the cursor keeps the shape: placed elements, then the untaken children, with the cursor between them |
| `KeyedList.IndexByKey` | pkg/pages/src/dom-keyed-list.ts:13-17 | the index leads each key to the last child with it |
| `KeyedList.ElementFor` | pkg/pages/src/dom-keyed-list.ts:22-28 | the element of the key or a new one, updated either way |
| `KeyedList.Turn` | pkg/pages/src/dom-keyed-list.ts:20-31 | the method of one turn, in place on the container |
| `KeyedList.TurnOf` | pkg/pages/src/dom-keyed-list.ts:20-31 | the turn of the next item: it is given the right element |
| `KeyedList.Arrange` | pkg/pages/src/dom-keyed-list.ts:19-31 | the whole walk: the items are arranged, and what is left of the index are the keys no item has |
| `KeyedList.RemoveLeftovers` | pkg/pages/src/dom-keyed-list.ts:33 | exactly the children of those keys leave, whatever the order |
| `KeyedList.Container.constructor` | pkg/pages/src/dom-keyed-list.ts:9 | a container has the children it is given |
| `KeyedList.Container.InsertBefore` | pkg/pages/src/dom-keyed-list.ts:29 | an element leaves its place and comes to stand before the cursor, or last |
| `KeyedList.Container.Remove` | pkg/pages/src/dom-keyed-list.ts:33 | one element leaves |
| `Entities.DecodeUndoesEscape` | pkg/common/src/proto-format.ts:585-614 | decoding an escaped attribute value gives the value back, for every text |
| `Entities.DecodeUndoesEscapeHtml` | pkg/common/src/proto-format.ts:585-618 | the same for `escapeHtml`, whose apostrophe is a number |
| `Entities.HexDecodes` | pkg/common/src/proto-format.ts:585-600 | a number to the base 16, with its semicolon or without, is decoded as its code point, or as the replacement character if it has none |
| `Entities.DecimalDecodes` | pkg/common/src/proto-format.ts:585-600 | so is one to the base 10 |
| `Entities.NameStands` | pkg/common/src/proto-format.ts:190-199 | each named entity is decoded, in small letters or capitals, with its semicolon or without |
| `Entities.OtherNameStays` | pkg/common/src/proto-format.ts:601-605 | any other name stays as it is |
| `Entities.PlainStays` | pkg/common/src/proto-format.ts:585-606 | text without an ampersand stays |
| `Entities.EscapeIsEach` | pkg/common/src/proto-format.ts:608-614 | the four replacements one after another do to each character what they do to it alone |
| `Entities.EscapedIsPlain` | pkg/common/src/proto-format.ts:608-614 | no bracket or double quote is left by escaping |
| `Css.ClosedAndIdempotent` | pkg/common/src/proto-format.ts:734-793 | a rescan of the stripped text by the same scanner finds no `url`, `image-set`, `-webkit-image-set` or `expression` call outside a string, however escaped, and a second strip changes nothing |
| `Css.StripClean` | pkg/common/src/proto-format.ts:734-793 | the same from inside a string, and with the identifier characters the stripped text begins with taken off |
| `Css.UnchangedIff` | pkg/common/src/proto-format.ts:734-793 | a text is left as it is if and only if the scanner meets no such call and no word that ends in a backslash |
| `CssCalls.CallEndsFirst` | pkg/common/src/proto-format.ts:707-732 | a call ends with the first character where as many parentheses have closed as opened outside strings, escapes in strings skipped; with the text if there is none |
| `CssCalls.BalancedCall` | pkg/common/src/proto-format.ts:707-732 | a call with a balanced body, nested calls and strings included, ends behind its closing parenthesis |
| `CssCalls.SpellingReads` | pkg/common/src/proto-format.ts:643-682 | a name spelled with any mix of plain characters, backslashes and code points of one to six digits is read as what it says, to its end |
| `CssCalls.NetworkCallGoes` | pkg/common/src/proto-format.ts:758-776 | a call of `url`, `image-set`, `-webkit-image-set` or `expression`, however spelled and capitalized, with a balanced body, becomes `none`, and what follows is scanned on |
| `CssCalls.OtherNameStays` | pkg/common/src/proto-format.ts:777-786 | any other name stays as spelled, but for a backslash at its end |
| `CssCalls.StringStays` | pkg/common/src/proto-format.ts:739-757 | a string stays, whatever it says |
| `Css.ReadStops` | pkg/common/src/proto-format.ts:643-682 | an identifier is read as far as it goes: what follows cannot continue it |
| `Css.ReadLocal` | pkg/common/src/proto-format.ts:643-682 | what an identifier says depends on its own characters and the one behind it alone |
| `Css.MendedReads` | pkg/common/src/proto-format.ts:779-784 | an identifier whose last backslash is replaced is read to the same end, and says something that ends in the replacement |
| `Css.WordStays` | pkg/common/src/proto-format.ts:758-786 | a word that was no call is none after the text behind it has been stripped |
| `Css.ReadOne` | pkg/common/src/proto-format.ts:650-679 | one turn of the loop is one step of reading |
| `Css.ReadTurn` | pkg/common/src/proto-format.ts:650-679 | the rest of the identifier is read from the next index |
| `Css.ReadCssIdentifier` | pkg/common/src/proto-format.ts:643-682 | the loop reads the identifier at its start and ends behind it |
| `Css.FindCssFunctionEnd` | pkg/common/src/proto-format.ts:707-732 | the loop ends behind the parenthesis that closes the call, strings skipped, or at the end |
| `Css.SkipSpace` | pkg/common/src/proto-format.ts:765-768 | the loop passes exactly the white space |
| `Css.FindOpening` | pkg/common/src/proto-format.ts:765-776 | where the parenthesis of a call would be, and what is left behind the call |
| `Css.MendRaw` | pkg/common/src/proto-format.ts:779-784 | the last backslash of a word is replaced |
| `Css.WordStrip` | pkg/common/src/proto-format.ts:758-786 | stripping at a word is the piece put out for it and the strip of what is left |
| `Css.StripWord` | pkg/common/src/proto-format.ts:758-786 | what goes out for a word, and where the scan goes on |
| `Css.StripNetworkCssFunctions` | pkg/common/src/proto-format.ts:734-793 | the loop gives the text the theorems speak of |
| `Attributes.SanitizedAgain` | pkg/common/src/proto-format.ts:1002-1054 | cleaned attributes, written out, read and cleaned again, stay the same |
| `Attributes.ParseRendered` | pkg/common/src/proto-format.ts:953-1000 | attributes as they are written out are read as what they were |
| `Attributes.KeepShape` | pkg/common/src/proto-format.ts:1002-1054 | what is kept is allowed for the tag, never active, and each name once |
| `Attributes.KeepAgain` | pkg/common/src/proto-format.ts:1002-1054 | settled attributes with different names are all kept again, in order |
| `Attributes.KeptSettles` | pkg/common/src/proto-format.ts:1024-1050 | a kept value decoded from its escaped form is kept as it is |
| `Attributes.LinkPassesAgain` | pkg/common/src/proto-format.ts:880-922 | a link that passes is trimmed, and passes again unchanged |
| `Links.LinkStaysIff` | pkg/common/src/proto-format.ts:880-922 | a link stays, trimmed, if and only if, controls and blanks left out, it is image data in an image source, or under the network-free policy a place in the page in `href`, or under the general one names no scheme but `http` or `https` |
| `Links.WhatIsKept` | pkg/common/src/proto-format.ts:1002-1054 | what is kept of the attributes is exactly what the first one of each listed and inert name becomes: a bare flag, or its decoded value, cleaned for a style, trimmed and allowed for a link, and no image input |
| `Links.TagsAreSafe` | pkg/common/src/proto-format.ts:1068-1137 | in every tag put out no attribute is an event handler, `formaction`, `srcdoc` or `xlink:href`, each is listed for the tag, every link is allowed and no input is an image |
| `WrittenTags.WrittenReads` | pkg/common/src/proto-format.ts:953-1000 | attributes written alone, bare, in single or in double quotes, with blanks around the sign and names in any case, are read as they are meant |
| `Attributes.AllowedIsSafe` | pkg/common/src/proto-format.ts:924-930 | every allowed name is one that reading takes whole |
| `Html.OutputShape` | pkg/common/src/proto-format.ts:1068-1137 | every `<` of the output begins one whole tag of the scan, with an allowed name and attributes that cleaning gave |
| `Html.GoodAttributes` | pkg/common/src/proto-format.ts:1002-1054 | the attributes of such a tag are allowed for it, none is active, and no name is there twice |
| `Html.ScanShape` | pkg/common/src/proto-format.ts:1068-1137 | every piece put out is text without an opening bracket or such a tag |
| `Html.Rescan` | pkg/common/src/proto-format.ts:1068-1137 | a text written from such pieces is scanned as the same text and the same tags |
| `Html.SanitizeAgain` | pkg/common/src/proto-format.ts:1068-1137 | sanitizing twice is sanitizing once, and the second scan meets exactly the tags put out, whenever the style cleaner leaves the surviving styles alone |
| `Html.SanitizeAgainWithoutStyles` | pkg/common/src/proto-format.ts:1068-1137 | in particular whenever no surviving tag has a style |
| `Markup.DocumentSanitized` | pkg/common/src/proto-format.ts:1068-1137 | what comes out of a document of text, stray brackets, comments, tags written in any way and elements to drop: the text, stray brackets escaped, the allowed tags with exactly the attributes that stay; no comment, no other tag, nothing of a dropped element; with such an element, when no letter has a longer small form |
| `Markup.ElementSkips` | pkg/common/src/proto-format.ts:1056-1066 | behind a dropped element, found by its first closing tag in any case, the scan goes on |
| `Markup.DottedCapitalsMove` | pkg/common/src/proto-format.ts:1056-1066 | the input that breaks it: with as many dotted capitals in front as the opening tag is long, and one more, the closing tag of an empty element is looked for behind the element, and text behind it is lost |
| `Markup.FindBehind` | pkg/common/src/proto-format.ts:1078-1086 | a mark that is nowhere in the text before it is found right behind it |
| `HtmlTables.StandardIsGood` | pkg/common/src/proto-format.ts:22-186 | the lists as they stand meet what the theorems need |
| `HtmlTables.AllowedFit` | pkg/common/src/proto-format.ts:22-107 | every allowed tag name is one the scanner reads whole, and none is dropped with its contents |
| `HtmlTables.StandardSanitizeAgain` | pkg/common/src/proto-format.ts:22-1137 | with those lists, sanitizing twice is sanitizing once when no style survives, under either policy |
| `HtmlScanner.FindTagEnd` | pkg/common/src/proto-format.ts:932-945 | the loop finds the first `>` outside quotes, or none |
| `HtmlScanner.ReadValue` | pkg/common/src/proto-format.ts:978-993 | the value behind the sign, quoted or bare, and the index behind it |
| `HtmlScanner.ReadAttribute` | pkg/common/src/proto-format.ts:970-996 | one attribute from its name on |
| `HtmlScanner.NextAttribute` | pkg/common/src/proto-format.ts:957-996 | one turn of the loop: an attribute or nothing, and always further on |
| `HtmlScanner.ParseAttributes` | pkg/common/src/proto-format.ts:953-1000 | the loop reads all the attributes |
| `HtmlScanner.WriteAttribute` | pkg/common/src/proto-format.ts:1024-1050 | what is written for an allowed attribute, if anything |
| `HtmlScanner.TakeAttribute` | pkg/common/src/proto-format.ts:1010-1050 | one turn: refused, seen before, or written |
| `HtmlScanner.WriteAttributes` | pkg/common/src/proto-format.ts:1007-1051 | the loop writes exactly the kept attributes in order |
| `HtmlScanner.SanitizeAttributes` | pkg/common/src/proto-format.ts:1002-1054 | the written form is that of the kept attributes |
| `HtmlScanner.SkipBlockedElement` | pkg/common/src/proto-format.ts:1056-1066 | the index behind the closing tag that is looked for in lower case |
| `HtmlScanner.TakeOpening` | pkg/common/src/proto-format.ts:1114-1133 | an opening tag: dropped with its contents, dropped, or written cleaned |
| `HtmlScanner.TakeToken` | pkg/common/src/proto-format.ts:1096-1133 | a token: a closing tag, an opening tag, or a stray bracket |
| `HtmlScanner.TakeTag` | pkg/common/src/proto-format.ts:1083-1133 | at a bracket: a comment, a stray bracket, or a token |
| `HtmlScanner.SanitizeVariationHtml` | pkg/common/src/proto-format.ts:1068-1137 | the loop gives the text the theorems speak of |
| `Plan.AdvanceRoundTrip` | pkg/common/src/plan-format.ts:102-122 | parsing a formatted timing gives it back, for every whole number of milliseconds, `next`, `click` and none |
| `Plan.ActionRoundTrip` | pkg/common/src/plan-format.ts:127-139 | parsing a formatted action gives it back, whatever text is typed |
| `Plan.DigitsRead` | pkg/common/src/plan-format.ts:104-121 | the decimal digits of a number are read as the number |
| `Plan.NumberForms` | pkg/common/src/plan-format.ts:110-121 | whole seconds, milliseconds and a bare number are read as their number of milliseconds |
| `Plan.FractionForm` | pkg/common/src/plan-format.ts:113-115 | seconds with a fraction of any length are rounded half up to milliseconds |
| `Plan.TimingIff` | pkg/common/src/plan-format.ts:110-122 | a token is a timing if and only if, trimmed, it is `click`, `next` or a number in one of the four forms |
| `Plan.BlanksAround` | pkg/common/src/plan-format.ts:111 | white space around a token does not matter |
| `Plan.FillAnywhere` | pkg/common/src/plan-format.ts:134-136 | the text to type is found and unescaped behind any text without the sign |
| `Plan.ClickAnywhere` | pkg/common/src/plan-format.ts:137 | a click is found among other text exactly if its word does not go on |
| `Tours.PagesAgree` | pkg/tour-ui/src/engine.ts:143-353 | for every draft and row, the page the editor shows is the page the player expects for the step of that row in the script, with setup absent, included or excluded |
| `Tours.ExpectedUrlIs` | pkg/tour-ui/src/engine.ts:143-153 | the expected page is the address of the last step up to the index that has one, else the start |
| `Tours.ScriptComesBackIff` | pkg/tour-ui/src/engine.ts:326-383 | a script read into the editor and written again is the same if and only if it is normalized: texts trimmed, none empty where it could be absent, a mode given, no setup without steps |
| `Tours.StepComesBackIff` | pkg/tour-ui/src/engine.ts:326-366 | the same for one step: each text field, the timing and the action |
| `Tours.DraftsGiveNormalized` | pkg/tour-ui/src/engine.ts:326-383 | whatever draft is written, its script is normalized, and one more turn through the editor changes nothing |
| `Tours.ComputeExpectedUrl` | pkg/tour-ui/src/engine.ts:143-153 | the loop finds the address of the last step at or before the index that has one, else the start |
| `Tours.EditorInheritedPageUrl` | pkg/tour-ui/src/engine.ts:296-313 | the loop finds the address of the last row before the index that has one, not going below excluded setup |

## Left out

- Reading a message into a job, re-review phrases, `$emoji` and `$address` gating: a message comes with what it asks for.
- The chat provider, `gh` and `glab`, the runner subprocesses, clone directories, job logs, notices and replies.
- SQLite and the JSON text of the state: the row is a value with a revision. Legacy import is not modelled.
- The hourly cap of the fix flow, the error watch and the watching of pull requests: they are one-branch checks on stored times.
- The address job: to the engine it is a task that ends as any other.
- Parsing and merging of schedules and repositories in the configuration: a schedule is its parsed form.
- `sanitizeStyleSheet` as a whole: comments and imports are removed by passes that can join text into new tokens.
- `toPlanMarkdown`, the rest of plan parsing, the edit machine, playback and `performAction`.
- Text nodes between the children of a keyed list, and what `create` and `update` do beyond giving a new element and showing the item.
- Strings are sequences of characters: lone halves of a surrogate pair do not occur, and lower case is exact where it can give ASCII letters.
- EngineTheorems.TerminalStays: while its entry is kept, and for a message no handler was called for while its entry was dropped under a live job; `EngineTheorems.SafeToHandleIff` says that such a call is what breaks it.
- EngineTheorems.MovesAreAllowedAndShown: under the same condition on the message; shown reactions are claimed only where no chat call failed and the message carried none of ours when its handler began.
- EngineShutdown.StopDrains: says that a run which cannot go on is drained, with `EngineShutdown.DrainsWithin` as the bound; that the chat and the runners answer at all is theirs to keep.
- Daemon.ExactlyOnce: the daemon is modelled on values, since a crash cuts an object off in the middle of a method.
- EngineObject.Engine.EnqueueRepo: the channel inside the engine object is a value of the pure channel; the channel object is proved against the same functions in `ChannelHistory`.
- StackedReview.ReviewJob.Review: the time since which a verdict is read, `setRunning` and the log are not modelled; a review posted is given with the end of the run.
- Zip.RoundTrip: for archives whose records end before 4 GiB; behind that the four-byte offsets wrap and the format needs other records.
- Zip.ContentsComeBack: for any function that undoes the compression; deflate itself is not modelled.
- KeyedList.PatchKeyedList: the order in which leftovers are removed is left open, since it does not matter.
- Markup.DocumentSanitized: with an element to drop, only for documents without a dotted capital I (see `Markup.DottedCapitalsMove`); comments and dropped elements that are not closed, which take the rest of the text with them, are not among its parts.
- Html.SanitizeAgain: says nothing when the style cleaner would change a style that survived; it is a parameter here.
- Entities.DecodeUndoesEscape: the one inherited name the entity table answers to (`constructor`) stands for one engine's text of that function; escaping never gives it.
- Plan.AdvanceRoundTrip: numbers are whole milliseconds with exact decimals; rounding of doubles beyond 2^53 and exponent notation are not modelled.

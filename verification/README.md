# Verified model of agentscan's desktop and picker core

This project models the stateful core of agentscan, a tmux agent dashboard: the
live-subscription protocol between the desktop backend (Rust) and its frontend
(TypeScript), the picker's workspace cache and row grouping, the profile store
shared by two windows, the process-tree walk, the command line sent to remote
shells, and the pane-activation guard. `dafny verify dfyconfig.toml` checks all of
it.

Concurrent parts are state machines: a step is one critical section, one atomic
access, or what one fiber does between two points where another may run, and the
main results quantify over every run. Loops and objects of the source are methods
and classes proved against specification functions or predicates, about which the
laws are then proved.

## How the files fit together

- `EpochFence` is the bounded start fence, `FenceCounting` what its bound costs;
  `ChildSlot` is the race for one child
  between its worker and a stopper. `LiveSupervisor` puts both into the supervisor
  state machine, `SupervisorSafety` holds its invariant, `SupervisorTheorems` what
  follows over runs, `SupervisorProgress` how far a teardown is from its join.
  `LiveProtocol` joins it to the frontend's starts, which may arrive in any order.
- `SubscribeWorker` says what one worker emits, `LiveFrames` what the frontend makes
  of it, `LiveContents` which rows and messages get through. `LiveService` is the
  frontend service as a state machine; `LiveServiceSafety`, `LatchSafety` and
  `LiveEpochs` are its theorems, and `LiveOutcomes` what each turn shows.
  `LiveConfigure` is the configure call with its loops.
- `PickerWorkspace` and `WorkspaceCache` are the workspace computation and its
  cache, `WorkspaceMeaning` which panes form a group. `PickerGroups` and `PickerSelection` are grouping and the selection keeper.
- `ProfileModel` is the normaliser, `ProfileLaws` what it guarantees,
  `ProfileReferences` what becomes of the selection and the open folders,
  `ProfileSettling` when a second pass changes nothing,
  `ProfileReorder` drag-reordering, `ProfileEdits` the other edits, `ProfileStore`
  two windows over shared storage, `ProfileReads` what a commit leaves for the next
  read, `ProfileOutcomes` when each mutator acts, `ProfileWitnesses` runs from a fresh install that go wrong, `ProfileService`
  the service as a class.
- `ProcessTree` is the process walk. `RemoteScript` prints a remote command line,
  `ShellTokens` reads it back, `RemotePath` expands the PATH its body assigns, and
  `RemoteRun` carries the whole out.
  `Activation` is the activation guard.
- `Options`, `Sequences` and `Text` are shared vocabulary.

## What turned out not to hold as stated

- The fence never admits epoch 0, which an unbounded map would
  (`EpochFence.GateIsExact` gives the exact gate).
- The newest start of a source can be turned away: exactly if newer starts of more than
  64 other sources are honoured before it arrives
  (`LiveProtocol.ArrivalIsDecidedByHistory`, `FenceCounting.RunsCountNewerKeys`).
  `LiveProtocol.OnlyStartIsTurnedAway` is such a run; the caller is told nothing and
  stays connecting (`LiveProtocol.IgnoredStartDrainsForever`).
- If `try_wait` fails, a stop can join the worker with its child still running
  (`SupervisorTheorems.FailedTryWaitLeavesChildRunning`); otherwise never
  (`SupervisorTheorems.JoinLeavesNoChild` is an equivalence).
- The workspace cache key joins directory and session name with a newline and
  `session:`. It agrees with the plain computation exactly if no session name in use
  contains that separator in a way that reproduces another name
  (`WorkspaceCache.CoherentIffNamesApart`). The cache accepts any string; tmux replaces
  colons in session names, and names without one are safe
  (`WorkspaceCache.ColonFreeNamesAreCoherent`).
- Epochs survive a page reload exactly if the clock or the persisted counter has
  reached the last one issued (`LiveEpochs.ReloadAdvancesIff`); a run that persists
  nothing and reloads with an earlier clock reissues them
  (`LiveEpochs.LostEpochIsReissued`).
- The normaliser gives the shape it promises exactly if no two profiles that stay share
  an id or, over SSH, a host, and no SSH profile that stays is called "local" where an
  implicit local profile is added (`ProfileLaws.NormalizeIsNormalIff`). The ids that
  stay are each host's first enabled, else first, profile's
  (`ProfileLaws.SurvivingIdsAre`). Deduplication alone fails exactly if one host has two
  profiles whose ids stay (`ProfileLaws.HostsAreDistinctIff`).
  `ProfileLaws.SharedIdsKeepDuplicates` and `ProfileLaws.LocalNameClashes` are inputs
  for which it fails.
- Normalising is idempotent exactly if no id that the selection or a listed folder is
  sent to also names a superseded profile
  (`ProfileSettling.NormalizeTwiceIsOnceIff`); the profiles themselves settle at once.
  `ProfileSettling.SharedIdsMoveTwice` is an input whose selection moves a second time.
- An accepted settings edit loses a source exactly if it empties one remote's host
  while another remote is still unconfigured (`ProfileStore.ApplyKeepsSourcesIff`).
  A fresh install can get there (`ProfileWitnesses.EmptyHostLosesASource`); form
  validation, which demands a host, is what rules this out.
- After a commit the writing window and storage agree exactly if the mutator neither
  reused a disabled draft nor toggled a disabled source; otherwise the next reload takes
  the selection or the open folder back (`ProfileReads.WriterAgreesIff`). Both happen
  in runs from a fresh install (`ProfileWitnesses.DisabledDraftSplitsWindows`).
- An activation whose activate call is abandoned after taking the slot and before
  forking its fiber holds the slot for good, and no other call is held for good
  (`Activation.SlotIsLostIff`). Abandoned later, only pruning loses its grip on it: the
  slot is then freed by the fiber alone (`Activation.PruneFreesAClosedSource`).
- A source shown as running has no activation behind it exactly if a prune interrupted
  that and has not cleared the state yet (`Activation.RunningStateIsTheHolders`). A prune
  abandoned in between leaves it so (`Activation.AbandonedPruneLeavesTheState`).
- A remote binary is run exactly if `env` can take it for a command: not with an equals
  sign in its configured path, nor, with no variables set, with a leading dash
  (`RemoteRun.RemoteCommandIsRun`).
- Filtering and clearing the filter keeps a manual pick exactly if the filter leaves it
  visible or hides every row (`PickerSelection.FilterKeepsManualPickIff`); otherwise
  another row takes its place for good (`PickerSelection.FilterTakesHiddenPick`).

## Model

| member | source | states |
|---|---|---|
| EpochFence.StartFence.CommitStartEpoch | desktop/src-tauri/src/subscribe.rs:177-189 | The commit, with its eviction loop, records the epoch and, above 64 keys, evicts a key with the lowest epoch and raises the floor to it; every outcome it allows for ties is covered. |
| EpochFence.CommitRefines | desktop/src-tauri/src/subscribe.rs:158-189 | One gated commit keeps the bounded fence a refinement of the unbounded per-key high-water map: present entries equal the mark, evicted keys' marks are at or below the floor, entries are at or above it, at most 64 entries. |
| EpochFence.AdmittedIsNew | desktop/src-tauri/src/subscribe.rs:158-169 | An admitted epoch exceeds every epoch honoured for its key, whether the key is still remembered or was evicted. |
| EpochFence.GateIsExact | desktop/src-tauri/src/subscribe.rs:158-176 | The bounded gate is the unbounded gate and being above the floor, no more and no less; it always admits a positive epoch above all committed so far. |
| EpochFence.FenceNeverWeakerOverRuns | desktop/src-tauri/src/subscribe.rs:158-189 | The same over every run of gated commits of any length over any keys. |
| FenceCounting.GateCountsNewerKeys | desktop/src-tauri/src/subscribe.rs:144-189 | A start whose epoch no other start has is admitted exactly if no newer one of its own key, and newer ones of at most 64 keys in all, were honoured. |
| FenceCounting.RunsCountNewerKeys | desktop/src-tauri/src/subscribe.rs:144-189 | The same after every run of gated commits. |
| ChildSlot.ActKeepsSafe | desktop/src-tauri/src/subscribe.rs:451-464 | Every atomic access of the worker keeps the hand-over invariant of the stop/spawn race, and only a failing `try_wait` leaks. |
| ChildSlot.TearKeepsSafe | desktop/src-tauri/src/subscribe.rs:292-299 | So does every step of the stopper. |
| ChildSlot.JoinedWorkerMoves | desktop/src-tauri/src/subscribe.rs:292-299 | Once the stopper has been at the slot, the worker it joins can go on without its child's help until it cleans up. |
| SupervisorTheorems.RegisteredRunsHighestEpoch | desktop/src-tauri/src/subscribe.rs:191-263 | Over every interleaving: whenever the start lock is free, the supervisor registered for a key runs exactly the highest epoch ever honoured for it, in a worker that has not ended. |
| SupervisorTheorems.EveryWorkerHasOneOwner | desktop/src-tauri/src/subscribe.rs:191-356 | A worker that has not reached clean-up is either standing and unclaimed, or claimed by exactly one stopper; a key never has two standing workers. |
| SupervisorTheorems.OnlyOwnersDisplace | desktop/src-tauri/src/subscribe.rs:191-356 | A supervisor leaves the map only for a start with a strictly higher epoch, a stop for exactly its epoch, or its own worker's end. |
| SupervisorTheorems.RegisteredEpochsOnlyRise | desktop/src-tauri/src/subscribe.rs:191-263 | Along any run the epoch registered for a key never falls, and a different worker means a strictly higher epoch. |
| SupervisorTheorems.JoinLeavesNoChild | desktop/src-tauri/src/subscribe.rs:292-299 | When a teardown joins its worker no handle to the child is left, and the child is gone exactly if `try_wait` never failed for it. |
| SupervisorTheorems.TeardownNeverWedges | desktop/src-tauri/src/subscribe.rs:274-302 | Until it is joined, a teardown always has an enabled step of its own or of its worker, or its worker waits for a start to leave the map lock. |
| SupervisorProgress.NoStepRaisesTheRank | desktop/src-tauri/src/subscribe.rs:274-302 | No step of the whole machine raises the rank of a teardown in progress, and every step of its own or of its worker lowers it. |
| SupervisorProgress.HelpIsBounded | desktop/src-tauri/src/subscribe.rs:274-302 | In any run at most 15 steps of the teardown and its worker lie between the claim and the join. |
| SupervisorProgress.TeardownReachesItsJoin | desktop/src-tauri/src/subscribe.rs:274-302 | From every state of the invariant a teardown can be brought to its join without its child's help, in at most two steps for each unit of its rank. |
| SupervisorTheorems.FailedTryWaitLeavesChildRunning | desktop/src-tauri/src/subscribe.rs:714-743 | A concrete reachable state in which a stop is about to return with the child alive after a failed `try_wait`. |
| LiveProtocol.ArrivalIsDecidedByHistory | desktop/src-tauri/src/subscribe.rs:191-220 | Frontend starts with rising epochs arrive in any order: one is turned away exactly if, by then, a newer one of its own key or newer ones of more than 64 keys were honoured. |
| LiveProtocol.NewestStartRunsUnlessOutrun | desktop/src-tauri/src/subscribe.rs:191-263 | The newest start issued for a key, once it has arrived and the start lock is free, is honoured and whatever is registered for the key runs exactly it; or its worker could not be spawned; or newer starts of more than 64 other keys went first. |
| LiveProtocol.IgnoredStartDrainsForever | desktop/src/effect/LiveConnection.ts:265-290 | A start turned away is never run later: in every continuation the drain of its caller waits with its state unchanged. |
| LiveProtocol.OnlyStartIsTurnedAway | desktop/src-tauri/src/subscribe.rs:158-176 | A run in which the only start of a key is turned away, after 65 other keys. |
| SubscribeWorker.RunSubscription | desktop/src-tauri/src/subscribe.rs:376-589 | The worker's line loop with its flags emits exactly the specified events for every launch, line stream, read error and stop moment; what those events carry is LiveContents.WorkerTellsItsLines. |
| LiveContents.WorkerTellsItsLines | desktop/src-tauri/src/subscribe.rs:503-684 | An unstopped worker sends one event for each line that says something before the one that ends the stream, in order and with that frame's own rows or message, and one that names the end. |
| LiveContents.SentRowsAreTheSnapshots | desktop/src-tauri/src/subscribe.rs:622-684 | The row lists sent are, in order and count, those of the valid snapshots before the stream ends; an invalid one is reported as a retrying miss. |
| LiveContents.StoppedWorkerSendsThemInOrder | desktop/src-tauri/src/subscribe.rs:503-684 | A stopped worker has sent the first so many of them. |
| LiveContents.StopTakesEffect | desktop/src-tauri/src/subscribe.rs:503-589 | A stop cuts exactly what lies behind the first read of the flag that finds it set, the end included. |
| LiveContents.FailedLaunchIsTold | desktop/src-tauri/src/subscribe.rs:393-480 | A launch that fails is reported as what failed, by one terminal event. |
| SubscribeWorker.WorkerEndsOnce | desktop/src-tauri/src/subscribe.rs:376-589 | A worker that is never stopped emits exactly one terminal event, last; a stopped one at most one, with nothing after it. |
| SubscribeWorker.StoppingOnlyTruncates | desktop/src-tauri/src/subscribe.rs:376-589 | What a stopped worker emits is a prefix of what it would have emitted unstopped, also if the kill cuts its line stream off at any point after the stop and ends it in any way. |
| LiveFrames.FoldEndsExactlyAtTerminals | desktop/src/effect/LiveConnection.ts:139-197 | The frontend ends a run on exactly the worker's terminal events, and updates the state on exactly the others. |
| LiveFrames.ConsumeUntilTerminal | desktop/src/effect/LiveConnection.ts:265-290 | The drain takes its own key's and epoch's envelopes in order up to the first terminal event; what state that leaves is LiveContents.DrainShowsTheLast. |
| LiveContents.DrainShowsTheLast | desktop/src/effect/LiveConnection.ts:139-197 | The state a drain leaves has the rows and key of the last rows event before the first terminal one, those from before if there is none, and the connection the last event calls for; the end is classified by its own message. |
| LiveContents.DrainShowsTheLastSnapshot | desktop/src/effect/LiveConnection.ts:265-290 | From the child's output to the picker: after an unstopped worker's run the rows shown are those of its last valid snapshot line. |
| LiveFrames.DrainTakesTheWholeRun | desktop/src/effect/LiveConnection.ts:265-290 | For an unstopped worker the drain consumes precisely that worker's events, whatever else is queued in between. |
| LiveFrames.DrainOfStoppedRunWaits | desktop/src/effect/LiveConnection.ts:265-290 | For a stopped worker, its stream cut off or not, the drain finishes exactly if stop and kill took nothing off the unstopped sequence. |
| LiveServiceSafety.ShownRowsAreTheOwners | desktop/src/effect/LiveConnection.ts:222-245 | Under every interleaving of configure calls with dying supervisors, the rows read for a configured key were stored by its present supervisor under this key. |
| LiveServiceSafety.QuietStatesAreConfigured | desktop/src/effect/LiveConnection.ts:230-245 | Once no supervisor is dying and no key is being added, every key with a state is configured. |
| LatchSafety.OnlyStartAutoStarts | desktop/src/effect/LiveConnection.ts:571-609 | The auto-starting attempts logged for a key never outnumber the `start` calls for it in the run, and each is the first attempt of a target that `start` made, whichever superseded targets a supervisor still takes or skips. |
| LiveOutcomes.DrainingShowsTheLast | desktop/src/effect/LiveConnection.ts:265-290 | The drain's turns, taken one by one among those of other fibers, show the last rows and status of the present run and end as its first terminal event says. |
| LiveOutcomes.SettlingShows | desktop/src/effect/LiveConnection.ts:387-445 | An end is fatal exactly if it says so or no daemon was found for an explicit start's first attempt before any rows; a fatal end parks, any other is followed by a further attempt; rows go exactly with a fatal end or a missing daemon. |
| LiveOutcomes.OtherTurnsShow | desktop/src/effect/LiveConnection.ts:302-373 | What taking up a target, trying, the start's return, re-arming and parking show and lead to. |
| LiveOutcomes.RefusalIsOfOurOwnStart | desktop/src/effect/LiveConnection.ts:375-398 | Over every run a missing daemon is fatal exactly if the supervisor's latest attempt was an auto-starting one and brought no rows. |
| LiveEpochs.EpochsStrictlyIncrease | desktop/src/effect/LiveConnection.ts:247-257 | Over re-arms and page reloads, whatever the clock reads, every epoch issued is above all earlier ones as long as epochs are persisted. |
| LiveEpochs.ReloadAdvancesIff | desktop/src/effect/LiveConnection.ts:618-636 | After a reload the next epoch is new exactly if the clock or the persisted counter has reached the last one issued. |
| LiveEpochs.LostEpochIsReissued | desktop/src/effect/LiveConnection.ts:618-636 | A run from a first page with an unpersisted epoch and a clock set back, after which a lower epoch follows a higher one. |
| LiveEpochs.SupersededFramesAreInert | desktop/src/effect/LiveConnection.ts:273-285 | A frame that does not carry the newest epoch this page has issued for its key changes nothing, however late it is delivered, persisted epochs or not. |
| LiveEpochs.EarlierPagesAreInert | desktop/src/effect/LiveConnection.ts:273-285 | If every epoch was persisted, neither does one that an earlier page's later epoch has superseded. |
| LiveConfigure.LiveConfiguration.Configure | desktop/src/effect/LiveConnection.ts:504-569 | After the two loops exactly the requested keys are configured, kept ones keep their supervisor and re-arm only on a gate flip, added ones get a reset state and a new supervisor, dropped ones are interrupted; the last of duplicate inputs wins. |
| LiveConfigure.ConfigureEnforcesWishes | desktop/src/effect/LiveConnection.ts:504-569 | Afterwards a key's gate is what its last input asks for: on, off, as it was, or off for a new key with nothing to carry; new and flipped sources have the settings given. |
| LiveConfigure.LiveConfiguration.RetargetAll | desktop/src/effect/LiveConnection.ts:571-593 | Each listed configured source moves to its next generation once, however often it is listed; all others stay. |
| LiveConfigure.AgainKeepsTheSource | desktop/src/effect/LiveConnection.ts:571-593 | Re-arming keeps gate, settings and supervisor, and auto-starts as asked. |
| LiveConfigure.ConfigureAgainIsInert | desktop/src/effect/LiveConnection.ts:494-569 | Repeating a configure call changes nothing at all. |
| LiveConfigure.LoopsMoveTargetsAsSteps | desktop/src/effect/LiveConnection.ts:504-593 | What the loops do to a target is what the service's state machine does to it, for kept and for listed keys (LoopsAddTargetsAsSteps: for added ones). |
| LiveConfigure.ConfigureRearmsOnlyFlips | desktop/src/effect/LiveConnection.ts:495-537 | A kept source's generation changes exactly if its gate flips; "carry" never changes it, and configure never makes a target auto-start. |
| PickerWorkspace.GitRepoWorkspaceForPath | src/app/picker.rs:432-449 | The climb loop, on every filesystem, gives what the recursive climb gives, and nothing for the empty path; which workspace that is, WorkspaceMeaning says. |
| WorkspaceMeaning.LinkedWorktreeJoinsItsRepository | src/app/picker.rs:432-508 | A pane whose nearest `.git` is a file of a linked worktree is grouped under the repository it leads to, named after it, a bare one without its suffix. |
| WorkspaceMeaning.WorktreeAndCheckoutAreOneGroup | src/app/picker.rs:432-493 | So its group is that of every pane whose nearest `.git` is the repository's own directory. |
| WorkspaceMeaning.OwnRepositoryIsTheGroup | src/app/picker.rs:432-493 | A pane whose nearest `.git` is a directory, or a file that leads nowhere, is grouped under the directory that holds it. |
| WorkspaceMeaning.OutsideRepositories | src/app/picker.rs:400-418 | Without a `.git` upwards the group is the directory's, as when grouping by directory. |
| WorkspaceMeaning.DirectoryGroups | src/app/picker.rs:394-418 | By directory the group is the directory under its name, or the session's if it has none. |
| WorkspaceMeaning.SessionGroups | src/app/picker.rs:384-392 | By session the group is the session under its trimmed name, or "ungrouped". |
| WorkspaceMeaning.EffectiveCwdIs | src/app/picker.rs:420-430 | The agent's directory goes before tmux's, blank ones count as none, and spaces around it are dropped. |
| WorkspaceMeaning.ParentIs | src/app/picker.rs:447-530 | Parent and name of a path are what precedes its last component and that component, whatever slashes lie between and behind. |
| PickerWorkspace.ClimbAnswersFromNearest | src/app/picker.rs:432-449 | The climb answers from the nearest directory upwards that has a `.git` directory or file, and from nothing if none has. |
| WorkspaceCache.PickerWorkspaceCache.WorkspaceForPane | src/app/picker.rs:62-88 | One cache query, with expiry, ancestor lookup and ancestor indexing, returns and leaves what the lookup specification says. |
| WorkspaceCache.PickerWorkspaceCache.FindGitRepoWorkspace | src/app/picker.rs:94-122 | The ancestor search returns the nearest live indexed directory unless a `.git` lies on the way. |
| WorkspaceCache.GitRepoCachePaths | src/app/picker.rs:371-382 | The directories indexed for a hit are those from the working directory up to the repository root. |
| WorkspaceCache.ClimbReachesRoot | src/app/picker.rs:432-449 | Every directory between a climb's start and its cache root climbs to the same workspace. |
| WorkspaceCache.KeyDecidesWorkspace | src/app/picker.rs:347-362 | Panes with equal cache keys and unconfusable session names have equal workspaces on every filesystem. |
| WorkspaceCache.CacheIsCoherent | src/app/picker.rs:50-154 | On an unchanging filesystem every answer of every run of queries and clears, ancestor hits included, is the plain computation's. |
| WorkspaceCache.CoherentIffNamesApart | src/app/picker.rs:347-362 | That holds for every run over a set of session names exactly if none of them is confusable with another. |
| WorkspaceCache.ConfusableNamesGoWrong | src/app/picker.rs:347-362 | Two confusable names, which the cache accepts though tmux makes no such names, give a two-query run with a wrong answer. |
| WorkspaceCache.ColonFreeNamesAreCoherent | src/app/picker.rs:347-362 | Over session names without a colon, as tmux makes them, every answer of every run is the plain computation's. |
| WorkspaceCache.AnswersAreFresh | src/app/picker.rs:62-154 | On a changing filesystem an answer is computed by its own call or by an earlier one less than the time to live ago: hits never renew. |
| ProfileModel.NormalizeProfileState | desktop/src/effect/profileModel.ts:137-219 | The normaliser with its grouping, remapping and filtering loops computes the specified state on every input. |
| ProfileLaws.NormalizeIsNormalIff | desktop/src/effect/profileModel.ts:137-219 | On every input the output has a local profile, distinct ids and hosts, a runnable active profile and a duplicate-free list of runnable open profiles, exactly if no two profiles that stay share an id or a host and none of them takes the implicit local profile's id. |
| ProfileLaws.HostsAreDistinctIff | desktop/src/effect/profileModel.ts:148-186 | On every input the surviving hosts are distinct exactly if no host has two profiles whose ids are among the surviving ones. |
| ProfileLaws.SurvivingIdsAre | desktop/src/effect/profileModel.ts:148-168 | The surviving ids are exactly those of each host's first enabled profile, or of its first if none is enabled. |
| ProfileLaws.NormalizeIsNormal | desktop/src/effect/profileModel.ts:137-219 | Distinct ids, none of them "local" where an implicit local profile is added, suffice for that shape. |
| ProfileLaws.NormalizeTwiceIsOnce | desktop/src/effect/profileModel.ts:137-219 | On every input for which the output has that shape, normalising is idempotent. |
| ProfileSettling.ProfilesTwiceAreOnce | desktop/src/effect/profileModel.ts:148-186 | On every input, shared ids included, the surviving profiles all survive a second pass. |
| ProfileSettling.NormalizeTwiceIsOnceIff | desktop/src/effect/profileModel.ts:137-219 | On every input a second pass changes nothing exactly if neither the selection nor any runnable source a listed folder is sent to has an id that also names a superseded profile; such a selection still stays if it would be sent to a source that is not runnable and is itself the fallback. |
| ProfileSettling.SharedIdsMoveTwice | desktop/src/effect/profileModel.ts:156-197 | A concrete input with shared ids whose selection moves in both passes. |
| ProfileLaws.UnchangedIffNormal | desktop/src/effect/profileModel.ts:137-219 | With distinct ids, a state is read back unchanged exactly if it has the promised shape. |
| ProfileLaws.NoConnectionIsLost | desktop/src/effect/profileModel.ts:148-186 | On every input each connection survives as one of its own profiles, enabled exactly if some duplicate was, and survivors keep their order; as only that one unless a host has two profiles whose ids survive. |
| ProfileReferences.SentToIs | desktop/src/effect/profileModel.ts:156-182 | On every input a reference stays unless its id names a superseded profile; then the profile standing for that host gets it, the host that appears last deciding. |
| ProfileReferences.SelectionSurvivesIff | desktop/src/effect/profileModel.ts:188-197 | On every input the selection survives as what it is sent to exactly if a runnable profile of that id stays. |
| ProfileReferences.OpenIffListed | desktop/src/effect/profileModel.ts:199-216 | On every input, with a list of open folders or without, an id is open exactly if it is runnable and something listed is sent to it, or, without a list, it is the selection. |
| ProfileReferences.ActiveConnectionIsKept | desktop/src/effect/profileModel.ts:188-197 | A connection whose ids name no other is kept active exactly if some duplicate of it is runnable. |
| ProfileReferences.OpenFoldersAreKept | desktop/src/effect/profileModel.ts:199-216 | A runnable survivor whose connection's ids name no other is open exactly if some listed id named a profile of its connection, or, without a list, if it is selected. |
| ProfileLaws.SharedIdsKeepDuplicates | desktop/src/effect/profileModel.ts:169-182 | A concrete input for which it fails: two profiles of one host that share an id both stay. |
| ProfileLaws.LocalNameClashes | desktop/src/effect/profileModel.ts:184-186 | Another, with distinct ids: an SSH profile called "local" ends up beside an implicit local profile of that id. |
| ProfileReorder.ReorderProfile | desktop/src/effect/profileModel.ts:369-381 | The find, filter and splice compute the specified list on every input. |
| ProfileReorder.ReorderLands | desktop/src/effect/profileModel.ts:366-381 | The moved profile lands at the target's old index, the others keep their order, and the result is a permutation. |
| ProfileReorder.MoveBackRestores | desktop/src/effect/profileModel.ts:366-381 | Moving it onto whatever now sits at its old index restores the list. |
| ProfileReorder.ReorderCommutesWithVisible | desktop/src/DockApp.tsx:161-175 | Reordering commutes with hiding unconfigured drafts. |
| ProfileReorder.DropLandsInItsGap | desktop/src/components/SourceSwitcher.tsx:159-189 | An accepted drop puts the row into the gap of the menu it was aimed at, however many hidden drafts lie between. |
| ProfileStore.OnlyTheDraftIsHidden | desktop/src/DockApp.tsx:161-175 | In a list with distinct hosts the menu shows everything but the one unconfigured remote. |
| ProfileEdits.EnableChangesOneSource | desktop/src/effect/profileModel.ts:338-364 | Enabling or disabling changes that source's gate and folder only, and moves the selection only away from a source it disables. |
| ProfileEdits.ToggleTwice | desktop/src/effect/profileModel.ts:324-336 | Opening a closed folder and closing it restores the state; the other way round the folder moves to the end of the open list. |
| ProfileEdits.OpeningBehindKeepsTheOwner | desktop/src/effect/profileModel.ts:286-294 | Opening a folder behind the first open one never takes the row keys away from it. |
| ProfileEdits.OwnerIsTheFirstVisibleOpen | desktop/src/effect/profileModel.ts:277-294 | In a settled state the row keys go to the first open source the menu shows. |
| ProfileStore.CommitReadsBack | desktop/src/effect/Profiles.ts:62-67 | A committed list that normalising leaves alone is exactly what the next read finds. |
| ProfileStore.StepProfiles | desktop/src/effect/Profiles.ts:77-251 | One mutator leaves exactly the stored profiles, plus an added one, minus a deletion's target, and no id changes its kind. |
| ProfileStore.NoSilentDeletion | desktop/src/effect/Profiles.ts:77-251 | Over every interleaving of two windows' mutators a stored profile is still there at every later reload unless a deletion was aimed at it. |
| ProfileStore.ApplyKeepsSourcesIff | desktop/src/effect/Profiles.ts:225-251 | An accepted edit keeps every source exactly if it does not empty a remote's host while another remote is unconfigured. |
| ProfileWitnesses.EmptyHostLosesASource | desktop/src/effect/Profiles.ts:225-251 | A state reachable from a fresh install in which an accepted edit with an empty host drops a second unconfigured remote. |
| ProfileReads.WriterAgreesIff | desktop/src/effect/Profiles.ts:62-75 | After a commit the writing window holds exactly what storage is read back as, unless the mutator reused a disabled draft or toggled a disabled source. |
| ProfileWitnesses.DisabledDraftSplitsWindows | desktop/src/effect/Profiles.ts:104-149 | States reachable from a fresh install in which reusing a disabled draft, or toggling a disabled source, leaves window and storage different. |
| ProfileReads.CommitAchieves | desktop/src/effect/Profiles.ts:77-251 | What the next read finds is exactly what the mutator was asked for, merged onto what storage held: every other source in its place and unchanged, every other folder and the selection as they were, save that adding selects the draft and removing or disabling the selected source moves the selection. |
| ProfileOutcomes.ActsIff | desktop/src/effect/Profiles.ts:77-251 | The exact condition, for each mutator, under which it stores anything, and under which it otherwise refreshes its window. |
| ProfileOutcomes.MutatorOutcome | desktop/src/effect/Profiles.ts:62-251 | Every step of every window: if that condition fails nothing is stored; if it holds the next read and the window hold what was asked for; a disabled source put in front is dropped by the next read; the other window stays. |
| ProfileOutcomes.NextReadChangesIff | desktop/src/effect/Profiles.ts:77-251 | The exact condition, for each mutator, under which the next read changes; a selection changes exactly to a runnable stored source not yet selected. |
| ProfileOutcomes.NotifiesIffActs | desktop/src/effect/Profiles.ts:62-67 | The other window is notified exactly when something is stored. |
| ProfileOutcomes.FreshReadIs | desktop/src/effect/profileModel.ts:713-731 | Nothing stored reads as one local source, selected and open, with the mirrored runner. |
| ProfileService.Profiles.ApplyRunnerSettings | desktop/src/effect/Profiles.ts:225-251 | The edit targets the profile the window's copy has active, is refused and replaced by a reload exactly if another source has the host by now, and otherwise merges onto what storage holds. |
| ProfileService.Profiles.AddSshProfile | desktop/src/effect/Profiles.ts:104-149 | Adding reuses an existing draft, opening and selecting it, and commits nothing if that is already so. |
| ProfileService.Profiles.DeleteActiveProfile | desktop/src/effect/Profiles.ts:151-172 | The target is what this window believes active; storage loses exactly it. |
| ProfileService.Profiles.SelectProfile | desktop/src/effect/Profiles.ts:77-102 | The call does what the selection step does: ProfileOutcomes.NextReadChangesIff says when and to what the selection changes. |
| ProcessTree.Capture | src/app/proc.rs:198-220 | The captured index holds exactly each process's children in table order. |
| ProcessTree.IsDescendantProcess | src/app/proc.rs:144-162 | The uncapped walk terminates and answers true exactly if following parent links from the process reaches the root, for cyclic tables too. |
| ProcessTree.DescendantProcesses | src/app/proc.rs:118-142 | The capped walk asks distinct descendants for evidence: all of them if there are at most 64, else exactly 64. |
| ProcessTree.DefaultIsDescendant | src/app/proc.rs:33-40 | The trait's default implies the override, and agrees with it on processes with evidence below the cap. |
| RemoteScript.ValidateCommandEnv | desktop/src-tauri/src/runner.rs:1177-1197 | Validation passes exactly if every trimmed name is a shell identifier, and otherwise reports the first that is not. |
| RemoteScript.RemoteAgentscanScriptWithBody | desktop/src-tauri/src/runner.rs:908-940 | The script is built exactly if the names are valid; POSIX tokenising and quote removal then give exactly exec, sh, -c, the body, sh, each NAME=value, the binary and the arguments, if and only if none holds a NUL. |
| RemoteScript.QuotedIsRead | desktop/src-tauri/src/runner.rs:1024-1030 | A quoted value is read back as itself wherever it stands in a word. |
| RemoteScript.RemotePathShScript | desktop/src-tauri/src/runner.rs:954-974 | The loop lists the install directories and then the shims, colon-separated, after an inherited non-empty PATH. |
| RemoteScript.BothBodiesAreRead | desktop/src-tauri/src/runner.rs:897-906 | The round trip holds for the plain and for the preflight body. |
| RemoteRun.RemoteCommandIsRun | desktop/src-tauri/src/runner.rs:897-974 | Carried out on the remote with either body, the script starts the configured binary, or `agentscan` if none is, with exactly the arguments and the profile's variables over the new PATH over what the shell exports, if and only if `env` can take the binary for a command. |
| RemoteRun.LaterVariablesWin | desktop/src-tauri/src/runner.rs:929-935 | Of variables with one name the last wins, and each changes its own name only. |
| RemotePath.AssignedPath | desktop/src-tauri/src/runner.rs:942-974 | Under parameter expansion the assigned text is the inherited PATH and a colon, or nothing if it is empty, followed by the directories with HOME filled in. |
| RemotePath.BodyAssignsPath | desktop/src-tauri/src/runner.rs:954-974 | The body assigns exactly that for the install directories followed by the shims, for every PATH and HOME. |
| RemotePath.AssignedEntries | desktop/src-tauri/src/runner.rs:942-974 | Split at its colons the assigned PATH is the entries inherited, none if it was empty, then the install directories', then the shims', whatever PATH and HOME hold. |
| RemotePath.InheritedThenInstalledThenShims | desktop/src-tauri/src/runner.rs:942-974 | A command is looked up in the inherited PATH first, then in the install directories, and in the shims only if neither holds it. |
| RemotePath.EntriesAreThePieces | desktop/src-tauri/src/runner.rs:942-974 | The entries of a PATH joined by colons give it back, and hold none. |
| RemotePath.UnsetPathAddsNothing | desktop/src-tauri/src/runner.rs:949-953 | With PATH unset or empty the directories stand alone, with no empty entry in front. |
| Activation.RunningStateIsTheHolders | desktop/src/effect/Activation.ts:106-155 | In every interleaving, abandoned activate and prune calls included, at most one activation is alive, and a running state is backed by the slot's holder exactly if no prune has interrupted that without clearing the state yet, an activation abandoned unforked in the slot excepted; a live activation is shown unless its activate call was abandoned. |
| Activation.AbandonedPruneLeavesTheState | desktop/src/effect/Activation.ts:252-276 | A run in which an abandoned prune leaves a source shown as running with the slot free. |
| Activation.FinalizersFreeOnlyTheirOwn | desktop/src/effect/Activation.ts:230-242 | A finalizer frees the slot exactly if its activation was not interrupted: a stale one never frees a successor's. |
| Activation.PruneFreesAClosedSource | desktop/src/effect/Activation.ts:252-276 | Pruning a running closed source, not abandoned itself, clears the state whatever happens between its steps, and frees the slot exactly if the activate call was not abandoned or its fiber finishes meanwhile. |
| Activation.PruneSparesOpenSources | desktop/src/effect/Activation.ts:257-263 | A prune changes nothing exactly if nothing is shown or the shown source is open. |
| Activation.OpenSourcesAreSpared | desktop/src/effect/Activation.ts:252-276 | Over every run in which every prune finds a source open, no activation of it is interrupted, and a failure it shows goes only by its own timer or for the next activation. |
| Activation.PruneRunsThrough | desktop/src/effect/Activation.ts:252-276 | A prune of a closed source, running or failed, can be carried through and shows nothing then. |
| Activation.OnlyPruneInterrupts | desktop/src/effect/Activation.ts:263-274 | A fiber stays until its own finalizer has run, and only a prune interrupts one, the slot's holder. |
| Activation.SettlingShowsTheOutcome | desktop/src/effect/Activation.ts:122-165 | A focus that succeeds clears what is shown; one that fails shows its own message under its own source. |
| Activation.ExpiryAwaitsRecovery | desktop/src/effect/Activation.ts:167-205 | After every run the timer may fire exactly if the failed source was last seen recovered, and no state was seen and no timer fired since. |
| Activation.SeesWhatIsPublished | desktop/src/effect/Activation.ts:184-205 | The expiry supervisor sees every state published, in order. |
| Activation.ShownFailureCanExpire | desktop/src/effect/Activation.ts:167-205 | After every run a failure shown can still be expired by its timer, once the supervisor has caught up and the source has recovered. |
| Activation.FailureOutlivesOtherTimers | desktop/src/effect/Activation.ts:171-205 | A shown failure goes only by its own timer, a prune or the next activation. |
| Activation.ExpiryIsExact | desktop/src/effect/Activation.ts:171-205 | A timer clears only the very failure it was armed for. |
| Activation.SlotIsLostIff | desktop/src/effect/Activation.ts:217-276 | After any run, the slot stays held in every continuation exactly if its activate call was abandoned before forking its fiber, and then no activate call gets past its first check. |
| Activation.AbandonedActivateWedges | desktop/src/effect/Activation.ts:217-250 | Runs from the start that lose the slot for good, abandoned before and after the state is shown. |
| PickerGroups.GroupRowsByProject | desktop/src/effect/pickerViewModel.ts:254-271 | The loop with its index computes one group for each project, in first-seen order, each with its rows in order. |
| PickerGroups.GroupIsHeadedByItsFirstRow | desktop/src/effect/pickerViewModel.ts:254-271 | A group has the label of its project's first row. |
| PickerGroups.FlatteningKeepsOrder | desktop/src/effect/pickerViewModel.ts:252-271 | Flattening keeps each project's rows in their old order. |
| PickerGroups.FlatteningIsAPermutation | desktop/src/effect/pickerViewModel.ts:65-75 | No row is lost or duplicated. |
| PickerGroups.FlatteningKeepsKeys | desktop/src/effect/pickerViewModel.ts:252-271 | The group keys are distinct and come in first-seen order, before and after. |
| PickerGroups.GroupingIsIdempotent | desktop/src/effect/pickerViewModel.ts:65-76 | The groups rendered flatten to exactly the rows the keyboard walks. |
| PickerGroups.GroupingIsIdentityIffContiguous | desktop/src/effect/pickerViewModel.ts:254-271 | Grouping moves no row exactly if each project's rows already lie together. |
| PickerSelection.MruVisiblePaneId | desktop/src/effect/pickerViewModel.ts:97-114 | The loop finds the first row of highest recency, and none exactly if no row has one. |
| PickerSelection.ReconcileSelection | desktop/src/effect/pickerViewModel.ts:128-195 | The keeper's step follows from status, rows, focus and the present selection, falling back to the most recent or first row. |
| PickerSelection.DecisionSettles | desktop/src/effect/pickerViewModel.ts:128-195 | One decision settles, and leaves a shown row selected when rows are shown. |
| PickerSelection.EmptySourceStartsOver | desktop/src/effect/pickerViewModel.ts:139-160 | A source without rows forgets selection and focus, and the next rows are decided on from scratch. |
| PickerSelection.SelectionStaysWhileFocusDoes | desktop/src/effect/pickerViewModel.ts:161-195 | A shown selection stays while the focus does not move; a hidden one gives way to the focused pane if that is shown, else to the fallback; the focus remembered is the last one shown. |
| PickerSelection.FilterKeepsManualPickIff | desktop/src/effect/pickerViewModel.ts:161-194 | While the focus stays, applying and clearing a filter keeps a manual pick exactly if the filter leaves it visible or hides every row. |
| PickerSelection.FilterTakesHiddenPick | desktop/src/effect/pickerViewModel.ts:183-194 | A concrete filter that hides the pick but not the focused row takes it away for good. |
| PickerSelection.HiddenMoveIsFollowedLater | desktop/src/effect/pickerViewModel.ts:161-180 | A focus move hidden by a filter is followed when the pane reappears. |

## Left out

- The hidden daemon, classification, tmux and IPC modules are not part of this model; lines, frames, clock values, process tables and filesystem answers are arbitrary inputs.
- Process spawning, pipes, real time and JSON or TOML decoding: a decoded value or an error text is an input. A child's stdout is taken to close once the child is gone, and kill and wait to succeed.
- The Effect runtime: an interrupted fiber is taken to run only its finalizer (one that had not started drops out the same way), and mutex-guarded or uninterruptible regions to be atomic unless they are split into steps here.
- Shutdown of the whole service is left out of Activation.
- Poisoned locks end in the source's early-return paths and are modelled only where a worker's own slot is poisoned.
- Counters and epochs are unbounded integers; the loss of precision of JavaScript numbers and the 64-bit width of Rust's are not modelled.
- Daemon status diagnostics and the snapshot summary that accompany frames; message patterns and failure classification are parameters.
- `.` path components, symlink canonicalisation, lossy UTF-8 and the labels of linked worktrees: what a `.git` file resolves to is an input.
- Picker row sorting, keys and configuration of picker keys: a total order and a finite table.
- The foreground-tty index of the process table, and reading evidence for a process.
- Deriving project keys and labels from a row, the substring filter, and choosing the focused pane: single-branch facts; rows carry their key and the focus is an input.
- Profile texts arrive trimmed, ids of profiles without one are inputs, and a serialised runner determines its settings. Draft validation messages, labels and command prefixes are left out.
- ProfileLaws.NormalizeIsNormal: a sufficient condition only; the exact one is NormalizeIsNormalIff, and SharedIdsKeepDuplicates and LocalNameClashes fail it.
- ProfileLaws.UnchangedIffNormal: speaks of distinct ids; with shared ids ProfileSettling.NormalizeTwiceIsOnceIff says what a second pass does.
- ProfileLaws.NormalizeTwiceIsOnce: a sufficient condition; NormalizeTwiceIsOnceIff is exact.
- ProfileStore.NoSilentDeletion: speaks of the profiles kept, by id; what each mutator does to them is ProfileReads.CommitAchieves.
- LiveConfigure.LiveConfiguration.Configure: removes entries in an unspecified order, as the order only decides in which order supervisors are interrupted.
- RemoteRun.RemoteCommandIsRun: the line that prints the host name is taken to print and to change no variable, and options of `env` are not modelled.
- User interface, window placement, notifications, command-line flags, the configuration precedence table, provider tables and the end-to-end harness.

# Xeno: verified models

A Dafny model of the parts of the Xeno editor whose correctness depends on whole
runs or on several functions together, with the laws they are meant to obey.
`dafny verify dfyconfig.toml` checks everything.

| module | what it models |
|---|---|
| `ChangeSets` | the changeset algebra: builder, apply, invert, compose, position mapping |
| `SyntaxSlots`, `SyntaxSlotObject` | the per-document syntax state: resident tree, pending edit window, snapshot memory, viewport cache, tree ids; as a step machine over a document's history, with the tiered policy, polls, sweeps and background parses around it, and as the object the source updates in place |
| `SyntaxHistory` | undo and redo: the snapshot memory over runs of edits |
| `SyntaxRetention` | what a hidden document loses to sweeps, and when |
| `SyntaxVersions` | the version of the resident tree over whole runs, through drops and late results |
| `SyntaxCatchUp` | how polls and finishing parses bring the tree up to date, and what every other step leaves |
| `SyntaxTasks`, `SyntaxQueues` | parse tasks: permits with a reserve, lanes, epochs, late results; which results are queued, and in which order |
| `MailboxProtocol`, `MailboxClose`, `MailboxParking`, `MailboxFates`, `MailboxQueue` | the actor mailbox: all interleavings of senders, receivers and closers; who sleeps through a close; who stays parked; what becomes of every send and receive; the queue itself and its coalescing policy |
| `Scopes`, `ScopeBuilder` | local scopes: the resumable cursor, name lookup, and the loop that builds the tree |
| `InjectionRanges` | the sweep that intersects a node with its parent's ranges |
| `TerminalRuns` | run coalescing in the terminal backend |
| `Framing` | Content-Length framing (Base Protocol, "Header Part", of LSP 3.17) |
| `RequestConcurrency` | the request concurrency middleware |
| `NuValues`, `NuEffects`, `NuRecords`, `InvocationSchema` | decoding Nu return values into effects, which records mean which effects, and the record validator that has to agree with it |
| `InvocationSpecs`, `InvocationTokens` | the quoting tokenizer and invocation specs; what every input means |
| `LexicalPaths` | lexical path normalisation |

Code that updates fields or variables step by step is a class or a method with
loops here; each method is proved against a function of the old state, and the
laws are proved about that function. Protocols are step machines whose runs
are arbitrary finite sequences of steps.

Choices a reader should know about:

- A parsed tree is the text it was parsed from, plus a flag that says whether it
  was edited without being reparsed. The parser is only relied on to turn a
  sound tree of the old text, and a change that leads to the new text, into a
  tree of the new text.
- The tiered policy is part of the state. What a sweep drops and whether it
  invalidates, whether a poll works on a hidden document and whether a result is
  kept all follow from it, from how visible the document is, and from the time
  since it last was, which a step may choose freely. Cooldowns and debouncing are
  choices too: polls, sweeps and finishing tasks come in any order.
- A synchronous update that leaves the tree untouched has failed on the parser's
  limit of 512 MiB. On any shorter text a failed update has already edited the
  tree.
- `usize` and `u64` values are naturals, except where wrap-around matters: tree
  ids and change counters are taken modulo 2^64, and so are the epochs in
  `SyntaxTasks`, which shows when they tell tasks apart. `SyntaxSlots` counts
  epochs without a limit.
- String limits of the Nu surface count UTF-8 bytes, as the source does.

What the models show to be false, or true only under a condition:

- A synchronous update that fails after the tree was edited in place leaves a
  resident tree that belongs to no version; a later successful update builds on
  it and marks the slot clean (`SyntaxSlots.HalfEditedTreeSurvives`). Trees stay
  exact as long as that does not happen, and only then (`SyntaxSlots.SoundStep`).
- A receiver that has seen an open, empty mailbox can go to sleep after `close`
  has notified (`MailboxClose.ReceiverMaySleepThroughClose`). A single
  receiver does so exactly when the last notification finds it between giving up
  the lock and creating its `Notified`, with no permit stored
  (`MailboxClose.LastCloseDecides`), and only another close wakes it
  (`MailboxClose.SleepsOn`, `MailboxClose.TellingWakes`).
- A sender can stay parked with a place free and no notification on its way:
  never with a capacity of one (`MailboxParking.ParkedMeansFull`), and for every
  larger capacity in some run (`MailboxParking.ParkedBelowCapacity`).
- An undo brings a clean tree back at once as long as the memory of eight
  snapshots reaches: after typing through different texts exactly for seven
  edits (`SyntaxHistory.UndoReachesExactly`).
- Outside quotes a backslash takes the next character as it is, except for
  whitespace at the very end, which is trimmed before and leaves an error
  (`InvocationTokens.BackslashSplits`).
- The resident version never goes down, in any run of any document and however
  often the tree is dropped, if and only if no tier that a text can have both
  parses while hidden and drops trees while hidden
  (`SyntaxVersions.VersionSafeExactly`). The policy the editor ships parses
  nothing while hidden, so there it never does
  (`SyntaxVersions.DefaultPolicyIsSafe`). Under a tier that mixes the two it does
  on every text (`SyntaxVersions.VersionMayDrop`), when a waiting older parse is
  installed in place of the dropped tree, and in no other way
  (`SyntaxVersions.RegressesExactly`).
- A tree id names two states, and a changed tree goes unannounced, exactly after
  an update that fails halfway (`SyntaxSlots.LoggedStep`,
  `SyntaxSlots.FullChangeIsAnnounced`).
- `scope_cursor(pos)` starts in the innermost scope exactly when no scope ends
  at `pos` (`Scopes.CursorStartExact`); `advance` is exact from either start.
- Mapping a position through a composed changeset agrees with mapping it through
  both parts for characters that survive (`ChangeSets.CompositionFlow`). For a
  deleted one it agrees exactly when both parts send it where they send the next
  survivor (`ChangeSets.ComposedPosition`); they need not
  (`ChangeSets.DeletedCharacterMayShift`). With left bias the same holds of the
  character before the position (`ChangeSets.ComposedPositionLeft`).
- The map of ongoing requests stays within twice the concurrency limit except
  at a call that finds it full of unfinished entries, which takes responses that
  have given back their permit and not yet signalled completion
  (`RequestConcurrency.OutgrowsExactly`, `RequestConcurrency.MapMayOutgrow`).
  For the same reason unfinished entries can outnumber the live responses
  (`RequestConcurrency.LiveBoundExactly`, `RequestConcurrency.LiveBoundMayFail`).
- The record validator raises a negative count to one where the decoder refuses
  it, and does not measure one-character fields; `InvocationSchema.SameReading`
  gives the exact conditions under which the two agree.

## Model

| member | source | states |
|---|---|---|
| `ChangeSets.PushOpCanonical` | crates/primitives/src/transaction/changeset.rs:79-127 | the builder keeps a canonical list: no empty operation, neighbours of one kind merged, no insertion right after a deletion |
| `ChangeSets.PushOpMeaning` | crates/primitives/src/transaction/changeset.rs:79-127 | merging, dropping and moving an insertion before a deletion never change the text produced: pushing means appending |
| `ChangeSets.PushValid` | crates/primitives/src/transaction/changeset.rs:79-127 | every push keeps the invariant, with exact cached lengths |
| `ChangeSets.PlainEdit` | crates/primitives/src/transaction/changeset.rs:130-142 | replacing a stretch of a document by a text, with the insertion before or after the deletion, gives exactly that |
| `ChangeSets.Apply` | crates/primitives/src/transaction/changeset.rs:130-142 | editing the buffer in place gives the denotational result for every changeset that fits the document |
| `ChangeSets.Invert` | crates/primitives/src/transaction/changeset.rs:150-174 | the inverse is valid, has the lengths swapped, and applying it after the change gives the document back |
| `ChangeSets.ComposeOps` | crates/primitives/src/transaction/changeset.rs:222-312 | the two-cursor loop computes the recursive composition and its two lengths |
| `ChangeSets.Compose` | crates/primitives/src/transaction/changeset.rs:222-312 | the composition is valid and acts on every document like the two changes in a row |
| `ChangeSets.ComposedMeaning` | crates/primitives/src/transaction/changeset.rs:237-308 | from any state of the loop, the finished list produces what the rest of the first and then of the second list would |
| `ChangeSets.ComposedValid` | crates/primitives/src/transaction/changeset.rs:237-308 | the composed list is canonical and reads and writes the right number of characters |
| `ChangeSets.CompositionCorrect` | crates/primitives/src/transaction/changeset.rs:222-312 | for all valid matching changesets and all documents: compose, then apply equals apply, then apply |
| `ChangeSets.MapPosition` | crates/primitives/src/transaction/changeset.rs:184-211 | the loop computes the recursive position map |
| `ChangeSets.MapPosFollows` | crates/primitives/src/transaction/changeset.rs:184-211 | a surviving character is found in the new text at its right-biased position |
| `ChangeSets.MapPosLeft` | crates/primitives/src/transaction/changeset.rs:184-211 | left bias sticks to the character before the position |
| `ChangeSets.MapPosOrder` | crates/primitives/src/transaction/changeset.rs:184-211 | the map is monotone in position and bias and stays inside the new text |
| `ChangeSets.CompositionFlow` | crates/primitives/src/transaction/changeset.rs:184-312 | composition keeps exactly the characters both changes keep and carries each to the same place |
| `ChangeSets.DeletedGoesNext` | crates/primitives/src/transaction/changeset.rs:79-211 | in a canonical list a deleted position goes where the next kept one goes |
| `ChangeSets.ComposedPosition` | crates/primitives/src/transaction/changeset.rs:184-312 | where the composition sends every position, kept or deleted, and the exact condition under which the two changes in a row send it there too |
| `ChangeSets.ComposedPositionLeft` | crates/primitives/src/transaction/changeset.rs:184-312 | the same with left bias: the law holds at the start and behind every character both changes keep; behind a deleted one the composition goes where the next survivor goes, with the exact condition under which the two in a row do |
| `ChangeSets.DeletedCharacterMayShift` | crates/primitives/src/transaction/changeset.rs:184-312 | a concrete pair where the law fails for a deleted character, with either bias |
| `SyntaxSlots.TouchOrInsertOk` | crates/syntax/src/types.rs:167-197 | the viewport cache stays bounded and duplicate-free, moves the key to the front, keeps the other entries in order, and evicts only the least recent, only when full |
| `SyntaxSlots.RememberedOk` | crates/syntax/src/types.rs:354-372 | remembering keeps at most eight snapshots of distinct contents, each a tree of its content, the new one first |
| `SyntaxSlots.RestoredOk` | crates/syntax/src/types.rs:375-392 | restoring brings back a tree of exactly the requested content and keeps the memory well formed |
| `SyntaxSlots.NextPendingOk` | crates/syntax/src/edits.rs:107-128 | extending, opening or dropping the window keeps it leading from its saved text to the current text |
| `SyntaxSlots.NoteEditAligned` | crates/syntax/src/edits.rs:52-220 | every edit, from typing or history, keeps tree, window, memory and cache aligned with the versions they claim |
| `SyntaxSlots.SyncUpdateAligned` | crates/syntax/src/edits.rs:158-219 | so does the synchronous update, whether it succeeds or fails |
| `SyntaxSlots.InstallNextAligned` | crates/syntax/src/ensure/install.rs:133-184 | installing, refusing or retention-dropping a finished parse keeps the alignment |
| `SyntaxSlots.ViewportDoneAligned` | crates/syntax/src/ensure/install.rs:163-231 | so does installing a viewport tree, or dropping every tree because it may not be kept |
| `SyntaxSlots.StepAligned` | crates/syntax/src/edits.rs:5-220 | every event of a document keeps the whole invariant |
| `SyntaxSlots.Run` | crates/syntax/src/edits.rs:5-220 | every run from an aligned state ends in an aligned state |
| `SyntaxSlots.RunsAreExact` | crates/syntax/src/edits.rs:52-220 | in every run in which no attempted update fails halfway the resident tree, all snapshots and all finished parses are trees of exactly the recorded text, and an open window leads to the current text |
| `SyntaxSlots.OpenedRunsAreExact` | crates/syntax/src/edits.rs:52-220 | the same for every run from the moment a document is opened |
| `SyntaxSlots.SoundStep` | crates/tree_house/src/parse.rs:33-48 | trees stay sound in a step if and only if no attempted update fails after editing the tree |
| `SyntaxSlots.HalfEditedTreeSurvives` | crates/syntax/src/edits.rs:158-219 | for all texts and edits: a half-failed update followed by a successful one leaves a clean slot with a tree of no version |
| `SyntaxSlots.NoteEditFull` | crates/syntax/src/edits.rs:64-203 | what an edit does to the resident tree, its version, the dirty flag and the change counter; what an undo restores is `SyntaxHistory.HistoryEdit` |
| `SyntaxHistory.RememberedKeeps` | crates/syntax/src/types.rs:354-372 | remembering another text pushes a snapshot back by at most one place and loses it exactly from the eighth place, to a text that is new |
| `SyntaxHistory.HistoryEdit` | crates/syntax/src/edits.rs:98-156 | an undo or redo to a text remembered before or by this very edit makes its tree resident for the new version, clean, without a window and announced; any other leaves the resident tree and a dirty slot |
| `SyntaxHistory.TypingThenUndo` | crates/syntax/src/edits.rs:52-220 | from a current tree, after one to seven typing edits with any outcomes, an undo back leaves a clean tree of the old text for the newest version |
| `SyntaxHistory.TypingThenUndoIsExact` | crates/syntax/src/edits.rs:52-220 | if no update failed halfway, that tree is exactly of that text |
| `SyntaxHistory.UndoReachesExactly` | crates/syntax/src/types.rs:354-392 | with an empty memory and after any number of typing edits through different texts, an undo back restores a clean tree if and only if there were at most seven |
| `SyntaxHistory.UndoThenRedo` | crates/syntax/src/edits.rs:132-156 | typing, undo and redo bring back the very tree the typing left |
| `SyntaxRetention.RetentionExactly` | crates/syntax/src/retention.rs:102-144 | for every policy, hotness and age: what is lost, what is kept, and one announcement for each loss |
| `SyntaxRetention.InstallsWhatSweepsKeep` | crates/syntax/src/retention.rs:41-50 | a parse may be installed if and only if a sweep at the same moment would leave its tree alone |
| `SyntaxRetention.SweepInvalidatesExactly` | crates/syntax/src/retention.rs:65-99 | exactly when a sweep forgets tasks and results; otherwise it touches only the slot |
| `SyntaxRetention.SweptExactly` | crates/syntax/src/retention.rs:65-144 | over any number of sweeps the full tree is lost if and only if one finds the document hidden for too long |
| `SyntaxRetention.SweptUnchanged` | crates/syntax/src/retention.rs:65-144 | sweeps that come too early for both policies change nothing in the slot |
| `SyntaxRetention.ShippedRetention` | crates/syntax/src/policy.rs:118-205 | under the shipped policy, by size of the text: up to 256 KiB nothing is ever lost; up to 1 MiB nothing within a minute, and the full tree exactly after; above, the full tree at the first sweep that finds it hidden |
| `SyntaxCatchUp.CatchesUp` | crates/syntax/src/ensure/mod.rs:150-215 | from every state with a language and a text that can be parsed, polls and finishing parses alone lead to a clean tree of the current text |
| `SyntaxCatchUp.CurrentInstalled` | crates/syntax/src/ensure/install.rs:233-266 | a parse of the current text is installed whatever is resident, and leaves the slot clean, without a window, and announced |
| `SyntaxCatchUp.ResetLeaves` | crates/syntax/src/edits.rs:5-14 | a reset leaves no tree, result or task, and the wish for a parse |
| `SyntaxCatchUp.GatesLeave` | crates/syntax/src/ensure/normalize.rs:4-31 | what a change of language or options, a missing language, and a poll that may not work leave behind |
| `SyntaxCatchUp.BootstrapExactly` | crates/syntax/src/ensure/bootstrap.rs:6-60 | the synchronous parse is kept exactly when it succeeds and nothing is in flight, and is tried once |
| `SyntaxCatchUp.IncrementalExactly` | crates/syntax/src/ensure/plan_bg.rs:4-24 | a background parse is of the current text, and incremental if and only if the resident tree can be projected onto it |
| `SyntaxCatchUp.ViewportLands` | crates/syntax/src/ensure/install.rs:202-231 | a viewport result lands in its stage of its entry, which is most recent, and changes nothing else |
| `SyntaxCatchUp.ViewportRefused` | crates/syntax/src/ensure/install.rs:163-184 | one that may not be kept drops every tree if it is current, and any other changes nothing |
| `SyntaxCatchUp.AnchorIsNewest` | crates/syntax/src/edits.rs:74-75 | edits are followed from the full tree, or else from the newest viewport tree |
| `SyntaxCatchUp.WindowExactly` | crates/syntax/src/edits.rs:104-130 | after an edit that leaves the slot dirty there is a window exactly when there was one from that tree, or the tree was of the text edited, and it starts from that tree's text |
| `SyntaxVersions.ClimbsWhileResident` | crates/syntax/src/retention.rs:5-38 | under any policy, in every run that keeps a full tree resident the resident version never goes down |
| `SyntaxVersions.InstallsCurrent` | crates/syntax/src/ensure/install.rs:133-151 | with a tree resident only a parse of the current version is installed |
| `SyntaxVersions.RegressesExactly` | crates/syntax/src/retention.rs:5-38 | after any run, a step makes a version resident that is below the highest so far if and only if it installs a waiting parse, not older than the last request, while no tree is resident |
| `SyntaxVersions.SweepFloor` | crates/syntax/src/retention.rs:65-99 | in a tier that does not mix, a sweep that drops the tree leaves no queued result and no live task behind that is older than what was resident |
| `SyntaxVersions.FinishFloor` | crates/syntax/src/completion.rs:27-30 | nor does a finishing task bring one back: a result of an older epoch is thrown away |
| `SyntaxVersions.InstallFloor` | crates/syntax/src/ensure/install.rs:86-184 | nor does the install phase, which in such a tier never drops a tree for a result it may not keep |
| `SyntaxVersions.StepFloor` | crates/syntax/src/ensure/mod.rs:138-176 | nor does any other step |
| `SyntaxVersions.VersionNeverDrops` | crates/syntax/src/retention.rs:65-99 | under a policy no tier of which mixes, from the moment a document is opened: the version resident at any later point of a run is not below the one resident at any earlier point, whatever was dropped in between |
| `SyntaxVersions.HiddenParsingOffIsSafe` | crates/syntax/src/ensure/derive.rs:20 | so with hidden parsing off, for every retention policy and every run |
| `SyntaxVersions.DefaultPolicyIsSafe` | crates/syntax/src/policy.rs:118-194 | so for the policy the editor ships |
| `SyntaxVersions.SweptThenInstalled` | crates/syntax/src/retention.rs:65-129 | where the tier parses hidden and drops full trees: from every state with an older parse waiting, a sweep and the next poll bring the older version back |
| `SyntaxVersions.TakenThenInstalled` | crates/syntax/src/ensure/install.rs:163-275 | where it parses hidden, keeps full trees and drops viewport trees: one poll takes a viewport result it may not keep, drops every tree, and installs the older parse |
| `SyntaxVersions.LateRunIsOverdue` | crates/syntax/src/edits.rs:52-220 | such a state is reached on every text that can be parsed, by a missed update, a background parse and two more edits |
| `SyntaxVersions.VersionMayDrop` | crates/syntax/src/retention.rs:65-129 | so the resident version does go down on every text whose last edit leads into a tier that mixes |
| `SyntaxVersions.VersionSafeExactly` | crates/syntax/src/retention.rs:41-99 | the resident version never goes down in any run if and only if no text has a tier that mixes |
| `SyntaxSlots.FullChangeIsAnnounced` | crates/syntax/src/retention.rs:53-56 | a step that changes the full tree changes the change counter if and only if it is not an update that fails halfway |
| `SyntaxSlots.LogNewIds` | crates/syntax/src/types.rs:312-316 | ids are handed out in order, one for each tree installed |
| `SyntaxSlots.LoggedStep` | crates/syntax/src/types.rs:312-316 | the resident tree stays the very tree its id was given to if and only if no update fails halfway |
| `SyntaxSlots.TreeIdNamesOneState` | crates/syntax/src/types.rs:312-316 | across every run without such a failure, and before the 64-bit generator wraps, the same id at two points means the same tree |
| `SyntaxSlots.ProjectionIsExact` | crates/syntax/src/queries.rs:186-230 | a projection handed out maps the tree's text exactly to the current text, and each surviving character to itself |
| `SyntaxSlots.FailedTypingKeepsProjection` | crates/syntax/src/edits.rs:158-219 | after a failed synchronous update the resident tree still has a projection and the next update is attempted |
| `SyntaxSlotObject.SyntaxSlot.AllocTreeId` | crates/syntax/src/types.rs:312-316 | returns the next id and bumps the wrapping counter |
| `SyntaxSlotObject.SyntaxSlot.DropTree` | crates/syntax/src/types.rs:335-351 | clears full tree, memory, cache, window and bootstrap flag |
| `SyntaxSlotObject.SyntaxSlot.RememberFullTree` | crates/syntax/src/types.rs:354-372 | computes `Remembered` in place |
| `SyntaxSlotObject.SyntaxSlot.RestoreFullTree` | crates/syntax/src/types.rs:375-392 | computes `Restored` in place, and says whether there was a snapshot |
| `SyntaxSlotObject.SyntaxSlot.ManagePending` | crates/syntax/src/edits.rs:107-128 | computes `NextPending` in place |
| `SyntaxSlotObject.SyntaxSlot.TrySync` | crates/syntax/src/edits.rs:158-219 | computes `SyncUpdate` in place |
| `SyntaxSlotObject.SyntaxSlot.NoteEditIncremental` | crates/syntax/src/edits.rs:52-220 | the statements of the source compute `NoteEdit`, about which the laws above are proved, and keep the object aligned with its document's history |
| `SyntaxSlotObject.SyntaxSlot.ResetSyntax` | crates/syntax/src/edits.rs:5-14 | computes `Reset` in place and keeps the object aligned |
| `SyntaxSlotObject.SyntaxSlot.ApplyRetention` | crates/syntax/src/retention.rs:102-144 | computes `ApplyRetention` in place, keeps the object aligned, and reports a drop exactly when the document is hidden and its full tree, its pending parse or its viewport trees have expired |
| `SyntaxSlotObject.SyntaxSlot.InstallFull` | crates/syntax/src/ensure/install.rs:234-266 | computes `InstallFull` in place and keeps the object aligned for every tree of the version installed |
| `SyntaxTasks.StepInv` | crates/syntax/src/tasks.rs:96-183 | spawn, finish, drain, invalidate, install and close keep running tasks within the limit, unprivileged ones within the limit less the reserve, and lanes held by tasks still out |
| `SyntaxTasks.UrgentRefusedByUrgent` | crates/syntax/src/tasks.rs:96-116 | with a reserve, an urgent spawn is refused only while another privileged task runs |
| `SyntaxTasks.BackgroundHasRoom` | crates/syntax/src/core.rs:11-27 | the clamped reserve always leaves room for background work |
| `SyntaxTasks.BackgroundAdmitted` | crates/syntax/src/tasks.rs:96-116 | wherever background work is refused, finishing running tasks alone lets it in |
| `SyntaxTasks.EpochIsExact` | crates/syntax/src/scheduling.rs:127-136 | short of 2^64 invalidations, equal epochs mean no invalidation since the spawn, and conversely |
| `SyntaxTasks.RunsAreSound` | crates/syntax/src/completion.rs:6-45 | over every interleaving, every queued result was spawned under its document's current epoch |
| `SyntaxTasks.ConfiguredRunsAreSound` | crates/syntax/src/core.rs:11-27 | the same for every run of a freshly configured manager |
| `SyntaxTasks.ClosedStaysClosed` | crates/syntax/src/edits.rs:228-233 | no run brings a closed document's entry back |
| `SyntaxTasks.LateResultsIgnored` | crates/syntax/src/completion.rs:6-45 | over every run after a close, leaving out the drains of the closed document's tasks changes nothing but their leftover table entries |
| `SyntaxTasks.CloseErases` | crates/syntax/src/edits.rs:228-233 | the same from the close itself, and the document never comes back |
| `SyntaxTasks.SyntaxManager.constructor` | crates/syntax/src/core.rs:11-27 | clamps concurrency to at least one and the reserve below it |
| `SyntaxTasks.SyntaxManager.Spawn` | crates/syntax/src/tasks.rs:96-160 | spawns exactly when the permit rule allows it and records epoch and lane |
| `SyntaxTasks.SyntaxManager.Deliver` | crates/syntax/src/completion.rs:6-45 | clears a lane only for its own task, and appends the result to its document's queue exactly when the epochs agree |
| `SyntaxTasks.SyntaxManager.DrainFinishedInflight` | crates/syntax/src/completion.rs:6-45 | appends to every document's queue exactly its wanted results, in the order given, keeps the invariant, and reports whether there were any |
| `SyntaxQueues.SpawnTakesLane` | crates/syntax/src/tasks.rs:96-160 | a spawn records a task under its document's epoch and occupies its lane and no other; a refused one changes nothing |
| `SyntaxQueues.DrainFreesOwnLane` | crates/syntax/src/completion.rs:11-24 | draining a task frees the lane it still holds, and no other |
| `SyntaxQueues.QueueFollowsDrains` | crates/syntax/src/completion.rs:6-45 | over every run that does not empty it, a queue grows by exactly the current results, in drain order |
| `SyntaxQueues.ResultQueuedExactly` | crates/syntax/src/completion.rs:26-41 | over every run: the result of a task is in its document's queue, once and behind what was queued before, if and only if the document was neither invalidated nor closed while its task was out |
| `SyntaxQueues.QueueStartsEmpty` | crates/syntax/src/scheduling.rs:127-136 | opening, installing, invalidating and closing leave an empty queue |
| `SyntaxQueues.ConfiguredQueueIds` | crates/syntax/src/completion.rs:6-45 | in every run of a configured manager no result is queued twice, nor while its task is out |
| `SyntaxTasks.SyntaxManager.Invalidate` | crates/syntax/src/scheduling.rs:127-136 | bumps the epoch, empties lanes and queue, keeps the invariant |
| `SyntaxTasks.SyntaxManager.ForgetDoc` | crates/syntax/src/edits.rs:228-233 | removes the entry and keeps the invariant |
| `MailboxProtocol.StepInv` | crates/worker/src/mailbox.rs:119-203 | every step of every participant keeps the protocol invariant |
| `MailboxProtocol.RunInv` | crates/worker/src/mailbox.rs:119-203 | so it holds in every state of every interleaving |
| `MailboxProtocol.NoStrandedSender` | crates/worker/src/mailbox.rs:145-203 | while the mailbox is open, a parked sender and an empty queue mean that a receiver is about to notify or a sender is on its way to the lock |
| `MailboxProtocol.CloseReleasesSenders` | crates/worker/src/mailbox.rs:119-127 | after close has notified the senders none is parked, none parks again, and none gets a message in |
| `MailboxProtocol.BackpressureConserves` | crates/worker/src/mailbox.rs:145-203 | in every interleaving, received followed by queued is exactly accepted, in order, within capacity |
| `MailboxProtocol.SleepingReceiverSawNothing` | crates/worker/src/mailbox.rs:187-203 | a single receiver sleeps only on an empty queue |
| `MailboxFates.EverySendIsAnswered` | crates/worker/src/mailbox.rs:145-185 | over every interleaving: a sender keeps its message until it is queued last, or refused because of a close |
| `MailboxFates.OnlySendersQueue` | crates/worker/src/mailbox.rs:145-160 | nothing else is ever queued |
| `MailboxFates.EveryRecvIsServed` | crates/worker/src/mailbox.rs:187-203 | over every interleaving: a receiver waits until it takes the oldest message, or finds the mailbox closed and empty |
| `MailboxFates.LineMoves` | crates/worker/src/mailbox.rs:145-203 | parked senders move up by one with each notification and are woken first come, first served, or all by a close |
| `MailboxFates.PollingSpends` | crates/worker/src/mailbox.rs:145-160 | a sender that polls spends the stored notification or parks last |
| `MailboxFates.NotificationIsKept` | crates/worker/src/mailbox.rs:187-203 | a notification that finds nobody parked is kept |
| `MailboxClose.TellingWakes` | crates/worker/src/mailbox.rs:119-127 | a close that notifies wakes every sleeper and every `Notified` created before it |
| `MailboxClose.QuietRun` | crates/worker/src/mailbox.rs:187-203 | while nobody closes again, a single receiver is stuck at the end of a run if and only if it was at its start |
| `MailboxClose.LastCloseDecides` | crates/worker/src/mailbox.rs:187-203 | a single receiver never returns from a close if and only if the last notification finds it about to create its `Notified`, with no permit stored |
| `MailboxClose.UnstuckReturns` | crates/worker/src/mailbox.rs:187-203 | otherwise it always has a step to make and each of them brings it closer to returning |
| `MailboxClose.SleepsOn` | crates/worker/src/mailbox.rs:187-203 | whoever sleeps when the last notification is over sleeps on until somebody closes again, with any number of receivers |
| `MailboxClose.ReceiverMaySleepThroughClose` | crates/worker/src/mailbox.rs:187-203 | a concrete run that ends with the mailbox closed, everybody gone, and the receiver asleep |
| `MailboxParking.ParkedMeansFull` | crates/worker/src/mailbox.rs:145-203 | with a capacity of one, a parked sender of an open mailbox means a full queue or a signal on its way |
| `MailboxParking.ParkedBelowCapacity` | crates/worker/src/mailbox.rs:145-203 | for every larger capacity a run that parks a sender below capacity with no signal on its way |
| `MailboxQueue.MailboxState.TrySend` | crates/worker/src/mailbox.rs:145-160 | accepts exactly when open and below capacity, and then appends |
| `MailboxQueue.MailboxState.SendCoalesced` | crates/worker/src/mailbox.rs:161-182 | replaces the first match in place, else evicts the oldest when full and appends |
| `MailboxQueue.MailboxState.TryRecv` | crates/worker/src/mailbox.rs:187-203 | takes the front; reports the end only when closed and drained |
| `MailboxQueue.CoalescingRuns` | crates/worker/src/mailbox.rs:376-407 | in every run entries are pairwise inequivalent, bounded, in order of arrival of their class, and each the newest accepted value of its class |
| `MailboxQueue.PushedIsQueued` | crates/worker/src/mailbox.rs:161-182 | a coalescing send leaves its message in the place of its class or last, and everything else as it was, less the oldest when full |
| `MailboxQueue.LeavesOnlyFromTheFront` | crates/worker/src/mailbox.rs:161-182 | an entry leaves only from the front, by a push only when full without a match; a match moves nothing |
| `Scopes.InnermostIsBelowAll` | crates/tree_house/src/locals.rs:103-133 | in a well-formed tree every scope that contains an offset encloses the innermost one |
| `Scopes.InnermostUnique` | crates/tree_house/src/locals.rs:103-133 | so the innermost scope is unique |
| `Scopes.ScopeCursor.constructor` | crates/tree_house/src/locals.rs:63-79 | leaves a stack from which `advance` is exact |
| `Scopes.ScopeCursor.Advance` | crates/tree_house/src/locals.rs:103-133 | for any non-decreasing offsets below the maximum returns the innermost scope containing the offset, never pops the root, terminates |
| `Scopes.CursorStartExact` | crates/tree_house/src/locals.rs:63-79 | the cursor starts in the innermost scope if and only if no scope ends at the offset |
| `Scopes.LookupReference` | crates/tree_house/src/locals.rs:48-61 | returns the nearest definition on the inherit chain, and none exactly when there is none up to the first non-inheriting scope |
| `ScopeBuilder.Locals.Push` | crates/tree_house/src/locals.rs:40-46 | appends the scope and links it to its parent |
| `ScopeBuilder.PushedWellFormed` | crates/tree_house/src/locals.rs:40-46 | pushing inside the parent, after its finished children, keeps the tree well formed |
| `ScopeBuilder.BuildLocals` | crates/tree_house/src/locals.rs:173-201 | for captures in preorder: a well-formed tree, one scope per scope capture under its innermost encloser, and every name in a scope bound to its last definition there |
| `InjectionRanges.IntersectRangesImpl` | crates/tree_house/src/injections_query.rs:578-614 | the sweep pushes sorted non-empty disjoint ranges covering exactly the wanted positions; the unwrap never fails |
| `InjectionRanges.ModesExclude` | crates/tree_house/src/injections_query.rs:69-74 | the three modes exclude all children, none, or the named ones |
| `InjectionRanges.ExcludedRangesOk` | crates/tree_house/src/injections_query.rs:562-576 | the excluded ranges are the non-empty children the mode excludes, sorted and inside the node |
| `InjectionRanges.IntersectRanges` | crates/tree_house/src/injections_query.rs:562-614 | the union of the pushed ranges is node, cut down to the parents, without the excluded children |
| `TerminalRuns.FlushRun` | crates/frontend_tui/src/backend.rs:246-270 | the commands emitted move, set attributes and print the run, whatever was emitted before |
| `TerminalRuns.ExtendRun` | crates/frontend_tui/src/backend.rs:60-80 | growing a run by an adjacent cell of equal attributes means drawing that cell next |
| `TerminalRuns.Draw` | crates/frontend_tui/src/backend.rs:43-94 | from any terminal, executing the output leaves the screen, cursor and attributes that drawing cell by cell leaves, with one move and one text for each maximal run and one change of attributes for each stretch of equal attributes |
| `TerminalRuns.ScreenShows` | crates/frontend_tui/src/backend.rs:60-80 | every screen position shows the symbol and attributes of the last cell that covers it, a blank for a cell without symbol, and is otherwise left alone |
| `Framing.ParseDigits` | crates/lsp_framework/src/message.rs:70-76 | parsing the decimal form of a length gives the length |
| `Framing.Reader.Read` | crates/lsp_framework/src/message.rs:54-86 | the header loop computes the reference reader, with its error for every malformed header block |
| `Framing.Writer.Write` | crates/lsp_framework/src/message.rs:88-95 | appends exactly one frame |
| `Framing.ReadBack` | crates/lsp_framework/src/message.rs:54-95 | one message with any other headers around its length is read back, and nothing after it is touched |
| `Framing.StreamRoundTrip` | crates/lsp_framework/src/message.rs:54-95 | any sequence of messages is read back in order and the stream is consumed to its end |
| `Framing.WrittenRoundTrip` | crates/lsp_framework/src/message.rs:54-95 | any sequence of written messages is read back in order and the stream is consumed to its end |
| `Framing.PrefixIsRefused` | crates/lsp_framework/src/message.rs:54-86 | no proper prefix of a written message is taken for a message: it is an end of stream between lines, a protocol error inside one, and an I/O error in the body |
| `Framing.ForeignReadBack` | crates/lsp_framework/src/message.rs:54-86 | the length header is read in any case and with a plus sign or zeros, and the last of several lengths counts |
| `Framing.ParseNumber` | crates/lsp_framework/src/message.rs:72-77 | a number of any form is its value, and refused from 2^64 on |
| `Framing.BadFirstLine` | crates/lsp_framework/src/message.rs:57-72 | lines without CRLF or separator, and an empty block, are protocol errors; invalid UTF-8 is an I/O error |
| `Framing.FrameBytes` | crates/lsp_framework/src/message.rs:88-95 | the bytes of a small message |
| `Framing.DecimalForm` | crates/lsp_framework/src/message.rs:88-95 | lengths are decimal, most significant digit first |
| `RequestConcurrency.StepInv` | crates/lsp_framework/src/concurrency.rs:71-182 | every step conserves permits and accounts for every call |
| `RequestConcurrency.PermitsNeverLeak` | crates/lsp_framework/src/concurrency.rs:71-118 | in every run, free, granted, ready and held permits add up to the limit, and unfinished entries never exceed the responses still around |
| `RequestConcurrency.UnfinishedBound` | crates/lsp_framework/src/concurrency.rs:96-118 | unfinished entries are at most the live and half-dropped responses |
| `RequestConcurrency.LiveBoundExactly` | crates/lsp_framework/src/concurrency.rs:96-130 | they are at most the live responses alone if and only if the half-dropped ones among them do not outnumber the live ones without an entry |
| `RequestConcurrency.LiveBoundMayFail` | crates/lsp_framework/src/concurrency.rs:123-130 | a concrete run where they are more |
| `RequestConcurrency.OngoingBounded` | crates/lsp_framework/src/concurrency.rs:96-118 | with prompt drops the map stays within twice the limit, repeated ids included |
| `RequestConcurrency.OutgrowsExactly` | crates/lsp_framework/src/concurrency.rs:96-118 | a call exceeds the bound if and only if the map is full of unfinished entries and the id is new |
| `RequestConcurrency.MapMayOutgrow` | crates/lsp_framework/src/concurrency.rs:123-130 | a concrete run with half-dropped responses that exceeds it |
| `RequestConcurrency.DropsLeadToIdle` | crates/lsp_framework/src/concurrency.rs:33-39 | from every state, dropping the responses that are around gives every permit back and leaves nothing unfinished |
| `RequestConcurrency.FinishedForGood` | crates/lsp_framework/src/concurrency.rs:99-102 | a finished request stays finished and is purged |
| `RequestConcurrency.CancelReachesLatest` | crates/lsp_framework/src/concurrency.rs:171-182 | a cancel reaches the latest unfinished request of its id, and no other |
| `RequestConcurrency.Concurrency.PollReady` | crates/lsp_framework/src/concurrency.rs:71-94 | takes, queues for, or collects a permit; not ready only when the limit is in flight |
| `RequestConcurrency.Concurrency.Call` | crates/lsp_framework/src/concurrency.rs:96-118 | purges finished entries when full, registers the call, hands its permit to the response |
| `RequestConcurrency.Concurrency.NotifyCancel` | crates/lsp_framework/src/concurrency.rs:171-182 | removes the entry and cancels its request |
| `RequestConcurrency.Concurrency.SignalDone` | crates/lsp_framework/src/concurrency.rs:33-39 | marks the request done |
| `NuEffects.DecodeEffects` | crates/invocation/src/nu.rs:424-585 | accepts exactly the values whose containers are well formed, whose leaves decode and whose leaf and node counts are within budget; the effects are the leaves in document order, within every limit, with no stop effect on the macro surface |
| `NuEffects.DecodeState.DecodeNode` | crates/invocation/src/nu.rs:467-488 | one visited value: success and new counters are those of its flattening, and the path is restored |
| `NuEffects.DecodeState.DecodeEnvelope` | crates/invocation/src/nu.rs:490-555 | an envelope adds its effects and then its warnings, if its version is supported |
| `NuEffects.DecodeState.TakeWarnings` | crates/invocation/src/nu.rs:534-552 | appends the eligible warnings up to the cap |
| `NuEffects.DecodeState.DecodeEffectList` | crates/invocation/src/nu.rs:557-585 | the loop absorbs the items one by one and fails exactly when the whole list must |
| `NuEffects.AbsorbJoin` | crates/invocation/src/nu.rs:557-585 | the effect of a joined value on counters, effects and capped warnings is the effect of its parts in order |
| `NuEffects.RecordFits` | crates/invocation/src/nu.rs:587-661 | every decoded effect is within the string, argument, count and delay limits, one-line where required, and stops only hooks |
| `NuEffects.DispatchFits` | crates/invocation/src/nu.rs:663-702 | so is every decoded invocation, with a count of at least one |
| `NuEffects.DecodeState.EffectRecord` | crates/invocation/src/nu.rs:587-661 | the record decoder with its field readers computes `DecodeRecord`, which `NuRecords.DecodesExactly` characterises, and restores the path on success |
| `NuRecords.DecodesExactly` | crates/invocation/src/nu.rs:587-700 | a record decodes to an effect if and only if its named fields say that effect, for all nine effects and all invocations, and everything read is within the budget |
| `NuRecords.EncodedDecodes` | crates/invocation/src/nu.rs:587-700 | every effect comes back from its own record if and only if it, its tags and its one-character fields are within the budget |
| `NuRecords.EnvelopeArrives` | crates/invocation/src/nu.rs:490-555 | effects in an envelope arrive with its warnings if and only if they are within the budget and the version is missing or 1 |
| `NuRecords.ListArrives` | crates/invocation/src/nu.rs:557-585 | so do effects in a list |
| `NuRecords.SingleArrives` | crates/invocation/src/nu.rs:465-488 | so does a single effect |
| `NuRecords.NothingArrives` | crates/invocation/src/nu.rs:465-488 | and nothing is no effects |
| `NuEffects.DecodeState.DispatchInvocation` | crates/invocation/src/nu.rs:663-702 | the same for the invocation of a dispatch |
| `NuEffects.DecodeState.ReadChar` | crates/invocation/src/nu.rs:788-814 | absent or nothing is none, otherwise exactly one character within the byte limit; the path is restored on success |
| `NuEffects.DecodeState.ReadTexts` | crates/invocation/src/nu.rs:816-852 | reads the argument list within both limits and restores the path on success |
| `NuEffects.DecodeState.CollectTexts` | crates/invocation/src/nu.rs:828-844 | the argument loop succeeds exactly when every item is a string within the limit, and returns them in order |
| `NuEffects.DecodeSingleDispatch` | crates/invocation/src/nu.rs:318-356 | accepts exactly the records that flatten to one dispatch within budget, and returns its invocation |
| `NuEffects.SplicedList` | crates/invocation/src/nu.rs:572-575 | nesting a list costs one node and changes nothing else |
| `InvocationSchema.ValidateTwice` | crates/invocation/src/schema.rs:107-135 | validation is idempotent |
| `InvocationSchema.CollectArgs` | crates/invocation/src/schema.rs:208-220 | the validator's argument loop accepts the same lists as the decoder's |
| `InvocationSchema.NormalAdmissible` | crates/invocation/src/schema.rs:107-135 | a validated record is the record of an invocation within the limits, with a name and a count of at least one |
| `InvocationSchema.NormalOfRecord` | crates/invocation/src/schema.rs:34-73 | the constructors produce records in normal form |
| `InvocationSchema.ValidatedDecodes` | crates/invocation/src/schema.rs:107-135 | a validated record, tagged as a dispatch, decodes to the invocation whose record it is, exactly when the limit leaves room for the tag |
| `InvocationSchema.DecodedValidates` | crates/invocation/src/nu.rs:663-702 | what the decoder dispatches the validator normalises to a record with the same decoding; for actions exactly when a count of one is allowed |
| `InvocationSchema.SameReading` | crates/invocation/src/schema.rs:146-221 | on the same fields validator and decoder read the same invocation, and the exact condition under which each accepts what the other does |
| `InvocationSchema.NegativeCountIsRaised` | crates/invocation/src/schema.rs:116-119 | every negative count is raised to one by the validator and refused by the decoder |
| `InvocationSpecs.SplitInvocationArgs` | crates/invocation_spec/src/lib.rs:99-168 | the character loop computes the recursive splitter, errors included, which `InvocationTokens.SplitExactly` characterises |
| `InvocationTokens.ReadWritten` | crates/invocation_spec/src/lib.rs:99-168 | whatever is written in blanks, bare and backslashed characters and quotes is read as it is meant, and what is left open is the error |
| `InvocationTokens.SplitExactly` | crates/invocation_spec/src/lib.rs:99-168 | every input is written so, and its tokens or its error follow, whatever whitespace surrounds it |
| `InvocationTokens.SpacedSplits` | crates/invocation_spec/src/lib.rs:110-116 | plain words separated by spaces come back as typed |
| `InvocationTokens.SingleQuotedSplits` | crates/invocation_spec/src/lib.rs:139-147 | single quotes keep everything but a single quote |
| `InvocationTokens.BackslashSplits` | crates/invocation_spec/src/lib.rs:149-154 | what a backslash outside quotes does with every character |
| `InvocationTokens.EscapeSplits` | crates/invocation_spec/src/lib.rs:117-137 | what a backslash inside double quotes does with every character |
| `InvocationTokens.PlainSpecs` | crates/invocation_spec/src/lib.rs:28-92 | specs of plain words under each of the four prefixes, and the names the last one refuses |
| `InvocationSpecs.SplitConcat` | crates/invocation_spec/src/lib.rs:99-168 | splitting two trimmed inputs joined by a space is splitting both |
| `InvocationSpecs.QuotedRoundTrip` | crates/invocation_spec/src/lib.rs:99-168 | any non-empty tokens, quoted and joined, split back to themselves |
| `InvocationSpecs.ParsedIsOk` | crates/invocation_spec/src/lib.rs:30-97 | a parsed spec has a known kind, a valid name and no empty token |
| `InvocationSpecs.SpecRoundTrip` | crates/invocation_spec/src/lib.rs:30-97 | every such spec, formatted, parses back to itself |
| `InvocationSpecs.ReformattedSpec` | crates/invocation_spec/src/lib.rs:30-97 | reformatting an accepted input does not change what it parses to |
| `LexicalPaths.NormalizeLexical` | crates/editor/src/paths.rs:44-82 | the component loop computes the fold and its rendering |
| `LexicalPaths.NormalForm` | crates/editor/src/paths.rs:44-82 | an absolute path stays absolute and a relative one relative; absolute results hold no parent step, relative ones climb first and then only descend, an empty one is the current directory |
| `LexicalPaths.MeaningKept` | crates/editor/src/paths.rs:44-82 | input and output resolve to the same place against any directories |
| `LexicalPaths.NormalizedTwice` | crates/editor/src/paths.rs:44-82 | normalisation is idempotent |
| `LexicalPaths.FormsAreCanonical` | crates/editor/src/paths.rs:44-82 | two paths have the same normal form if and only if they resolve alike against all directories |

## Left out

- Tree-sitter, ropes, regular expressions, JSON and the semaphore are foreign code: trees are ghost text, ropes are strings, message bodies are bytes.
- Plain `note_edit` carries no changeset and is not part of the document runs.
- Scoring of viewport trees (`syntax_for_viewport`, `covering_key`) and the viewport planners: lookups without state of their own.
- Cooldowns, debouncing, clocks and visit counts: timing, taken as free choices.
- A parse task that panics, whose lane stays occupied, and a wrap of task ids.
- Parser options of a tree: a completed parse with other options is simply refused.
- `close_now` when the lock is taken, and futures of `send` or `recv` that are dropped while waiting.
- Cancellation wake-up inside a response future, and the memory ordering of its flags.
- Cursor arithmetic at the 16-bit limit, wrapping at the right margin, and the attribute and colour tables of the terminal backend.
- Taking a path apart into components and joining it again, which the standard library does.
- SyntaxTasks.RunsAreSound: for runs of fewer than 2^64 steps, because the epoch wraps after that.
- Error texts, and the path left behind by a decode that fails.
- Transactions and selections built on changesets, `map_injections`, the highlighter, LSP lifecycle, registries, themes, notifications and I/O: mostly tables and delegation.

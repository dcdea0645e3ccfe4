# Command queue verification

A Dafny model of the durable command queue of inengine-core and proofs about it: the file driver
and the Redis driver, the claim and settle protocol above them, the retry policy, and the consumer
loops. Two small accounting cores are included, the plugin memory limiter and the stream buffer of
the Exec command.

`dafny verify dfyconfig.toml` checks the whole project.

## What is modelled

**The file driver as a concurrent protocol** (`Disk`, `FileProtocol`, `FileProtocolSafety`,
`FileProtocolClaims`, `FileProtocolListing`, `FileProtocolContents`, `FileProtocolClear`,
`FileProtocolStranded`, `FileProtocolSingle`, `FileAccounting`). Messages are files that move by
atomic renames between pending, in-progress, the hidden settling form of in-progress, and failed.
Every caller is a process with a program counter, every file operation is one step, any operation
may fail, a write may report an error after its file exists, and a process may stop between any two
steps. A directory listing is not atomic, so it is an arbitrary sequence of names.

**The file driver one call at a time** (`SortedNames`, `Directories`, `FileStoreEffects`,
`FileStore`, `FileStoreCopies`). Its loops over sorted listings refine three sequences, oldest
first. The order comes from names that sort in the order in which they were made (version 7 UUIDs,
sections 5.7 and 6.2 of RFC 9562) and from the invariant that claimed names are smaller than pending
ones. `SerialProtocol` and `SerialCalls` connect the two models of the driver: each call that
changes files, run alone, a publish and a settle with every combination of faults.

**The Redis driver** (`RedisLists`, `RedisDriver`, `RedisProtocol`, `RedisDeliveries`,
`RedisExclusivity`, `RedisClash`, `RedisAccounting`). List commands and scripts are atomic. The left
end of a list holds the newest element. `RedisProtocol` interleaves the commands of any number of
processes and lets any reply get lost.

**Both drivers** (`AbstractQueue`, `Conservation`, `QueueCalls`, `DriverEquivalence`, `FifoOrder`).
One abstract queue of three sequences, with one transition for each call of `Queue`. Both drivers
go through the same calls with the same replies.

**Attempts, settles and loops** (`RetryPolicy`, `RetryAccounting`, `QueueHandle`, `Consume`,
`Consumers`). A message's stored count over whole runs, the reports of a settle, `queue consume`,
and a server consumer with a cancel that fires at any time and a lane that others change.

**Accounting cores** (`PluginLimiter`, `StreamBuffer`, `Names`).

## Where the code and its documentation differ

The model follows the code.

- `SettleError::Interrupted` (delivery.rs:56-64) says that the message is still in progress. After a
  lost Redis reply it need not be, and after a late sync error of the file driver it is there beside
  its new copy (`FileStoreCopies.SettleCopies`).
- `Queue::release` (mod.rs:205-209) is said to take back the attempt that the claim counted. An
  interrupted release hands back the reduced envelope, so a repeated one takes back another attempt
  (`RetryPolicy.RepeatedRelease`).
- `attempts` (envelope.rs:31-34) is said to leave out attempts that the server interrupts or a crash
  stops. A failed attempt is not counted either if its settle reports an error and the stopping
  server gives it up (consumers.rs:256-267), so such failures are not bounded by the retries
  (`RetryAccounting.GivenUpFailuresGoOn`). After a late sync error of the file driver, the older
  copy does not count it (`FileStoreCopies.OlderCopyUndercounts`).
- The same field wraps to 0 in a release build at the largest count. A message with that many
  retries never reaches the failed stage (`Consume.FailingMessageEnds`). The command line allows at
  most 100 retries.
- A clear of the in-progress stage is said to make the consumer's settle fail with `Lost`
  (mod.rs:232-234), before which nothing was written (delivery.rs:49-52), and the settle to remove
  its new copy (store.rs:88). A settle that met a late sync error, or whose removal of the copy
  failed, reports an interruption and keeps the copy. Its repetition then reports the loss, with the
  cleared message pending or failed again (`FileProtocolStranded.ClearedMessageReturns`, and
  `FileProtocolStranded.LostLeavesStranded` for the exact condition).
- A crash inside a settle leaves two copies (store.rs:59-60). So does a late sync error, which that
  comment does not name.

## Model

| member | source | states |
|---|---|---|
| `FileProtocolSafety.NoMessageIsLost` | inengine-core/src/queue/driver/file/store.rs:44-118 | After any interleaving of publishes, claims, acknowledges, settles, recoveries, clears and republishes of any number of processes, with failed operations, late sync errors and stopped processes anywhere, every message that was published and neither acknowledged nor cleared has a file |
| `FileProtocolSafety.RunSafe` | inengine-core/src/queue/driver/file/store.rs:61-102 | The invariant behind it: every file is as it was born, no two processes write one name, a settle that still counts on its new copy can, and one that takes its copy back leaves the message another file |
| `FileProtocolSafety.SettledIsKept` | inengine-core/src/queue/driver/file/store.rs:75-86 | A settle that removes the old file leaves the message a younger file that no settle can take back |
| `FileProtocolSafety.UndoStepSafe` | inengine-core/src/queue/driver/file/store.rs:87-91 | Taking a new copy back keeps the invariant: no message and no other settle depended on that copy alone |
| `FileProtocolSafety.NamesStayUnique` | inengine-core/src/queue/driver/file/store.rs:104-118 | In every reachable state, concurrent recoveries included, a base name belongs to at most one file across the four directories |
| `FileProtocolSafety.NoFileIsReplaced` | inengine-core/src/queue/driver/file/store.rs:161-216 | No rename or write of any process replaces a file |
| `FileProtocolClaims.LiveExactlyWhen` | inengine-core/src/queue/driver/file/store.rs:44-53 | In every step, an id becomes live exactly when a message of it is published, and ends exactly when a file of it is acknowledged or cleared |
| `FileProtocolListing.ListingIsTried` | inengine-core/src/queue/driver/file/store.rs:104-199 | In every run, a claim, recovery, clear or republish that meets no failure leaves its listing only after it tried every name of it in order, whatever other processes do: each file was absent at its own step, or was moved where it goes; a claim that ends empty-handed found each file absent, or took it and found it gone or unreadable; the other way to leave is to hold the message it took last |
| `FileProtocolContents.MessageIsKept` | inengine-core/src/queue/driver/file/store.rs:44-102 | In every run, every file and every delivery carries the message from which its line of renames and copies began, with nothing but its attempts changed |
| `FileProtocolContents.DeliveryKept` | inengine-core/src/queue/driver/file/store.rs:173-199 | A delivery comes only from the read of a claimed file, with one attempt more, and keeps its envelope through every failure of its settle; only the start of a settle sets the attempts |
| `FileProtocolContents.FailureEnds` | inengine-core/src/queue/driver/file/store.rs:104-216 | A failed operation changes no file, and ends every call but a settle at once, except that a claim goes on after a file that it could not read or discard |
| `FileProtocolClaims.ClaimedOnceBetweenRecoveries` | inengine-core/src/queue/driver/file/store.rs:173-199 | Between two points of a run at which no recovery returned a name in between, that name is claimed at most once |
| `FileProtocolClaims.HoldersBoundedByRecoveries` | inengine-core/src/queue/mod.rs:211-223 | At most one more process holds a name than recoveries returned it |
| `FileProtocolClaims.SoleHolder` | inengine-core/src/queue/mod.rs:214-216 | If no recovery returned a file while a process held it, two processes that hold a name are the same process, whatever operations failed, whatever processes stopped and however often the name was recovered before |
| `FileProtocolClaims.ApartExactlyWhenCareful` | inengine-core/src/queue/mod.rs:214-216 | Over any run, each name is claimed by one process and not pending meanwhile, at every point, if and only if no recovery returned a file while a process held it |
| `FileProtocolClaims.SharedByOneClaim` | inengine-core/src/queue/driver/file/store.rs:173-177 | From any state, one more claim can leave two processes with one name if and only if the claims were not apart |
| `FileProtocolClaims.AtMostOneEnding` | inengine-core/src/queue/driver/file/store.rs:51-102 | At most one acknowledge, settle or clear of a name reports success, whatever recoveries run beside them; a settle that could not remove its old file is the one exception, and is counted apart |
| `FileProtocolClear.ClearBeatsSettle` | inengine-core/src/queue/driver/file/store.rs:85-101 | Once a clear removed the file of a delivery, at any point of its settle, no step of the holder reports success, with one exception that the code reports as success too: a removal of the settling file that fails with an error other than its absence |
| `FileProtocolClear.ClearedSettleEnds` | inengine-core/src/queue/mod.rs:232-234 | Such a holder, unless it crashes or its last removal fails, goes on or reports the message lost; what it may leave behind is the next three rows |
| `FileProtocolStranded.LostLeavesStranded` | inengine-core/src/queue/driver/file/store.rs:74-91 | When a delivery ends with its message reported lost, the copies of its settles that no other operation took up are still there if and only if their settle met a late sync error or a failed undo, whatever other processes did |
| `FileProtocolStranded.CopySurvives` | inengine-core/src/queue/driver/file/store.rs:85-91 | The step of a cleared delivery with a written copy gives the copy up and leaves it on disk if and only if the step fails or the process stops |
| `FileProtocolStranded.ClearedMessageReturns` | inengine-core/src/queue/driver/file/store.rs:75-83 | The failing run: a clear removes the old file after the write, the directory sync fails, the repeated settle reports the loss, and the cleared message is pending again |
| `FileProtocolClear.LostCopyIsGone` | inengine-core/src/queue/driver/file/store.rs:87-91 | A settle that reports the message lost after its write removes the path of its new copy in that step, and the copy was there unless another operation claimed, renamed or cleared it in between |
| `FileProtocolClear.ClearedSettleAlone` | inengine-core/src/queue/driver/file/store.rs:128-141 | A settle of a cleared message that runs alone from its write on reports the message lost and leaves all files as they were |
| `FileProtocolSingle.NoMessageIsDoubled` | inengine-core/src/queue/driver/file/store.rs:55-102 | While no settle stops between the write of its copy and the removal of its old file, and no recovery or clear takes a file beside its delivery, a message is live if and only if it has a file besides the old files of such settles, and it has exactly one |
| `FileProtocolSingle.SingleStep` | inengine-core/src/queue/driver/file/store.rs:84-86 | Every such step keeps this: claims and settles of other processes included, and an old file is replaced by its copy at the write |
| `FileProtocolSingle.DoubledExactlyWhen` | inengine-core/src/queue/driver/file/store.rs:57-60 | A step gives a message a second current file if and only if the message is live and the step stops its settle between the write and the removal, returns its replaced file, or publishes its id again |
| `SerialProtocol.SettleAlone` | inengine-core/src/queue/driver/file/store.rs:61-102 | A settle that runs alone in the concurrent protocol leaves exactly the files of the serial store's settle, for every combination of faults, and keeps its delivery exactly when the store reports an interruption |
| `SerialProtocol.RecoverAlone` | inengine-core/src/queue/driver/file/store.rs:104-118 | A recovery that runs alone in the concurrent protocol puts every in-progress and settling file back into pending, as the store's recovery does, so each can be claimed again |
| `SerialProtocol.SameOp` | inengine-core/src/queue/driver/file/dir.rs:96-110 | Every atomic file operation does the same to the protocol's files and to the store's directories |
| `SerialCalls.PublishAlone` | inengine-core/src/queue/driver/file/store.rs:44-48 | A publish that runs alone in the concurrent protocol writes the file of the serial store for every fault of its write |
| `SerialCalls.AcknowledgeAlone` | inengine-core/src/queue/driver/file/store.rs:50-53 | An acknowledge that runs alone takes away the in-progress file if it is there, and no other, and reports success exactly then |
| `SerialCalls.ClaimAlone` | inengine-core/src/queue/driver/file/store.rs:173-216 | A claim that runs alone shows the claim of the abstract queue, malformed elements included, and its process then holds exactly the file of the message it claimed |
| `SerialCalls.ClearAlone` | inengine-core/src/queue/driver/file/store.rs:128-141 | A clear that runs alone leaves the directories of the serial store's clear, settling files included |
| `SerialCalls.RepublishAlone` | inengine-core/src/queue/driver/file/store.rs:161-170 | A republish that runs alone shows the republish of the abstract queue |
| `FileStore.FileStore.Publish` | inengine-core/src/queue/driver/file/store.rs:44-48 | A publish appends to pending and keeps the order invariant; it reports an error for each fault, but after a late sync error the message is published all the same |
| `FileStore.FileStore.ClaimOldest` | inengine-core/src/queue/driver/file/store.rs:173-199 | The claim of the abstract queue: the oldest message, with the unreadable ones before it moved to failed in order |
| `FileStore.FileStore.Discard` | inengine-core/src/queue/driver/file/store.rs:201-216 | An unreadable message goes from the front of pending to the end of failed |
| `FileStore.FileStore.Acknowledge` | inengine-core/src/queue/driver/file/store.rs:50-53 | Succeeds exactly when the in-progress name is there, and takes out that one element |
| `FileStore.FileStore.MoveClaimed` | inengine-core/src/queue/driver/file/store.rs:61-102 | With its faults given: lost and unchanged if neither name is there; otherwise the new copy replaces the claimed element, or stands beside it, or nothing changed, and the report says which can be |
| `FileStoreEffects.RestoredEffect` | inengine-core/src/queue/driver/file/store.rs:76-82 | The way back from the settling name does not show in the queue, whether it succeeds or fails |
| `FileStore.FileStore.Recover` | inengine-core/src/queue/driver/file/store.rs:104-118 | Pending becomes in-progress, oldest claim first, followed by pending; settling files included; the count is exact |
| `FileStore.FileStore.Clear` | inengine-core/src/queue/driver/file/store.rs:128-141 | Empties exactly one stage, settling files included, and counts what it removed |
| `FileStore.FileStore.RemoveAll` | inengine-core/src/queue/driver/file/dir.rs:86-94 | Removes every file of a listing and counts it once |
| `FileStore.FileStore.Lengths` | inengine-core/src/queue/driver/file/store.rs:120-126 | Counts each in-progress message once, under either of its names |
| `FileStore.FileStore.Peek` | inengine-core/src/queue/driver/file/store.rs:143-159 | Reads positions first to last of a stage, oldest first, up to the saturating count |
| `FileStore.FileStore.RepublishFailed` | inengine-core/src/queue/driver/file/store.rs:161-170 | Moves the oldest failed messages, up to the limit, to the end of pending in order; the count is what left failed, and is below the limit only if nothing is left there |
| `FileStoreEffects.WriteEffect` | inengine-core/src/queue/driver/file/dir.rs:50-63 | A file written under a new, largest name appends to its stage and keeps the order invariant |
| `FileStoreEffects.SettleEffect` | inengine-core/src/queue/driver/file/store.rs:61-102 | Every outcome of a settle, a stop inside it included, keeps the order invariant and shows the queue that its faults give |
| `FileStoreEffects.RecoverOrdered` | inengine-core/src/queue/driver/file/store.rs:104-118 | In-progress and settling names are smaller than all pending ones, so returning them under their own names puts them in front |
| `FileStoreCopies.SettleCopies` | inengine-core/src/queue/driver/file/store.rs:57-60 | A settle adds one copy of its message exactly when its new copy is written and a late sync error follows or the settling file stays; it never leaves fewer copies |
| `FileStoreCopies.OlderCopyUndercounts` | inengine-core/src/queue/driver/file/store.rs:72-101 | A retry or move to failed that is repeated while it reports errors adds one copy with the counted attempt for each write that did not fail early; the claimed file, which lacks the attempt, goes on beside them exactly when the last settle met a fault |
| `FileAccounting.FileCountsItsLine` | inengine-core/src/queue/envelope.rs:31-34 | Over any run of the concurrent protocol without a repeated release, late sync errors and crashes included, each file counts the attempts that its line of copies began with and one for each retry and move to failed that wrote a file of the line |
| `Directories.ClaimShows` | inengine-core/src/queue/driver/file/store.rs:173-177 | A claim of the oldest pending file appends it to the in-progress stage |
| `Directories.RehomeShows` | inengine-core/src/queue/driver/file/dir.rs:10-13 | A file that moves under a new name goes to the end of its stage |
| `SortedNames.ContentsUnion` | inengine-core/src/queue/driver/file/dir.rs:15-32 | Directories whose names are all smaller come first in the sorted contents |
| `RedisDriver.RedisServer.MoveIfPresent` | inengine-core/src/queue/driver/redis/scripts.rs:3-13 | The script moves one equal element or changes nothing |
| `RedisDriver.RedisServer.BulkMove` | inengine-core/src/queue/driver/redis/scripts.rs:15-28 | The script moves exactly the smaller of its limit and the source length, one after the other |
| `RedisDriver.RedisDriver.Publish` | inengine-core/src/queue/driver/redis/mod.rs:57-65 | A push on the left is an append to pending |
| `RedisDriver.RedisDriver.Dequeue` | inengine-core/src/queue/driver/redis/mod.rs:67-86 | The claim of the abstract queue, malformed elements included |
| `RedisDriver.RedisDriver.Acknowledge` | inengine-core/src/queue/driver/redis/mod.rs:88-97 | Removes the element if it is in progress, and says whether it was |
| `RedisDriver.RedisDriver.MoveClaimed` | inengine-core/src/queue/driver/redis/mod.rs:99-109 | The settle of the abstract queue |
| `RedisDriver.RedisDriver.Recover` | inengine-core/src/queue/driver/redis/mod.rs:111-120 | Puts in-progress in front of pending, oldest claim first |
| `RedisDriver.RedisDriver.RepublishFailed` | inengine-core/src/queue/driver/redis/mod.rs:170-173 | Appends the oldest failed elements to pending in order; the count is what left failed, and is below the limit only if nothing is left there |
| `RedisDriver.RedisDriver.BulkMove` | inengine-core/src/queue/driver/redis/mod.rs:210-236 | Without interference, batches of any size are one move of the limit; with any interference between batches it ends, keeps the limit and stops early only with the source empty |
| `RedisDriver.RedisDriver.Clear` | inengine-core/src/queue/driver/redis/mod.rs:136-145 | Empties one stage and returns its length |
| `RedisDriver.RedisDriver.Peek` | inengine-core/src/queue/driver/redis/mod.rs:147-168 | Reads positions first to last, oldest first, where the index clamp does not show |
| `RedisDriver.RedisDriver.Lengths` | inengine-core/src/queue/driver/redis/mod.rs:122-134 | The three lengths |
| `RedisLists.RecoverMoves` | inengine-core/src/queue/driver/redis/mod.rs:111-120 | Moves from the left end of in-progress to the right end of pending give in-progress followed by pending |
| `RedisLists.RepublishMoves` | inengine-core/src/queue/driver/redis/mod.rs:170-173 | Moves from the right end of failed to the left end of pending append the oldest in order |
| `RedisLists.MovesAdd` | inengine-core/src/queue/driver/redis/mod.rs:219-235 | A moves and then b moves are a + b moves |
| `RedisLists.RemoveFirstShows` | inengine-core/src/queue/driver/redis/mod.rs:89-97 | Removing the first equal element from the left removes the newest one |
| `RedisLists.PeekClamped` | inengine-core/src/queue/driver/redis/mod.rs:154-168 | LRANGE from the right end, reversed, gives the clamped positions of the oldest-first view, for every list and range |
| `RedisLists.PeekExactlyWhen` | inengine-core/src/queue/driver/redis/mod.rs:154-156 | The clamp agrees with the unclamped range if and only if the range or the list stays within it, or the list is one longer |
| `RedisProtocol.RedisConserves` | inengine-core/src/queue/driver/redis/mod.rs:238-252 | In every interleaving of server commands, with any reply lost and any settle repeated, each id that was published and neither acknowledged nor cleared is in the three lists exactly once, and no other id is |
| `RedisDeliveries.HoldsExactlyWhen` | inengine-core/src/queue/driver/redis/mod.rs:67-109 | In any run, a process holds a delivery if and only if it claimed a message, got no answer to a settle since and did not stop; it is the element that was oldest at that claim, with one attempt more, less one for each release since |
| `RedisDeliveries.HoldingAfter` | inengine-core/src/queue/mod.rs:283-304 | One action: an answered settle uses the delivery up, an unanswered one keeps it, and a release has then taken an attempt back |
| `RedisDeliveries.DiscardingAfter` | inengine-core/src/queue/driver/redis/mod.rs:76-86 | A process has an unreadable element in hand exactly from the claim that took it until it discards it, answered or not, or stops |
| `RedisExclusivity.ClaimCanBeStolen` | inengine-core/src/queue/mod.rs:205-209 | For every message whose count has room: a release whose reply is lost is repeated, takes the claim of another consumer out of progress and stores an attempt less |
| `RedisClash.NoClashExactlyWhen` | inengine-core/src/queue/driver/redis/mod.rs:67-120 | In any run, with any replies lost, any settle repeated and any recovery or republish beside a delivery: at no point can claims alone make two processes hold one element, if and only if no action put an element into pending that some process then held |
| `RedisClash.ClashAfter` | inengine-core/src/queue/driver/redis/mod.rs:67-120 | The same for one action from any state in which held elements are distinct and not pending |
| `RedisClash.ClashExactlyWhen` | inengine-core/src/queue/driver/redis/mod.rs:67-86 | Claims alone can make two processes hold one element if and only if two do already or a held element is pending, whatever is pending before it |
| `RedisClash.SettleRestores` | inengine-core/src/queue/mod.rs:194-209 | A settle puts a held element into pending if and only if it is a retry or a release that the server applies, and the bytes it stores are those of an element still held |
| `RedisClash.BatchRestores` | inengine-core/src/queue/driver/redis/mod.rs:111-120 | A batch of a recovery or a republish does so if and only if it takes a held element out of its source |
| `RedisClash.CalmReleaseRestores` | inengine-core/src/queue/mod.rs:205-209 | A release in a calm state does so if and only if it is applied and its reply is lost |
| `RedisClash.StaleRetryTakesClaim` | inengine-core/src/queue/mod.rs:194-209 | A run without such a release: a retry whose reply is lost, and a repeated release of the next holder, bring the old bytes back, and the repeated retry takes the claim of a third process |
| `RedisClash.ClaimsSeparate` | inengine-core/src/queue/driver/redis/mod.rs:67-86 | Claims alone, with any replies lost, never hand out a held element: held elements stay distinct and none of them is pending |
| `RedisExclusivity.CalmRunExclusive` | inengine-core/src/queue/mod.rs:295-304 | Without a failed release, a recovery beside a delivery and a wrapped count, every held message is in progress as claimed, or stored with a larger count, or gone |
| `RedisExclusivity.HoldersHaveOwnElements` | inengine-core/src/queue/driver/redis/mod.rs:99-109 | In such runs no two processes hold the same bytes, so no settle finds another's claim |
| `RedisAccounting.AppliedSettlesCount` | inengine-core/src/queue/envelope.rs:31-34 | In calm Redis runs, a stored message counts the attempts it was published with and one for each retry and move to failed that the server applied, whatever replies are lost and however often a settle is repeated |
| `DriverEquivalence.SameReplies` | inengine-core/src/queue/mod.rs:134-266 | Any sequence of calls over distinct ids, malformed elements included, gets the same replies from both drivers, namely those of the abstract queue |
| `DriverEquivalence.DriverPair.Perform` | inengine-core/src/queue/mod.rs:157-281 | Each call keeps both drivers on the same abstract queue and every delivery in progress on both or on neither |
| `DriverEquivalence.TakenIsNewest` | inengine-core/src/queue/driver/redis/mod.rs:89-97 | With distinct ids, taking out a claimed file and removing the newest equal element are the same |
| `DriverEquivalence.StaleReceiptsDiffer` | inengine-core/src/queue/mod.rs:214-216 | Two holders of one message after a recovery, against the documentation: the second settle of the file driver finds nothing, and that of Redis finds another's claim if and only if the first settle was a release of a count that did not wrap |
| `QueueCalls.IdsStep` | inengine-core/src/queue/mod.rs:157-266 | Every call keeps each id stored at most once and every held message in progress or gone |
| `QueueCalls.CountsLeaving` | inengine-core/src/queue/mod.rs:211-266 | The count that a recovery, a republish or a clear answers is the number of elements that left its stage |
| `QueueCalls.RepliesTell` | inengine-core/src/queue/mod.rs:179-254 | A settle is done exactly if its element is in progress, and uses the delivery up either way; a peek reads exactly the elements at its positions and a reversed range nothing; reads change nothing |
| `AbstractQueue.ClaimSplit` | inengine-core/src/queue/mod.rs:157-177 | A claim takes the oldest message, after it moved the malformed elements before it to the end of failed, in order |
| `AbstractQueue.RepublishCounts` | inengine-core/src/queue/driver/file/store.rs:161-170 | A republish takes the oldest part of failed, in order, to the end of pending, counts it, and stops below its limit only with failed empty |
| `AbstractQueue.WindowShows` | inengine-core/src/queue/mod.rs:242-254 | A peek reads exactly the elements at the positions first to last, in order |
| `FifoOrder.FirstInFirstOut` | inengine-core/src/queue/mod.rs:157-177 | Over any calls that put nothing back, what was handed out, followed by what is pending, is what was published, in order |
| `Conservation.MoveClaimedCount` | inengine-core/src/queue/mod.rs:268-281 | A settle that moves a message keeps the number of its copies |
| `Conservation.ClaimCount` | inengine-core/src/queue/mod.rs:166-177 | A claim keeps the number of copies of every message |
| `Messages.AttemptsWrap` | inengine-core/src/queue/mod.rs:166-209 | A claim counts an attempt modulo 2^32, a release takes one back down to 0, and neither changes anything else |
| `RetryPolicy.RepeatedRelease` | inengine-core/src/queue/mod.rs:205-209 | A claim, k interrupted releases and a completed one store k attempts less than before the claim, and not less than 0 |
| `RetryPolicy.ReleaseUndoesClaim` | inengine-core/src/queue/mod.rs:205-209 | A release undoes the count of the claim if and only if the count did not wrap |
| `RetryAccounting.AttemptsCountFailures` | inengine-core/src/queue/envelope.rs:31-34 | Over any run, the stored attempts of a message are its attempts that ended CommandFailed or Unrunnable, on top of the published count, less those that no settle stored and at most one for each interrupted release; without such a release they are all its failed attempts if and only if none was given up and none waits for a repeated settle |
| `RetryAccounting.LedgerStep` | inengine-core/src/queue/delivery.rs:114-156 | What one action adds to each count that the rows around this one speak of, told by the action and the delivery alone |
| `RetryAccounting.UnsuccessfulAttemptsBounded` | inengine-core/src/queue/delivery.rs:114-123 | A message ends at most max_retries + 1 + republishes attempts without success, and one more for each interrupted release and for each failed attempt that no settle stored |
| `RetryAccounting.GivenUpFailuresGoOn` | inengine-core/src/server/consumers.rs:256-267 | The last term is needed: for every n, some run fails n attempts of a message and leaves it pending as it was published, since each settle is interrupted and given up before a recovery |
| `RetryAccounting.SettlesByCount` | inengine-core/src/queue/envelope.rs:97-99 | A failed run sends its message to failed exactly when it is the (max_retries + 1)-th stored one or later, with its failures that are stored as the count; an unrunnable one at once; a released one back with its old count |
| `QueueHandle.Handle.Acknowledge` | inengine-core/src/queue/mod.rs:179-192 | Reports success, Lost, Rejected or Interrupted, with the lane that goes with each |
| `QueueHandle.Handle.Release` | inengine-core/src/queue/mod.rs:205-209 | Subtracts the attempt before anything else, so an error hands the reduced envelope back |
| `QueueHandle.Handle.Settle` | inengine-core/src/queue/delivery.rs:136-156 | Settles by the policy table |
| `QueueHandle.SettleReports` | inengine-core/src/queue/mod.rs:283-304 | When each report is given: rejected exactly for another lane or driver, lost exactly if the element is not in progress, success exactly if it is; which of them hand the delivery back and with what envelope; and that an error before the change leaves the lane as it was |
| `QueueHandle.SettleNewest` | inengine-core/src/queue/processing.rs:54-67 | A settle right after its claim finds its element and leaves the other in-progress messages alone |
| `Consume.Run` | inengine-core/src/queue_admin/messaging.rs:134-191 | A run within its limit: iterations are the sum of the tally, nothing is released, the acknowledged messages are exactly those whose command was built and succeeded, in order, and it completes exactly when every iteration did; without failures, a message that cannot be built is in failed, messages and copies are conserved, in-progress is unchanged, the work falls with each iteration, and it stops at the limit or with nothing pending |
| `Consume.HandledBy` | inengine-core/src/queue/processing.rs:67-90 | One iteration settles a message by an acknowledge exactly if its command was built and succeeded, by a retry exactly if the command failed with retries left, and by a move to failed otherwise |
| `Consume.RunUntilEmpty` | inengine-core/src/queue_admin/messaging.rs:83-85 | With no effective limit the loop ends with nothing pending within the sum of max(1, max_retries + 1 - attempts), with each message acknowledged or failed, completes exactly when every command succeeded, and takes exactly the sum if every command fails |
| `Consume.TurnEffect` | inengine-core/src/queue/processing.rs:80-90 | What one processed message does to the sums over the lane |
| `Consume.RetryLeavesLess` | inengine-core/src/queue/delivery.rs:114-122 | A retry leaves exactly one claim less |
| `Consume.FailingMessageEnds` | inengine-core/src/queue/envelope.rs:97-99 | A message that always fails reaches the failed stage if and only if max_retries is below the largest count |
| `Consumers.Consumer.Run` | inengine-core/src/server/consumers.rs:177-198 | Beside any changes that others make to the lane, a consumer waits and claims until the cancel, sleeps after a failed claim, ends only after the cancel, and has at most one message that is over after it; if the others leave in-progress alone, it leaves nothing there but a last message that it gave up |
| `Consumers.Consumer.Process` | inengine-core/src/server/consumers.rs:200-231 | One record: a message whose check came after the cancel is released unrun, every other one is judged by its command, succeeded exactly if it was built and returned Ok, interrupted exactly if it stopped after the cancel; with the time of every settle and what the last one found in progress and made of it |
| `Consumers.Consumer.Attempt` | inengine-core/src/queue/processing.rs:54-90 | A command runs only if the check came before the cancel, and the attempt is what the registry, the command and the cancel make of it |
| `Consumers.Consumer.SettleUntilDone` | inengine-core/src/server/consumers.rs:233-276 | Settles again exactly after a fault; an interrupted message is given up exactly after a fourth fault, any other one exactly when the cancel cuts the sleep after a fault short; done means that its own element was in progress and was settled, lost that it was not there; an interrupted message is sent with one attempt less each time |
| `Consumers.Consumer.SleepOrCancel` | inengine-core/src/server/consumers.rs:161-167 | Says cancelled exactly if the cancel fired before the sleep or ended it |
| `Consumers.SettlePursues` | inengine-core/src/queue/mod.rs:268-304 | A repeated settle of the own delivery ends with the message out of progress or hands the same delivery back |
| `PluginLimiter.PluginLimiter.MemoryGrowing` | inengine-core/src/plugin/limiter.rs:41-63 | Refused exactly above the maximum, and otherwise granted exactly if the saturating total stays within the limit, so a growth to the maximum or to the limit is granted |
| `PluginLimiter.TotalCounts` | inengine-core/src/plugin/limiter.rs:50-53 | The total after a growth is exact up to the largest usize |
| `PluginLimiter.PluginLimiter.MemoryGrowFailed` | inengine-core/src/plugin/limiter.rs:65-69 | Returns the last growth once, without underflow in any sequence of calls |
| `PluginLimiter.PluginLimiter.TableGrowing` | inengine-core/src/plugin/limiter.rs:71-89 | Grants table growth within the element limit |
| `PluginLimiter.Store.Serve` | inengine-core/src/plugin/limiter.rs:40-89 | Each request gets what the true sizes say, failed growths included |
| `PluginLimiter.ServeAll` | inengine-core/src/plugin/limiter.rs:19-27 | Over any requests the counted bytes are the sum of all memories |
| `PluginLimiter.BudgetKept` | inengine-core/src/plugin/limiter.rs:5-8 | The memories stay within the limit, and the tables, with what failed growths leaked, within theirs |
| `PluginLimiter.FailedGrowth` | inengine-core/src/plugin/limiter.rs:65-69 | If the host cannot grow, every size stays; a failed memory growth costs nothing, and a failed table growth what was allowed |
| `PluginLimiter.LargestLimitLosesCount` | inengine-core/src/plugin/limiter.rs:50-53 | With the largest possible limit the saturated total hides a second memory |
| `StreamBuffer.StreamBuffer.Push` | inengine-core/src/commands/exec/pipe.rs:64-75 | The buffer is the summary of all bytes pushed before the take, however they were cut |
| `StreamBuffer.StreamBuffer.Take` | inengine-core/src/commands/exec/pipe.rs:77-84 | Returns the summary of the bytes so far, and nothing is kept after it |
| `StreamBuffer.PushSummary` | inengine-core/src/commands/exec/pipe.rs:64-75 | Pushing onto the summary of a stream gives the summary of the longer stream |
| `StreamBuffer.SummaryCovers` | inengine-core/src/commands/exec/pipe.rs:9-15 | Head, dropped bytes and tail make up the stream; the head is filled first, bytes are dropped only with both full, and nothing is dropped exactly when the stream fits |
| `StreamBuffer.ReadPipe` | inengine-core/src/commands/exec/pipe.rs:94-140 | A take after any number of reads summarises what was delivered by then, and the reader finishes exactly at an end of the pipe before any error |
| `StreamBuffer.InterruptedReadIgnored` | inengine-core/src/commands/exec/pipe.rs:103-111 | An interrupted read changes neither what is delivered nor whether the pipe comes to its end |
| `StreamBuffer.DeliveredFirst` | inengine-core/src/commands/exec/pipe.rs:103-111 | What each kind of read delivers, and which of them end the reading |
| `StreamBuffer.TextOfSummary` | inengine-core/src/commands/exec/pipe.rs:17-34 | A stream that fits is decoded whole; a longer one names the dropped bytes on a line of their own |
| `StreamBuffer.DecimalIsValue` | inengine-core/src/commands/exec/pipe.rs:30 | The number of dropped bytes is written with its decimal digits and no leading zero |
| `Names.StripUndoesHide` | inengine-core/src/queue/driver/file/dir.rs:112-127 | Stripping finds exactly the hidden forms of nonempty names |
| `Names.SuffixesApart` | inengine-core/src/queue/driver/file/dir.rs:7-8 | No name parses both as temporary and as settling |
| `Names.ListMessages` | inengine-core/src/queue/driver/file/dir.rs:15-32 | Lists exactly the visible files, each once, in the order of their names |
| `Names.LessExactlyWhen` | inengine-core/src/queue/driver/file/dir.rs:30 | A name comes before another if and only if it has the smaller character where they first differ, or the other begins with it |
| `Names.UnfinishedSettles` | inengine-core/src/queue/driver/file/dir.rs:34-44 | Lists exactly the base names with a settling file, each once, in order |
| `Names.ListBoth` | inengine-core/src/queue/driver/file/dir.rs:15-48 | On a directory of message, settling and temporary files, the two sorted listings are exactly the first two, so no message is missed or counted twice |

## Left out

- The real file system: fsync and power loss, permissions, and the removal of stale temporary files
  by their age. Temporary files are invisible to every listing, and `Names.ListBoth` says why.
- Redis networking, timeouts, blocking waits and reconnects: a command is applied or not, and its
  reply arrives or not.
- JSON, gzip, base64 and the generation of UUIDs: parsing undoes printing, equal elements have equal
  bytes, and new names are new and increasing within one lane.
- A serialization error of a settle after its rename to the settling name (store.rs:72): envelopes
  always serialize.
- File names that are not UTF-8, and files that another program adds to pending under a name that
  does not sort last.
- tokio scheduling, the blocking pool and real sleeps: time is a counter, and the cancel a moment on
  it.
- The opening of a queue and `recover_on_start`: a consumer starts with an open queue. Other
  consumers and other processes are changes of its lane, and processes in the two protocols.
- The Exec process itself, the WebAssembly engine, the cron scheduler, the command lifecycle, the
  command line, configuration, logging and output: input and output, foreign calls or short case
  splits.
- DriverEquivalence.SameReplies: publishes no id twice, because Redis finds elements by their bytes,
  drops held deliveries at a recovery, as the documentation asks (`StaleReceiptsDiffer` shows why),
  meets no faults, and makes at most 2^63 - 2 calls, so that the index clamp of the Redis peek does
  not show (`PeekExactlyWhen` states when it does).
- FileProtocolSingle.NoMessageIsDoubled: leaves out settles that stop or fail between their write
  and their removal, which `FileStoreCopies.SettleCopies` counts, and recoveries and clears beside a
  delivery of the same file. `DoubledExactlyWhen` says which of these leave two files.
- FileStore.FileStore.Peek: the file driver's saturating count is the exact range only while a stage
  has at most 2^64 - 1 files.
- RetryAccounting.AttemptsCountFailures: a settle completes or fails before it changes the lane. A
  settle that is applied and still reports an error is in `RedisAccounting.AppliedSettlesCount` and
  `FileAccounting.FileCountsItsLine`. A claim that would wrap the count is excluded.
- Consumers.Consumer.Run: only if the others leave in-progress alone, and bring no message with an
  id that was in progress before, does it say what stays in progress in the end. A claim that
  reports an error has claimed nothing by itself: what a lost reply of a Redis claim does is one of
  the changes by others.
- RedisExclusivity.CalmRunExclusive: leaves out releases that report an error, recoveries beside a
  delivery, against their documentation, and claims that wrap the count. For every run,
  `RedisClash.NoClashExactlyWhen` says which actions let two processes hold one element.
- RedisAccounting.AppliedSettlesCount: is about calm runs. A release that reports an error may take
  an attempt back more than once, as `RetryPolicy.RepeatedRelease` says.
- FileAccounting.FileCountsItsLine: is about runs without a repeated release, for the same reason,
  and without a claim that wraps the count.
- StreamBuffer.StreamBuffer.Push: the 64-bit counter of dropped bytes is a natural number, since
  2^64 dropped bytes would be needed to wrap it.
- PluginLimiter.ServeAll: needs a limit below the largest usize. Configured limits are whole MiB, so
  they always are; `LargestLimitLosesCount` shows that the bound is needed. A failed growth is
  reported directly after its approval.
- StreamBuffer.TextOfSummary: the conversion to text is a parameter, so the replacement of invalid
  UTF-8 is not modelled.

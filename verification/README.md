# A verified model of NKR

NKR runs Odoo instances in micro-VMs. Instances live in cells; each cell has a compose file, a
directory of instances, a PostgreSQL server and a range of addresses. This project models the parts
of NKR whose correctness does not show in a single function body, and proves what holds over whole
runs, for all inputs.

`dafny verify dfyconfig.toml` checks everything.

## What is modelled

**Virtqueue devices** (`Block`, `Console`, `Balloon`, `NetTx`, `*Runs` beside each, `BlockBounds`,
`BlockProgress`, `NetTxFrames`, `ConsoleMemory`). A device is a class whose methods change its fields
step by step; each method equals a function of the old state, and the modules beside it prove what
every run keeps and what comes of it in the end: whatever the guest offers, in whatever order io_uring
completes, and across resets. What is read, written and returned is stated in terms of the chains
themselves, with the constants of the format written out. A queue is the sequence of offers, a cursor, and the used ring
(section 2.7 of VIRTIO 1.2). Guest memory appears as what a read at a descriptor's address gives.

**Id allocation across processes** (`Registry`, `RegistryProtocol`, `CellLock`). Locking, loading,
allocating, writing and renaming are separate steps of any number of processes, which may crash or
fail to save. The instance registry is linearizable. The cell registry locks the file it renames
over: two processes are the exact bound up to which it stays right.

**The compose file** (`Compose`, `ComposeEdits`, `ComposePatch`, `ComposeClone`, `ComposeNames`,
`ComposeRoundTrip`, `ComposeEnv`). Blocks are found, removed, flipped, patched and cloned line by
line. What cannot be affected is proved unaffected, and clone and removal are proved inverse.
What a line says is the business of a reader of its own (`ComposeValues`): the text after a key up to a
comment, and the number its digits stand for. In its terms a cloned block is described
(`ComposeContent`, `ComposeLines`, `ComposeCounts`, `ComposeSections`, `ComposeWaits`,
`ComposeShares`): its id, its resources, its variables, its shares, and every other line.

**odoo.conf** (`Conf`, `ConfReader`, `ConfRoundTrip`, `ConfText`). The editor of one part of the program and the
reader of another agree on what was written.

**Cloning and deleting an instance** (`CloneInstance`, `CloneRollback`, `CloneContent`, `Renaming`).
Eight steps on registry, directories, data files, databases and compose file, any of which may fail,
with the rollback by `CloneScratch`; and what a clone that succeeds contains.

**Placement** (`Placement`). The cell and the source of a new instance, the cell it lands in, and the
rules on projects, capacity and environments over runs of create, adopt and delete.

**Readers** (`Lines`, `LogReaders`, `HttpReader`, `HttpLength`) of logs and requests in chunks, and the **seccomp
filter generator** (`Seccomp`) against an interpreter of its instructions.

`Wrappers`, `Text` and `Virtio` hold what the others share.

## Where the code differs from what it says

- A chain whose push on the submission queue fails is lost: the comment at src/block.rs:275 speaks of
  a synchronous fallback (`BlockRuns.LostForever`). Without resets this can happen exactly to queues
  larger than 128 (`BlockBounds.LossBound`). A chain popped when the cap is reached would be lost
  too, but with a driver that re-offers only returned heads the cap is unreachable.
- Packets can overtake each other: when a batch fills the submission queue, the next packet is written
  at once, before those that are queued (`NetTxRuns.Overtaking`).
- A completed block request is reported as successful whatever the kernel's result is
  (src/block.rs:309), so nothing is claimed about the status of I/O.
- A console reset (src/vmm.rs:2953-2960) leaves the cursor of the receive queue as it was: the next
  driver is served exactly if the cursor was 0 (`ConsoleRuns.ServesAfterReset`). The wrapping cursor
  is right only for queue sizes that divide 65536 (`Console.WrappedSlotExact`).
- `CellRegistryLock` does not exclude (`CellLock.WaiterAndNewcomer`); two processes at a time are safe.
- The comment at src/cell.rs:849-857 says that no injected variable is set twice in a clone. A blank
  line inside the environment section of the source ends it for the copy, and a variable after it
  is set twice (`ComposeEnv.BlankLineKeepsOld`).
- A clone whose service name is `skip_warmup` or `disabled`, or the name of an overridden resource,
  loses its header (`ComposeRoundTrip.HeaderIsLost`), and flipping a service called `disabled`
  overwrites its header (`ComposeEdits.FlipDestroysItsHeader`).
- The editor and the reader of odoo.conf recognise sections and keys differently
  (`ConfRoundTrip.StrayHidesValue`).
- The comment at src/cell.rs:1360-1363 takes the registry entry of a clone for new; a stale entry is
  removed by a rollback (`CloneRollback.StaleKeyIsLost`). The compose block is not rolled back.
- Deleting an instance removes the data files of another one whose prefix extends its own
  (`CloneRollback.FilesMayClash`).
- A clone lands in the cell of its source, not in the cell that was chosen or named: a source in another
  cell splits a project (`Placement.ForeignSourceSplits`), and an explicit cell can be ignored
  (`Placement.ExplicitCellIgnored`).
- Renaming a clone's odoo.conf replaces the source's name wherever it stands first, so it can spoil the
  name of the database: instance `b-b` of a cell `b`, cloned to `b-c`, is given `db-c-b`
  (`CloneContent.DbNameSpoiled`).
- Of several shares in the old format only the last is moved to the list of shares, the others are lost
  (`ComposeShares.OldShareIsMoved`, `ComposeShares.OldSharesAreGone`).
- Adopting an instance without `env` can make two tenants the same environment of a project
  (`Placement.AdoptCanDuplicate`).
- A request whose header block ends between 65538 and 66560 bytes is accepted or rejected depending
  on how the reads split it (`HttpReader.GapDependsOnPieces`).

## Model

| member | source | states |
|---|---|---|
| Block.VirtioBlockDevice.DeviceReset | src/block.rs:139-154 | reset clears queue, registers and pending; ids go on and the ring keeps its completions |
| Block.VirtioBlockDevice.IssueRequest | src/block.rs:238-281 | a request gets the next id and is queued; it is given up only if the submission queue is full and stays full |
| Block.VirtioBlockDevice.ProcessQueue | src/block.rs:159-290 | the whole loop over the available ring, with cap, malformed chains and submissions |
| Block.VirtioBlockDevice.PollCompletions | src/block.rs:294-320 | every completion of a pending id returns its own chain, any other is ignored |
| BlockRuns.ExactlyOnce | src/block.rs:159-320 | in every run each request is in exactly one place, each return is a request's own head and length, none twice, and the requests are the well-formed chains popped, without those popped at the cap |
| BlockRuns.RunInv | src/block.rs:139-320 | the invariant behind it: pending, used ring, outstanding ids and kernel entries agree with the log of requests |
| BlockRuns.ResetRetiresIds | src/block.rs:139-154 | after a reset no earlier id is ever pending or returned again: ids are not reused |
| BlockRuns.StaleCompletionsIgnored | src/block.rs:294-320 | completions of requests from before a reset have no effect |
| BlockRuns.PollDrainsIdleRing | src/block.rs:294-320 | when the ring has nothing left, polling leaves nothing pending |
| BlockRuns.CapUnreachable | src/block.rs:194-201 | with a driver that re-offers only returned heads, pending never exceeds the queue size, so no chain is dropped at the cap |
| BlockRuns.NothingIsLost | src/block.rs:159-320 | across resets, with such a driver and a kernel that takes entries, every well-formed chain is pending or returned, never both and never neither |
| BlockBounds.SmallQueuesLoseNothing | src/block.rs:238-281 | until a reset, a queue of at most 128 never fills the submission queue, whatever the kernel takes |
| BlockBounds.OverloadLosesOne | src/block.rs:264-281 | from a new device, 129 chains on a queue of 256 with a kernel that takes nothing at first: one is lost |
| BlockBounds.LossBound | src/block.rs:159-320 | without resets all disciplined runs of a queue size lose nothing exactly if it is at most 128 |
| BlockRuns.LostForever | src/block.rs:264-281 | a request whose push failed is never returned before a reset |
| BlockRuns.CapIsExact | src/block.rs:194-201 | whatever the driver does, never more than 1024 requests are pending, and a chain is dropped on their account only once there are 1024 |
| BlockProgress.KickSubmits | src/block.rs:284-289 | a kick that accepts a request leaves the submission queue empty and every new id with the kernel, if the kernel takes the queue |
| BlockProgress.EveryChainIsServed | src/block.rs:159-320 | after any run of a disciplined driver a kick, the completions in any order and a poll return every chain that can be served, once, with its own head, length and status, and leave nothing pending |
| BlockProgress.KernelDoesWhatIsAsked | src/block.rs:203-262 | every request does what its own chain says: direction by type, 512 bytes times the sector, at the data descriptor |
| BlockProgress.PollRaisesInterrupt | src/block.rs:294-320 | a poll that returns something raises the interrupt |
| Registry.RegistryStore.ResolveIdScoped | src/registry.rs:164-200 | resolving returns the name's id, or stores and returns the least free one of the scope, or fails |
| Registry.RegistryStore.RegisterExplicitScoped | src/registry.rs:211-249 | an explicit id is stored unless another name of the scope holds it |
| Registry.RegistryStore.RemoveName | src/registry.rs:270-279 | the entry of the normalised name is gone, all others stay, and the reply tells whether there was one |
| Registry.NextFreeIsLeast | src/registry.rs:149-152 | the id handed out is the least of 2..=254 not taken in the scope; none exactly if all are taken |
| Registry.FreeUntilFull | src/registry.rs:149-152 | a scope with fewer than 253 names has a free id (pigeonhole) |
| Registry.ScopesAreDisjoint | src/registry.rs:138-147 | a key starts with "cell/" exactly if it belongs to that cell |
| Registry.ReplayKeepsDistinct | src/registry.rs:164-249 | over any sequence of well-scoped operations the names of a cell hold distinct ids |
| Registry.ResolveLeaves | src/registry.rs:164-200 | after a resolve the name has the id of the reply, the one it had or one free in its scope; it fails exactly for an empty name or a full scope, and nothing else changes |
| Registry.RegisterLeaves | src/registry.rs:211-249 | after a register the name has the id; it fails exactly if another name of the scope has it, and nothing else changes |
| Registry.NormalIs | src/registry.rs:138-147 | a name counts without the white space around it and without the case of its letters |
| Registry.IllScopedResolveBreaks | src/registry.rs:164-200 | any other resolve breaks this for some registry: the condition on names is exact |
| Registry.ResolveIsStable | src/registry.rs:164-200 | a name keeps its id whatever happens to other names |
| Registry.RemoveUndoesResolve | src/registry.rs:270-279 | removing a name takes back what resolving it did |
| RegistryProtocol.Linearizable | src/registry.rs:47-128 | in every interleaving with crashes and failed saves the stored registry is that of a serial run of the committed operations, with their replies |
| RegistryProtocol.MutualExclusion | src/registry.rs:47-87 | at most one process is inside the lock |
| RegistryProtocol.OldOrNew | src/registry.rs:118-128 | a step leaves the stored registry alone or replaces it by the result of one operation; it is never partial |
| RegistryProtocol.RepliesAreCommitted | src/registry.rs:164-249 | a call that returns was committed exactly once since it was made, with its own operation and reply, or not at all if saving failed |
| RegistryProtocol.RunKeepsDistinct | src/registry.rs:47-249 | in every such run names of one cell hold distinct ids |
| RegistryProtocol.SlashFreeRunsKeepDistinct | src/registry.rs:130-152 | so they do if no cell, and no name outside cells, holds a slash |
| RegistryProtocol.AssignmentSurvives | src/registry.rs:164-249 | no completed assignment, by resolve or register, is lost until its name is reassigned or removed |
| RegistryProtocol.UndisturbedCall | src/registry.rs:47-128 | a call that nothing disturbs takes effect, is answered and frees the lock |
| CellLock.CurrentGrantsAreSafe | src/cell.rs:57-110 | the cell registry is right in every run in which each lock is granted on the file the path names |
| CellLock.CreateLeaves | src/cell.rs:112-120 | a new cell gets the least id of 1..=254 no cell has; none exactly if the cell exists or all are taken |
| CellLock.UndisturbedCreate | src/cell.rs:57-120 | a creation that nothing disturbs adds the cell with that id and nothing else |
| CellLock.SerialRunsAreSafe | src/cell.rs:57-120 | so it is right when processes run one after the other |
| CellLock.TwoIsTheBound | src/cell.rs:57-120 | all runs in which at most n processes start keep the registry right exactly if n is at most 2 |
| CellLock.TwoAtATime | src/cell.rs:57-120 | it stays right in every run in which at most two processes start between two quiet moments |
| CellLock.WaiterAndNewcomer | src/cell.rs:57-110 | three processes for which it is not: two are inside, both get one id, and a cell is lost |
| Seccomp.BuildFilter | src/seccomp.rs:95-122 | the program the indexed loop pushes, instruction by instruction, with its 8-bit jump distances |
| Seccomp.JumpsLandOnAllow | src/seccomp.rs:99-111 | every successful comparison jumps to the final RET ALLOW exactly if the list has at most 255 entries |
| Seccomp.FilterDecides | src/seccomp.rs:95-122 | for every list of at most 255 numbers the program terminates and allows exactly the numbers in it |
| Seccomp.ExactBound | src/seccomp.rs:95-122 | the generator is right for all lists of length n exactly if n is at most 255 |
| Console.VirtioConsoleDevice.InjectToReceiveq | src/console.rs:99-162 | one injection into the hand-written ring, or nothing |
| Console.VirtioConsoleDevice.TryInjectData | src/console.rs:87-95 | a message is injected or replaces the one that waits |
| Console.VirtioConsoleDevice.PollPendingData | src/console.rs:74-84 | a waiting message is injected once it can be |
| Console.WrappedSlotExact | src/console.rs:124-129 | a wrapping 16-bit cursor picks the slot of the full count exactly for sizes that divide 65536 |
| ConsoleMemory.InjectWrites | src/console.rs:99-162 | an injection writes the longest prefix of the message that fits into the buffer of the next offer, the used element has its length, and no other buffer changes |
| ConsoleMemory.DeliveredOrWaiting | src/console.rs:74-95 | a message is injected exactly if it can be, and otherwise waits for a poll |
| ConsoleMemory.MessagesStandInMemory | src/console.rs:99-162 | in every run each message still stands in the guest's memory, with its length in the used ring, until its buffer or slot is used again |
| ConsoleMemory.FreshMemory | src/console.rs:99-162 | in particular from a fresh device |
| ConsoleRuns.InjectionsFollowOffers | src/console.rs:99-162 | in every run, over any number of wraps and across resets at cursor 0, the k-th injection takes the k-th offer, publishes it at slot k mod size, and never passes the guest's index |
| ConsoleRuns.RunInv | src/console.rs:99-162 | both cursors advance together modulo 65536 and offers not yet consumed stay in their slots |
| ConsoleRuns.MessagesConserved | src/console.rs:74-95 | every message was injected once, waits, or was replaced while waiting |
| Console.VirtioConsoleDevice.DriverReset | src/vmm.rs:2953-2960 | a reset clears readiness; cursor, waiting message and addresses stay |
| ConsoleRuns.ServesAfterReset | src/vmm.rs:2953-2960 | after a reset every driver that keeps to its ring is served exactly if the cursor was 0 |
| ConsoleRuns.ResetCanMislead | src/vmm.rs:2953-2960 | from a fresh device, a first driver and then a second one that is not served |
| Balloon.VirtioBalloonDevice.ProcessInflateQueue | src/balloon.rs:255-322 | the nested loops over chains, descriptors and page numbers, and the cap that stops them |
| Balloon.VirtioBalloonDevice.ProcessDeflateQueue | src/balloon.rs:327-372 | the same for pages taken out |
| BalloonRuns.InflateQueueGrows | src/balloon.rs:255-322 | pages that entered were named by a popped chain, the host was advised once for each and for no other, every popped chain is returned, also when the cap stops the loops |
| BalloonRuns.QueuePagesAre | src/balloon.rs:255-372 | the pages of a batch: 4096 times each 32-bit word that fits the length and 64 KiB of a descriptor of a chain whose head is below 256 |
| BalloonRuns.InflateReports | src/balloon.rs:255-322 | each popped chain is returned with the bytes of its descriptors; only the one at which the cap was reached may report less |
| BalloonRuns.DeflateReports | src/balloon.rs:327-372 | each chain is popped and returned with the bytes of its descriptors |
| BalloonRuns.KicksReport | src/balloon.rs:255-372 | a kick on a ready queue with chains reports the pages held and raises the interrupt |
| BalloonRuns.DeflateQueueShrinks | src/balloon.rs:327-372 | exactly the named pages leave, and every chain is returned |
| BalloonRuns.BalloonBounded | src/balloon.rs:134-144 | for every guest and run the pages never exceed the memory, the reported count is the size of the set, and popped chains are returned once and in order |
| BalloonRuns.DeflateUndoesInflate | src/balloon.rs:255-372 | deflating the chains of a batch below the cap undoes inflating them |
| NetTx.VirtioNetDevice.SendChain | src/net.rs:286-341 | a chain's bytes after the header go to the ring or synchronously to the TAP |
| NetTx.VirtioNetDevice.ProcessTxQueue | src/net.rs:270-364 | the whole transmit loop with submission, completions and returned chains |
| NetTx.VirtioNetDevice.DeviceReset | src/net.rs:245-266 | reset clears the queue; ring, buffers and ids stay |
| NetTxRuns.BufferLivesUntilCompletion | src/net.rs:296-352 | in every run, across resets, the buffer behind an outstanding id is held, with the bytes its entry points at, until its own completion |
| NetTx.VirtioNetDevice.ActivateQueue | src/net.rs:230-240 | the queue becomes ready with the size that was set, if it is a power of two up to 256 |
| NetTxRuns.PacketsConserved | src/net.rs:270-364 | with a TAP each packet longer than its header was written once, or is queued or with the kernel with its bytes; packets are those of the popped chains, each returned once |
| NetTxRuns.OrderIsExact | src/net.rs:321-346 | with a kernel that completes older entries first, packets are written in order exactly if no batch overflows the submission queue |
| NetTxRuns.Overtaking | src/net.rs:321-346 | a batch of 65 packets whose last one overtakes the others |
| NetTxRuns.FreshDevice | src/net.rs:68-80 | conservation and the life of buffers hold of every run of a new device |
| NetTxFrames.FramesOnTheWire | src/net.rs:286-341 | in every run each write to the TAP, and each buffer the kernel will write, is what follows the first 12 bytes of the descriptors of its own chain; chains of 12 bytes or less send nothing |
| NetTxFrames.EveryFrameIsWritten | src/net.rs:270-364 | a transmission the kernel takes and its completions in any order write the frame of every chain that has one, once |
| NetTxFrames.TransmitHandsOver | src/net.rs:270-364 | it pops every chain, leaves nothing in the submission queue, and raises the interrupt if it returned chains |
| NetTxFrames.LengthsAreReported | src/net.rs:286-364 | in every run the used ring lists the popped chains in order with the bytes of their descriptors |
| LogReaders.ReadTailLines | src/api.rs:2582-2620 | reading chunks backwards and stopping on the newline count gives the last lines of the last max_bytes bytes, as splitting them at once does |
| LogReaders.TailIs | src/api.rs:2582-2620 | those are, of the last max_bytes bytes cut at each newline (10, with or without 13), the last max_lines |
| LogReaders.EarlyStop | src/api.rs:2601-2619 | bytes in front of a buffer with enough newlines do not change its last lines |
| LogReaders.ReadForwardLines | src/api.rs:2212-2266 | a page is the first complete lines of the bytes read, and the next offset is just after them |
| LogReaders.PagesAreExact | src/api.rs:2138-2266 | paging a growing log with any page sizes and short reads gives every line once, in order, each offset just after a newline |
| LogReaders.Progress | src/api.rs:2212-2266 | a page advances exactly if the bytes read hold a newline and a line is asked for |
| LogReaders.CatchesUp | src/api.rs:2212-2266 | a page that reads to the end leaves no complete line behind exactly if it asks for as many lines as there are |
| HttpReader.ReadRequest | src/api_http.rs:142-187 | the two reading loops on a stream give the outcome of its read sizes |
| HttpReader.OnlyTheBytesMatter | src/api_http.rs:142-187 | if the header block ends within 65537 bytes the result depends on the bytes only: headers, body of min(Content-Length, available), rejected exactly past 1 MiB |
| HttpReader.TooLong | src/api_http.rs:146-159 | a header block that ends past 66560 bytes or never is rejected |
| HttpReader.GapDependsOnPieces | src/api_http.rs:146-159 | in between the same bytes are accepted or rejected depending on the pieces |
| HttpLength.RequestIsRead | src/api_http.rs:142-187 | a request that announces the length of its body in decimal digits, up to 1 MiB, is read as it was sent, in whatever pieces and whatever follows; one that announces more is rejected |
| HttpLength.NoLengthNoBody | src/api_http.rs:165-175 | without such a line the body is empty |
| HttpLength.FirstLengthLine | src/api_http.rs:165-175 | the first line named Content-Length, in any case and with white space around the name, decides |
| HttpLength.ParsedNumber | src/api_http.rs:165-175 | a value is a length exactly if it is decimal digits, after an optional plus sign, whose number fits 64 bits |
| Conf.ParseConfValueInSection | src/api.rs:4181-4208 | the reading loop, with its section flag |
| ConfReader.ReadFinds | src/api.rs:4181-4208 | the reader gives the value of the first line between the header of the section and the next one that assigns to the key; nothing exactly if there is none |
| Conf.ConfFile.UpsertKey | src/cell.rs:2210-2256 | the editing loops, in place on the lines |
| Conf.ConfFile.Patch | src/cell.rs:2271-2286 | the upserts of a patch one after the other |
| ConfRoundTrip.ReadsBack | src/cell.rs:2210-2256 | every good value reads back exactly if no stray line stands before the line that is replaced |
| ConfRoundTrip.StrayHidesValue | src/api.rs:4189-4199 | a file in which an upserted value does not read back |
| ConfRoundTrip.UpsertTwice | src/cell.rs:2210-2256 | upserting the same again changes nothing |
| ConfRoundTrip.OtherSectionsUntouched | src/cell.rs:2216-2255 | lines outside the range of [options] are kept |
| ConfRoundTrip.OtherLookupsUnchanged | src/api.rs:4181-4208 | every other key and every other section reads as before |
| ConfRoundTrip.PatchReadsBack | src/cell.rs:2271-2286 | a patch of distinct keys reads back key by key |
| ConfText.PatchedTextReadsBack | src/cell.rs:2271-2286 | so does the text that is written, once it is split into lines again, whatever the line ends of the old text |
| Lines.LinesOfJoined | src/cell.rs:2284-2284 | joining lines and splitting the text again gives the lines without a carriage return at their end: the same lines exactly if none ends in one |
| Compose.LocateBlock | src/cell.rs:2618-2661 | the loops that find the name, go back to the header and forward to the end of the block |
| Compose.RemoveComposeBlock | src/cell.rs:2613-2673 | the file without the located block |
| Compose.LocateMeans | src/cell.rs:2618-2661 | the block begins with the last header before the first line with the name and ends where the next header or section begins; there is none exactly if there is no such line or no header before it |
| Compose.SetComposeBlockDisabled | src/cell.rs:2527-2611 | the new lines and whether anything changed |
| ComposeEdits.RemoveKeepsOthers | src/cell.rs:2613-2673 | exactly the block's lines are gone, and every block that stands apart is found where it was, moved up |
| Compose.PatchComposeBlockResources | src/cell.rs:2291-2392 | the new lines after patching ram, chrs and balloon_mb |
| ComposeEdits.FlipFrame | src/cell.rs:2570-2600 | flipping changes no line outside the block, and every name is located where it was, moved by the inserted line |
| ComposeEdits.FlipTwice | src/cell.rs:2570-2610 | afterwards the block says what was asked, and a second flip reports no change |
| ComposeEdits.FlipDestroysItsHeader | src/cell.rs:2573-2586 | the header survives a flip exactly if the service is not called "disabled" |
| ComposeValues.FlipReads | src/cell.rs:2570-2600 | afterwards every flag of the block reads as asked, and there is one if the service is to be disabled |
| ComposeValues.FlipKeepsPlace | src/cell.rs:2570-2600 | a flag that is set keeps its line and its indentation |
| ComposeValues.FlipKeepsLines | src/cell.rs:2570-2600 | every other line stays, moved by one behind an inserted flag |
| ComposeEdits.LocateByInserted | src/cell.rs:2618-2661 | inserting lines without a role moves blocks and nothing else |
| ComposePatch.PatchRangeSpec | src/cell.rs:2346-2370 | the loop rewrites exactly the first line of each requested key |
| ComposePatch.PatchFrame | src/cell.rs:2340-2388 | no line outside the block changes, and every name is located where it was, moved by the inserted lines |
| ComposePatch.PatchTwice | src/cell.rs:2340-2388 | every requested key then stands with its value, and patching again changes nothing |
| ComposeValues.PatchReads | src/cell.rs:2340-2388 | each resource asked for then reads as asked at the first line of the block that has its key |
| ComposeValues.WithValueKeeps | src/cell.rs:2355-2370 | a line with a new value keeps its indentation and its comment |
| ComposeClone.CopyLoop | src/cell.rs:868-1034 | the copying loop with its flags and rules |
| ComposeClone.AppendComposeBlock | src/cell.rs:751-1152 | the whole clone of a block at the end of the file |
| ComposeNames.RenamedName | src/cell.rs:874-882 | renaming a name line of the source gives a name line of the clone |
| ComposeContent.BlockSays | src/cell.rs:868-950 | wherever the new block sets the id it reads as that of the clone; so do the resources asked for, the disabled flag and the warm-up flag |
| ComposeLines.RenamedMeans | src/cell.rs:872-882 | an id line gets the new id and keeps its comment; any other is cut at the old name and joined with the new one |
| ComposeLines.LinesAreKept | src/cell.rs:868-1034 | all other lines of the source stand in the new block, in order, under the new name |
| ComposeLines.BlockHas | src/cell.rs:1035-1083 | there is a line for each resource asked for, for the warm-up flag, for a balloon of 128 by default, and for an idle target that differs from the active one, with its decay |
| ComposeCounts.SetAsOften | src/cell.rs:868-1083 | every key is set as often as in the source; a resource asked for, a balloon and the warm-up flag once if it was not set, and the idle target once more exactly if it differs from the active one |
| ComposeCounts.BalloonByDefault | src/cell.rs:1051-1059 | a clone of a source without a balloon gets one of 128 if none was asked for |
| ComposeCounts.HeaderIsShort | src/cell.rs:826-871 | the file is followed by a blank line and a header with the name of the clone without that of its cell |
| ComposeCounts.ValueIsReplaced | src/cell.rs:884-922 | a line of the source that sets a resource asked for keeps its indentation and its comment |
| ComposeCounts.FlagIsReplaced | src/cell.rs:923-943 | a line that sets a flag keeps its indentation |
| ComposeWaits.WaitsAreShort | src/cell.rs:983-1007 | in every healthcheck of the new block the waiting times are 3, 1 and 30 |
| ComposeShares.OldSharesAreGone | src/cell.rs:1008-1025 | no share in the old format is left |
| ComposeShares.OldShareIsMoved | src/cell.rs:1094-1112 | the last one stands with the mode rw in the first list of shares |
| ComposeShares.EnterpriseIsLeftOut | src/cell.rs:1026-1033 | a community clone has no share of the enterprise directory |
| ComposeLines.SystemoutsShared | src/cell.rs:1114-1142 | the share of the cell's own addons is in the block, read-only under a list of shares if the clone added it |
| ComposeShares.OwnShareOnce | src/cell.rs:1114-1142 | it is not added if the source has one |
| ComposeNames.RenamedShape | src/cell.rs:874-882 | renaming makes no line a header or a section |
| ComposeNames.NamePartsOf | src/cell.rs:787-790 | every line that is read as a name has the parts key, quotes and name |
| ComposeRoundTrip.RemoveUndoesAppend | src/cell.rs:751-1152 | the original lines are kept in front, and removing the clone gives them back with one blank line, exactly if its header was kept |
| ComposeRoundTrip.HeaderIsLost | src/cell.rs:924-943 | a clone that cannot be removed |
| ComposeRoundTrip.AppendKeepsOthers | src/cell.rs:1144-1151 | every other instance is located as before |
| ComposeEnv.InjectedOnce | src/cell.rs:849-982 | how often an injected variable is set in the new block: once for each environment section, at least once, and once for each line of the source copied outside of one; exactly once if there is at most one section and no such line, and only then |
| ComposeEnv.BlankLineKeepsOld | src/cell.rs:968-982 | a block with a blank line in its environment section, whose own line for the variable is kept after the injected one |
| ComposeSections.VariablesStand | src/cell.rs:944-982 | under every environment line of the new block all injected variables stand with their values, indented by two more; there is such a line if there are any |
| ComposeLines.VariablesAreGiven | src/cell.rs:944-1093 | every injected variable is given its value |
| CloneRollback.FilestoreRenamedOnce | src/cell.rs:1504-1520 | in particular for the two variables that rename the filestore |
| CloneInstance.CloneScratch.Drop | src/cell.rs:1239-1289 | the rollback of what was made, or nothing after a commit |
| CloneInstance.CloneInstanceWithOpts | src/cell.rs:1291-1559 | all steps, with a failure at any of them |
| CloneInstance.CloneNkrDataFiles | src/cell.rs:3006-3067 | the copying of data files in the order they are listed, stopped anywhere |
| CloneContent.CloneMakes | src/cell.rs:1291-1559 | a clone has the metadata asked for, the source's configuration cut at the old name and joined with the new, the id of the registry, the source's database and its block; every other directory, database and entry is as it was |
| CloneContent.CloneSucceeds | src/cell.rs:1291-1559 | without faults a clone is made exactly if the names differ, the source is there and the destination is not, fewer than 21 tenants are in the cell, the registry has an id, the database can be created and the source has a block |
| CloneContent.RefusalsChangeNothing | src/cell.rs:1291-1340 | a refused clone changes nothing |
| CloneContent.BlockOfClone | src/cell.rs:1504-1545 | the file ends with a block that says the registry's id, renames the filestore from the source's database to the clone's, and has the resources and the flag asked for |
| CloneContent.ConfForgetsSource | src/cell.rs:657-668 | the clone's configuration holds the source's name nowhere, if the new name cannot bring it back |
| CloneContent.ConfReads | src/cell.rs:657-668 | every key of it reads as in the source, renamed; a db_name of the source becomes that of the clone if the source's name stands in it only at the end |
| CloneContent.DbNameSpoiled | src/cell.rs:657-668 | otherwise it may become another |
| CloneContent.FilesCopied | src/cell.rs:3006-3067 | every data file of the source stands under the clone's prefix with its content, and there is nothing else new, if nothing stopped the copying and nothing stood there |
| Renaming.OldNameIsGone | src/cell.rs:657-668 | after a renaming the old name is nowhere, if the new one cannot bring it back |
| Renaming.ReadRenamed | src/cell.rs:657-668 | a renamed configuration gives every key of every section its old value, renamed |
| CloneInstance.DeleteInstance | src/cell.rs:2401-2483 | everything a deletion removes |
| CloneRollback.RollbackIsExact | src/cell.rs:1355-1558 | a failing clone gives back the world as it was exactly if key and prefix were unused, a failed copy or database call left nothing, the database could be dropped and the compose block was not written |
| CloneRollback.RollbackFromTheStart | src/cell.rs:1355-1558 | whether every failure without half-done steps is undone can be told before the call: no key is given out, or key and prefix are unused and no compose block is written |
| CloneRollback.RollbackBeforeMetadata | src/cell.rs:1355-1530 | for failures before the last step it is enough that key and prefix are unused |
| CloneRollback.StaleKeyIsLost | src/cell.rs:1355-1365 | a rollback that removes a registry entry the clone did not make |
| CloneRollback.DeleteUndoesClone | src/cell.rs:2401-2483 | deleting a clone with its database gives back the world and one blank line exactly if nothing stood under the name and the header was kept |
| CloneRollback.DeleteUndoesBareClone | src/cell.rs:2401-2483 | without the compose step deletion gives back the world exactly if nothing stood under the name |
| CloneRollback.DataRestored | src/cell.rs:1473-1492 | removing the files with the clone's prefix restores the data exactly if there were none before |
| CloneRollback.DeleteFrame | src/cell.rs:2401-2483 | deletion keeps directory and database of every other instance, its registry entry exactly if the names differ in more than case, and its data files exactly if none has the deleted prefix |
| CloneRollback.FilesMayClash | src/cell.rs:2444-2463 | deletion can take a file of another instance exactly if one prefix extends the other |
| Placement.NewProjectPlacement | src/cell.rs:2910-2946 | a new project goes to the one cell that is least by projects, RAM and id among the matching cells below the limit; it finds none exactly if there is none; without a source of its own it is created there |
| Placement.CreateUnique | src/api.rs:858-876 | creating keeps (project, env) unique exactly if the check was not bypassed for a taken label |
| Placement.CreateMeans | src/api.rs:834-1275 | all a successful create has checked and made: name, labels, tier, the source named or else the community or enterprise template of the chosen cell, version and room where it lands, and the rules on sources and staging |
| Placement.TemplateCreateSucceeds | src/api.rs:834-1275 | a create without a source succeeds if a cell is chosen that can receive it and has the template, and name and label are free |
| Placement.SourcedCreateSucceeds | src/api.rs:834-1275 | a create with a source succeeds if source and cells can receive it, and name and label are free |
| Placement.OldRequestPlacement | src/cell.rs:2815-2866 | a request without project, environment and parent goes to the matching cell with room and the least RAM; it finds none exactly if there is none |
| Placement.ProjectsAre | src/cell.rs:2731-2755 | the projects of a cell are those of its instances that are no templates, and each such instance without one |
| Placement.AdoptUnique | src/api.rs:562-683 | adopting keeps it unique exactly if env is given or the old environment is free in the new project |
| Placement.AdoptMeans | src/api.rs:562-683 | adopting sets the project, and the environment if given, and nothing else; it is refused exactly for an unknown environment or instance, a project in another cell, or an environment taken by another instance |
| Placement.AdoptCanDuplicate | src/api.rs:607-623 | an adoption without env after which it is not unique |
| Placement.CreateWithinCapacity | src/cell.rs:1325-1332 | no cell ever holds more than 21 tenants: the cell the clone lands in is counted |
| Placement.CreateTogether | src/api.rs:834-1275 | creating keeps a project in one cell exactly if the cell of the named source is the project's, or without a source the named cell |
| Placement.AutoFits | src/api.rs:1072-1082 | the cell chosen without a named cell or parent is the project's |
| Placement.ForeignSourceSplits | src/cell.rs:1301-1303 | a source in another cell takes the clone out of the chosen cell and splits the project |
| Placement.ExplicitCellIgnored | src/api.rs:834-842 | a parent elsewhere overrides the explicit cell |
| Placement.AdoptKeepsTogether | src/api.rs:584-606 | adopting keeps projects in one cell |
| Placement.RunsKeepRules | src/api.rs:562-1275 | over every run of disciplined requests one after the other all three rules hold |
| Placement.RunsFromTemplates | src/api.rs:562-1275 | in particular from an installation with templates only |

## Left out

- KVM, MMIO dispatch, the virtio-queue crate and io_uring itself: a queue is its offers, cursor and used ring; io_uring is its submission queue, the ids in the kernel and the completions in any order.
- Unreadable ring memory, guest buffers that overlap the rings, queue_num 0 on the console, and the receive thread of the network device.
- Disabling a queue, activation of one that is in use, and the stats queue of the balloon.
- The synchronous block path without io_uring (src/block.rs:323-405), and wrap-around of the 64-bit request counter.
- BalloonRuns.BalloonBounded: needs a ram_mb below 2^24, as for larger ones the count does not fit its 32 bits.
- ConsoleMemory.MessagesStandInMemory: is about buffers that do not overlap; a later message may reuse a buffer.
- ComposeContent.BlockSays: injected variables have names other than the key, and for the id neither the service is called id nor is the new name a part of that word.
- ComposeCounts.SetAsOften: counts a key whose value the clone decides, or any key of a clone with the enterprise share; without it, lines that mention the share are dropped.
- ComposeWaits.WaitsAreShort: needs shares that are moved or left out to be indented by more than four, as list items of a service are.
- CloneContent.ConfReads: names that hold a dash, as those of instances do, and keys and sections without one.
- CloneContent.FilesCopied: is about a listing of all files and a prefix under which nothing stands; what happens otherwise is in CloneRollback.DataRestored.
- NetTxRuns.PacketsConserved: assumes that writes to the TAP succeed; without a TAP nothing is sent.
- Degraded modes without a lock (src/registry.rs:64-76), and the shared temporary file of the cell registry: saving it is one step there.
- JSON, YAML and UTF-8 decoding: registries are maps, configuration files are lines of characters, logs are bytes.
- Unicode lower case: `Text.Lower` maps ASCII letters; white space other than ASCII in HTTP header names and values is not trimmed.
- Rotation and appearance of log files between two pages, and I/O errors of the readers.
- Indentation is counted in characters, in the source in bytes; they differ only for white space outside ASCII.
- ComposeRoundTrip.RemoveUndoesAppend: is stated on lines; it needs block lines indented with spaces, a source name that does not start with a dash and is not part of the word nkr_name, and its name line inside its block.
- ComposeEnv.InjectedOnce: is about keys that are names and that the editor does not write itself.
- Backups of the compose file, and writes that fail halfway: a text file is written or not.
- CloneRollback.RollbackIsExact: assumes that no directory has the prefix of the clone in .nkr-data and that removing files and saving the registry succeed during the rollback.
- CloneRollback.RollbackFromTheStart: rests on the same assumptions; failures that leave half a step behind, or with PostgreSQL down, are in RollbackIsExact.
- Attributes of cloned disks, the shared master image, the second rewriting of odoo.conf, logs and the initramfs of an instance, and stopping its VM: they live in the instance directory or outside the modelled state.
- Validation of names, passwords and resources and the check of the enterprise repository in `handle_create`: they only refuse. Instance names are taken to be unique across cells, and how templates come about is not modelled.
- Creates that run at the same time: the in-flight guards of the API are not modelled.
- IPC frames, forms for backups, metrics, the watchdog, builds and pulls: they would add only easy members.
